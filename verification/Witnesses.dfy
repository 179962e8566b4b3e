/** Inputs at which a promise meets its limit: runs, graphs, state files, and histories of edits, builds and claims. */
module Witnesses {
  import opened Wrappers
  import opened HashInput
  import opened Graphs
  import opened Tables
  import opened BlobStore
  import opened Steps
  import opened Runs
  import opened TextStream
  import opened StateFile
  import opened StateLimits
  import opened StatePads
  import opened StateGaps
  import Lines
  import Reuse
  import Submission
  import WakeUp

  // ---- a success delivered before and after its output

  function Name(c: char): (h: string)
    requires IsDigit(c)
    ensures ValidHash(h) && h[0] == c
  {
    seq(64, _ => c)
  }

  function Cfg(): Config { Config(_ => Name('0'), 3, 60) }

  /** A single archive of nothing. */
  function Lone(): BuildSpec { BuildSpec("t", [TaskSpec(0, Archive, "lib.a", [], "", "", ["x"], 1)], 1) }

  function LoneRow(state: TaskState, attempts: nat, owner: Option<string>, leaseUntil: int, output: string,
                   failedBy: Option<string>, readyAt: int): Task
  {
    Task(state, 0, attempts, owner, leaseUntil, Name('0'), None, None, output, failedBy, readyAt, 0, 0)
  }

  function LoneStore(row: Task, state: BuildState, cache: map<string, string>, blobs: Blobs): Store {
    Store([Build(Lone(), state, [row])], cache, blobs)
  }

  function Report(): TaskResult { TaskResult(0, 0, 1, "w", true, false, Name('0')) }

  function FreshLone(): Task { LoneRow(Ready, 0, None, 0, "", None, 0) }

  function LeasedLone(): Task { LoneRow(Running, 1, Some("w"), 60, "", None, 0) }

  function RequeuedLone(): Task { LoneRow(Ready, 1, None, 60, "", Some("w"), 1) }

  function FinishedLone(): Task { LoneRow(Done, 1, Some("w"), 60, Name('0'), Some("w"), 1) }

  function Deliveries(): Run {
    Run(
      [Submit(Lone(), [0], [0], Accepted(0)),
       Claim("w", "t", 0, 0, Some(AssignmentOf(LoneStore(LeasedLone(), InProgress, map[], map[]), 0, 0))),
       Complete(Report(), 1, true),
       Upload([Blob("", "data")], true),
       Complete(Report(), 2, true)],
      [EMPTY,
       LoneStore(FreshLone(), InProgress, map[], map[]),
       LoneStore(LeasedLone(), InProgress, map[], map[]),
       LoneStore(RequeuedLone(), InProgress, map[], map[]),
       LoneStore(RequeuedLone(), InProgress, map[], map[Name('0') := "data"]),
       LoneStore(FinishedLone(), Succeeded, map[Name('0') := Name('0')], map[Name('0') := "data"])])
  }

  lemma LoneIsAdmitted()
    ensures Admissible(Lone()) && DepsKnown(Lone())
  {
    var r: seq<nat> := [0];
    assert IsRanking(GraphOf(Lone()), r);
  }

  lemma LoneIsFresh()
    ensures DepsKnown(Lone()) && IsFresh(Cfg(), map[], Lone(), [0], [0], [FreshLone()], 0)
  {
    LoneIsAdmitted();
    assert OpenDeps(Lone(), [FreshLone()], 0) == {};
    assert DepOutputs(Lone(), [FreshLone()], 0) == [] && DepNames(Lone(), 0) == [];
  }

  lemma LoneIsSubmitted()
    ensures StepAt(Cfg(), Deliveries(), 0)
  {
    hide IsFresh, Name;
    LoneIsAdmitted();
    LoneIsFresh();
    assert Verdict([FreshLone()]) == InProgress;
  }

  lemma LoneIsClaimed()
    ensures StepAt(Cfg(), Deliveries(), 1)
  {
    hide Name, Lines.Join, Lines.Split;
    var s := Deliveries().stores[1];
    assert forall b, i :: IsTask(s, b, i) ==> b == 0 && i == 0;
    assert EligibleIn(s, "w", "t", 0, 0, 0, 0);
    assert [FreshLone()][0 := LeasedLone()] == [LeasedLone()];
  }

  lemma LoneIsRequeued()
    ensures StepAt(Cfg(), Deliveries(), 2)
  {
    assert [LeasedLone()][0 := RequeuedLone()] == [RequeuedLone()];
  }

  lemma OutputArrives()
    ensures StepAt(Cfg(), Deliveries(), 3)
  {
    assert [Blob("", "data")][1..] == [];
  }

  lemma LoneCascades()
    ensures Cascaded(Cfg().hash, map[Name('0') := Name('0')], Lone(), [FinishedLone()], [FinishedLone()])
  {
    hide Name;
    LoneIsAdmitted();
    assert CascadedRow(Cfg().hash, map[Name('0') := Name('0')], Lone(), FinishedLone(), [FinishedLone()], 0);
  }

  lemma LoneIsDone()
    ensures StepAt(Cfg(), Deliveries(), 4)
  {
    hide Cascaded, Name;
    LoneCascades();
    assert [RequeuedLone()][0 := FinishedLone()] == [FinishedLone()];
  }

  lemma DeliveriesAreCalm()
    ensures CalmUpTo(Cfg(), Deliveries(), 5)
  {
    hide Name, AssignmentOf, AtOnce, DepsAtOnce, DepsKnown, Acyclic, LoneStore;
    forall k | 0 <= k < 5 ensures CalmStep(Cfg(), Deliveries().stores[k], Deliveries().events[k]) {
      if Deliveries().events[k].Submit? {
        assert Deliveries().events[k].spec == Lone();
      }
    }
  }

  /**
    The same success is accepted twice: first as a transient failure, as its output is missing, then for what it says.
   */
  lemma SecondDeliveryIsAccepted()
    ensures IsCalmRun(Cfg(), Deliveries())
    ensures Deliveries().events[2] == Complete(Report(), 1, true)
            && Deliveries().events[4] == Complete(Report(), 2, true)
  {
    hide Next, CalmStep, Name;
    LoneIsSubmitted();
    LoneIsClaimed();
    LoneIsRequeued();
    OutputArrives();
    LoneIsDone();
    forall k | 0 <= k < 5 ensures StepAt(Cfg(), Deliveries(), k) {
      assert k == 0 || k == 1 || k == 2 || k == 3 || k == 4;
    }
    DeliveriesAreCalm();
  }

  // ---- a claimer that sleeps beside a task, as what held it aborted

  function Entered(): Store { LoneStore(FreshLone(), InProgress, map[], map[]) }

  function Waiting(phase: WakeUp.Phase, s: Store, generation: nat, owing: nat,
                   held: map<(int, int), WakeUp.Holder>): WakeUp.World
  {
    WakeUp.World(s, generation, owing, held, [WakeUp.Claimer("w", "t", phase)])
  }

  /** The submission, and a query that passes over its only task, as a completion holds it, which then aborts. */
  function Unheard(): WakeUp.Run {
    var held := map[(0, 0) := WakeUp.Completion];
    WakeUp.Run(
      [Waiting(WakeUp.Starting, EMPTY, 0, 0, map[]),
       Waiting(WakeUp.Starting, Entered(), 0, 1, map[]),
       Waiting(WakeUp.Starting, Entered(), 1, 0, map[]),
       Waiting(WakeUp.Starting, Entered(), 1, 0, held),
       Waiting(WakeUp.Looking(1), Entered(), 1, 0, held),
       Waiting(WakeUp.Missed(1, 9, {(0, 0)}, {}), Entered(), 1, 0, held),
       Waiting(WakeUp.Asleep(1, 9, {(0, 0)}, {}), Entered(), 1, 0, held),
       Waiting(WakeUp.Asleep(1, 9, {(0, 0)}, {(0, 0)}), Entered(), 1, 0, map[])],
      [WakeUp.Commit(Submit(Lone(), [0], [0], Accepted(0)), {}),
       WakeUp.Bump,
       WakeUp.Hold(0, 0, WakeUp.Completion),
       WakeUp.ReadGeneration(0),
       WakeUp.Query(0, 0, 9, None),
       WakeUp.StartWaiting(0),
       WakeUp.Abort({(0, 0)})])
  }

  lemma UnheardStarts()
    ensures WakeUp.ActsAt(Cfg(), Unheard(), 0)
  {
    hide Next, LoneStore;
    LoneIsSubmitted();
    assert StepAt(Cfg(), Deliveries(), 0);
    assert Unheard().worlds[0].held - {} == map[];
  }

  lemma UnheardSkips()
    ensures WakeUp.ActsAt(Cfg(), Unheard(), 4)
  {
    hide Name;
    var w := Unheard().worlds[4];
    assert WakeUp.SkippedBy(w, 0) == {(0, 0)};
    assert forall b, i :: IsTask(w.store, b, i) ==> b == 0 && i == 0;
  }

  lemma UnheardAborts()
    ensures WakeUp.ActsAt(Cfg(), Unheard(), 6)
  {
    var w := Unheard().worlds[6];
    assert w.held - {(0, 0)} == map[];
    assert {} + {(0, 0)} * {(0, 0)} == {(0, 0)};
  }

  /** Nothing is owed, the generation is current, nobody holds the task, and the claimer sleeps on. */
  lemma AbortIsNotHeard()
    ensures WakeUp.IsRun(Cfg(), Unheard())
    ensures var w := Unheard().worlds[7];
            && w.claimers[0].phase.Asleep? && w.claimers[0].phase.seen == w.generation && w.owing == 0
              && w.held == map[]
            && Eligible(w.store, "w", "t", 9, 0, 0)
  {
    hide Next, WakeUp.SkipStep, Name;
    UnheardStarts();
    UnheardSkips();
    UnheardAborts();
    forall k | 0 <= k < 7 ensures WakeUp.ActsAt(Cfg(), Unheard(), k) {
      assert k == 0 || k == 1 || k == 2 || k == 3 || k == 4 || k == 5 || k == 6;
    }
  }

  // ---- a compile that is cached and still counts

  /** Two compiles, of which the second waits for the first and is in the cache. */
  function Chained(): BuildSpec {
    BuildSpec(
      "t",
      [TaskSpec(0, Compile, "a", [], Name('1'), Name('0'), [], 1),
       TaskSpec(1, Compile, "b", [0], Name('0'), Name('0'), [], 1)],
      1)
  }

  function ChainedRows(): seq<Task> {
    [Task(Ready, 0, 0, None, 0, Name('1'), Some(Name('0')), Some("in.i"), "", None, 0, 2, 0),
     Task(Cached, 1, 0, None, 0, Name('0'), Some(Name('0')), Some("in.i"), Name('0'), None, 0, 1, 0)]
  }

  lemma ChainedIsAcyclic()
    ensures WellFormed(GraphOf(Chained())) && Acyclic(GraphOf(Chained())) && CompilesAreKeyed(Chained())
  {
    var r: seq<nat> := [0, 1];
    assert IsRanking(GraphOf(Chained()), r);
  }

  lemma ChainedRowIsFresh(i: nat)
    requires i < 2 && DepsKnown(Chained())
    ensures IsFresh(Cfg(), map[Name('0') := Name('0')], Chained(), [2, 1], [0, 0], ChainedRows(), i)
  {
    hide ActionKey, Lines.FlatName;
    assert OpenDeps(Chained(), ChainedRows(), i) == if i == 0 then {} else {0};
  }

  /** The second row is cached, and still counts one unfinished dependency. */
  lemma CachedCompileStillCounts()
    ensures WellFormed(GraphOf(Chained())) && Acyclic(GraphOf(Chained())) && CompilesAreKeyed(Chained())
    ensures FreshRows(Cfg(), map[Name('0') := Name('0')], Chained(), [2, 1], [0, 0], ChainedRows())
    ensures !ChainedRows()[1].state.Waiting? && ChainedRows()[1].pending > 0
    ensures SomePremature(Cfg(), map[Name('0') := Name('0')], Chained())
  {
    hide IsFresh, Name;
    ChainedIsAcyclic();
    ChainedRowIsFresh(0);
    ChainedRowIsFresh(1);
    Submission.OnlyCachedCompilesMiscount(Cfg(), map[Name('0') := Name('0')], Chained(), [2, 1], [0, 0],
        ChainedRows(), 1);
  }

  /**
    Once that dependency has an output, the cached row is made ready as if it were an archive, and queued under another
    key.
   */
  lemma CachedCompileIsReopened()
    ensures var after := [ChainedRows()[0].(state := Done, output := Name('3')), ChainedRows()[1]];
            && DepsKnown(Chained()) && OpenDeps(Chained(), after, 1) == {} && after[1].state.Cached?
            && var row := MadeReady(_ => Name('2'), map[Name('0') := Name('0')], Chained(), 1, after[1],
                                    DepOutputs(Chained(), after, 1));
               row.state.Ready? && row.key != after[1].key
  {
    hide Name;
    ChainedIsAcyclic();
    assert Name('2')[0] == '2';
  }

  // ---- units that do not come back, and one that just does

  lemma GapInSourceIsLost()
    ensures var u := Unit("src/my file.c", "k", "d", 1, [], "");
            Load(Some(Save("c", [u])), "c") != Remembered([u], map[])
  {
    var u := Unit("src/my file.c", "k", "d", 1, [], "");
    assert IsSpace(u.src[6]);
    assert Kept([u][0]);
    ComesBackWhen("c", [u]);
    assert !Survives([u], 0);
  }

  lemma LastPathMayBeEmpty()
    ensures var u := Unit("a.c", "k", "d", 1, [FileStamp(1, 2, "")], "");
            !GoodUnit(u) && Load(Some(Save("c", [u])), "c") == Remembered([u], map[])
  {
    var u := Unit("a.c", "k", "d", 1, [FileStamp(1, 2, "")], "");
    hide Load, Save, Remembered;
    assert !GoodStamp(u.deps[0]);
    assert [u][1..] == [];
    assert Survives([u], 0);
    ComesBackWhen("c", [u]);
  }

  // ---- two sources told apart by white space only

  function OneFile(): Reuse.Disk { map["h" := Reuse.File("", 1, 1)] }

  /** A preprocessor that gives one source a key of its own. */
  function KeysFor(a: string): Reuse.Preprocessor {
    (config: string, disk: Reuse.Disk, src: string) => Reuse.Text(if src == a then "k" else "l", "d", 0, ["h"])
  }

  function UnitOf(a: string, src: string): Unit {
    Unit(src, if src == a then "k" else "l", "d", 0, [FileStamp(1, 1, "h")], "")
  }

  /** The two sources are built once. */
  function BothBuilt(a: string, p: string): Reuse.History {
    Reuse.History(
      [Reuse.Build("c", [a, p], {"k", "l"}, true)],
      [Reuse.World(OneFile(), None), Reuse.World(OneFile(), Some(Save("c", [UnitOf(a, a), UnitOf(a, p)])))])
  }

  lemma BothAreBuilt(a: string, p: string)
    ensures Reuse.IsHistory(KeysFor(a), BothBuilt(a, p))
  {
    hide Save;
    assert Reuse.Stamps(OneFile(), ["h"]) == [FileStamp(1, 1, "h")] by {
      assert ["h"][..0] == [];
    }
    assert Load(None, "c") == map[];
    var units := Reuse.AllKeyed(KeysFor(a), "c", OneFile(), map[], [a, p]);
    assert units == [UnitOf(a, a), UnitOf(a, p)];
    assert Reuse.AllTexted(KeysFor(a), "c", OneFile(), map[], {"k", "l"}, units) == units;
    assert Reuse.StepAt(KeysFor(a), BothBuilt(a, p), 0);
  }

  lemma KeysBehave(a: string)
    ensures Reuse.WellBehaved(KeysFor(a), iset{OneFile()})
  {
  }

  /**
    Whenever white space around it is all that tells one source from another, both can be built such that everything
    else is in order, and yet the next build takes the key of the one for the other.
   */
  lemma ShadowMisleadsReuse(a: string, p: string)
    requires Words(p) == 1 && FirstWord(p) == a && p != a
    ensures Reuse.Shadowed(iset{a, p}, a)
    ensures Reuse.WellBehaved(KeysFor(a), iset{OneFile()}) && Reuse.IsHistory(KeysFor(a), BothBuilt(a, p))
    ensures Reuse.Keyed(KeysFor(a), "c", OneFile(), Load(BothBuilt(a, p).worlds[1].file, "c"), a).key !=
            Reuse.Keyed(KeysFor(a), "c", OneFile(), map[], a).key
  {
    hide Load, Save, Words, FirstWord;
    BothAreBuilt(a, p);
    KeysBehave(a);
    OneWord(p);
    OneWord(a);
    var u, v := UnitOf(a, a), UnitOf(a, p);
    assert Trimmed(v) == v.(src := a);
    assert GoodUnit(u) && GoodUnit(Trimmed(v));
    PadsMislead("c", u, v);
    assert Reuse.StillValid(OneFile(), Trimmed(v));
  }

  lemma BlankMisleadsReuse()
    ensures Reuse.Shadowed(iset{"a", " a"}, "a")
    ensures Reuse.Keyed(KeysFor("a"), "c", OneFile(), Load(BothBuilt("a", " a").worlds[1].file, "c"), "a").key !=
            Reuse.Keyed(KeysFor("a"), "c", OneFile(), map[], "a").key
  {
    assert " a"[1..] == "a" && "a"[1..] == "";
    assert SkipSpace(" a") == SkipSpace("a") == "a" && WordLength("a") == 1;
    ShadowMisleadsReuse("a", " a");
  }

  // ---- sources of one word each: exactly when reuse cannot be seen

  ghost predicate OneWordEach(sources: iset<string>) { forall src :: src in sources ==> Words(src) == 1 }

  /** A history of builds of the sources, on the disks. */
  ghost predicate BuildsOf(pre: Reuse.Preprocessor, h: Reuse.History, sources: iset<string>, disks: iset<Reuse.Disk>) {
    && Reuse.WellBehaved(pre, disks) && Reuse.IsHistory(pre, h) && h.worlds[0].disk in disks
    && forall k :: 0 <= k < |h.events| ==> EventOf(h.events[k], sources, disks)
  }

  ghost predicate EventOf(e: Reuse.Event, sources: iset<string>, disks: iset<Reuse.Disk>) {
    match e
    case Edit(disk) => disk in disks
    case Build(config, srcs, _, _) => IsWord(config) && forall i :: 0 <= i < |srcs| ==> srcs[i] in sources
  }

  /** Source src gets the same unit with the state file as without one. */
  ghost predicate Unseen(pre: Reuse.Preprocessor, h: Reuse.History, k: nat, config: string, src: string)
    requires k < |h.worlds|
  {
    var w := h.worlds[k];
    Reuse.Keyed(pre, config, w.disk, Load(w.file, config), src) == Reuse.Keyed(pre, config, w.disk, map[], src)
  }

  ghost predicate AlwaysUnseen(sources: iset<string>) {
    forall pre, h, disks, k: nat, config, src ::
      BuildsOf(pre, h, sources, disks) && k < |h.worlds| && src in sources ==> Unseen(pre, h, k, config, src)
  }

  /** Reuse can never be seen if and only if no two of the sources differ by white space around one of them only. */
  lemma UnseenWhenNoneShadowed(sources: iset<string>)
    requires OneWordEach(sources)
    ensures AlwaysUnseen(sources) <==> forall src :: src in sources ==> !Reuse.Shadowed(sources, src)
  {
    hide Load, Save, Words, FirstWord;
    if a :| a in sources && Reuse.Shadowed(sources, a) {
      var p :| p in sources && p != a && Words(p) == 1 && FirstWord(p) == a;
      ShadowMisleadsReuse(a, p);
      var (h, disks) := (BothBuilt(a, p), iset{OneFile()});
      assert EventOf(h.events[0], sources, disks);
      assert BuildsOf(KeysFor(a), h, sources, disks) && !Unseen(KeysFor(a), h, 1, "c", a);
    } else {
      forall pre, h, disks, k: nat, config, src | BuildsOf(pre, h, sources, disks) && k < |h.worlds| && src in sources
        ensures Unseen(pre, h, k, config, src)
      {
        NoneSeen(pre, h, sources, disks, k, config, src);
      }
    }
  }

  lemma NoneSeen(pre: Reuse.Preprocessor, h: Reuse.History, sources: iset<string>, disks: iset<Reuse.Disk>, k: nat,
                 config: string, src: string)
    requires OneWordEach(sources) && forall other :: other in sources ==> !Reuse.Shadowed(sources, other)
    requires BuildsOf(pre, h, sources, disks) && k < |h.worlds| && src in sources
    ensures Unseen(pre, h, k, config, src)
  {
    hide Load, Words, Reuse.Shadowed, Reuse.WellBehaved, Reuse.Keyed;
    forall j | 0 <= j < |h.events| ensures Reuse.EventOk(pre, h.events[j], sources, disks) {
      assert EventOf(h.events[j], sources, disks);
    }
    Reuse.ReuseIsInvisible(pre, sources, disks, h, k, config, [src]);
    var w := h.worlds[k];
    assert Reuse.AllKeyed(pre, config, w.disk, Load(w.file, config), [src])[0] ==
           Reuse.AllKeyed(pre, config, w.disk, map[], [src])[0];
  }
}
