/** Long-polling claims, and why none sleeps through work. */
module WakeUp {
  // Workers that find nothing wait on a generation counter, and every request that may have made a task ready raises
  // it after its transaction has committed. The steps are the parts that run under the lock, the transactions and the
  // bumps. A query passes over rows that others hold, and what held a row may abort, which wakes nobody.

  import opened Wrappers
  import opened Steps

  type Rows = set<(int, int)>

  /**
    Where a claim is: about to read the generation; about to query; found nothing at a certain time; waiting. After a
    query, skipped are the rows it passed over, and dropped those of them whose holder has aborted since.
   */
  datatype Phase =
    | Starting
    | Looking(seen: nat)
    | Missed(seen: nat, looked: int, skipped: Rows, dropped: Rows)
    | Asleep(seen: nat, looked: int, skipped: Rows, dropped: Rows)

  datatype Claimer = Claimer(worker: string, toolchain: string, phase: Phase)

  /** What holds a row: a completion, or the claim of some claimer. */
  datatype Holder = Completion | Claiming(c: int)

  /** The generation; how many requests have committed but not yet raised it; the rows that are held. */
  datatype World = World(store: Store, generation: nat, owing: nat, held: map<(int, int), Holder>,
                         claimers: seq<Claimer>)

  datatype Action =
    | ReadGeneration(c: int)
    | Query(c: int, part: int, now: int, reply: Option<Assignment>)
    | StartWaiting(c: int)
    | GiveUp(c: int)
    | StopWaiting(c: int)
    | Hold(b: int, i: int, holder: Holder)
    | Abort(freed: Rows)
    | Commit(event: Event, freed: Rows)
    | Bump

  /** The requests that wake the workers once they have committed. */
  ghost predicate Wakes(s: Store, e: Event) {
    match e
    case Submit(_, _, _, reply) => reply.Accepted?
    case Complete(_, _, _) => true
    case Reap(now) => exists b, i :: IsTask(s, b, i) && Expired(Row(s, b, i), now)
    case _ => false
  }

  function InPhase(w: World, c: int, phase: Phase): World
    requires 0 <= c < |w.claimers|
  {
    w.(claimers := w.claimers[c := w.claimers[c].(phase := phase)])
  }

  /** The rows that claimer c passes over. */
  function SkippedBy(w: World, c: int): Rows { set row | row in w.held && w.held[row] != Claiming(c) }

  predicate Free(s: Store, skip: Rows, worker: string, toolchain: string, now: int, b: int, i: int) {
    Eligible(s, worker, toolchain, now, b, i) && (b, i) !in skip
  }

  predicate FreeIn(s: Store, skip: Rows, worker: string, toolchain: string, part: int, now: int, b: int, i: int) {
    Free(s, skip, worker, toolchain, now, b, i) && Row(s, b, i).part == part
  }

  /** The best of the worker's own part that is free, else the best of any. */
  ghost predicate BestFree(s: Store, skip: Rows, worker: string, toolchain: string, part: int, now: int, b: int,
                           i: int)
  {
    && Free(s, skip, worker, toolchain, now, b, i)
    && if exists c, j :: FreeIn(s, skip, worker, toolchain, part, now, c, j) then
         Row(s, b, i).part == part &&
         forall c, j :: FreeIn(s, skip, worker, toolchain, part, now, c, j) ==>
           Row(s, c, j).priority <= Row(s, b, i).priority
       else
         forall c, j :: Free(s, skip, worker, toolchain, now, c, j) ==>
           Row(s, c, j).priority <= Row(s, b, i).priority
  }

  /** A claim that passes over the given rows. */
  ghost predicate SkipStep(cfg: Config, s: Store, skip: Rows, worker: string, toolchain: string, part: int, now: int,
                           reply: Option<Assignment>, s': Store)
  {
    match reply
    case None => s' == s && forall b, i :: !Free(s, skip, worker, toolchain, now, b, i)
    case Some(a) =>
      && BestFree(s, skip, worker, toolchain, part, now, a.build, a.id)
      && s' ==
        WithTasks(s, a.build, s.builds[a.build].tasks[a.id := Leased(cfg, Row(s, a.build, a.id), worker, now)],
            s.builds[a.build].state)
      && a == AssignmentOf(s', a.build, a.id)
  }

  function AfterAbort(phase: Phase, freed: Rows): Phase {
    if phase.Missed? || phase.Asleep? then phase.(dropped := phase.dropped + freed * phase.skipped) else phase
  }

  /**
    Claimer c after its query, but for the store: it holds the row no longer that it was given, or waits for others.
   */
  function Queried(w: World, c: int, now: int, reply: Option<Assignment>): World
    requires 0 <= c < |w.claimers| && w.claimers[c].phase.Looking?
  {
    match reply
    case Some(a) => InPhase(w, c, Starting).(held := w.held - {(a.build as int, a.id as int)})
    case None => InPhase(w, c, Missed(w.claimers[c].phase.seen, now, SkippedBy(w, c), {}))
  }

  ghost predicate Acts(cfg: Config, w: World, a: Action, w': World) {
    match a
    case Commit(e, freed) =>
      && !e.Claim? && Next(cfg, w.store, e, w'.store)
      && freed <= w.held.Keys && (freed != {} ==> Wakes(w.store, e))
      && w' == World(w'.store, w.generation, w.owing + (if Wakes(w.store, e) then 1 else 0), w.held - freed, w.claimers)
    case Bump => w.owing > 0 && w' == w.(generation := w.generation + 1, owing := w.owing - 1)
    case Hold(b, i, holder) => (b, i) !in w.held && w' == w.(held := w.held[(b, i) := holder])
    case Abort(freed) =>
      && freed <= w.held.Keys && |w'.claimers| == |w.claimers|
      && w' == World(w.store, w.generation, w.owing, w.held - freed, w'.claimers)
      && forall c :: 0 <= c < |w.claimers| ==>
        w'.claimers[c] == w.claimers[c].(phase := AfterAbort(w.claimers[c].phase, freed))
    case ReadGeneration(c) =>
      0 <= c < |w.claimers| && w.claimers[c].phase.Starting? && w' == InPhase(w, c, Looking(w.generation))
    case Query(c, part, now, reply) =>
      && 0 <= c < |w.claimers| && w.claimers[c].phase.Looking?
      && SkipStep(cfg, w.store, SkippedBy(w, c), w.claimers[c].worker, w.claimers[c].toolchain, part, now, reply,
          w'.store)
      && w' == Queried(w, c, now, reply).(store := w'.store)
    case StartWaiting(c) =>
      && 0 <= c < |w.claimers| && w.claimers[c].phase.Missed?
      && var p := w.claimers[c].phase;
         w' == InPhase(w, c, if p.seen == w.generation then Asleep(p.seen, p.looked, p.skipped, p.dropped)
             else Starting)
    case GiveUp(c) => 0 <= c < |w.claimers| && w.claimers[c].phase.Missed? && w' == InPhase(w, c, Starting)
    case StopWaiting(c) => 0 <= c < |w.claimers| && w.claimers[c].phase.Asleep? && w' == InPhase(w, c, Starting)
  }

  datatype Run = Run(worlds: seq<World>, actions: seq<Action>)

  ghost predicate ActsAt(cfg: Config, r: Run, k: nat)
    requires k < |r.actions| < |r.worlds|
  {
    Acts(cfg, r.worlds[k], r.actions[k], r.worlds[k + 1])
  }

  predicate AllStarting(claimers: seq<Claimer>) { forall c :: 0 <= c < |claimers| ==> claimers[c].phase.Starting? }

  /** Any number of claimers, from an empty database. */
  ghost predicate IsRun(cfg: Config, r: Run) {
    && |r.worlds| == |r.actions| + 1
    && r.worlds[0] == World(EMPTY, 0, 0, map[], r.worlds[0].claimers) && AllStarting(r.worlds[0].claimers)
    && forall k :: 0 <= k < |r.actions| ==> ActsAt(cfg, r, k)
  }

  // ---- what only the waking requests can do

  /** Whatever the second store offers a worker, the first offered it already. */
  ghost predicate OffersNothingNew(s: Store, s': Store) {
    forall worker, toolchain, now, b, i :: Eligible(s', worker, toolchain, now, b, i) ==>
      Eligible(s, worker, toolchain, now, b, i)
  }

  /** When no row is held, a claim is the claim of the serialised steps. */
  lemma NothingToSkip(cfg: Config, s: Store, worker: string, toolchain: string, part: int, now: int,
                      reply: Option<Assignment>, s': Store)
    ensures SkipStep(cfg, s, {}, worker, toolchain, part, now, reply, s') <==>
            ClaimStep(cfg, s, worker, toolchain, part, now, reply, s')
  {
    assert forall b, i :: Free(s, {}, worker, toolchain, now, b, i) <==> Eligible(s, worker, toolchain, now, b, i);
    assert forall b, i :: FreeIn(s, {}, worker, toolchain, part, now, b, i) <==>
                            EligibleIn(s, worker, toolchain, part, now, b, i);
  }

  lemma SkipsOfferNothing(cfg: Config, s: Store, skip: Rows, worker: string, toolchain: string, part: int, now: int,
                          reply: Option<Assignment>, s': Store)
    requires SkipStep(cfg, s, skip, worker, toolchain, part, now, reply, s')
    ensures OffersNothingNew(s, s')
    ensures reply.Some? ==> IsTask(s', reply.value.build, reply.value.id)
    ensures reply.Some? ==> Row(s', reply.value.build, reply.value.id).state.Running?
  {
    if reply.Some? {
      var (b, i) := (reply.value.build, reply.value.id);
      assert Row(s', b, i).state.Running?;
      assert forall c, j :: IsTask(s', c, j) && (c, j) != (b as int, i as int) ==>
             IsTask(s, c, j) && Row(s', c, j) == Row(s, c, j);
    }
  }

  lemma HeartbeatsOfferNothing(cfg: Config, s: Store, worker: string, now: int, s': Store)
    requires HeartbeatStep(cfg, s, worker, now, s')
    ensures OffersNothingNew(s, s')
  {
    assert forall b, i :: IsTask(s', b, i) ==>
           IsTask(s, b, i) && Row(s', b, i) == Renewed(cfg, Row(s, b, i), worker, now);
  }

  lemma IdleReapsOfferNothing(cfg: Config, s: Store, now: int, s': Store)
    requires ReapStep(cfg, s, now, s') && forall b, i :: IsTask(s, b, i) ==> !Expired(Row(s, b, i), now)
    ensures OffersNothingNew(s, s')
  {
    forall b, i | IsTask(s', b, i)
      ensures IsTask(s, b, i) && Row(s', b, i) == Row(s, b, i)
    {
      assert ReapedBuild(cfg, s.builds[b], now, s'.builds[b]);
      assert IsTask(s, b, i);
    }
  }

  /** A request that wakes nobody makes no task ready. */
  lemma SilentOffersNothing(cfg: Config, s: Store, e: Event, s': Store)
    requires Next(cfg, s, e, s') && !Wakes(s, e)
    ensures OffersNothingNew(s, s')
  {
    match e
    case Claim(worker, toolchain, part, now, reply) =>
      NothingToSkip(cfg, s, worker, toolchain, part, now, reply, s');
      SkipsOfferNothing(cfg, s, {}, worker, toolchain, part, now, reply, s');
    case Heartbeat(worker, now) => HeartbeatsOfferNothing(cfg, s, worker, now, s');
    case Reap(now) => IdleReapsOfferNothing(cfg, s, now, s');
    case _ =>
  }

  // ---- the invariant

  /** The row was passed over, and what held it holds it still, or has aborted. */
  predicate Overlooked(w: World, p: Phase, b: int, i: int)
    requires p.Missed? || p.Asleep?
  {
    (b, i) in p.skipped && ((b, i) in w.held || (b, i) in p.dropped)
  }

  /**
    The claimer passed over whatever was there for it when it looked, or the generation has moved, or is about to.
   */
  ghost predicate NothingMissed(w: World, c: int)
    requires 0 <= c < |w.claimers|
  {
    var (me, p) := (w.claimers[c], w.claimers[c].phase);
    && (!p.Starting? ==> p.seen <= w.generation)
    && ((p.Missed? || p.Asleep?) && p.seen == w.generation && w.owing == 0 ==>
          forall b, i :: Eligible(w.store, me.worker, me.toolchain, p.looked, b, i) ==> Overlooked(w, p, b, i))
  }

  ghost predicate NobodyMissed(w: World) { forall c :: 0 <= c < |w.claimers| ==> NothingMissed(w, c) }

  lemma OwnQueryKeeps(cfg: Config, w: World, a: Action, w': World)
    requires a.Query? && Acts(cfg, w, a, w') && NobodyMissed(w)
    ensures NothingMissed(w', a.c)
  {
    assert NothingMissed(w, a.c);
    if a.reply.None? {
      var (me, p) := (w'.claimers[a.c], w'.claimers[a.c].phase);
      forall b, i | Eligible(w'.store, me.worker, me.toolchain, p.looked, b, i) ensures Overlooked(w', p, b, i) {
        assert !Free(w.store, SkippedBy(w, a.c), me.worker, me.toolchain, a.now, b, i);
      }
    }
  }

  lemma OtherQueryKeeps(cfg: Config, w: World, a: Action, w': World, c: nat)
    requires a.Query? && Acts(cfg, w, a, w') && NobodyMissed(w) && c < |w'.claimers| && c != a.c
    ensures NothingMissed(w', c)
  {
    var (me, other) := (w.claimers[c], w.claimers[a.c]);
    SkipsOfferNothing(cfg, w.store, SkippedBy(w, a.c), other.worker, other.toolchain, a.part, a.now, a.reply, w'.store);
    hide SkipStep;
    assert NothingMissed(w, c) && w'.claimers[c] == me;
    var p := me.phase;
    if (p.Missed? || p.Asleep?) && p.seen == w.generation && w.owing == 0 {
      forall b, i | Eligible(w'.store, me.worker, me.toolchain, p.looked, b, i) ensures Overlooked(w', p, b, i) {
        assert Eligible(w.store, me.worker, me.toolchain, p.looked, b, i) && Overlooked(w, p, b, i);
        if a.reply.Some? {
          assert (b, i) != (a.reply.value.build as int, a.reply.value.id as int);
          assert (b, i) in w.held ==> (b, i) in w'.held;
        }
      }
    }
  }

  lemma CommitKeeps(cfg: Config, w: World, a: Action, w': World, c: nat)
    requires a.Commit? && Acts(cfg, w, a, w') && NobodyMissed(w) && c < |w'.claimers|
    ensures NothingMissed(w', c)
  {
    hide Next, Eligible;
    if !Wakes(w.store, a.event) { SilentOffersNothing(cfg, w.store, a.event, w'.store); }
    assert NothingMissed(w, c);
  }

  lemma ActKeeps(cfg: Config, w: World, a: Action, w': World)
    requires Acts(cfg, w, a, w') && NobodyMissed(w)
    ensures NobodyMissed(w')
  {
    hide Next, Eligible, SkipStep;
    forall c | 0 <= c < |w'.claimers|
      ensures NothingMissed(w', c)
    {
      assert NothingMissed(w, c);
      if a.Query? {
        if c == a.c { OwnQueryKeeps(cfg, w, a, w'); } else { OtherQueryKeeps(cfg, w, a, w', c); }
      } else if a.Commit? {
        CommitKeeps(cfg, w, a, w', c);
      }
    }
  }

  lemma {:induction false} NobodyMissedAt(cfg: Config, r: Run, k: nat)
    requires IsRun(cfg, r) && k < |r.worlds|
    ensures NobodyMissed(r.worlds[k])
    decreases k
  {
    if k > 0 {
      NobodyMissedAt(cfg, r, k - 1);
      assert ActsAt(cfg, r, k - 1);
      ActKeeps(cfg, r.worlds[k - 1], r.actions[k - 1], r.worlds[k]);
    }
  }

  /**
    No lost wake-up. While a claimer sleeps with its generation current, a task it may take is ready only if some
    request is still between its commit and its bump, or the task failed last on this very worker and was still cooling
    down when the claimer looked, or its row was held then, and still is or what held it has aborted.
   */
  lemma NoLostWakeUp(cfg: Config, r: Run, k: nat, c: nat, now: int, b: int, i: int)
    requires IsRun(cfg, r) && k < |r.worlds| && c < |r.worlds[k].claimers|
    requires var (w, me) := (r.worlds[k], r.worlds[k].claimers[c]);
             me.phase.Asleep? && me.phase.seen == w.generation && Eligible(w.store, me.worker, me.toolchain, now, b, i)
    ensures var (w, me) := (r.worlds[k], r.worlds[k].claimers[c]);
            || w.owing > 0
            || (Row(w.store, b, i).lastFailedBy == Some(me.worker) &&
                me.phase.looked - COOLDOWN_SECONDS <= Row(w.store, b, i).readyAt < now - COOLDOWN_SECONDS)
            || Overlooked(w, me.phase, b, i)
  {
    NobodyMissedAt(cfg, r, k);
    var (w, me) := (r.worlds[k], r.worlds[k].claimers[c]);
    assert NothingMissed(w, c);
    assert w.owing == 0 && me.phase.seen == w.generation ==>
           !Eligible(w.store, me.worker, me.toolchain, me.phase.looked, b, i) || Overlooked(w, me.phase, b, i);
  }

  /**
    So once every bump is made, a claimer asleep beside a task that never failed on its worker, and that nothing holds,
    has been told to look again, unless it passed over the task for a transaction that then aborted.
   */
  lemma SleepersAreWoken(cfg: Config, r: Run, k: nat, c: nat, now: int, b: int, i: int)
    requires IsRun(cfg, r) && k < |r.worlds| && c < |r.worlds[k].claimers| && r.worlds[k].owing == 0
    requires var (w, me) := (r.worlds[k], r.worlds[k].claimers[c]);
             me.phase.Asleep? && Eligible(w.store, me.worker, me.toolchain, now, b, i)
               && Row(w.store, b, i).lastFailedBy != Some(me.worker) && (b, i) !in w.held
    ensures r.worlds[k].claimers[c].phase.seen < r.worlds[k].generation
            || (b, i) in r.worlds[k].claimers[c].phase.dropped
  {
    NobodyMissedAt(cfg, r, k);
    var (w, me) := (r.worlds[k], r.worlds[k].claimers[c]);
    assert NothingMissed(w, c);
    assert w.owing == 0 && me.phase.seen == w.generation ==>
           !Eligible(w.store, me.worker, me.toolchain, me.phase.looked, b, i) || Overlooked(w, me.phase, b, i);
  }
}
