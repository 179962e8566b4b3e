/** Which units the client preprocesses again. */
module Reuse {
  import opened Wrappers
  import opened TextStream
  import opened StateFile
  import opened StateLimits
  import opened StateGaps
  import opened StatePads

  datatype File = File(content: string, mtime: int, size: int)

  type Disk = map<string, File>

  /**
    What preprocessing a source gives: an error, or the compile key, the text's digest and size, and the files named in
    the text.
   */
  datatype Preprocessed = Failed(error: string) | Text(key: string, digest: string, cost: int, files: seq<string>)

  /** The preprocessor: a function of the configuration, the disk and the source. */
  type Preprocessor = (string, Disk, string) -> Preprocessed

  // ---- the client's steps

  function Stamp(disk: Disk, path: string): Option<FileStamp> {
    if path in disk then Some(FileStamp(disk[path].mtime, disk[path].size, path)) else None
  }

  predicate Unchanged(disk: Disk, f: FileStamp) {
    f.path in disk && disk[f.path].mtime == f.mtime && disk[f.path].size == f.size
  }

  /** Each path is there, with the modification time and the size of its stamp. */
  predicate Unmoved(disk: Disk, stamps: seq<FileStamp>) {
    forall k :: 0 <= k < |stamps| ==>
      var f := stamps[k];
      f.path in disk && disk[f.path].mtime == f.mtime && disk[f.path].size == f.size
  }

  predicate StillValid(disk: Disk, u: Unit) {
    u.deps != [] && forall k :: 0 <= k < |u.deps| ==> Unchanged(disk, u.deps[k])
  }

  method CheckStamps(disk: Disk, u: Unit) returns (valid: bool)
    ensures valid <==> u.deps != [] && Unmoved(disk, u.deps)
  {
    if u.deps == [] { return false; }
    for k := 0 to |u.deps|
      invariant forall j :: 0 <= j < k ==> Unchanged(disk, u.deps[j])
    {
      var now := Stamp(disk, u.deps[k].path);
      if now.None? || now.value.mtime != u.deps[k].mtime || now.value.size != u.deps[k].size {
        assert !Unchanged(disk, u.deps[k]);
        return false;
      }
    }
    return true;
  }

  /** The stamps of those files that have one. */
  function Stamps(disk: Disk, files: seq<string>): seq<FileStamp> {
    if files == [] then []
    else
      var front := Stamps(disk, files[..|files| - 1]);
      match Stamp(disk, files[|files| - 1])
      case None => front
      case Some(f) => front + [f]
  }

  /** On an error the unit keeps whatever it held. */
  function Refreshed(u: Unit, p: Preprocessed, disk: Disk): Unit {
    match p
    case Failed(e) => u.(error := e)
    case Text(key, digest, cost, files) => Unit(u.src, key, digest, cost, Stamps(disk, files), u.error)
  }

  method RunPreprocess(pre: Preprocessor, config: string, disk: Disk, unit: Unit) returns (u: Unit)
    ensures u == Refreshed(unit, pre(config, disk, unit.src), disk)
  {
    u := unit;
    var p := pre(config, disk, u.src);
    if p.Failed? {
      u := u.(error := p.error);
      return;
    }
    u := u.(key := p.key, digest := p.digest, cost := p.cost, deps := []);
    for k := 0 to |p.files|
      invariant u == Unit(unit.src, p.key, p.digest, p.cost, Stamps(disk, p.files[..k]), unit.error)
    {
      assert p.files[..k + 1][..k] == p.files[..k];
      var f := Stamp(disk, p.files[k]);
      if f.Some? { u := u.(deps := u.deps + [f.value]); }
    }
    assert p.files[..|p.files|] == p.files;
  }

  function Blank(src: string): Unit { Unit(src, "", "", 0, [], "") }

  predicate Reusable(disk: Disk, remembered: map<string, Unit>, src: string) {
    src in remembered && StillValid(disk, remembered[src])
  }

  /** A unit as the build first gets it: remembered, or preprocessed. */
  function Keyed(pre: Preprocessor, config: string, disk: Disk, remembered: map<string, Unit>, src: string): Unit {
    if Reusable(disk, remembered, src) then
      var r := remembered[src];
      Unit(src, r.key, r.digest, r.cost, r.deps, "")
    else Refreshed(Blank(src), pre(config, disk, src), disk)
  }

  /** A remembered unit whose result is not in the cache is preprocessed after all, for its text. */
  function Texted(pre: Preprocessor, config: string, disk: Disk, remembered: map<string, Unit>, cached: set<string>,
                  u: Unit): Unit
  {
    if u.key in cached || !Reusable(disk, remembered, u.src) then u else Refreshed(u, pre(config, disk, u.src), disk)
  }

  function AllKeyed(pre: Preprocessor, config: string, disk: Disk, remembered: map<string, Unit>,
                    srcs: seq<string>): seq<Unit>
  {
    seq(|srcs|, i requires 0 <= i < |srcs| => Keyed(pre, config, disk, remembered, srcs[i]))
  }

  function AllTexted(pre: Preprocessor, config: string, disk: Disk, remembered: map<string, Unit>, cached: set<string>,
                     units: seq<Unit>): seq<Unit> {
    seq(|units|, i requires 0 <= i < |units| => Texted(pre, config, disk, remembered, cached, units[i]))
  }

  /** What a unit gets: what is remembered of it while no file has moved, and what the preprocessor says otherwise. */
  lemma KeyedIs(pre: Preprocessor, config: string, disk: Disk, remembered: map<string, Unit>, src: string)
    ensures var u := Keyed(pre, config, disk, remembered, src);
            && u.src == src
            && if src in remembered && remembered[src].deps != [] && Unmoved(disk, remembered[src].deps) then
                 var r := remembered[src];
                 u.key == r.key && u.digest == r.digest && u.cost == r.cost && u.deps == r.deps && u.error == ""
               else
                 match pre(config, disk, src)
                 case Failed(e) => u.error == e && u.key == u.digest == "" && u.cost == 0 && u.deps == []
                 case Text(key, digest, cost, files) =>
                   u.key == key && u.digest == digest && u.cost == cost && u.error == ""
                     && StampsOf(disk, files, u.deps)
  {
    hide Unmoved;
    if src in remembered { ValidIs(disk, remembered[src]); }
    if pre(config, disk, src).Text? { StampsAreOf(disk, pre(config, disk, src).files); }
  }

  lemma ValidIs(disk: Disk, u: Unit)
    ensures StillValid(disk, u) <==> u.deps != [] && Unmoved(disk, u.deps)
  {
    forall k | 0 <= k < |u.deps| && StillValid(disk, u)
      ensures var f := u.deps[k]; f.path in disk && disk[f.path].mtime == f.mtime && disk[f.path].size == f.size
    {
      assert Unchanged(disk, u.deps[k]);
    }
  }

  /** The stamps of the files that are there, in their order. */
  predicate StampsOf(disk: Disk, files: seq<string>, stamps: seq<FileStamp>)
    decreases |files|
  {
    if files == [] then stamps == []
    else
      var front, f := files[..|files| - 1], files[|files| - 1];
      if f !in disk then StampsOf(disk, front, stamps)
      else
        && stamps != [] && stamps[|stamps| - 1] == FileStamp(disk[f].mtime, disk[f].size, f)
        && StampsOf(disk, front, stamps[..|stamps| - 1])
  }

  lemma {:induction false} StampsAreOf(disk: Disk, files: seq<string>)
    ensures StampsOf(disk, files, Stamps(disk, files))
  {
    if files != [] {
      var front := files[..|files| - 1];
      StampsAreOf(disk, front);
      if files[|files| - 1] in disk {
        assert Stamps(disk, files)[..|Stamps(disk, files)| - 1] == Stamps(disk, front);
      }
    }
  }

  method GetKeys(pre: Preprocessor, config: string, disk: Disk, remembered: map<string, Unit>, srcs: seq<string>)
    returns (units: seq<Unit>)
    ensures units == AllKeyed(pre, config, disk, remembered, srcs)
  {
    units := [];
    for i := 0 to |srcs|
      invariant |units| == i
      invariant forall k :: 0 <= k < i ==> units[k] == Keyed(pre, config, disk, remembered, srcs[k])
    {
      var u := Blank(srcs[i]);
      var valid := false;
      if u.src in remembered { valid := CheckStamps(disk, remembered[u.src]); }
      if valid {
        var r := remembered[u.src];
        u := u.(key := r.key, digest := r.digest, cost := r.cost, deps := r.deps);
      } else {
        u := RunPreprocess(pre, config, disk, u);
      }
      units := units + [u];
    }
  }

  method GetTexts(pre: Preprocessor, config: string, disk: Disk, remembered: map<string, Unit>, cached: set<string>,
                  units: seq<Unit>)
    returns (texted: seq<Unit>)
    ensures texted == AllTexted(pre, config, disk, remembered, cached, units)
  {
    texted := units;
    for i := 0 to |units|
      invariant |texted| == |units|
      invariant forall k :: 0 <= k < i ==> texted[k] == Texted(pre, config, disk, remembered, cached, units[k])
      invariant forall k :: i <= k < |units| ==> texted[k] == units[k]
    {
      var u := texted[i];
      var reused := false;
      if u.src in remembered { reused := CheckStamps(disk, remembered[u.src]); }
      if u.key !in cached && reused {
        var u' := RunPreprocess(pre, config, disk, u);
        texted := texted[i := u'];
      }
    }
  }

  // ---- histories

  /**
    The disk is edited; or a client builds, the cache holding some keys, and gets as far as writing its state file or
    not.
   */
  datatype Event = Edit(disk: Disk) | Build(config: string, srcs: seq<string>, cached: set<string>, completed: bool)

  datatype World = World(disk: Disk, file: Option<string>)

  predicate NoErrors(units: seq<Unit>) { forall i :: 0 <= i < |units| ==> units[i].error == "" }

  function After(pre: Preprocessor, w: World, e: Event): World {
    match e
    case Edit(disk) => World(disk, w.file)
    case Build(config, srcs, cached, completed) =>
      var remembered := Load(w.file, config);
      var units := AllKeyed(pre, config, w.disk, remembered, srcs);
      if !NoErrors(units) || !completed then w
      else World(w.disk, Some(Save(config, AllTexted(pre, config, w.disk, remembered, cached, units))))
  }

  /** The worlds a client's directory goes through, at first without a state file, and the events between them. */
  datatype History = History(events: seq<Event>, worlds: seq<World>)

  predicate StepAt(pre: Preprocessor, h: History, k: int) {
    0 <= k < |h.events| && k + 1 < |h.worlds| && h.worlds[k + 1] == After(pre, h.worlds[k], h.events[k])
  }

  predicate IsHistory(pre: Preprocessor, h: History) {
    |h.worlds| == |h.events| + 1 && h.worlds[0].file.None? && forall k :: 0 <= k < |h.events| ==> StepAt(pre, h, k)
  }

  // ---- what is assumed of the disks that occur and of the preprocessor

  function Content(disk: Disk, path: string): Option<string> { if path in disk then Some(disk[path].content) else None }

  /** A file with the same stamp on two of the disks has the same content on both. */
  ghost predicate StampsTell(d: Disk, d': Disk) {
    forall path :: path in d && path in d' && d[path].mtime == d'[path].mtime && d[path].size == d'[path].size ==>
      d[path].content == d'[path].content
  }

  ghost predicate SameFiles(d: Disk, d': Disk, files: seq<string>) {
    forall k :: 0 <= k < |files| ==> Content(d, files[k]) == Content(d', files[k])
  }

  /** The result depends only on the files it names. */
  ghost predicate ReadsOnlyItsFiles(pre: Preprocessor, d: Disk, d': Disk) {
    forall config, src :: var p := pre(config, d, src);
      p.Text? && SameFiles(d, d', p.files) ==> pre(config, d', src) == p
  }

  predicate CanStamp(disk: Disk, path: string) {
    path in disk && GoodStamp(FileStamp(disk[path].mtime, disk[path].size, path))
  }

  /** A result that can be written down: every file has a stamp, and key and digest are words. */
  predicate Writable(p: Preprocessed, disk: Disk) {
    p.Text? ==>
      IsWord(p.key) && IsWord(p.digest) && IsInt64(p.cost) && |p.files| < WORD
        && forall k :: 0 <= k < |p.files| ==> CanStamp(disk, p.files[k])
  }

  ghost predicate WellBehaved(pre: Preprocessor, disks: iset<Disk>) {
    && (forall d, d' :: d in disks && d' in disks ==> StampsTell(d, d') && ReadsOnlyItsFiles(pre, d, d'))
    && (forall config, d, src :: d in disks ==> Writable(pre(config, d, src), d) && pre(config, d, src) != Failed(""))
  }

  /** White space around another of the sources is all that tells it from this one. */
  ghost predicate Shadowed(sources: iset<string>, src: string) {
    exists other :: other in sources && other != src && Words(other) == 1 && FirstWord(other) == src
  }

  /**
    A source that cannot be taken for another one: it is not shadowed, and is one word, with white space around it or
    not, or two or three words, which take the places of key and digest so that loading stops at what these really are.
   */
  ghost predicate SourceOk(pre: Preprocessor, sources: iset<string>, disks: iset<Disk>, config: string, src: string) {
    && src in sources && !Shadowed(sources, src)
    && 1 <= Words(src) <= 3
    && (Words(src) > 1 ==> forall d :: d in disks && pre(config, d, src).Text? ==>
                             IsHash(pre(config, d, src).key) && IsHash(pre(config, d, src).digest))
  }

  ghost predicate EventOk(pre: Preprocessor, e: Event, sources: iset<string>, disks: iset<Disk>) {
    match e
    case Edit(disk) => disk in disks
    case Build(config, srcs, _, _) =>
      IsWord(config) && forall i :: 0 <= i < |srcs| ==> SourceOk(pre, sources, disks, config, srcs[i])
  }

  // ---- reuse cannot be seen

  /** The unit is what preprocessing its source on the disk gives. */
  ghost predicate FreshOn(pre: Preprocessor, config: string, u: Unit, d: Disk) {
    var p := pre(config, d, u.src);
    p.Text? && u == Refreshed(Blank(u.src), p, d)
  }

  ghost predicate Witnessed(pre: Preprocessor, config: string, u: Unit, disks: iset<Disk>) {
    exists d :: d in disks && FreshOn(pre, config, u, d)
  }

  /** The unit can never be reused, or it is what preprocessing the source gave on some disk. */
  ghost predicate EntryOk(pre: Preprocessor, config: string, src: string, u: Unit, disks: iset<Disk>) {
    u.deps == [] || (u.src == src && Witnessed(pre, config, u, disks))
  }

  /**
    What is loaded from the state file under a source that is not shadowed is not reused, or was right on some earlier
    disk.
   */
  ghost predicate FileOk(pre: Preprocessor, file: Option<string>, sources: iset<string>, disks: iset<Disk>) {
    forall config, src :: src in Load(file, config) && !Shadowed(sources, src) ==>
      EntryOk(pre, config, src, Load(file, config)[src], disks)
  }

  lemma {:induction false} StampsAre(disk: Disk, files: seq<string>)
    requires forall k :: 0 <= k < |files| ==> files[k] in disk
    ensures |Stamps(disk, files)| == |files|
    ensures forall k :: 0 <= k < |files| ==> Some(Stamps(disk, files)[k]) == Stamp(disk, files[k])
  {
    if files != [] { StampsAre(disk, files[..|files| - 1]); }
  }

  /** A unit written earlier whose stamps have not moved is what preprocessing would give now. */
  lemma ValidMeansFresh(pre: Preprocessor, config: string, disks: iset<Disk>, u: Unit, d: Disk, now: Disk)
    requires WellBehaved(pre, disks) && d in disks && now in disks
    requires FreshOn(pre, config, u, d) && StillValid(now, u)
    ensures FreshOn(pre, config, u, now)
  {
    var p := pre(config, d, u.src);
    StampsAre(d, p.files);
    forall k | 0 <= k < |p.files|
      ensures Unchanged(now, u.deps[k]) && u.deps[k].path == p.files[k]
              && Content(d, p.files[k]) == Content(now, p.files[k])
    {
      assert Some(u.deps[k]) == Stamp(d, p.files[k]);
      assert StampsTell(d, now);
    }
    assert ReadsOnlyItsFiles(pre, d, now) && SameFiles(d, now, p.files);
    StampsAre(now, p.files);
    forall k | 0 <= k < |p.files|
      ensures Stamps(now, p.files)[k] == u.deps[k]
    {
      assert Some(Stamps(now, p.files)[k]) == Stamp(now, p.files[k]);
    }
    assert Stamps(now, p.files) == u.deps;
  }

  lemma KeyedIsFresh(pre: Preprocessor, config: string, disks: iset<Disk>, disk: Disk, remembered: map<string, Unit>,
                     src: string)
    requires WellBehaved(pre, disks) && disk in disks
    requires src in remembered ==> EntryOk(pre, config, src, remembered[src], disks)
    ensures Keyed(pre, config, disk, remembered, src) == Keyed(pre, config, disk, map[], src)
  {
    if Reusable(disk, remembered, src) {
      var d :| d in disks && FreshOn(pre, config, remembered[src], d);
      ValidMeansFresh(pre, config, disks, remembered[src], d, disk);
    }
  }

  /** Preprocessing a unit again for its text changes nothing. */
  lemma TextedIsKeyed(pre: Preprocessor, config: string, disk: Disk, remembered: map<string, Unit>, cached: set<string>,
                      u: Unit)
    requires u == Keyed(pre, config, disk, map[], u.src) && u.error == "" && pre(config, disk, u.src) != Failed("")
    ensures Texted(pre, config, disk, remembered, cached, u) == u && FreshOn(pre, config, u, disk)
  {
  }

  lemma {:induction false} RememberedFrom(units: seq<Unit>, m: map<string, Unit>, src: string)
    requires src in Remembered(units, m)
    ensures (src in m && Remembered(units, m)[src] == m[src]) ||
            exists k :: 0 <= k < |units| && units[k].src == src && Remembered(units, m)[src] == units[k]
    decreases |units|
  {
    if units != [] {
      var m' := if Kept(units[0]) then m[units[0].src := units[0]] else m;
      RememberedFrom(units[1..], m', src);
      if k :| 0 <= k < |units| - 1 && units[1..][k].src == src && Remembered(units[1..], m')[src] == units[1..][k] {
        assert units[k + 1] == units[1..][k];
      }
    }
  }

  lemma FreshIsGood(pre: Preprocessor, disks: iset<Disk>, config: string, u: Unit, disk: Disk)
    requires WellBehaved(pre, disks) && disk in disks && FreshOn(pre, config, u, disk)
    ensures Kept(u) && (Words(u.src) == 1 ==> AlmostGood(u))
  {
    var p := pre(config, disk, u.src);
    OneWord(u.src);
    assert Writable(p, disk);
    StampsAre(disk, p.files);
    forall k | 0 <= k < |p.files| ensures GoodStamp(u.deps[k]) {
      assert Some(u.deps[k]) == Stamp(disk, p.files[k]);
      assert CanStamp(disk, p.files[k]);
    }
  }

  /** The first n sources are one word each, or there is a first one that is not. */
  lemma {:induction false} FirstGap(units: seq<Unit>, n: nat) returns (j: nat)
    requires n <= |units|
    ensures j <= n && forall k :: 0 <= k < j ==> Words(units[k].src) == 1
    ensures j < n ==> Words(units[j].src) != 1
  {
    hide Words;
    if n == 0 {
      j := 0;
    } else {
      j := FirstGap(units, n - 1);
      if j == n - 1 && Words(units[j].src) == 1 { j := n; }
    }
  }

  /** The units were made on the disk, from sources that cannot be taken for others. */
  ghost predicate MadeHere(pre: Preprocessor, sources: iset<string>, disks: iset<Disk>, config: string,
                           units: seq<Unit>, disk: Disk)
  {
    forall i :: 0 <= i < |units| ==>
      SourceOk(pre, sources, disks, config, units[i].src) && FreshOn(pre, config, units[i], disk)
  }

  /** What is loaded of units just made is theirs, under their trimmed sources, and at most one more without stamps. */
  lemma SavedIsTrimmed(pre: Preprocessor, sources: iset<string>, disks: iset<Disk>, config: string, units: seq<Unit>,
                       disk: Disk)
    returns (j: nat)
    requires WellBehaved(pre, disks) && disk in disks && MadeHere(pre, sources, disks, config, units, disk)
    ensures j <= |units| && forall i :: 0 <= i < j ==> Words(units[i].src) == 1
    ensures var all := LoadUnits(Stream("\n" + UnitsText(units), true), map[]);
            var front := Remembered(TrimFirst(units, j)[..j], map[]);
            all == front || exists v: Unit :: v.deps == [] && all == front[v.src := v]
  {
    hide LoadUnits, Words, IsHash, AlmostGood, FreshOn, Remembered;
    forall i | 0 <= i < |units| ensures Kept(units[i]) && (Words(units[i].src) == 1 ==> AlmostGood(units[i])) {
      FreshIsGood(pre, disks, config, units[i], disk);
    }
    j := FirstGap(units, |units|);
    var trimmed := TrimFirst(units, j);
    LoadsTrimmed("\n", units, j, map[]);
    forall i | 0 <= i < j ensures GoodUnit(trimmed[..j][i]) {
      TrimmedIs(units[i]);
    }
    if j == |units| {
      assert trimmed[..j] == trimmed;
      LoadsUnits("\n", trimmed, map[]);
    } else {
      GapIsHashed(pre, sources, disks, config, units[j], disk);
      var v := LoadsUpToGap(trimmed, j);
    }
  }

  lemma GapIsHashed(pre: Preprocessor, sources: iset<string>, disks: iset<Disk>, config: string, u: Unit, disk: Disk)
    requires disk in disks && SourceOk(pre, sources, disks, config, u.src) && FreshOn(pre, config, u, disk)
    requires Words(u.src) != 1
    ensures 2 <= Words(u.src) <= 3 && IsHash(u.key) && IsHash(u.digest)
  {
  }

  lemma SavedIsOk(pre: Preprocessor, sources: iset<string>, disks: iset<Disk>, config: string, units: seq<Unit>,
                  disk: Disk)
    requires WellBehaved(pre, disks) && disk in disks && IsWord(config)
    requires MadeHere(pre, sources, disks, config, units, disk)
    ensures FileOk(pre, Some(Save(config, units)), sources, disks)
  {
    hide Load, LoadUnits, Words, IsHash, Remembered, Shadowed;
    var j := SavedIsTrimmed(pre, sources, disks, config, units, disk);
    FrontIsOk(pre, sources, disks, config, units, j, disk);
    forall config', src | src in Load(Some(Save(config, units)), config') && !Shadowed(sources, src)
      ensures EntryOk(pre, config', src, Load(Some(Save(config, units)), config')[src], disks)
    {
      LoadUnder(config, units, config');
    }
  }

  lemma FrontIsOk(pre: Preprocessor, sources: iset<string>, disks: iset<Disk>, config: string, units: seq<Unit>,
                  j: nat, disk: Disk)
    requires disk in disks && MadeHere(pre, sources, disks, config, units, disk)
    requires j <= |units| && forall i :: 0 <= i < j ==> Words(units[i].src) == 1
    ensures var m := Remembered(TrimFirst(units, j)[..j], map[]);
            forall src :: src in m && !Shadowed(sources, src) ==> EntryOk(pre, config, src, m[src], disks)
  {
    hide Words, FreshOn;
    var front := TrimFirst(units, j)[..j];
    var m := Remembered(front, map[]);
    forall src | src in m && !Shadowed(sources, src) ensures EntryOk(pre, config, src, m[src], disks) {
      RememberedFrom(front, map[], src);
      var k :| 0 <= k < j && front[k].src == src && m[src] == front[k];
      assert units[k].src in sources && FirstWord(units[k].src) == src;
      assert units[k].src == src && front[k] == units[k];
      assert Witnessed(pre, config, units[k], disks);
    }
  }

  lemma BuildKeepsFile(pre: Preprocessor, sources: iset<string>, disks: iset<Disk>, w: World, e: Event)
    requires WellBehaved(pre, disks) && w.disk in disks
    requires FileOk(pre, w.file, sources, disks) && EventOk(pre, e, sources, disks)
    ensures After(pre, w, e).disk in disks && FileOk(pre, After(pre, w, e).file, sources, disks)
  {
    if e.Build? {
      hide Load, Save, StillValid, Words, IsHash, Shadowed;
      var remembered := Load(w.file, e.config);
      var units := AllKeyed(pre, e.config, w.disk, remembered, e.srcs);
      if NoErrors(units) && e.completed {
        var texted := AllTexted(pre, e.config, w.disk, remembered, e.cached, units);
        forall i | 0 <= i < |units|
          ensures SourceOk(pre, sources, disks, e.config, texted[i].src) && FreshOn(pre, e.config, texted[i], w.disk)
        {
          KeyedIsFresh(pre, e.config, disks, w.disk, remembered, e.srcs[i]);
          assert units[i].src == e.srcs[i] && units[i].error == "";
          TextedIsKeyed(pre, e.config, w.disk, remembered, e.cached, units[i]);
        }
        SavedIsOk(pre, sources, disks, e.config, texted, w.disk);
      }
    }
  }

  /** Only disks of the given kind occur, configurations are words, and no source can be taken for another. */
  ghost predicate AllOk(pre: Preprocessor, h: History, sources: iset<string>, disks: iset<Disk>) {
    && h.worlds != [] && h.worlds[0].disk in disks
    && forall k :: 0 <= k < |h.events| ==> EventOk(pre, h.events[k], sources, disks)
  }

  lemma {:induction false} HistoryKeepsFile(pre: Preprocessor, sources: iset<string>, disks: iset<Disk>, h: History,
                                            k: nat)
    requires WellBehaved(pre, disks) && IsHistory(pre, h) && AllOk(pre, h, sources, disks) && k < |h.worlds|
    ensures h.worlds[k].disk in disks && FileOk(pre, h.worlds[k].file, sources, disks)
  {
    if k > 0 {
      HistoryKeepsFile(pre, sources, disks, h, k - 1);
      assert StepAt(pre, h, k - 1);
      BuildKeepsFile(pre, sources, disks, h.worlds[k - 1], h.events[k - 1]);
    }
  }

  /**
    At any point of any history of edits and builds, a build whose sources are not shadowed gets exactly the units it
    would get without a state file: same keys, digests, costs, stamps and errors.
   */
  lemma ReuseIsInvisible(pre: Preprocessor, sources: iset<string>, disks: iset<Disk>, h: History, k: nat,
                         config: string, srcs: seq<string>)
    requires WellBehaved(pre, disks) && IsHistory(pre, h) && AllOk(pre, h, sources, disks) && k < |h.worlds|
    requires forall i :: 0 <= i < |srcs| ==> !Shadowed(sources, srcs[i])
    ensures var w := h.worlds[k];
            AllKeyed(pre, config, w.disk, Load(w.file, config), srcs) == AllKeyed(pre, config, w.disk, map[], srcs)
  {
    HistoryKeepsFile(pre, sources, disks, h, k);
    var w := h.worlds[k];
    forall i | 0 <= i < |srcs|
      ensures Keyed(pre, config, w.disk, Load(w.file, config), srcs[i]) == Keyed(pre, config, w.disk, map[], srcs[i])
    {
      KeyedIsFresh(pre, config, disks, w.disk, Load(w.file, config), srcs[i]);
    }
  }

  /**
    What a completed build wrote down is taken over as it is, whatever the preprocessor would say, while none of the
    unit's files has moved.
   */
  lemma NotPreprocessedAgain(pre: Preprocessor, config: string, units: seq<Unit>, i: nat, disk: Disk)
    requires IsWord(config) && AllGood(units) && i < |units|
    requires forall j, k :: 0 <= j < k < |units| ==> units[j].src != units[k].src
    requires units[i].error == "" && units[i].key != "" && units[i].deps != [] && Unmoved(disk, units[i].deps)
    ensures Keyed(pre, config, disk, Load(Some(Save(config, units)), config), units[i].src) == units[i]
  {
    hide Load, Save, Unmoved;
    LoadOfSave(config, units, config);
    RememberedAre(units, map[], units[i].src);
    ValidIs(disk, units[i]);
  }

  /** Once the texts are there, each unit whose result is not cached is what the preprocessor says of its source now. */
  lemma UncachedIsPreprocessed(pre: Preprocessor, config: string, disk: Disk, remembered: map<string, Unit>,
                               cached: set<string>, srcs: seq<string>, i: nat)
    requires i < |srcs|
    ensures var units := AllKeyed(pre, config, disk, remembered, srcs);
            var u := AllTexted(pre, config, disk, remembered, cached, units)[i];
            && u.src == srcs[i]
            && (units[i].key in cached ==> u == units[i])
            && (units[i].key !in cached ==>
                  match pre(config, disk, srcs[i])
                  case Failed(e) => u.error == e
                  case Text(key, digest, cost, files) =>
                    && u.key == key && u.digest == digest && u.cost == cost && u.error == ""
                    && StampsOf(disk, files, u.deps))
  {
    hide StillValid;
    if pre(config, disk, srcs[i]).Text? { StampsAreOf(disk, pre(config, disk, srcs[i]).files); }
  }
}
