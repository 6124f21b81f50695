/**
 * One request at a time holds the gate of the release cache and walks through check, discard,
 * reserve, download, rename and open; leases of served files are released at any moment, a
 * download can fail at any point, and the process can restart.
 */
module CacheProtocol {
  import opened Basics
  import opened CacheSpec

  /** The limits and the two outside functions: JSON decoding and SHA-256 in hex. */
  datatype Env = Env(max: int, decode: string -> Option<Manifest>, sha: string -> string)

  /** What the gate holder is serving; the manifest is known once it has been checked. */
  datatype Task = Task(version: string, manifest: Option<Manifest>)

  datatype Phase =
    | Idle
    | Entered(task: Task)
    | Ready(task: Task)
    | Cleared(task: Task, key: string)
    | Reserved(task: Task, key: string, size: nat)
    | Writing(task: Task, key: string, size: nat, temp: string, mtime: int, text: string)
    | Verified(task: Task, key: string)

  datatype Lease = Lease(task: Task, key: string, content: string)

  /** `ready` says a request of this process has made the directory fit. */
  datatype System = System(dir: seq<Entry>, refs: map<string, nat>, leases: seq<Lease>,
                           initialized: bool, ready: bool, phase: Phase)

  datatype Move =
    | Enter(version: string)
    | Prepare(order: seq<Entry>)
    | Look(asset: string)
    | Reserve(order: seq<Entry>, size: nat)
    | Create(temp: string, mtime: int)
    | Write(text: string)
    | Rename(mtime: int)
    | Fail
    | Learn
    | Open
    | Release(i: nat)
    | Restart

  /** What a file must hold to be served under a key. */
  predicate Right(env: Env, task: Task, key: string, content: string) {
    if key == KeyOf(task.version, MANIFEST) then
      var m := env.decode(content);
      |content| <= MAX_METADATA && m.Some? && ValidManifest(m.value, task.version)
    else if task.manifest.None? then false
    else if key == KeyOf(task.version, CHECKSUMS) then
      |content| <= MAX_METADATA && content == Checksums(task.manifest.value.assets)
    else
      exists x <- task.manifest.value.assets ::
        key == KeyOf(task.version, x.name) && |content| == x.size && env.sha(content) == x.sha
  }

  /** A held file: listed once, regular, with this content. */
  ghost predicate Holds(dir: seq<Entry>, key: string, content: string) {
    exists e <- dir :: e.name == key && e.regular && e.content == content
  }

  predicate Stale(e: Entry) { StartsWith(e.name, TEMP) && e.regular }

  function StaleNames(dir: seq<Entry>): seq<string> {
    if dir == [] then [] else (if Stale(dir[0]) then [dir[0].name] else []) + StaleNames(dir[1..])
  }

  /** Leftover downloads go the first time. */
  function Swept(s: System): seq<Entry> { if s.initialized then s.dir else WithoutAll(s.dir, StaleNames(s.dir)) }

  function EntryNamed(dir: seq<Entry>, name: string): Option<Entry> {
    if dir == [] then None else if dir[0].name == name then Some(dir[0]) else EntryNamed(dir[1..], name)
  }

  predicate Served(env: Env, task: Task, dir: seq<Entry>, key: string) {
    var e := EntryNamed(dir, key);
    e.Some? && e.value.regular && Right(env, task, key, e.value.content)
  }

  function Abandoned(s: System): System {
    s.(phase := Idle, dir := if s.phase.Writing? then Without(s.dir, s.phase.temp) else s.dir)
  }

  /** Metadata by its fixed name; a binary only when the manifest lists it. */
  predicate Servable(task: Task, asset: string) {
    || asset == MANIFEST
    || (task.manifest.Some? && (asset == CHECKSUMS || exists x <- task.manifest.value.assets :: x.name == asset))
  }

  ghost predicate Enabled(env: Env, s: System, m: Move) {
    match m
    case Enter(version) => s.phase.Idle? && ValidVersion(version)
    case Prepare(order) => s.phase.Entered? && OldestFirst(order, Swept(s), s.refs)
    case Look(asset) => s.phase.Ready? && Servable(s.phase.task, asset)
    case Reserve(order, size) => s.phase.Cleared? && OldestFirst(order, s.dir, s.refs)
    case Create(temp, _) => s.phase.Reserved? && StartsWith(temp, TEMP) && !Has(s.dir, temp)
    case Write(text) => s.phase.Writing? && |s.phase.text| + |text| <= s.phase.size
    case Rename(_) => s.phase.Writing? && Right(env, s.phase.task, s.phase.key, s.phase.text)
    case Fail => !s.phase.Idle?
    case Learn => s.phase.Verified? && s.phase.key == KeyOf(s.phase.task.version, MANIFEST)
                  && EntryNamed(s.dir, s.phase.key).Some?
    case Open => s.phase.Verified? && EntryNamed(s.dir, s.phase.key).Some?
    case Release(i) => i < |s.leases|
    case Restart => true
  }

  function Acquire(refs: map<string, nat>, key: string): map<string, nat> { refs[key := RefCount(refs, key) + 1] }

  /** The counter of a file nobody holds any more is dropped. */
  function Dropped(refs: map<string, nat>, key: string): map<string, nat> {
    if RefCount(refs, key) <= 1 then refs - {key} else refs[key := RefCount(refs, key) - 1]
  }

  function Go(env: Env, s: System, m: Move): System
    requires Enabled(env, s, m)
  {
    match m
    case Enter(version) => s.(phase := Entered(Task(version, None)))
    case Prepare(order) =>
      var (dir, ok) := RoomMade(Swept(s), order, 0, env.max);
      s.(dir := dir, initialized := true, ready := s.ready || ok, phase := if ok then Ready(s.phase.task) else Idle)
    case Look(asset) =>
      var (task, key) := (s.phase.task, KeyOf(s.phase.task.version, asset));
      if Served(env, task, s.dir, key) then s.(phase := Verified(task, key))
      else if RefCount(s.refs, key) != 0 then s.(phase := Idle)
      else s.(dir := Without(s.dir, key), phase := Cleared(task, key))
    case Reserve(order, size) =>
      var (dir, ok) := RoomMade(s.dir, order, size, env.max);
      s.(dir := dir, phase := if ok then Reserved(s.phase.task, s.phase.key, size) else Idle)
    case Create(temp, mtime) =>
      s.(dir := s.dir + [Entry(temp, "", mtime, true)],
         phase := Writing(s.phase.task, s.phase.key, s.phase.size, temp, mtime, ""))
    case Write(text) =>
      var text' := s.phase.text + text;
      s.(dir := Without(s.dir, s.phase.temp) + [Entry(s.phase.temp, text', s.phase.mtime, true)],
         phase := s.phase.(text := text'))
    case Rename(mtime) =>
      var (task, key) := (s.phase.task, s.phase.key);
      s.(dir := Without(Without(s.dir, s.phase.temp), key) + [Entry(key, s.phase.text, mtime, true)],
         phase := Verified(task, key))
    case Fail => Abandoned(s)
    case Learn =>
      s.(phase := Ready(s.phase.task.(manifest := env.decode(EntryNamed(s.dir, s.phase.key).value.content))))
    case Open =>
      var (task, key) := (s.phase.task, s.phase.key);
      s.(refs := Acquire(s.refs, key), phase := Idle,
         leases := s.leases + [Lease(task, key, EntryNamed(s.dir, key).value.content)])
    case Release(i) =>
      s.(refs := Dropped(s.refs, s.leases[i].key), leases := s.leases[..i] + s.leases[i + 1..])
    case Restart => s.(refs := map[], leases := [], initialized := false, ready := false, phase := Idle)
  }

  // ---- what every run keeps ----

  function Count(leases: seq<Lease>, key: string): nat {
    if leases == [] then 0 else (if leases[0].key == key then 1 else 0) + Count(leases[1..], key)
  }

  /** Bytes promised to the download in progress and not yet written. */
  function Owed(p: Phase): int {
    match p
    case Reserved(_, _, size) => size
    case Writing(_, _, size, _, _, text) => size - |text|
    case _ => 0
  }

  ghost predicate InRoom(env: Env, s: System) {
    && Unique(s.dir) && (s.ready ==> Total(s.dir) + Owed(s.phase) <= env.max)
    && (!s.phase.Idle? && !s.phase.Entered? ==> s.ready)
  }

  ghost predicate GoodKey(key: string) { Managed(key) && !StartsWith(key, TEMP) }

  /** The manifest of a task is the decoding of a file that may be served as the manifest of its version. */
  ghost predicate FromFile(env: Env, task: Task) {
    task.manifest.Some? ==> exists text :: |text| <= MAX_METADATA && env.decode(text) == task.manifest
  }

  ghost predicate Vouched(env: Env, task: Task) {
    && ValidVersion(task.version) && FromFile(env, task)
    && (task.manifest.Some? ==> ValidManifest(task.manifest.value, task.version))
  }

  ghost predicate TaskSound(env: Env, p: Phase) {
    && (!p.Idle? ==> Vouched(env, p.task))
    && (p.Cleared? || p.Reserved? || p.Writing? || p.Verified? ==> GoodKey(p.key))
  }

  ghost predicate PhaseSound(env: Env, dir: seq<Entry>, p: Phase) {
    && (p.Cleared? || p.Reserved? || p.Writing? ==> !Has(dir, p.key))
    && (p.Writing? ==> |p.text| <= p.size && StartsWith(p.temp, TEMP) && Entry(p.temp, p.text, p.mtime, true) in dir)
    && (p.Verified? ==> exists e <- dir :: e.name == p.key && e.regular && Right(env, p.task, p.key, e.content))
  }

  /** Counters are exactly the leases out; what each serves is still there, and is what a checked manifest calls for. */
  ghost predicate LeasesSound(env: Env, s: System) {
    && (forall key :: RefCount(s.refs, key) == Count(s.leases, key))
    && (forall i :: 0 <= i < |s.leases| ==>
          var l := s.leases[i];
          GoodKey(l.key) && Vouched(env, l.task) && Holds(s.dir, l.key, l.content) && Right(env, l.task, l.key, l.content))
  }

  ghost predicate Sound(env: Env, s: System) {
    InRoom(env, s) && TaskSound(env, s.phase) && PhaseSound(env, s.dir, s.phase) && LeasesSound(env, s)
  }

  lemma {:induction false} CountPositive(leases: seq<Lease>, i: nat)
    requires i < |leases|
    ensures Count(leases, leases[i].key) > 0
  {
    if i > 0 {
      CountPositive(leases[1..], i - 1);
    }
  }

  lemma {:induction false} CountConcat(a: seq<Lease>, b: seq<Lease>, key: string)
    ensures Count(a + b, key) == Count(a, key) + Count(b, key)
  {
    if a == [] {
      assert a + b == b;
    } else {
      assert (a + b)[1..] == a[1..] + b;
      CountConcat(a[1..], b, key);
    }
  }

  lemma {:induction false} EntryNamedExactly(dir: seq<Entry>, name: string)
    requires Unique(dir)
    ensures var e := EntryNamed(dir, name);
      (e.Some? ==> e.value in dir && e.value.name == name) && (e.None? ==> !Has(dir, name))
    ensures forall e <- dir :: e.name == name ==> EntryNamed(dir, name) == Some(e)
  {
    if dir != [] {
      EntryNamedExactly(dir[1..], name);
      assert dir == [dir[0]] + dir[1..];
      assert forall e <- dir[1..] :: e.name != dir[0].name;
    }
  }

  // ---- directory changes that leave leased files alone ----

  ghost predicate Spares(dir: seq<Entry>, dir': seq<Entry>, leases: seq<Lease>) {
    forall i :: 0 <= i < |leases| && Holds(dir, leases[i].key, leases[i].content) ==> Holds(dir', leases[i].key, leases[i].content)
  }

  lemma {:induction false} WithoutSpares(dir: seq<Entry>, name: string, leases: seq<Lease>)
    requires forall i :: 0 <= i < |leases| ==> leases[i].key != name
    ensures Spares(dir, Without(dir, name), leases)
  {
  }

  lemma {:induction false} EvictionSpares(env: Env, s: System, dir: seq<Entry>, order: seq<Entry>, extra: nat)
    requires LeasesSound(env, s) && Unique(dir) && OldestFirst(order, dir, s.refs)
    ensures Spares(dir, Evicted(dir, order, extra, env.max), s.leases)
  {
    hide Right, Managed, Evicted, Total;
    EvictedKeeps(dir, order, extra, env.max);
    forall i | 0 <= i < |s.leases| && Holds(dir, s.leases[i].key, s.leases[i].content)
      ensures Holds(Evicted(dir, order, extra, env.max), s.leases[i].key, s.leases[i].content)
    {
      CountPositive(s.leases, i);
      var e :| e in dir && e.name == s.leases[i].key && e.regular && e.content == s.leases[i].content;
      assert RefCount(s.refs, e.name) > 0;
      assert forall x <- order :: x.name != e.name;
    }
  }

  lemma {:induction false} WithoutAllUnique(dir: seq<Entry>, names: seq<string>)
    requires Unique(dir)
    ensures Unique(WithoutAll(dir, names))
    decreases |names|
  {
    if names != [] {
      WithoutUnique(dir, names[0]);
      WithoutAllUnique(Without(dir, names[0]), names[1..]);
    }
  }

  lemma {:induction false} StaleNamesOnly(dir: seq<Entry>)
    ensures forall n <- StaleNames(dir) :: StartsWith(n, TEMP)
  {
    if dir != [] {
      StaleNamesOnly(dir[1..]);
    }
  }

  lemma {:induction false} SweepSpares(env: Env, s: System)
    requires LeasesSound(env, s) && Unique(s.dir)
    ensures Unique(Swept(s)) && Spares(s.dir, Swept(s), s.leases)
  {
    hide Right, Managed;
    WithoutAllUnique(s.dir, StaleNames(s.dir));
    StaleNamesOnly(s.dir);
    forall i | 0 <= i < |s.leases| && Holds(s.dir, s.leases[i].key, s.leases[i].content)
      ensures Holds(Swept(s), s.leases[i].key, s.leases[i].content)
    {
      var e :| e in s.dir && e.name == s.leases[i].key && e.regular && e.content == s.leases[i].content;
      assert e in Swept(s);
    }
  }

  /** Same leases and counters over a directory that spares them. */
  lemma {:induction false} SparedSound(env: Env, s: System, s': System)
    requires LeasesSound(env, s) && s'.refs == s.refs && s'.leases == s.leases && Spares(s.dir, s'.dir, s.leases)
    ensures LeasesSound(env, s')
  {
    hide Right, Managed, Holds;
  }

  // ---- the moves ----

  lemma {:induction false} ServableKey(task: Task, asset: string)
    requires Servable(task, asset) && ValidVersion(task.version)
    requires task.manifest.Some? ==> ValidManifest(task.manifest.value, task.version)
    ensures GoodKey(KeyOf(task.version, asset))
  {
    if task.manifest.Some? {
      ManifestNames(task.manifest.value, task.version);
    }
    KeysApart(task.version, asset);
  }

  lemma {:induction false} PrepareSound(env: Env, s: System, order: seq<Entry>)
    requires Sound(env, s) && Enabled(env, s, Prepare(order))
    ensures Sound(env, Go(env, s, Prepare(order)))
  {
    hide Right, Managed, Evicted, Total, ValidManifest, Spares, OldestFirst, Swept, Holds, GoodKey, LeasesSound;
    SweepSpares(env, s);
    var s1 := s.(dir := Swept(s));
    SparedSound(env, s, s1);
    EvictionSpares(env, s1, s1.dir, order, 0);
    EvictedKeeps(s1.dir, order, 0, env.max);
    SpareNothing(s1.dir, s.leases);
    if env.max <= 0 { SweptTotal(s); }
    SweptTotal(s);
    SparedSound(env, s1, Go(env, s, Prepare(order)));
  }

  lemma SpareNothing(dir: seq<Entry>, leases: seq<Lease>)
    ensures Spares(dir, dir, leases)
  {
  }

  lemma {:induction false} WithoutAllTotal(dir: seq<Entry>, names: seq<string>)
    requires Unique(dir)
    ensures Total(WithoutAll(dir, names)) <= Total(dir)
    decreases |names|
  {
    if names != [] {
      WithoutKeeps(dir, names[0]);
      WithoutAllTotal(Without(dir, names[0]), names[1..]);
    }
  }

  lemma SweptTotal(s: System)
    requires Unique(s.dir)
    ensures Total(Swept(s)) <= Total(s.dir)
  {
    WithoutAllTotal(s.dir, StaleNames(s.dir));
  }

  lemma {:induction false} LookSound(env: Env, s: System, asset: string)
    requires Sound(env, s) && Enabled(env, s, Look(asset))
    ensures Sound(env, Go(env, s, Look(asset)))
  {
    hide Right, Managed, Total, ValidManifest, ValidVersion, Spares, GoodKey, LeasesSound, Holds, Servable;
    var key := KeyOf(s.phase.task.version, asset);
    ServableKey(s.phase.task, asset);
    EntryNamedExactly(s.dir, key);
    WithoutKeeps(s.dir, key);
    SpareNothing(s.dir, s.leases);
    if RefCount(s.refs, key) == 0 {
      UnleasedSpares(env, s, key);
    }
    SparedSound(env, s, Go(env, s, Look(asset)));
  }

  lemma {:induction false} UnleasedSpares(env: Env, s: System, key: string)
    requires LeasesSound(env, s) && RefCount(s.refs, key) == 0
    ensures Spares(s.dir, Without(s.dir, key), s.leases)
  {
    hide Right, Managed, Holds;
    forall i | 0 <= i < |s.leases| ensures s.leases[i].key != key {
      CountPositive(s.leases, i);
    }
    WithoutSpares(s.dir, key, s.leases);
  }

  lemma {:induction false} ReserveSound(env: Env, s: System, order: seq<Entry>, size: nat)
    requires Sound(env, s) && Enabled(env, s, Reserve(order, size))
    ensures Sound(env, Go(env, s, Reserve(order, size)))
  {
    hide Right, Managed, Evicted, Total, ValidManifest, ValidVersion, Spares, OldestFirst, Holds, GoodKey, LeasesSound;
    EvictionSpares(env, s, s.dir, order, size);
    EvictedKeeps(s.dir, order, size, env.max);
    SpareNothing(s.dir, s.leases);
    SparedSound(env, s, Go(env, s, Reserve(order, size)));
  }

  lemma {:induction false} TotalConcat(a: seq<Entry>, b: seq<Entry>)
    ensures Total(a + b) == Total(a) + Total(b)
  {
    if a == [] {
      assert a + b == b;
    } else {
      assert (a + b)[1..] == a[1..] + b;
      TotalConcat(a[1..], b);
    }
  }

  /** A new file under a name not in use. */
  lemma {:induction false} Added(dir: seq<Entry>, e: Entry, leases: seq<Lease>)
    requires Unique(dir) && !Has(dir, e.name)
    ensures Unique(dir + [e]) && Total(dir + [e]) == Total(dir) + SizeOf(e) && e in dir + [e]
    ensures Spares(dir, dir + [e], leases)
  {
    TotalConcat(dir, [e]);
    assert forall i :: 0 <= i < |dir| ==> dir[i] in dir;
    forall i | 0 <= i < |leases| && Holds(dir, leases[i].key, leases[i].content)
      ensures Holds(dir + [e], leases[i].key, leases[i].content)
    {
      var x :| x in dir && x.name == leases[i].key && x.regular && x.content == leases[i].content;
      assert x in dir + [e];
    }
  }

  lemma {:induction false} SparesChain(a: seq<Entry>, b: seq<Entry>, c: seq<Entry>, leases: seq<Lease>)
    requires Spares(a, b, leases) && Spares(b, c, leases)
    ensures Spares(a, c, leases)
  {
    hide Holds;
  }

  /** Leases never name a temporary file. */
  lemma {:induction false} TempSpares(env: Env, s: System, temp: string)
    requires LeasesSound(env, s) && StartsWith(temp, TEMP)
    ensures Spares(s.dir, Without(s.dir, temp), s.leases)
  {
    hide Right, Managed, Holds, StartsWith;
    assert forall i :: 0 <= i < |s.leases| ==> s.leases[i].key != temp;
    WithoutSpares(s.dir, temp, s.leases);
  }

  lemma {:induction false} TempGone(dir: seq<Entry>, e: Entry)
    requires Unique(dir) && e in dir
    ensures var rest := Without(dir, e.name);
      Unique(rest) && Total(rest) == Total(dir) - SizeOf(e) && !Has(rest, e.name)
  {
    var k :| 0 <= k < |dir| && dir[k] == e;
    WithoutTotal(dir, k);
    WithoutUnique(dir, e.name);
  }

  lemma {:induction false} CreateSound(env: Env, s: System, temp: string, mtime: int)
    requires Sound(env, s) && Enabled(env, s, Create(temp, mtime))
    ensures Sound(env, Go(env, s, Create(temp, mtime)))
  {
    hide Right, Managed, Total, ValidManifest, ValidVersion, Spares, Holds, LeasesSound, Unique, StartsWith;
    var e := Entry(temp, "", mtime, true);
    Added(s.dir, e, s.leases);
    assert !Has(s.dir + [e], s.phase.key);
    SparedSound(env, s, Go(env, s, Create(temp, mtime)));
  }

  lemma {:induction false} WriteSound(env: Env, s: System, text: string)
    requires Sound(env, s) && Enabled(env, s, Write(text))
    ensures Sound(env, Go(env, s, Write(text)))
  {
    hide Right, Managed, Total, ValidManifest, ValidVersion, Spares, Holds, LeasesSound, Unique, StartsWith;
    var p := s.phase;
    var (was, e) := (Entry(p.temp, p.text, p.mtime, true), Entry(p.temp, p.text + text, p.mtime, true));
    var rest := Without(s.dir, p.temp);
    TempGone(s.dir, was);
    TempSpares(env, s, p.temp);
    Added(rest, e, s.leases);
    SparesChain(s.dir, rest, rest + [e], s.leases);
    TempNotKey(p.temp, p.key);
    assert !Has(rest + [e], p.key);
    SparedSound(env, s, Go(env, s, Write(text)));
  }

  lemma TempNotKey(temp: string, key: string)
    requires StartsWith(temp, TEMP) && GoodKey(key)
    ensures temp != key
  {
  }

  lemma {:induction false} RenameSound(env: Env, s: System, mtime: int)
    requires Sound(env, s) && Enabled(env, s, Rename(mtime))
    ensures Sound(env, Go(env, s, Rename(mtime)))
  {
    hide Right, Managed, Total, ValidManifest, ValidVersion, Spares, Holds, LeasesSound, Unique, StartsWith, GoodKey, Has;
    var p := s.phase;
    var (was, e) := (Entry(p.temp, p.text, p.mtime, true), Entry(p.key, p.text, mtime, true));
    var rest := Without(s.dir, p.temp);
    TempGone(s.dir, was);
    TempSpares(env, s, p.temp);
    assert !Has(rest, p.key) by { StillNone(s.dir, p.key, p.temp); }
    NothingNamed(rest, p.key);
    Added(rest, e, s.leases);
    SparesChain(s.dir, rest, rest + [e], s.leases);
    SparedSound(env, s, Go(env, s, Rename(mtime)));
  }

  lemma StillNone(dir: seq<Entry>, name: string, other: string)
    requires !Has(dir, name)
    ensures !Has(Without(dir, other), name)
  {
  }

  lemma NothingNamed(dir: seq<Entry>, name: string)
    requires !Has(dir, name)
    ensures Without(dir, name) == dir
  {
    assert forall i :: 0 <= i < |dir| ==> dir[i] in dir;
    CacheSpec.WithoutNone(dir, name);
  }

  lemma {:induction false} FailSound(env: Env, s: System)
    requires Sound(env, s) && Enabled(env, s, Fail)
    ensures Sound(env, Go(env, s, Fail))
  {
    hide Right, Managed, Total, ValidManifest, ValidVersion, Spares, Holds, LeasesSound, Unique, StartsWith;
    SpareNothing(s.dir, s.leases);
    if s.phase.Writing? {
      TempGone(s.dir, Entry(s.phase.temp, s.phase.text, s.phase.mtime, true));
      TempSpares(env, s, s.phase.temp);
    }
    SparedSound(env, s, Go(env, s, Fail));
  }

  lemma {:induction false} LearnSound(env: Env, s: System)
    requires Sound(env, s) && Enabled(env, s, Learn)
    ensures Sound(env, Go(env, s, Learn))
  {
    hide Managed, Total, ValidManifest, ValidVersion, Spares, LeasesSound;
    EntryNamedExactly(s.dir, s.phase.key);
    SpareNothing(s.dir, s.leases);
    SparedSound(env, s, Go(env, s, Learn));
  }

  lemma {:induction false} OpenSound(env: Env, s: System)
    requires Sound(env, s) && Enabled(env, s, Open)
    ensures Sound(env, Go(env, s, Open))
  {
    hide Right, Managed, Total, ValidManifest, ValidVersion;
    var key := s.phase.key;
    EntryNamedExactly(s.dir, key);
    var lease := Lease(s.phase.task, key, EntryNamed(s.dir, key).value.content);
    var s' := Go(env, s, Open);
    forall k ensures RefCount(s'.refs, k) == Count(s'.leases, k) {
      CountConcat(s.leases, [lease], k);
    }
    assert Holds(s'.dir, key, lease.content);
  }

  lemma {:induction false} ReleaseSound(env: Env, s: System, i: nat)
    requires Sound(env, s) && Enabled(env, s, Release(i))
    ensures Sound(env, Go(env, s, Release(i)))
  {
    hide Right, Managed, Total, ValidManifest, ValidVersion, Holds;
    var (a, b) := (s.leases[..i], s.leases[i + 1..]);
    var s' := Go(env, s, Release(i));
    assert s.leases == a + [s.leases[i]] + b;
    CountPositive(s.leases, i);
    forall k ensures RefCount(s'.refs, k) == Count(s'.leases, k) {
      CountConcat(a + [s.leases[i]], b, k);
      CountConcat(a, [s.leases[i]], k);
      CountConcat(a, b, k);
    }
  }

  lemma {:induction false} MoveSound(env: Env, s: System, m: Move)
    requires Sound(env, s) && Enabled(env, s, m)
    ensures Sound(env, Go(env, s, m))
  {
    hide Sound, Go, Enabled;
    match m
    case Enter(version) => EnterSound(env, s, version);
    case Prepare(order) => PrepareSound(env, s, order);
    case Look(asset) => LookSound(env, s, asset);
    case Reserve(order, size) => ReserveSound(env, s, order, size);
    case Create(temp, mtime) => CreateSound(env, s, temp, mtime);
    case Write(text) => WriteSound(env, s, text);
    case Rename(mtime) => RenameSound(env, s, mtime);
    case Fail => FailSound(env, s);
    case Learn => LearnSound(env, s);
    case Open => OpenSound(env, s);
    case Release(i) => ReleaseSound(env, s, i);
    case Restart => RestartSound(env, s);
  }

  lemma {:induction false} EnterSound(env: Env, s: System, version: string)
    requires Sound(env, s) && Enabled(env, s, Enter(version))
    ensures Sound(env, Go(env, s, Enter(version)))
  {
    hide Right, Managed, Total, ValidVersion, Spares, LeasesSound;
    SpareNothing(s.dir, s.leases);
    SparedSound(env, s, Go(env, s, Enter(version)));
  }

  lemma RestartSound(env: Env, s: System)
    requires Sound(env, s)
    ensures Sound(env, Go(env, s, Restart))
  {
    hide Right, Managed, Total, ValidVersion;
  }

  // ---- runs ----

  /** A process that starts over whatever the directory holds. */
  function Start(dir: seq<Entry>): System { System(dir, map[], [], false, false, Idle) }

  function GoAll(env: Env, dir: seq<Entry>, moves: seq<Move>): System
    requires ValidRun(env, dir, moves)
    decreases |moves|, 1
  {
    if moves == [] then Start(dir) else Go(env, GoAll(env, dir, moves[..|moves| - 1]), moves[|moves| - 1])
  }

  ghost predicate ValidRun(env: Env, dir: seq<Entry>, moves: seq<Move>)
    decreases |moves|, 0
  {
    moves == [] || (ValidRun(env, dir, moves[..|moves| - 1])
                    && Enabled(env, GoAll(env, dir, moves[..|moves| - 1]), moves[|moves| - 1]))
  }

  lemma {:induction false} AlwaysSound(env: Env, dir: seq<Entry>, moves: seq<Move>)
    requires Unique(dir) && ValidRun(env, dir, moves)
    ensures Sound(env, GoAll(env, dir, moves))
  {
    if moves != [] {
      hide Sound, Go, Enabled;
      AlwaysSound(env, dir, moves[..|moves| - 1]);
      MoveSound(env, GoAll(env, dir, moves[..|moves| - 1]), moves[|moves| - 1]);
    }
  }

  /** Move `k` of the run learned the manifest of `task` from a verified manifest file of its version. */
  ghost predicate LearnedFrom(env: Env, dir: seq<Entry>, moves: seq<Move>, k: int, task: Task) {
    && 0 <= k < |moves| && moves[k].Learn? && ValidRun(env, dir, moves[..k])
    && var s := GoAll(env, dir, moves[..k]);
       && s.phase.Verified? && s.phase.task.version == task.version && s.phase.key == KeyOf(task.version, MANIFEST)
       && exists text :: Holds(s.dir, s.phase.key, text) && Right(env, s.phase.task, s.phase.key, text)
                         && env.decode(text) == task.manifest
  }

  ghost predicate Learned(env: Env, dir: seq<Entry>, moves: seq<Move>, task: Task) {
    task.manifest.Some? ==> exists k :: LearnedFrom(env, dir, moves, k, task)
  }

  lemma LearnedEarlier(env: Env, dir: seq<Entry>, moves: seq<Move>, m: Move, task: Task)
    requires Learned(env, dir, moves, task)
    ensures Learned(env, dir, moves + [m], task)
  {
    hide ValidRun, GoAll, Holds, Right;
    if task.manifest.Some? {
      var k :| LearnedFrom(env, dir, moves, k, task);
      assert (moves + [m])[..k] == moves[..k];
      assert LearnedFrom(env, dir, moves + [m], k, task);
    }
  }

  lemma {:induction false} LearnsNow(env: Env, dir: seq<Entry>, moves: seq<Move>)
    requires Unique(dir) && ValidRun(env, dir, moves) && Enabled(env, GoAll(env, dir, moves), Learn)
    ensures Learned(env, dir, moves + [Learn], Go(env, GoAll(env, dir, moves), Learn).phase.task)
  {
    AlwaysSound(env, dir, moves);
    var s := GoAll(env, dir, moves);
    hide GoAll, ValidRun, Right, Managed, Total;
    assert (moves + [Learn])[..|moves|] == moves;
    EntryNamedExactly(s.dir, s.phase.key);
    var text := EntryNamed(s.dir, s.phase.key).value.content;
    assert Holds(s.dir, s.phase.key, text) && Right(env, s.phase.task, s.phase.key, text);
    assert LearnedFrom(env, dir, moves + [Learn], |moves|, Go(env, s, Learn).phase.task);
  }

  /** A move keeps the task of the request, starts a new one without a manifest, or learns. */
  lemma MoveKeepsTask(env: Env, s: System, m: Move)
    requires Enabled(env, s, m) && !m.Learn?
    ensures var s' := Go(env, s, m);
      && (!s'.phase.Idle? ==> s'.phase.task.manifest.None? || (!s.phase.Idle? && s'.phase.task == s.phase.task))
      && (forall l <- s'.leases :: l in s.leases || (!s.phase.Idle? && l.task == s.phase.task))
  {
    hide Served, RoomMade, Swept, Without, Total;
  }

  ghost predicate AllLearned(env: Env, dir: seq<Entry>, moves: seq<Move>, s: System) {
    (!s.phase.Idle? ==> Learned(env, dir, moves, s.phase.task)) && (forall l <- s.leases :: Learned(env, dir, moves, l.task))
  }

  lemma AllLearnedEarlier(env: Env, dir: seq<Entry>, moves: seq<Move>, m: Move, s: System)
    requires AllLearned(env, dir, moves, s)
    ensures AllLearned(env, dir, moves + [m], s)
  {
    hide Learned;
    if !s.phase.Idle? { LearnedEarlier(env, dir, moves, m, s.phase.task); }
    forall l | l in s.leases ensures Learned(env, dir, moves + [m], l.task) { LearnedEarlier(env, dir, moves, m, l.task); }
  }

  lemma AllLearnedNext(env: Env, dir: seq<Entry>, moves: seq<Move>, m: Move)
    requires Unique(dir) && ValidRun(env, dir, moves) && Enabled(env, GoAll(env, dir, moves), m)
    requires AllLearned(env, dir, moves, GoAll(env, dir, moves))
    ensures AllLearned(env, dir, moves + [m], Go(env, GoAll(env, dir, moves), m))
  {
    hide Learned, Go, GoAll, ValidRun, Enabled;
    var s := GoAll(env, dir, moves);
    AllLearnedEarlier(env, dir, moves, m, s);
    if m.Learn? {
      LearnsNow(env, dir, moves);
      LearnKeepsLeases(env, s);
    } else {
      MoveKeepsTask(env, s, m);
      NoneLearned(env, dir, moves + [m]);
    }
  }

  /** Every manifest in use, by the request or by a lease, was read from a checked file of its version. */
  lemma {:induction false} ManifestsLearned(env: Env, dir: seq<Entry>, moves: seq<Move>)
    requires Unique(dir) && ValidRun(env, dir, moves)
    ensures AllLearned(env, dir, moves, GoAll(env, dir, moves))
  {
    if moves != [] {
      hide Learned, Go, Enabled, AllLearned;
      var front := moves[..|moves| - 1];
      ManifestsLearned(env, dir, front);
      AllLearnedNext(env, dir, front, moves[|moves| - 1]);
      assert moves == front + [moves[|moves| - 1]];
    }
  }

  lemma LearnKeepsLeases(env: Env, s: System)
    requires Enabled(env, s, Learn)
    ensures Go(env, s, Learn).leases == s.leases
  {
  }

  lemma NoneLearned(env: Env, dir: seq<Entry>, moves: seq<Move>)
    ensures forall task: Task :: task.manifest.None? ==> Learned(env, dir, moves, task)
  {
  }

  /**
   * Whatever the directory held at first and however requests, failures, releases and restarts
   * interleave: once a request has prepared the cache its regular files, the download in progress
   * and what that download may still write fit the capacity; the counters are exactly the leases
   * out; and every file being served is in place with the content it was opened with, which is
   * what its manifest calls for: a valid manifest of the version, read earlier in the run from a
   * manifest file that had been checked under that version.
   */
  lemma {:induction false} CacheAlwaysSafe(env: Env, dir: seq<Entry>, moves: seq<Move>)
    requires Unique(dir) && ValidRun(env, dir, moves)
    ensures var s := GoAll(env, dir, moves);
      && (s.ready ==> Total(s.dir) <= Total(s.dir) + Owed(s.phase) <= env.max)
      && (forall key :: RefCount(s.refs, key) == Count(s.leases, key))
      && (forall i :: 0 <= i < |s.leases| ==>
            var l := s.leases[i];
            && Holds(s.dir, l.key, l.content) && Right(env, l.task, l.key, l.content)
            && ValidVersion(l.task.version) && Learned(env, dir, moves, l.task)
            && (l.task.manifest.Some? ==> ValidManifest(l.task.manifest.value, l.task.version)))
  {
    AlwaysSound(env, dir, moves);
    ManifestsLearned(env, dir, moves);
    hide GoAll, ValidRun, Total, Right, Holds, TaskSound, Learned, ValidManifest, ValidVersion;
    forall i | 0 <= i < |GoAll(env, dir, moves).leases| ensures Learned(env, dir, moves, GoAll(env, dir, moves).leases[i].task) {
      assert GoAll(env, dir, moves).leases[i] in GoAll(env, dir, moves).leases;
    }
  }
}
