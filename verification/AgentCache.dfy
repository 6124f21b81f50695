/**
 * The release cache as the hub runs it: one directory, one counter per served file, and requests
 * that prepare, check, download and open while holding the gate.
 */
module AgentCache {
  import opened Basics
  import opened CacheSpec
  import opened CacheProtocol
  import opened CacheServes

  class Cache {
    const env: Env
    var dir: seq<Entry>
    var refs: map<string, nat>
    var initialized: bool

    // Where the gate holder is, the leases out, and whether this process has prepared the cache.
    ghost var phase: Phase
    ghost var leases: seq<Lease>
    ghost var ready: bool

    ghost function Now(): System
      reads this
    {
      System(dir, refs, leases, initialized, ready, phase)
    }

    constructor (env: Env, dir: seq<Entry>)
      requires Unique(dir)
      ensures this.env == env && Now() == Start(dir) && Sound(env, Now())
    {
      this.env, this.dir := env, dir;
      refs, initialized := map[], false;
      phase, leases, ready := Idle, [], false;
    }

    /** One pass over the directory: the bytes in use, and what may be evicted, oldest first. */
    method Survey() returns (total: nat, candidates: seq<Entry>)
      requires Unique(dir)
      ensures total == Total(dir) && OldestFirst(candidates, dir, refs)
    {
      total, candidates := 0, [];
      var i := 0;
      assert dir[..0] == [];
      while i < |dir|
        invariant 0 <= i <= |dir|
        invariant total == Total(dir[..i]) && OldestFirst(candidates, dir[..i], refs)
      {
        var e := dir[i];
        assert dir[..i + 1] == dir[..i] + [e];
        TotalConcat(dir[..i], [e]);
        if e.regular {
          total := total + |e.content|;
          if Managed(e.name) && RefCount(refs, e.name) == 0 {
            candidates := InsertByAge(candidates, e);
          }
        }
        i := i + 1;
      }
      assert dir[..|dir|] == dir;
    }

    method MakeRoom(extra: nat) returns (ok: bool, ghost order: seq<Entry>)
      requires Unique(dir)
      modifies this`dir
      ensures OldestFirst(order, old(dir), refs) && (dir, ok) == RoomMade(old(dir), order, extra, env.max)
      ensures Unique(dir) && ok == CanFit(old(dir), refs, extra, env.max) && OlderWent(old(dir), dir, refs)
    {
      var total, candidates := Survey();
      order := candidates;
      if extra > env.max || env.max <= 0 {
        return false, order;
      }
      assert NamesApart(order) && forall e <- order :: e in dir && e.regular;
      EvictsOldest(dir, order, refs, extra, env.max);
      RoomExactly(dir, order, refs, extra, env.max);
      hide OldestFirst, Evicted, Unique, NamesApart, Total;
      ok := EvictOldest(candidates, total, extra);
    }

    /** Deletes along the candidates until there is room. */
    method EvictOldest(candidates: seq<Entry>, total0: nat, extra: nat) returns (ok: bool)
      requires Unique(dir) && NamesApart(candidates) && total0 == Total(dir)
      requires forall e <- candidates :: e in dir && e.regular
      modifies this`dir
      ensures dir == Evicted(old(dir), candidates, extra, env.max) && Unique(dir) && ok == Fits(dir, extra, env.max)
    {
      hide Evicted, Unique, NamesApart, Total;
      var total := total0;
      var i := 0;
      assert candidates[0..] == candidates;
      while i < |candidates| && total + extra > env.max
        invariant 0 <= i <= |candidates| && Unique(dir) && total == Total(dir)
        invariant Evicted(dir, candidates[i..], extra, env.max) == Evicted(old(dir), candidates, extra, env.max)
        invariant forall j :: i <= j < |candidates| ==> candidates[j] in dir && candidates[j].regular
      {
        var e := candidates[i];
        EvictOne(dir, candidates, i, extra, env.max);
        TempGone(dir, e);
        OthersStay(dir, candidates, i);
        dir := Without(dir, e.name);
        total := total - |e.content|;
        i := i + 1;
      }
      EvictNoMore(dir, candidates[i..], extra, env.max);
      ok := total + extra <= env.max;
    }

    /** A file that fails its check is removed, unless it is being served. */
    method Discard(key: string) returns (ok: bool)
      modifies this`dir
      ensures ok == (RefCount(refs, key) == 0) && dir == if ok then Without(old(dir), key) else old(dir)
    {
      ok := !(key in refs && refs[key] != 0);
      if ok { dir := Without(dir, key); }
    }

    method Prepare(task: Task) returns (ok: bool)
      requires Sound(env, Now()) && phase == Entered(task)
      modifies this
      ensures exists order :: Enabled(env, old(Now()), Move.Prepare(order)) && Now() == Go(env, old(Now()), Move.Prepare(order))
      ensures Sound(env, Now()) && Shrunk(old(dir), dir) && leases == old(leases) && refs == old(refs)
      ensures phase == if ok then Ready(task) else Idle
      ensures Prepared(env, old(Now()), dir) && ok == CanFit(Swept(old(Now())), refs, 0, env.max)
    {
      hide Sound, Evicted, Evictable, HeldBytes;
      ghost var s := Now();
      SweptUnique(env, s);
      if !initialized {
        dir := WithoutAll(dir, StaleNames(dir));
        initialized := true;
      }
      ghost var order;
      ok, order := MakeRoom(0);
      phase, ready := if ok then Ready(task) else Idle, ready || ok;
      assert Enabled(env, s, Move.Prepare(order)) && Now() == Go(env, s, Move.Prepare(order));
      PrepareSound(env, s, order);
      EvictedShrinks(Swept(s), order, 0, env.max);
    }

    /** Checks what is cached under the key; otherwise clears the way for a download. */
    method Look(task: Task, asset: string) returns (served: bool, ok: bool)
      requires Sound(env, Now()) && phase == Ready(task) && Servable(task, asset)
      modifies this
      ensures Enabled(env, old(Now()), Move.Look(asset)) && Now() == Go(env, old(Now()), Move.Look(asset))
      ensures Sound(env, Now()) && Shrunk(old(dir), dir) && leases == old(leases) && refs == old(refs)
      ensures var key := KeyOf(task.version, asset);
        && phase == (if served then Verified(task, key) else if ok then Cleared(task, key) else Idle)
        && dir == (if ok && !served then Without(old(dir), key) else old(dir))
        && ok == (served || RefCount(refs, key) == 0)
      ensures served == Cached(env, old(dir), task, asset)
    {
      hide Sound, Right, Servable, Genuine, Cached, Unique;
      ghost var s := Now();
      assert Unique(dir) by { SoundUnique(env, s); }
      CachedExactly(env, dir, task, asset);
      LookSound(env, s, asset);
      var key := KeyOf(task.version, asset);
      served := Served(env, task, dir, key);
      if served {
        phase, ok := Verified(task, key), true;
      } else {
        ok := Discard(key);
        phase := if ok then Cleared(task, key) else Idle;
      }
    }

    /** Makes room for `size` bytes, which from then on are promised to this download. */
    method ReserveRoom(task: Task, key: string, size: nat) returns (room: bool)
      requires Sound(env, Now()) && phase == Cleared(task, key)
      modifies this`dir, this`phase
      ensures exists order :: Moved(env, old(Now()), Reserve(order, size), Now())
      ensures Sound(env, Now()) && Shrunk(old(dir), dir) && phase == if room then Reserved(task, key, size) else Idle
      ensures room == CanFit(old(dir), refs, size, env.max)
      ensures room ==> exists order :: OldestFirst(order, old(dir), refs) && dir == Evicted(old(dir), order, size, env.max)
    {
      hide Sound, Evicted, Unique, HeldBytes;
      assert Unique(dir) by { ClearedFacts(env, Now()); }
      ghost var s := Now();
      ghost var order;
      room, order := MakeRoom(size);
      EvictedShrinks(s.dir, order, size, env.max);
      phase := if room then Reserved(task, key, size) else Idle;
      assert Moved(env, s, Reserve(order, size), Now());
      ReserveSound(env, s, order, size);
    }

    /**
     * Writes `text` to a temporary file in the reserved space, and puts it in place if `good`.
     * Whatever happens, no temporary file stays behind.
     */
    method Fill(task: Task, key: string, size: nat, text: string, good: bool, temp: string, now: int)
      requires Sound(env, Now()) && phase == Reserved(task, key, size)
      requires |text| <= size && (good ==> Right(env, task, key, text))
      requires StartsWith(temp, TEMP) && !Has(dir, temp)
      modifies this`dir, this`phase
      ensures Sound(env, Now()) && !Has(dir, temp)
      ensures phase == if good then Verified(task, key) else Idle
      ensures dir == if good then old(dir) + [Entry(key, text, now, true)] else old(dir)
    {
      hide Sound, Right;
      ReservedFacts(env, Now());
      NotNamed(dir, key);
      WriteTemp(task, key, size, text, temp, now);
      PutInPlace(task, key, size, text, good, temp, now);
    }

    method WriteTemp(task: Task, key: string, size: nat, text: string, temp: string, now: int)
      requires Sound(env, Now()) && phase == Reserved(task, key, size)
      requires |text| <= size && StartsWith(temp, TEMP) && !Has(dir, temp)
      modifies this`dir, this`phase
      ensures Sound(env, Now()) && phase == Writing(task, key, size, temp, now, text)
      ensures Without(dir, temp) == old(dir)
    {
      hide Sound, Right, Managed, Has, Without, ValidVersion, StartsWith;
      ghost var s := Now();
      NotNamed(dir, temp);
      AddedAway(dir, Entry(temp, "", now, true));
      AddedAway(dir, Entry(temp, text, now, true));
      dir := dir + [Entry(temp, "", now, true)];
      phase := Writing(task, key, size, temp, now, "");
      CreateSound(env, s, temp, now);
      s := Now();
      dir := Without(dir, temp) + [Entry(temp, text, now, true)];
      phase := Writing(task, key, size, temp, now, text);
      assert "" + text == text;
      WriteSound(env, s, text);
    }

    method PutInPlace(task: Task, key: string, size: nat, text: string, good: bool, temp: string, now: int)
      requires Sound(env, Now()) && phase == Writing(task, key, size, temp, now, text)
      requires good ==> Right(env, task, key, text)
      modifies this`dir, this`phase
      ensures Sound(env, Now()) && !Has(dir, temp)
      ensures phase == if good then Verified(task, key) else Idle
      ensures var rest := Without(old(dir), temp); dir == if good then Without(rest, key) + [Entry(key, text, now, true)] else rest
    {
      hide Sound, Right, Managed, Has;
      ghost var s := Now();
      WritingFacts(env, s);
      TempLeft(dir, temp, key, Entry(key, text, now, true));
      if good {
        dir := Without(Without(dir, temp), key) + [Entry(key, text, now, true)];
        phase := Verified(task, key);
        RenameSound(env, s, now);
      } else {
        dir := Without(dir, temp);
        phase := Idle;
        FailSound(env, s);
      }
    }

    /** Gives up between steps. */
    ghost method Quit()
      requires Sound(env, Now()) && !phase.Idle? && !phase.Writing?
      modifies this`phase
      ensures Sound(env, Now()) && phase.Idle?
    {
      hide Sound;
      QuitSound(env, Now());
      phase := Idle;
    }

    /** Metadata from the cache, or checked before it is stored. `upstream` is None when the download fails. */
    method Metadata(task: Task, asset: string, upstream: Option<string>, temp: string, now: int) returns (ok: bool)
      requires Sound(env, Now()) && phase == Ready(task) && Servable(task, asset) && asset in {MANIFEST, CHECKSUMS}
      requires StartsWith(temp, TEMP) && !Has(dir, temp)
      modifies this
      ensures Sound(env, Now()) && !Has(dir, temp) && leases == old(leases) && refs == old(refs)
      ensures phase == if ok then Verified(task, KeyOf(task.version, asset)) else Idle
      ensures ok == CanGet(env, old(dir), refs, task, asset, upstream)
      ensures ok ==> Got(env, old(dir), refs, task, asset, upstream, now, dir)
    {
      hide Sound, Right, Servable, Go, Enabled, Cached, Genuine, Managed, StartsWith, Evicted, OldestFirst, HeldBytes;
      assert ValidVersion(task.version) && Managed(KeyOf(task.version, asset)) by { MetadataKey(env, Now(), asset); }
      var served, clear := Look(task, asset);
      if served || !clear {
        return served;
      }
      var key := KeyOf(task.version, asset);
      if upstream.Some? {
        MetadataExactly(env, task, asset, upstream.value);
        ClearedFits(old(dir), key, refs, |upstream.value|, env.max);
      }
      if upstream.None? || |upstream.value| > MAX_METADATA || !Right(env, task, key, upstream.value) {
        Quit();
        return false;
      }
      ok := ReserveRoom(task, key, |upstream.value|);
      if ok {
        Fill(task, key, |upstream.value|, upstream.value, true, temp, now);
      }
    }

    /** Room is made before the download is tried, so it has been made even if that fails. */
    method Download(task: Task, x: Asset, upstream: Option<string>, temp: string, now: int) returns (ok: bool)
      requires Sound(env, Now()) && phase == Cleared(task, KeyOf(task.version, x.name)) && x.size > 0
      requires task.manifest.Some? && x in task.manifest.value.assets && x.name != MANIFEST && x.name != CHECKSUMS
      requires StartsWith(temp, TEMP) && !Has(dir, temp)
      modifies this`dir, this`phase
      ensures Sound(env, Now()) && !Has(dir, temp)
      ensures phase == if ok then Verified(task, KeyOf(task.version, x.name)) else Idle
      ensures upstream.None? ==> !ok && RoomThenIdle(env, old(Now()), x.size, Now())
      ensures ok == (upstream.Some? && Genuine(env, task, x.name, upstream.value) && CanFit(old(dir), refs, x.size, env.max))
      ensures ok ==>
        exists order :: OldestFirst(order, old(dir), refs)
          && dir == Evicted(old(dir), order, x.size, env.max) + [Entry(KeyOf(task.version, x.name), upstream.value, now, true)]
    {
      hide Sound, Right, Moved, Genuine, Evicted, OldestFirst, HeldBytes, ValidManifest, StartsWith;
      ghost var s := Now();
      if upstream.Some? { BinaryGenuine(env, s, x, upstream.value); }
      var key := KeyOf(task.version, x.name);
      var room := ReserveRoom(task, key, x.size);
      ghost var reserved := Now();
      if upstream.None? {
        if room { Quit(); }
        assert Now() == reserved.(phase := Idle);
        RoomMadeThenIdle(env, s, x.size, reserved);
        return false;
      }
      if !room {
        return false;
      }
      var whole := upstream.value;
      var text := if |whole| <= x.size then whole else whole[..x.size];
      ok := |whole| == x.size && env.sha(text) == x.sha;
      Fill(task, key, x.size, text, ok, temp, now);
    }

    /** A binary from the cache, or downloaded into space reserved beforehand, never a byte more. */
    method Binary(task: Task, x: Asset, upstream: Option<string>, temp: string, now: int) returns (ok: bool)
      requires Sound(env, Now()) && phase == Ready(task) && task.manifest.Some? && x in task.manifest.value.assets
      requires StartsWith(temp, TEMP) && !Has(dir, temp)
      modifies this
      ensures Sound(env, Now()) && !Has(dir, temp) && leases == old(leases) && refs == old(refs)
      ensures phase == if ok then Verified(task, KeyOf(task.version, x.name)) else Idle
      ensures ok == CanGet(env, old(dir), refs, task, x.name, upstream)
      ensures ok ==> Got(env, old(dir), refs, task, x.name, upstream, now, dir)
      ensures upstream.None? && !ok ==>
        exists looked :: Moved(env, old(Now()), Move.Look(x.name), looked)
                         && (Now() == looked || RoomThenIdle(env, looked, x.size, Now()))
    {
      hide Sound, Right, Go, Enabled, RoomThenIdle, ValidManifest, StartsWith, Managed, Cached, Genuine, Evicted,
           OldestFirst, HeldBytes, Servable;
      BinaryKey(env, Now(), x);
      ghost var s := Now();
      var served, clear := Look(task, x.name);
      ghost var looked := Now();
      assert Moved(env, s, Move.Look(x.name), looked);
      if served || !clear {
        return served;
      }
      if upstream.Some? { GenuineSize(env, task, x, upstream.value); }
      ClearedFits(old(dir), KeyOf(task.version, x.name), refs, x.size, env.max);
      ok := Download(task, x, upstream, temp, now);
    }

    /** The lease it returns holds the file as the manifest of the version calls for. */
    method OpenAgentAsset(version: string, asset: string, upstream: map<string, string>, temp: string, now: int)
      returns (lease: Option<Lease>)
      requires Sound(env, Now()) && phase.Idle?
      requires StartsWith(temp, TEMP) && !Has(dir, temp)
      modifies this
      ensures Sound(env, Now()) && phase.Idle? && !Has(dir, temp)
      ensures lease.None? ==> leases == old(leases)
      ensures lease.Some? ==>
        var l := lease.value;
        && leases == old(leases) + [l] && l.key == KeyOf(version, asset) && l.task.version == version
        && Holds(dir, l.key, l.content) && Genuine(env, l.task, asset, l.content) && Vouched(env, l.task)
      ensures !(ValidVersion(version) && ValidAsset(asset)) ==> lease.None? && Now() == old(Now())
      ensures ValidVersion(version) && ValidAsset(asset) ==>
        && OpensExactly(env, old(Now()), version, asset, upstream, now, lease.Some?)
        && (Warm(env, old(Now()), version, asset, upstream) ==> lease.Some?)
        && (Cold(env, old(Now()), version, asset, upstream) ==> lease.Some?)
    {
      if !ValidVersion(version) || !ValidAsset(asset) {
        return None;
      }
      lease := Serve(version, asset, upstream, temp, now);
      SweptUnique(env, old(Now()));
      hide Sound, Passes, Serves, Warm, Cold, ValidVersion, ValidAsset, Unique, Swept;
      ghost var dir1, dir2 :| Passes(env, old(Now()), version, upstream, now, dir1, dir2)
        && (lease.Some? <==> Serves(env, old(Now()), version, asset, upstream, dir1, dir2));
      if Warm(env, old(Now()), version, asset, upstream) {
        WarmServes(env, old(Now()), version, asset, upstream, now, dir1, dir2);
      } else if Cold(env, old(Now()), version, asset, upstream) {
        ColdServes(env, old(Now()), version, asset, upstream, now, dir1, dir2);
      }
    }

    /** The asset, once the manifest in the directory has been checked. */
    method GetAsset(task0: Task, asset: string, upstream: map<string, string>, temp: string, now: int)
      returns (ok: bool, task: Task)
      requires Sound(env, Now()) && phase == Verified(task0, KeyOf(task0.version, MANIFEST)) && asset != MANIFEST
      requires StartsWith(temp, TEMP) && !Has(dir, temp)
      modifies this
      ensures Sound(env, Now()) && !Has(dir, temp) && leases == old(leases) && refs == old(refs)
      ensures task == TaskWith(env, old(dir), task0.version)
      ensures phase == if ok then Verified(task, KeyOf(task.version, asset)) else Idle
      ensures ok == AssetServes(env, refs, task0.version, asset, upstream, old(dir))
    {
      hide Sound, Right, Go, Enabled, CanGet, Got, StartsWith, Has, TaskWith;
      var m := ReadManifest(task0);
      task := task0.(manifest := Some(m));
      if asset == CHECKSUMS {
        ok := Metadata(task, CHECKSUMS, Fetched(upstream, CHECKSUMS), temp, now);
      } else {
        var x := FindAsset(m.assets, asset);
        if x.None? {
          Quit();
          return false, task;
        }
        ok := Binary(task, x.value, Fetched(upstream, asset), temp, now);
      }
    }

    /** Takes the gate. */
    ghost method Begin(task: Task)
      requires Sound(env, Now()) && phase.Idle? && ValidVersion(task.version) && task.manifest.None?
      modifies this`phase
      ensures Sound(env, Now()) && phase == Entered(task)
    {
      hide Sound, ValidVersion;
      EnterSound(env, Now(), task.version);
      phase := Entered(task);
    }

    /** A request for a valid name. */
    method Serve(version: string, asset: string, upstream: map<string, string>, temp: string, now: int)
      returns (lease: Option<Lease>)
      requires Sound(env, Now()) && phase.Idle? && ValidVersion(version)
      requires StartsWith(temp, TEMP) && !Has(dir, temp)
      modifies this
      ensures Sound(env, Now()) && phase.Idle? && !Has(dir, temp)
      ensures lease.None? ==> leases == old(leases)
      ensures lease.Some? ==>
        var l := lease.value;
        && leases == old(leases) + [l] && l.key == KeyOf(version, asset) && l.task.version == version
        && Holds(dir, l.key, l.content) && Genuine(env, l.task, asset, l.content) && Vouched(env, l.task)
      ensures OpensExactly(env, old(Now()), version, asset, upstream, now, lease.Some?)
    {
      hide Sound, Right, Genuine, Go, Enabled, ValidVersion, CanGet, Got, Prepared, Swept, CanFit, Holds, Vouched,
           StartsWith, Has, Shrunk, AssetServes;
      ghost var s := Now();
      var task := Task(version, None);
      Begin(task);
      ghost var begun := Now();
      var ok := Prepare(task);
      ghost var dir1 := dir;
      SameFiles(env, s, begun, dir1);
      ShrunkHas(s.dir, dir, temp);
      if !ok {
        assert Passes(env, s, version, upstream, now, dir1, dir1);
        return None;
      }
      ok := Metadata(task, MANIFEST, Fetched(upstream, MANIFEST), temp, now);
      ghost var dir2 := dir;
      assert Passes(env, s, version, upstream, now, dir1, dir2);
      if !ok {
        return None;
      }
      if asset != MANIFEST {
        ok, task := GetAsset(task, asset, upstream, temp, now);
        if !ok {
          return None;
        }
      }
      var l := TakeLease(task, KeyOf(version, asset));
      RightExactly(env, task, asset, l.content);
      lease := Some(l);
    }

    /** Decodes the manifest just verified. */
    method ReadManifest(task: Task) returns (m: Manifest)
      requires Sound(env, Now()) && phase == Verified(task, KeyOf(task.version, MANIFEST))
      modifies this`phase
      ensures Sound(env, Now()) && phase == Ready(task.(manifest := Some(m)))
      ensures TaskWith(env, dir, task.version) == task.(manifest := Some(m))
    {
      hide Sound, Right, Managed, ValidManifest;
      ghost var s := Now();
      VerifiedEntry(env, s);
      assert Enabled(env, s, Learn);
      LearnSound(env, s);
      LearnedManifest(env, s);
      m := env.decode(EntryNamed(dir, KeyOf(task.version, MANIFEST)).value.content).value;
      phase := Ready(task.(manifest := Some(m)));
    }

    /** Nothing can come between the check and the lease. */
    method TakeLease(task: Task, key: string) returns (l: Lease)
      requires Sound(env, Now()) && phase == Verified(task, key)
      modifies this`refs, this`leases, this`phase
      ensures Now() == System(old(dir), Acquire(old(refs), key), old(leases) + [l], initialized, ready, Idle)
      ensures Sound(env, Now()) && l.task == task && l.key == key
      ensures Holds(dir, key, l.content) && Right(env, task, key, l.content) && Vouched(env, task)
    {
      hide Sound, Right, Managed, Acquire, Vouched;
      ghost var s := Now();
      VerifiedEntry(env, s);
      OpenSound(env, s);
      l := Lease(task, key, EntryNamed(dir, key).value.content);
      refs := Acquire(refs, key);
      leases := leases + [l];
      phase := Idle;
    }

    /** Closing a served file: its counter goes down, and away with the last lease. */
    method ReleaseLease(ghost i: nat, key: string)
      requires Sound(env, Now()) && i < |leases| && leases[i].key == key
      modifies this`refs, this`leases
      ensures Now() == System(old(dir), Dropped(old(refs), key), old(leases)[..i] + old(leases)[i + 1..],
                              initialized, ready, phase)
      ensures Sound(env, Now())
    {
      hide Sound, Right, Managed;
      ghost var s := Now();
      ReleaseSound(env, s, i);
      LeasedCounted(env, s, i);
      if refs[key] == 1 {
        refs := refs - {key};
      } else {
        refs := refs[key := refs[key] - 1];
      }
      leases := leases[..i] + leases[i + 1..];
    }
  }

  ghost predicate Moved(env: Env, s: System, m: Move, s': System) { Enabled(env, s, m) && s' == Go(env, s, m) }

  /** Room was made for `size` bytes and the request was then given up. */
  ghost predicate RoomThenIdle(env: Env, s: System, size: int, s': System) {
    size >= 0 && exists order, reserved :: Moved(env, s, Reserve(order, size), reserved) && s' == reserved.(phase := Idle)
  }

  lemma RoomMadeThenIdle(env: Env, s: System, size: nat, reserved: System)
    requires exists order :: Moved(env, s, Reserve(order, size), reserved)
    ensures RoomThenIdle(env, s, size, reserved.(phase := Idle))
  {
    hide Moved;
  }

  ghost predicate NamesApart(order: seq<Entry>) { forall i, j :: 0 <= i < j < |order| ==> order[i].name != order[j].name }

  lemma OthersStay(dir: seq<Entry>, order: seq<Entry>, i: nat)
    requires NamesApart(order) && i < |order| && forall j :: i <= j < |order| ==> order[j] in dir
    ensures forall j :: i < j < |order| ==> order[j] in Without(dir, order[i].name)
  {
  }

  lemma EvictOne(dir: seq<Entry>, order: seq<Entry>, i: nat, extra: nat, max: int)
    requires i < |order| && Total(dir) + extra > max
    ensures Evicted(dir, order[i..], extra, max) == Evicted(Without(dir, order[i].name), order[i + 1..], extra, max)
  {
    assert order[i..][0] == order[i] && order[i..][1..] == order[i + 1..];
  }

  lemma EvictNoMore(dir: seq<Entry>, order: seq<Entry>, extra: nat, max: int)
    requires order == [] || Total(dir) + extra <= max
    ensures Evicted(dir, order, extra, max) == dir
  {
  }

  ghost predicate Shrunk(was: seq<Entry>, dir: seq<Entry>) { forall e <- dir :: e in was }

  method FindAsset(assets: seq<Asset>, name: string) returns (x: Option<Asset>)
    ensures x.Some? ==> x.value in assets && x.value.name == name
    ensures x.None? ==> forall y <- assets :: y.name != name
  {
    x := None;
    for i := 0 to |assets|
      invariant forall j :: 0 <= j < i ==> assets[j].name != name
    {
      if assets[i].name == name {
        return Some(assets[i]);
      }
    }
  }

  lemma ShrunkHas(was: seq<Entry>, dir: seq<Entry>, name: string)
    requires Shrunk(was, dir) && !Has(was, name)
    ensures !Has(dir, name)
  {
  }

  lemma SameFiles(env: Env, s: System, s': System, dir: seq<Entry>)
    requires s' == s.(phase := s'.phase)
    ensures Swept(s) == Swept(s') && (Prepared(env, s, dir) <==> Prepared(env, s', dir))
  {
    hide OldestFirst, RoomMade;
  }

  lemma SweptUnique(env: Env, s: System)
    requires Sound(env, s)
    ensures Unique(Swept(s)) && Shrunk(s.dir, Swept(s))
  {
    SweepSpares(env, s);
  }

  lemma EvictedShrinks(dir: seq<Entry>, order: seq<Entry>, extra: nat, max: int)
    requires Unique(dir)
    ensures Shrunk(dir, Evicted(dir, order, extra, max))
  {
    EvictedKeeps(dir, order, extra, max);
  }

  lemma ClearedFacts(env: Env, s: System)
    requires Sound(env, s) && s.phase.Cleared?
    ensures Unique(s.dir) && GoodKey(s.phase.key)
  {
  }

  lemma TempLeft(dir: seq<Entry>, temp: string, key: string, e: Entry)
    requires temp != key && e.name == key
    ensures !Has(Without(Without(dir, temp), key) + [e], temp) && !Has(Without(dir, temp), temp)
  {
  }

  lemma SoundUnique(env: Env, s: System)
    requires Sound(env, s)
    ensures Unique(s.dir)
  {
  }

  lemma ReservedFacts(env: Env, s: System)
    requires Sound(env, s) && s.phase.Reserved?
    ensures !Has(s.dir, s.phase.key)
  {
    hide Right, Managed, InRoom, LeasesSound;
  }

  lemma {:induction false} NotNamed(dir: seq<Entry>, name: string)
    requires !Has(dir, name)
    ensures Without(dir, name) == dir
  {
    NothingNamed(dir, name);
    WithoutNone(dir, name);
  }

  lemma {:induction false} AddedAway(dir: seq<Entry>, e: Entry)
    requires Without(dir, e.name) == dir
    ensures Without(dir + [e], e.name) == dir
  {
    if dir == [] {
      assert dir + [e] == [e];
    } else {
      assert dir[0] in Without(dir, e.name);
      assert (dir + [e])[1..] == dir[1..] + [e];
      AddedAway(dir[1..], e);
    }
  }

  lemma WritingFacts(env: Env, s: System)
    requires Sound(env, s) && s.phase.Writing?
    ensures s.phase.temp != s.phase.key
  {
    hide Right, Managed, InRoom, LeasesSound;
  }

  lemma LeasedCounted(env: Env, s: System, i: nat)
    requires Sound(env, s) && i < |s.leases|
    ensures RefCount(s.refs, s.leases[i].key) > 0
  {
    hide Right, Managed, InRoom, PhaseSound, TaskSound;
    CountPositive(s.leases, i);
  }

  lemma LearnedManifest(env: Env, s: System)
    requires Sound(env, s) && s.phase.Verified? && s.phase.key == KeyOf(s.phase.task.version, MANIFEST)
    ensures var e := EntryNamed(s.dir, s.phase.key); e.Some? && env.decode(e.value.content).Some?
  {
    VerifiedEntry(env, s);
    hide Sound, ValidManifest, Managed;
  }

  lemma QuitSound(env: Env, s: System)
    requires Sound(env, s) && !s.phase.Idle? && !s.phase.Writing?
    ensures Sound(env, s.(phase := Idle))
  {
    hide Sound, Right, Without, Servable;
    FailSound(env, s);
    assert Go(env, s, Fail) == s.(phase := Idle);
  }

  lemma MetadataKey(env: Env, s: System, asset: string)
    requires Sound(env, s) && s.phase.Ready? && asset in {MANIFEST, CHECKSUMS}
    ensures ValidVersion(s.phase.task.version) && Managed(KeyOf(s.phase.task.version, asset))
  {
    hide InRoom, PhaseSound, LeasesSound, ValidManifest, ValidVersion, Managed;
    KeysApart(s.phase.task.version, asset);
  }

  lemma MetadataExactly(env: Env, task: Task, asset: string, text: string)
    requires asset in {MANIFEST, CHECKSUMS}
    ensures Right(env, task, KeyOf(task.version, asset), text) <==> Genuine(env, task, asset, text)
    ensures Genuine(env, task, asset, text) ==> |text| <= MAX_METADATA
  {
    hide Right, ValidManifest, Checksums;
    RightExactly(env, task, asset, text);
  }

  lemma BinaryKey(env: Env, s: System, x: Asset)
    requires Sound(env, s) && s.phase.Ready? && s.phase.task.manifest.Some? && x in s.phase.task.manifest.value.assets
    ensures Servable(s.phase.task, x.name) && x.size > 0 && ValidManifest(s.phase.task.manifest.value, s.phase.task.version)
    ensures x.name != MANIFEST && x.name != CHECKSUMS && Managed(KeyOf(s.phase.task.version, x.name))
  {
    hide InRoom, PhaseSound, LeasesSound, ValidManifest, ValidVersion, Managed;
    BinaryApart(s.phase.task.manifest.value, s.phase.task.version, x);
    ManifestNames(s.phase.task.manifest.value, s.phase.task.version);
    KeysApart(s.phase.task.version, x.name);
  }

  lemma GenuineSize(env: Env, task: Task, x: Asset, text: string)
    requires task.manifest.Some? && x in task.manifest.value.assets && ValidManifest(task.manifest.value, task.version)
    requires x.name != MANIFEST && x.name != CHECKSUMS
    ensures Genuine(env, task, x.name, text) ==> |text| == x.size
  {
    hide ValidManifest;
    ManifestNames(task.manifest.value, task.version);
  }

  lemma BinaryApart(m: Manifest, version: string, x: Asset)
    requires ValidManifest(m, version) && x in m.assets
    ensures x.size > 0 && x.name != MANIFEST && x.name != CHECKSUMS
  {
    hide ValidVersion, HexDigest;
    assert x == m.assets[0] || x == m.assets[1];
    assert x.name[..|BINARY|] == BINARY;
    assert x.name[9] == BINARY[9];
  }

  lemma BinaryGenuine(env: Env, s: System, x: Asset, text: string)
    requires Sound(env, s) && s.phase.Cleared? && s.phase.task.manifest.Some? && x in s.phase.task.manifest.value.assets
    requires x.name != MANIFEST && x.name != CHECKSUMS
    ensures var task := s.phase.task;
      && (Right(env, task, KeyOf(task.version, x.name), text) <==> |text| == x.size && env.sha(text) == x.sha)
      && (Genuine(env, task, x.name, text) <==> |text| == x.size && env.sha(text) == x.sha)
  {
    hide InRoom, PhaseSound, LeasesSound, ValidManifest, Right, Genuine;
    BinaryExactly(env, s.phase.task, x, text);
    RightExactly(env, s.phase.task, x.name, text);
  }

  lemma VerifiedEntry(env: Env, s: System)
    requires Sound(env, s) && s.phase.Verified?
    ensures var e := EntryNamed(s.dir, s.phase.key);
      && e.Some? && e.value.regular && Right(env, s.phase.task, s.phase.key, e.value.content)
      && Holds(s.dir, s.phase.key, e.value.content) && Vouched(env, s.phase.task)
  {
    hide Right;
    EntryNamedExactly(s.dir, s.phase.key);
  }

  method InsertByAge(order: seq<Entry>, e: Entry) returns (more: seq<Entry>)
    requires Aged(order) && forall x <- order :: x.name != e.name
    ensures Aged(more) && forall x :: x in more <==> x in order || x == e
  {
    hide Aged;
    AgedTimes(order);
    var k := |order|;
    while k > 0 && order[k - 1].mtime > e.mtime
      invariant 0 <= k <= |order|
      invariant k < |order| ==> order[k].mtime > e.mtime
    {
      k := k - 1;
    }
    more := EntriesWith(order, k, e);
    EntriesWithHas(order, k, e);
    EntriesWithAged(order, k, e);
  }

  ghost predicate Aged(order: seq<Entry>) {
    forall i, j :: 0 <= i < j < |order| ==> order[i].mtime <= order[j].mtime && order[i].name != order[j].name
  }

  lemma AgedTimes(order: seq<Entry>)
    requires Aged(order)
    ensures forall i, j :: 0 <= i < j < |order| ==> order[i].mtime <= order[j].mtime
  {
  }

  /** Where an entry goes in: nothing before it is younger, and everything after it is. */
  lemma AgedBounds(order: seq<Entry>, k: nat, e: Entry)
    requires Aged(order) && k <= |order|
    requires k < |order| ==> order[k].mtime > e.mtime
    requires k > 0 ==> order[k - 1].mtime <= e.mtime
    ensures forall i :: 0 <= i < k ==> order[i].mtime <= e.mtime
    ensures forall i :: k <= i < |order| ==> e.mtime < order[i].mtime
  {
  }

  lemma EntriesWithAged(order: seq<Entry>, k: nat, e: Entry)
    requires Aged(order) && k <= |order| && forall x <- order :: x.name != e.name
    requires k < |order| ==> order[k].mtime > e.mtime
    requires k > 0 ==> order[k - 1].mtime <= e.mtime
    ensures Aged(EntriesWith(order, k, e))
  {
    AgedBounds(order, k, e);
    hide Aged;
    forall i, j | 0 <= i < j < |order| + 1 ensures AgedPair(EntriesWith(order, k, e)[i], EntriesWith(order, k, e)[j]) {
      PairAged(order, k, e, i, j);
    }
    AllPairs(EntriesWith(order, k, e));
  }

  predicate AgedPair(a: Entry, b: Entry) { a.mtime <= b.mtime && a.name != b.name }

  lemma AllPairs(order: seq<Entry>)
    requires forall i, j :: 0 <= i < j < |order| ==> AgedPair(order[i], order[j])
    ensures Aged(order)
  {
  }

  lemma PairAged(order: seq<Entry>, k: nat, e: Entry, i: nat, j: nat)
    requires Aged(order) && k <= |order| && i < j <= |order| && forall x <- order :: x.name != e.name
    requires forall n :: 0 <= n < k ==> order[n].mtime <= e.mtime
    requires forall n :: k <= n < |order| ==> e.mtime < order[n].mtime
    ensures AgedPair(EntriesWith(order, k, e)[i], EntriesWith(order, k, e)[j])
  {
    var (a, b) := (if i < k then i else i - 1, if j < k then j else j - 1);
    if i != k && j != k {
      assert order[a].mtime <= order[b].mtime && order[a].name != order[b].name;
    } else if j == k {
      assert order[a] in order;
    } else {
      assert order[b] in order;
    }
  }

  function EntriesWith(order: seq<Entry>, k: nat, e: Entry): (more: seq<Entry>)
    requires k <= |order|
    ensures |more| == |order| + 1
    ensures forall i :: 0 <= i < |more| ==> more[i] == if i < k then order[i] else if i == k then e else order[i - 1]
  {
    order[..k] + [e] + order[k..]
  }

  lemma EntriesWithHas(order: seq<Entry>, k: nat, e: Entry)
    requires k <= |order|
    ensures forall x :: x in EntriesWith(order, k, e) <==> x in order || x == e
  {
    assert order == order[..k] + order[k..];
  }
}
