/**
 * When the release cache must serve a request: which bytes an eviction can never free, when room
 * can be made, and the conditions on the files and on upstream under which a lease is given.
 */
module CacheServes {
  import opened Basics
  import opened CacheSpec
  import opened CacheProtocol

  // ---- room ----

  /** Bytes of the files that may not be evicted: those being served, and those not the cache's own. */
  function HeldBytes(dir: seq<Entry>, refs: map<string, nat>): nat {
    if dir == [] then 0 else (if Evictable(dir[0], refs) then 0 else SizeOf(dir[0])) + HeldBytes(dir[1..], refs)
  }

  /** With everything evictable gone, `extra` more bytes fit. */
  predicate CanFit(dir: seq<Entry>, refs: map<string, nat>, extra: nat, max: int) {
    max > 0 && HeldBytes(dir, refs) + extra <= max
  }

  lemma {:induction false} HeldAtMost(dir: seq<Entry>, refs: map<string, nat>)
    ensures HeldBytes(dir, refs) <= Total(dir)
    ensures (forall e <- dir :: !Evictable(e, refs)) ==> HeldBytes(dir, refs) == Total(dir)
  {
    hide Evictable;
    if dir != [] {
      HeldAtMost(dir[1..], refs);
      assert dir[0] in dir;
    }
  }

  lemma {:induction false} HeldConcat(a: seq<Entry>, b: seq<Entry>, refs: map<string, nat>)
    ensures HeldBytes(a + b, refs) == HeldBytes(a, refs) + HeldBytes(b, refs)
  {
    hide Evictable;
    if a == [] {
      assert a + b == b;
    } else {
      assert (a + b)[1..] == a[1..] + b;
      HeldConcat(a[1..], b, refs);
    }
  }

  /** A name whose files are evictable or take no bytes. */
  ghost predicate Free(dir: seq<Entry>, name: string, refs: map<string, nat>) {
    forall e <- dir :: e.name == name ==> Evictable(e, refs) || !e.regular
  }

  lemma {:induction false} HeldWithout(dir: seq<Entry>, name: string, refs: map<string, nat>)
    requires Free(dir, name, refs)
    ensures HeldBytes(Without(dir, name), refs) == HeldBytes(dir, refs)
  {
    hide Evictable;
    if dir != [] {
      assert dir[0] in dir && forall e <- dir[1..] :: e in dir;
      HeldWithout(dir[1..], name, refs);
    }
  }

  /** `order` lists the evictable files, each once. */
  ghost predicate Lists(order: seq<Entry>, dir: seq<Entry>, refs: map<string, nat>) {
    && (forall e :: e in order <==> e in dir && Evictable(e, refs))
    && (forall i, j :: 0 <= i < j < |order| ==> order[i].name != order[j].name)
  }

  lemma ListsRest(order: seq<Entry>, dir: seq<Entry>, refs: map<string, nat>)
    requires Unique(dir) && order != [] && Lists(order, dir, refs)
    ensures Unique(Without(dir, order[0].name)) && Lists(order[1..], Without(dir, order[0].name), refs)
    ensures Free(dir, order[0].name, refs)
  {
    hide Evictable;
    WithoutUnique(dir, order[0].name);
    assert order[0] in order && order[0] in dir;
    forall e | e in order[1..] ensures e in order && e.name != order[0].name {
    }
    forall e | e in order && e.name != order[0].name ensures e in order[1..] {
    }
  }

  /** Eviction frees none of the bytes held, and it makes room exactly when they and `extra` fit. */
  lemma {:induction false} EvictedFits(dir: seq<Entry>, order: seq<Entry>, refs: map<string, nat>, extra: nat, max: int)
    requires Unique(dir) && Lists(order, dir, refs)
    ensures var rest := Evicted(dir, order, extra, max);
      && HeldBytes(rest, refs) == HeldBytes(dir, refs) && Unique(rest)
      && (Fits(rest, extra, max) <==> HeldBytes(dir, refs) + extra <= max)
    decreases |order|
  {
    hide Evictable, Unique, Lists, Free;
    HeldAtMost(dir, refs);
    if order == [] {
      assert forall e <- dir :: !Evictable(e, refs) by { NoneListed(dir, refs); }
    } else if !Fits(dir, extra, max) {
      ListsRest(order, dir, refs);
      HeldWithout(dir, order[0].name, refs);
      EvictedFits(Without(dir, order[0].name), order[1..], refs, extra, max);
    }
  }

  lemma NoneListed(dir: seq<Entry>, refs: map<string, nat>)
    requires Lists([], dir, refs)
    ensures forall e <- dir :: !Evictable(e, refs)
  {
    hide Evictable;
    forall e <- dir ensures !Evictable(e, refs) {
      assert e !in [];
    }
  }

  /** Room can be made exactly when what may not be evicted leaves it. */
  lemma {:induction false} RoomExactly(dir: seq<Entry>, order: seq<Entry>, refs: map<string, nat>, extra: nat, max: int)
    requires Unique(dir) && OldestFirst(order, dir, refs)
    ensures RoomMade(dir, order, extra, max).1 <==> CanFit(dir, refs, extra, max)
    ensures HeldBytes(RoomMade(dir, order, extra, max).0, refs) == HeldBytes(dir, refs)
    ensures Fits(dir, extra, max) ==> RoomMade(dir, order, extra, max).0 == dir
  {
    hide Evictable, Evicted;
    EvictedFits(dir, order, refs, extra, max);
    if Fits(dir, extra, max) { FitsAlready(dir, order, extra, max); }
  }

  lemma FitsAlready(dir: seq<Entry>, order: seq<Entry>, extra: nat, max: int)
    requires Fits(dir, extra, max)
    ensures Evicted(dir, order, extra, max) == dir
  {
  }

  // ---- what a file must say ----

  /** By the asset's name: a manifest of the version, the checksums of its binaries, or the binary it lists. */
  ghost predicate Genuine(env: Env, task: Task, asset: string, text: string) {
    if asset == MANIFEST then
      |text| <= MAX_METADATA && exists m :: env.decode(text) == Some(m) && ValidManifest(m, task.version)
    else if task.manifest.None? then false
    else if asset == CHECKSUMS then
      |text| <= MAX_METADATA && text == Checksums(task.manifest.value.assets)
    else
      exists x <- task.manifest.value.assets :: x.name == asset && |text| == x.size && env.sha(text) == x.sha
  }

  lemma {:induction false} RightExactly(env: Env, task: Task, asset: string, text: string)
    ensures Right(env, task, KeyOf(task.version, asset), text) <==> Genuine(env, task, asset, text)
  {
    hide ValidManifest, Checksums;
    NameOfKey(task.version, asset);
    NameOfKey(task.version, MANIFEST);
    NameOfKey(task.version, CHECKSUMS);
    if task.manifest.Some? {
      forall x <- task.manifest.value.assets ensures KeyOf(task.version, asset) == KeyOf(task.version, x.name) <==> asset == x.name {
        NameOfKey(task.version, x.name);
      }
    }
  }

  /** The checksum file of a manifest: digest, two blanks and name, one line for each binary. */
  lemma ChecksumLines(m: Manifest)
    requires |m.assets| == 2
    ensures var (x, y) := (m.assets[0], m.assets[1]);
      Checksums(m.assets) == x.sha + "  " + x.name + "\n" + (y.sha + "  " + y.name + "\n")
  {
    var y := m.assets[1];
    assert m.assets[1..] == [y] && [y][1..] == [];
    assert Checksums([y]) == y.sha + "  " + y.name + "\n" + "" == y.sha + "  " + y.name + "\n";
  }

  lemma NameOfKey(version: string, asset: string)
    ensures KeyOf(version, asset)[|version| + 1..] == asset
  {
  }

  /** The right file of a listed binary has its size and digest. */
  lemma {:induction false} BinaryExactly(env: Env, task: Task, x: Asset, text: string)
    requires task.manifest.Some? && x in task.manifest.value.assets && ValidManifest(task.manifest.value, task.version)
    requires x.name != MANIFEST && x.name != CHECKSUMS
    ensures Right(env, task, KeyOf(task.version, x.name), text) <==> |text| == x.size && env.sha(text) == x.sha
  {
    hide ValidManifest;
    ManifestNames(task.manifest.value, task.version);
    RightExactly(env, task, x.name, text);
  }

  // ---- one file ----

  /** A genuine copy of the asset is in the directory. */
  ghost predicate Cached(env: Env, dir: seq<Entry>, task: Task, asset: string) {
    exists e <- dir :: e.name == KeyOf(task.version, asset) && e.regular && Genuine(env, task, asset, e.content)
  }

  lemma {:induction false} CachedExactly(env: Env, dir: seq<Entry>, task: Task, asset: string)
    requires Unique(dir)
    ensures Served(env, task, dir, KeyOf(task.version, asset)) <==> Cached(env, dir, task, asset)
  {
    hide Right, Genuine, Unique;
    EntryNamedExactly(dir, KeyOf(task.version, asset));
    forall text: string ensures Right(env, task, KeyOf(task.version, asset), text) <==> Genuine(env, task, asset, text) {
      RightExactly(env, task, asset, text);
    }
  }

  /** It can be downloaded: nobody is being served the file, upstream has a genuine one, and room can be made. */
  ghost predicate Fetchable(env: Env, dir: seq<Entry>, refs: map<string, nat>, task: Task, asset: string, upstream: Option<string>) {
    && RefCount(refs, KeyOf(task.version, asset)) == 0 && upstream.Some? && Genuine(env, task, asset, upstream.value)
    && CanFit(dir, refs, |upstream.value|, env.max)
  }

  ghost predicate CanGet(env: Env, dir: seq<Entry>, refs: map<string, nat>, task: Task, asset: string, upstream: Option<string>) {
    Cached(env, dir, task, asset) || Fetchable(env, dir, refs, task, asset, upstream)
  }

  ghost predicate Downloaded(env: Env, dir: seq<Entry>, refs: map<string, nat>, key: string, text: string, now: int, dir': seq<Entry>) {
    exists order :: OldestFirst(order, Without(dir, key), refs)
      && dir' == Evicted(Without(dir, key), order, |text|, env.max) + [Entry(key, text, now, true)]
  }

  /** How getting the file leaves the directory: untouched if it was there, else evicted for and with the file at the end. */
  ghost predicate Got(env: Env, dir: seq<Entry>, refs: map<string, nat>, task: Task, asset: string, upstream: Option<string>,
                      now: int, dir': seq<Entry>) {
    if Cached(env, dir, task, asset) then dir' == dir
    else upstream.Some? && Downloaded(env, dir, refs, KeyOf(task.version, asset), upstream.value, now, dir')
  }

  lemma KeyFree(dir: seq<Entry>, key: string, refs: map<string, nat>)
    requires Managed(key) && RefCount(refs, key) == 0
    ensures Free(dir, key, refs)
  {
    hide Managed;
  }

  /** Room for a download after its key is cleared: what counts is what was held before. */
  lemma {:induction false} ClearedFits(dir: seq<Entry>, key: string, refs: map<string, nat>, extra: nat, max: int)
    requires Managed(key) && RefCount(refs, key) == 0
    ensures CanFit(Without(dir, key), refs, extra, max) <==> CanFit(dir, refs, extra, max)
  {
    hide Managed, Free;
    KeyFree(dir, key, refs);
    HeldWithout(dir, key, refs);
  }

  /** Getting a file neither frees nor adds bytes that are held. */
  lemma {:induction false} GotHolds(env: Env, dir: seq<Entry>, refs: map<string, nat>, task: Task, asset: string, upstream: Option<string>,
                                    now: int, dir': seq<Entry>)
    requires Unique(dir) && Managed(KeyOf(task.version, asset))
    requires CanGet(env, dir, refs, task, asset, upstream) && Got(env, dir, refs, task, asset, upstream, now, dir')
    ensures HeldBytes(dir', refs) == HeldBytes(dir, refs)
  {
    hide Managed, Cached, Genuine, Downloaded, Unique, HeldBytes, RefCount;
    if !Cached(env, dir, task, asset) {
      DownloadedHolds(env, dir, refs, KeyOf(task.version, asset), upstream.value, now, dir');
    }
  }

  lemma {:induction false} DownloadedHolds(env: Env, dir: seq<Entry>, refs: map<string, nat>, key: string, text: string, now: int,
                                           dir': seq<Entry>)
    requires Unique(dir) && Managed(key) && RefCount(refs, key) == 0 && Downloaded(env, dir, refs, key, text, now, dir')
    ensures HeldBytes(dir', refs) == HeldBytes(dir, refs)
  {
    hide Managed, Evicted, OldestFirst, Free, Unique, HeldBytes, Total;
    var cleared := Without(dir, key);
    var order :| OldestFirst(order, cleared, refs) && dir' == Evicted(cleared, order, |text|, env.max) + [Entry(key, text, now, true)];
    WithoutUnique(dir, key);
    KeyFree(dir, key, refs);
    HeldWithout(dir, key, refs);
    EvictedHolds(cleared, order, refs, |text|, env.max);
    HeldConcat(Evicted(cleared, order, |text|, env.max), [Entry(key, text, now, true)], refs);
    NewFileFree(key, text, now, refs);
  }

  lemma EvictedHolds(dir: seq<Entry>, order: seq<Entry>, refs: map<string, nat>, extra: nat, max: int)
    requires Unique(dir) && OldestFirst(order, dir, refs)
    ensures HeldBytes(Evicted(dir, order, extra, max), refs) == HeldBytes(dir, refs)
  {
    hide Evictable, Evicted;
    EvictedFits(dir, order, refs, extra, max);
  }

  lemma NewFileFree(key: string, text: string, now: int, refs: map<string, nat>)
    requires Managed(key) && RefCount(refs, key) == 0
    ensures HeldBytes([Entry(key, text, now, true)], refs) == 0
  {
    hide Managed;
  }

  // ---- a request ----

  function Fetched(upstream: map<string, string>, asset: string): Option<string> {
    if asset in upstream then Some(upstream[asset]) else None
  }

  /** The request once the manifest in the directory has been read. */
  function TaskWith(env: Env, dir: seq<Entry>, version: string): Task {
    var e := EntryNamed(dir, KeyOf(version, MANIFEST));
    Task(version, if e.Some? then env.decode(e.value.content) else None)
  }

  /** The directory swept of leftover downloads and evicted from until it fits. */
  ghost predicate Prepared(env: Env, s: System, dir: seq<Entry>) {
    exists order :: OldestFirst(order, Swept(s), s.refs) && dir == RoomMade(Swept(s), order, 0, env.max).0
  }

  /** The directory prepared, and then with the manifest in it. */
  ghost predicate Passes(env: Env, s: System, version: string, upstream: map<string, string>, now: int,
                         dir1: seq<Entry>, dir2: seq<Entry>) {
    var (task, up) := (Task(version, None), Fetched(upstream, MANIFEST));
    && Prepared(env, s, dir1)
    && (CanFit(Swept(s), s.refs, 0, env.max) && CanGet(env, dir1, s.refs, task, MANIFEST, up) ==>
          Got(env, dir1, s.refs, task, MANIFEST, up, now, dir2))
  }

  /** All that the request needs: a directory that can be made to fit, the manifest, and the asset it lists. */
  ghost predicate Serves(env: Env, s: System, version: string, asset: string, upstream: map<string, string>,
                         dir1: seq<Entry>, dir2: seq<Entry>) {
    && CanFit(Swept(s), s.refs, 0, env.max)
    && CanGet(env, dir1, s.refs, Task(version, None), MANIFEST, Fetched(upstream, MANIFEST))
    && (asset != MANIFEST ==> AssetServes(env, s.refs, version, asset, upstream, dir2))
  }

  ghost predicate AssetServes(env: Env, refs: map<string, nat>, version: string, asset: string, upstream: map<string, string>,
                              dir: seq<Entry>) {
    var task := TaskWith(env, dir, version);
    Servable(task, asset) && CanGet(env, dir, refs, task, asset, Fetched(upstream, asset))
  }

  /** A request succeeds exactly when what it needs is there in the directories it passes through. */
  ghost predicate OpensExactly(env: Env, s: System, version: string, asset: string, upstream: map<string, string>, now: int, ok: bool) {
    exists dir1, dir2 :: Passes(env, s, version, upstream, now, dir1, dir2)
      && (ok <==> Serves(env, s, version, asset, upstream, dir1, dir2))
  }

  /** The directory fits and has the right manifest, and the asset is there or can be downloaded. */
  ghost predicate Warm(env: Env, s: System, version: string, asset: string, upstream: map<string, string>) {
    var dir := Swept(s);
    && env.max > 0 && Total(dir) <= env.max && Cached(env, dir, Task(version, None), MANIFEST)
    && (asset != MANIFEST ==> AssetServes(env, s.refs, version, asset, upstream, dir))
  }

  /** No right manifest is there, but upstream has it and the asset it lists, no one is served either, and each fits. */
  ghost predicate Cold(env: Env, s: System, version: string, asset: string, upstream: map<string, string>) {
    var dir := Swept(s);
    && !Cached(env, dir, Task(version, None), MANIFEST)
    && Fetchable(env, dir, s.refs, Task(version, None), MANIFEST, Fetched(upstream, MANIFEST))
    && (asset != MANIFEST ==>
          var task := Task(version, env.decode(upstream[MANIFEST]));
          Servable(task, asset) && Fetchable(env, dir, s.refs, task, asset, Fetched(upstream, asset)))
  }

  lemma {:induction false} WarmServes(env: Env, s: System, version: string, asset: string, upstream: map<string, string>, now: int,
                                      dir1: seq<Entry>, dir2: seq<Entry>)
    requires Unique(Swept(s)) && Warm(env, s, version, asset, upstream) && Passes(env, s, version, upstream, now, dir1, dir2)
    ensures dir1 == dir2 == Swept(s) && Serves(env, s, version, asset, upstream, dir1, dir2)
  {
    hide Cached, Genuine, Servable, RoomMade, OldestFirst, Swept, TaskWith, Total, HeldBytes, Unique;
    var order :| OldestFirst(order, Swept(s), s.refs) && dir1 == RoomMade(Swept(s), order, 0, env.max).0;
    RoomExactly(Swept(s), order, s.refs, 0, env.max);
    HeldAtMost(Swept(s), s.refs);
  }

  lemma {:induction false} ColdServes(env: Env, s: System, version: string, asset: string, upstream: map<string, string>, now: int,
                                      dir1: seq<Entry>, dir2: seq<Entry>)
    requires Unique(Swept(s)) && ValidVersion(version) && Cold(env, s, version, asset, upstream)
    requires Passes(env, s, version, upstream, now, dir1, dir2)
    ensures Serves(env, s, version, asset, upstream, dir1, dir2)
  {
    hide Cached, Genuine, Servable, RoomMade, OldestFirst, Swept, TaskWith, Total, HeldBytes, Unique, ValidVersion,
         Downloaded, Managed, RefCount;
    var (task, text) := (Task(version, None), upstream[MANIFEST]);
    var order :| OldestFirst(order, Swept(s), s.refs) && dir1 == RoomMade(Swept(s), order, 0, env.max).0;
    RoomExactly(Swept(s), order, s.refs, 0, env.max);
    RoomShrinks(Swept(s), order, 0, env.max);
    KeysApart(version, MANIFEST);
    assert !Cached(env, dir1, task, MANIFEST) by { StillNotCached(env, task, Swept(s), dir1, MANIFEST); }
    GotHolds(env, dir1, s.refs, task, MANIFEST, Some(text), now, dir2);
    DownloadedTask(env, dir1, s.refs, version, text, now, dir2);
  }

  lemma RoomShrinks(dir: seq<Entry>, order: seq<Entry>, extra: nat, max: int)
    requires Unique(dir)
    ensures var rest := RoomMade(dir, order, extra, max).0; Unique(rest) && forall e <- rest :: e in dir
  {
    hide Evicted, Total;
    EvictedKeeps(dir, order, extra, max);
  }

  lemma StillNotCached(env: Env, task: Task, dir: seq<Entry>, rest: seq<Entry>, asset: string)
    requires (forall e <- rest :: e in dir) && !Cached(env, dir, task, asset)
    ensures !Cached(env, rest, task, asset)
  {
    hide Genuine;
  }

  /** A downloaded manifest is the one that is read. */
  lemma {:induction false} DownloadedTask(env: Env, dir: seq<Entry>, refs: map<string, nat>, version: string, text: string, now: int,
                                          dir': seq<Entry>)
    requires Unique(dir) && Downloaded(env, dir, refs, KeyOf(version, MANIFEST), text, now, dir')
    ensures TaskWith(env, dir', version) == Task(version, env.decode(text))
  {
    hide Evicted, OldestFirst, Unique;
    var key := KeyOf(version, MANIFEST);
    var order :| OldestFirst(order, Without(dir, key), refs)
      && dir' == Evicted(Without(dir, key), order, |text|, env.max) + [Entry(key, text, now, true)];
    WithoutUnique(dir, key);
    EvictedKeeps(Without(dir, key), order, |text|, env.max);
    NamedLast(Evicted(Without(dir, key), order, |text|, env.max), Entry(key, text, now, true));
  }

  lemma {:induction false} NamedLast(dir: seq<Entry>, e: Entry)
    requires forall x <- dir :: x.name != e.name
    ensures EntryNamed(dir + [e], e.name) == Some(e)
  {
    if dir == [] {
      assert dir + [e] == [e];
    } else {
      assert dir[0] in dir && (dir + [e])[1..] == dir[1..] + [e];
      NamedLast(dir[1..], e);
    }
  }
}
