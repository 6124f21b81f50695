/**
 * The hub's cache of agent releases: which names it manages, what a manifest must say, how room
 * is made, and the protocol of one gate holder downloading and leasing files while leases are
 * released at any moment.
 */
module CacheSpec {

  const MAX_ASSET: int := 128 * 1024 * 1024
  const MAX_METADATA: int := 1024 * 1024

  // ---- names ----

  predicate IsDigit(c: char) { '0' <= c <= '9' }

  function LeadingDigits(s: string): (k: nat)
    ensures k <= |s| && (forall i :: 0 <= i < k ==> IsDigit(s[i])) && (k < |s| ==> !IsDigit(s[k]))
  {
    if s == "" || !IsDigit(s[0]) then 0 else 1 + LeadingDigits(s[1..])
  }

  /** `groups` runs of digits with single dots between them. */
  predicate Dotted(s: string, groups: nat)
    decreases groups
  {
    var k := LeadingDigits(s);
    if groups <= 1 then 0 < k == |s| else 0 < k < |s| && s[k] == '.' && Dotted(s[k + 1..], groups - 1)
  }

  predicate ValidVersion(v: string) { |v| <= 64 && Dotted(v, 3) }

  const MANIFEST := "agent-manifest.json"
  const CHECKSUMS := "agent-SHA256SUMS.txt"
  const BINARY := "assistant-agent_"
  const TEMP := ".agent-download-"

  predicate StartsWith(s: string, prefix: string) { |prefix| <= |s| && s[..|prefix|] == prefix }

  predicate EndsWith(s: string, suffix: string) { |suffix| <= |s| && s[|s| - |suffix|..] == suffix }

  predicate BinaryName(name: string, arch: string) {
    var suffix := "_linux_" + arch;
    && StartsWith(name, BINARY) && EndsWith(name, suffix) && |BINARY| + |suffix| <= |name|
    && ValidVersion(name[|BINARY|..|name| - |suffix|])
  }

  predicate ValidAsset(name: string) {
    name == MANIFEST || name == CHECKSUMS || BinaryName(name, "amd64") || BinaryName(name, "arm64")
  }

  function FirstUnderscore(s: string): (k: nat)
    ensures k <= |s| && (forall i :: 0 <= i < k ==> s[i] != '_') && (k < |s| ==> s[k] == '_')
  {
    if s == "" || s[0] == '_' then 0 else 1 + FirstUnderscore(s[1..])
  }

  /** Only files named version_asset are the cache's to delete. */
  predicate Managed(key: string) {
    var k := FirstUnderscore(key);
    k < |key| && ValidVersion(key[..k]) && ValidAsset(key[k + 1..])
  }

  function KeyOf(version: string, asset: string): string { version + "_" + asset }

  lemma {:induction false} DottedChars(s: string, groups: nat)
    requires Dotted(s, groups)
    ensures forall i :: 0 <= i < |s| ==> IsDigit(s[i]) || s[i] == '.'
    ensures s != "" && IsDigit(s[0])
    decreases groups
  {
    var k := LeadingDigits(s);
    if groups > 1 {
      DottedChars(s[k + 1..], groups - 1);
      assert forall i :: k < i < |s| ==> s[i] == s[k + 1..][i - k - 1];
    }
  }

  ghost predicate Digits(s: string) { s != "" && forall c <- s :: '0' <= c <= '9' }

  /** Three numbers with dots between them, 64 characters at most. */
  ghost predicate ThreeNumbers(v: string) {
    |v| <= 64 && exists a, b, c :: Digits(a) && Digits(b) && Digits(c) && v == a + "." + b + "." + c
  }

  lemma {:induction false} LeadingOf(a: string, rest: string)
    requires Digits(a) && (rest == "" || !IsDigit(rest[0]))
    ensures LeadingDigits(a + rest) == |a|
  {
    var s := a + rest;
    var k := LeadingDigits(s);
    assert forall i :: 0 <= i < |a| ==> s[i] == a[i] && a[i] in a;
    assert rest != "" ==> s[|a|] == rest[0];
  }

  lemma {:induction false} DottedOf(a: string, rest: string, groups: nat)
    requires Digits(a) && groups > 1
    ensures Dotted(a + "." + rest, groups) <==> Dotted(rest, groups - 1)
  {
    assert a + "." + rest == a + ("." + rest);
    LeadingOf(a, "." + rest);
    var s := a + ("." + rest);
    assert s[|a|] == '.' && s[|a| + 1..] == rest;
  }

  lemma {:induction false} OneNumber(s: string)
    ensures Dotted(s, 1) <==> Digits(s)
  {
    if Digits(s) {
      assert s + "" == s;
      LeadingOf(s, "");
    }
  }

  lemma {:induction false} HeadNumber(s: string, groups: nat) returns (a: string, rest: string)
    requires groups > 1 && Dotted(s, groups)
    ensures Digits(a) && s == a + "." + rest && Dotted(rest, groups - 1)
  {
    var k := LeadingDigits(s);
    a, rest := s[..k], s[k + 1..];
    forall c | c in a ensures '0' <= c <= '9' {
      var i :| 0 <= i < |a| && a[i] == c;
      assert s[i] == c;
    }
  }

  lemma {:induction false} VersionExactly(v: string)
    ensures ValidVersion(v) <==> ThreeNumbers(v)
  {
    hide Dotted, Digits;
    if Dotted(v, 3) {
      var a, rest := HeadNumber(v, 3);
      var b, c := HeadNumber(rest, 2);
      OneNumber(c);
      assert v == a + "." + (b + "." + c) == a + "." + b + "." + c;
    }
    forall a, b, c | Digits(a) && Digits(b) && Digits(c) ensures Dotted(a + "." + b + "." + c, 3) {
      assert a + "." + b + "." + c == a + "." + (b + "." + c);
      OneNumber(c);
      DottedOf(b, c, 2);
      DottedOf(a, b + "." + c, 3);
    }
  }

  /** The four names a version's assets can have. */
  ghost predicate AssetNamed(name: string) {
    || name in {"agent-manifest.json", "agent-SHA256SUMS.txt"}
    || exists v: string, arch: string ::
         ThreeNumbers(v) && arch in {"amd64", "arm64"} && name == "assistant-agent_" + v + "_linux_" + arch
  }

  lemma {:induction false} BinaryNameExactly(name: string, arch: string)
    ensures BinaryName(name, arch) <==> exists v: string :: ValidVersion(v) && name == BINARY + v + ("_linux_" + arch)
  {
    hide ValidVersion;
    var suffix := "_linux_" + arch;
    if BinaryName(name, arch) {
      var v := name[|BINARY|..|name| - |suffix|];
      assert name == BINARY + v + suffix;
    }
    forall v: string | ValidVersion(v) && name == BINARY + v + suffix ensures BinaryName(name, arch) {
      assert name[|BINARY|..|name| - |suffix|] == v;
    }
  }

  lemma {:induction false} AssetExactly(name: string)
    ensures ValidAsset(name) <==> AssetNamed(name)
  {
    hide ValidVersion, BinaryName, ThreeNumbers;
    forall v ensures ValidVersion(v) <==> ThreeNumbers(v) {
      VersionExactly(v);
    }
    forall arch | arch in {"amd64", "arm64"}
      ensures BinaryName(name, arch) <==> exists v: string :: ThreeNumbers(v) && name == "assistant-agent_" + v + "_linux_" + arch
    {
      BinaryNameExactly(name, arch);
      forall v: string ensures BINARY + v + ("_linux_" + arch) == "assistant-agent_" + v + "_linux_" + arch {
        assert BINARY + v + ("_linux_" + arch) == BINARY + v + "_linux_" + arch;
      }
    }
  }

  /** A key determines its version and asset, is managed, and is no temporary file. */
  lemma {:induction false} KeysApart(version: string, asset: string)
    requires ValidVersion(version)
    ensures var key := KeyOf(version, asset);
      && FirstUnderscore(key) == |version| && key[..|version|] == version && key[|version| + 1..] == asset
      && (Managed(key) <==> ValidAsset(asset)) && !StartsWith(key, TEMP)
  {
    var key := KeyOf(version, asset);
    DottedChars(version, 3);
    assert key[|version|] == '_';
    assert forall i :: 0 <= i < |version| ==> key[i] == version[i];
    assert key[0] != TEMP[0];
    assert |TEMP| <= |key| ==> key[..|TEMP|][0] == key[0];
  }

  lemma {:induction false} TempUnmanaged(name: string)
    requires StartsWith(name, TEMP)
    ensures !Managed(name)
  {
    var k := FirstUnderscore(name);
    assert name[0] == name[..|TEMP|][0] == '.';
    if k < |name| && ValidVersion(name[..k]) {
      DottedChars(name[..k], 3);
    }
  }

  // ---- manifests ----

  datatype Asset = Asset(os: string, arch: string, name: string, size: int, sha: string)

  datatype Manifest = Manifest(schema: int, version: string, assets: seq<Asset>)

  predicate HexDigest(s: string) { |s| == 64 && forall c <- s :: IsDigit(c) || 'a' <= c <= 'f' }

  predicate ValidAssetEntry(x: Asset, version: string) {
    && x.os == "linux" && (x.arch == "amd64" || x.arch == "arm64") && 0 < x.size <= MAX_ASSET && HexDigest(x.sha)
    && x.name == BINARY + version + "_linux_" + x.arch
  }

  /** One entry per architecture, each naming its own binary of this version. */
  predicate ValidManifest(m: Manifest, version: string) {
    && ValidVersion(version) && m.schema == 1 && m.version == version && |m.assets| == 2
    && ValidAssetEntry(m.assets[0], version) && ValidAssetEntry(m.assets[1], version)
    && m.assets[0].arch != m.assets[1].arch
  }

  method CheckManifest(m: Manifest, version: string) returns (ok: bool)
    ensures ok == ValidManifest(m, version)
  {
    if !ValidVersion(version) || m.schema != 1 || m.version != version || |m.assets| != 2 {
      return false;
    }
    var seen: set<string> := {};
    var i := 0;
    while i < 2
      invariant 0 <= i <= 2 && seen == set j | 0 <= j < i :: m.assets[j].arch
      invariant forall j :: 0 <= j < i ==> ValidAssetEntry(m.assets[j], version)
      invariant i == 2 ==> m.assets[0].arch != m.assets[1].arch
    {
      var x := m.assets[i];
      if x.arch in seen || !ValidAssetEntry(x, version) {
        return false;
      }
      assert i == 1 ==> m.assets[0].arch in seen;
      seen := seen + {x.arch};
      i := i + 1;
    }
    ok := true;
  }

  function Checksums(assets: seq<Asset>): string {
    if assets == [] then "" else assets[0].sha + "  " + assets[0].name + "\n" + Checksums(assets[1..])
  }

  /** Asset names in a valid manifest are valid, and each names exactly one entry. */
  lemma {:induction false} ManifestNames(m: Manifest, version: string)
    requires ValidManifest(m, version)
    ensures forall x <- m.assets :: ValidAsset(x.name)
    ensures forall x, y | x in m.assets && y in m.assets && x.name == y.name :: x == y
  {
    hide ValidVersion, BinaryName, HexDigest;
    var (x, y) := (m.assets[0], m.assets[1]);
    BinaryNamed(version, x.arch);
    BinaryNamed(version, y.arch);
    assert m.assets == [x, y];
    assert |x.arch| == |y.arch| == 5;
  }

  lemma {:induction false} BinaryNamed(version: string, arch: string)
    requires ValidVersion(version)
    ensures var name := BINARY + version + "_linux_" + arch;
      BinaryName(name, arch) && |arch| <= |name| && name[|name| - |arch|..] == arch
  {
    hide ValidVersion;
    var suffix := "_linux_" + arch;
    var name := BINARY + version + "_linux_" + arch;
    assert name == BINARY + version + suffix;
    assert name[|BINARY|..|name| - |suffix|] == version;
    assert name[|name| - |suffix|..] == suffix && name[..|BINARY|] == BINARY;
  }

  // ---- the directory ----

  datatype Entry = Entry(name: string, content: string, mtime: int, regular: bool)

  /** Bytes of the regular files. */
  function Total(dir: seq<Entry>): nat {
    if dir == [] then 0 else SizeOf(dir[0]) + Total(dir[1..])
  }

  function Without(dir: seq<Entry>, name: string): (rest: seq<Entry>)
    ensures forall e :: e in rest <==> e in dir && e.name != name
  {
    if dir == [] then [] else
      var rest := Without(dir[1..], name);
      if dir[0].name == name then rest else [dir[0]] + rest
  }

  function WithoutAll(dir: seq<Entry>, names: seq<string>): (rest: seq<Entry>)
    ensures forall e :: e in rest <==> e in dir && e.name !in names
    decreases |names|
  {
    if names == [] then dir else WithoutAll(Without(dir, names[0]), names[1..])
  }

  ghost predicate Unique(dir: seq<Entry>) {
    forall i, j :: 0 <= i < j < |dir| ==> dir[i].name != dir[j].name
  }

  predicate Has(dir: seq<Entry>, name: string) { exists e <- dir :: e.name == name }

  function SizeOf(e: Entry): nat { if e.regular then |e.content| else 0 }

  lemma {:induction false} WithoutNone(dir: seq<Entry>, name: string)
    requires forall i :: 0 <= i < |dir| ==> dir[i].name != name
    ensures Without(dir, name) == dir
  {
    if dir != [] {
      WithoutNone(dir[1..], name);
    }
  }

  lemma {:induction false} WithoutUnique(dir: seq<Entry>, name: string)
    requires Unique(dir)
    ensures Unique(Without(dir, name))
  {
    if dir != [] {
      WithoutUnique(dir[1..], name);
      assert forall e <- Without(dir[1..], name) :: e in dir[1..] && e.name != dir[0].name;
    }
  }

  /** The file taken away, if there is one, takes its bytes with it. */
  lemma {:induction false} WithoutTotal(dir: seq<Entry>, k: nat)
    requires Unique(dir) && k < |dir|
    ensures Total(Without(dir, dir[k].name)) == Total(dir) - SizeOf(dir[k])
    ensures SizeOf(dir[k]) <= Total(dir)
  {
    if k == 0 {
      WithoutNone(dir[1..], dir[0].name);
    } else {
      WithoutTotal(dir[1..], k - 1);
      assert Without(dir, dir[k].name) == [dir[0]] + Without(dir[1..], dir[k].name);
    }
  }

  lemma {:induction false} WithoutKeeps(dir: seq<Entry>, name: string)
    requires Unique(dir)
    ensures Unique(Without(dir, name)) && Total(Without(dir, name)) <= Total(dir)
  {
    WithoutUnique(dir, name);
    if k: nat :| k < |dir| && dir[k].name == name {
      WithoutTotal(dir, k);
    } else {
      WithoutNone(dir, name);
    }
  }

  // ---- making room ----

  function RefCount(refs: map<string, nat>, key: string): nat { if key in refs then refs[key] else 0 }

  /** Files that may be evicted. */
  predicate Evictable(e: Entry, refs: map<string, nat>) { e.regular && Managed(e.name) && RefCount(refs, e.name) == 0 }

  /** The evictable files, each once, oldest first; files of the same age in any order. */
  ghost predicate OldestFirst(order: seq<Entry>, dir: seq<Entry>, refs: map<string, nat>) {
    && (forall e :: e in order <==> e in dir && Evictable(e, refs))
    && (forall i, j :: 0 <= i < j < |order| ==> order[i].mtime <= order[j].mtime && order[i].name != order[j].name)
  }

  function Names(order: seq<Entry>): seq<string> { if order == [] then [] else [order[0].name] + Names(order[1..]) }

  /** Evicts along `order` until `extra` more bytes fit under `max`. */
  function Evicted(dir: seq<Entry>, order: seq<Entry>, extra: nat, max: int): seq<Entry>
    decreases |order|
  {
    if order == [] || Total(dir) + extra <= max then dir
    else Evicted(Without(dir, order[0].name), order[1..], extra, max)
  }

  predicate Fits(dir: seq<Entry>, extra: nat, max: int) { Total(dir) + extra <= max }

  /** Nothing is touched when the request can never fit. */
  function RoomMade(dir: seq<Entry>, order: seq<Entry>, extra: nat, max: int): (seq<Entry>, bool) {
    if extra > max || max <= 0 then (dir, false)
    else (Evicted(dir, order, extra, max), Fits(Evicted(dir, order, extra, max), extra, max))
  }

  lemma {:induction false} NamesOf(order: seq<Entry>)
    ensures |Names(order)| == |order| && forall i :: 0 <= i < |order| ==> Names(order)[i] == order[i].name
    ensures forall n :: n in Names(order) <==> exists e <- order :: e.name == n
  {
    if order != [] {
      NamesOf(order[1..]);
      assert order == [order[0]] + order[1..];
    }
  }

  /** The files evicted are the shortest oldest-first prefix that makes room, or all of them. */
  lemma {:induction false} EvictsShortestPrefix(dir: seq<Entry>, order: seq<Entry>, extra: nat, max: int) returns (k: nat)
    ensures k <= |order| && Evicted(dir, order, extra, max) == WithoutAll(dir, Names(order[..k]))
    ensures forall j :: 0 <= j < k ==> !Fits(WithoutAll(dir, Names(order[..j])), extra, max)
    ensures k < |order| ==> Fits(Evicted(dir, order, extra, max), extra, max)
    decreases |order|
  {
    if order == [] || Fits(dir, extra, max) {
      assert order[..0] == [];
      return 0;
    }
    var dir1 := Without(dir, order[0].name);
    var n := EvictsShortestPrefix(dir1, order[1..], extra, max);
    k := n + 1;
    forall j | 0 <= j < k ensures !Fits(WithoutAll(dir, Names(order[..j])), extra, max) {
      if j > 0 {
        assert order[..j][1..] == order[1..][..j - 1];
        assert WithoutAll(dir, Names(order[..j])) == WithoutAll(dir1, Names(order[1..][..j - 1]));
      }
    }
    assert order[..k][1..] == order[1..][..n];
  }

  /** No file is evicted while an older one could have been. */
  ghost predicate OlderWent(dir: seq<Entry>, dir': seq<Entry>, refs: map<string, nat>) {
    forall e, x | e in dir && e !in dir' && x in dir' && Evictable(x, refs) :: e.mtime <= x.mtime
  }

  lemma {:induction false} EvictsOldest(dir: seq<Entry>, order: seq<Entry>, refs: map<string, nat>, extra: nat, max: int)
    requires Unique(dir) && OldestFirst(order, dir, refs)
    ensures OlderWent(dir, Evicted(dir, order, extra, max), refs)
    ensures forall e | e in dir && e !in Evicted(dir, order, extra, max) :: Evictable(e, refs)
  {
    hide Evictable, Evicted, Names, WithoutAll;
    var k := EvictsShortestPrefix(dir, order, extra, max);
    NamesOf(order[..k]);
    var dir' := Evicted(dir, order, extra, max);
    forall e | e in dir && e !in dir' ensures exists i :: 0 <= i < k && order[i] == e {
      var x :| x in order[..k] && x.name == e.name;
      assert x in order && x in dir;
    }
    forall x | x in dir' && Evictable(x, refs) ensures exists j :: k <= j < |order| && order[j] == x {
      assert x in dir && x in order;
      var j :| 0 <= j < |order| && order[j] == x;
    }
  }

  lemma {:induction false} EvictedKeeps(dir: seq<Entry>, order: seq<Entry>, extra: nat, max: int)
    requires Unique(dir)
    ensures var rest := Evicted(dir, order, extra, max);
      && Unique(rest) && Total(rest) <= Total(dir)
      && (forall e <- rest :: e in dir) && (forall e <- dir :: e in rest || exists x <- order :: x.name == e.name)
    decreases |order|
  {
    if order != [] && !Fits(dir, extra, max) {
      WithoutKeeps(dir, order[0].name);
      EvictedKeeps(Without(dir, order[0].name), order[1..], extra, max);
    }
  }
}
