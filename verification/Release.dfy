/**
 * Publishing an agent release: binaries and checksums first, the manifest last, nothing ever
 * overwritten. Every call to the release host may fail, and an upload may store something else
 * or fail after storing.
 */
module Release {
  import opened Basics

  const MANIFEST := "agent-manifest.json"

  datatype Answer = Works | Garbles(text: string) | Fails | FailsLate

  /** Once the manifest is there, every other asset is there and is the local one. */
  ghost predicate ManifestLast(remote: map<string, string>, files: seq<string>, local: map<string, string>) {
    MANIFEST in remote ==> forall n <- files :: n in remote && n in local && remote[n] == local[n]
  }

  ghost predicate NothingOverwritten(was: map<string, string>, remote: map<string, string>) {
    forall n <- was :: n in remote && remote[n] == was[n]
  }

  /** The local assets a run works on: the files in upload order, no name twice, and the manifest. */
  ghost predicate Staged(files: seq<string>, local: map<string, string>) {
    && MANIFEST in local && MANIFEST !in files && (forall n <- files :: n in local)
    && forall i, j :: 0 <= i < j < |files| ==> files[i] != files[j]
  }

  /** The next `n` calls to the host work. */
  ghost predicate Willing(script: seq<Answer>, n: int) {
    n <= |script| && forall i :: 0 <= i < n ==> script[i].Works?
  }

  /** What is there already under these names is the local file. */
  ghost predicate NoConflict(remote: map<string, string>, names: seq<string>, local: map<string, string>) {
    forall n <- names :: n in remote ==> n in local && remote[n] == local[n]
  }

  /** The release host, answering from a script and unreachable after it. */
  class Host {
    var assets: map<string, string>
    var published: bool
    var script: seq<Answer>

    method Ask() returns (a: Answer)
      modifies this`script
      ensures script == if old(script) == [] then [] else old(script)[1..]
      ensures a == if old(script) == [] then Fails else old(script)[0]
    {
      if script == [] {
        return Fails;
      }
      a := script[0];
      script := script[1..];
    }

    method ListAssets() returns (seen: Option<map<string, string>>)
      modifies this`script
      ensures seen.Some? ==> seen.value == assets
      ensures forall n | n >= 1 && Willing(old(script), n) :: seen.Some? && Willing(script, n - 1)
    {
      var a := Ask();
      seen := if a.Works? then Some(assets) else None;
    }

    /** What is stored under the name afterwards; anything there before would be replaced. */
    method Upload(name: string, text: string) returns (ok: bool)
      modifies this`script, this`assets
      ensures assets == old(assets) || (name in assets && assets == old(assets)[name := assets[name]])
      ensures forall n | n >= 1 && Willing(old(script), n) :: ok && assets == old(assets)[name := text] && Willing(script, n - 1)
    {
      var a := Ask();
      if a.Fails? {
        return false;
      }
      assets := assets[name := if a.Garbles? then a.text else text];
      ok := !a.FailsLate?;
    }

    method Publish() returns (ok: bool)
      modifies this`script, this`published
      ensures published == (old(published) || ok)
      ensures Willing(old(script), 1) ==> ok
    {
      var a := Ask();
      ok := a.Works?;
      published := published || ok;
    }
  }

  /** Downloads what is stored under the name and compares it. */
  method VerifyRemote(host: Host, name: string, text: string) returns (same: bool)
    requires name in host.assets
    modifies host`script
    ensures same ==> host.assets[name] == text
    ensures forall n | n >= 1 && Willing(old(host.script), n) :: same == (host.assets[name] == text) && Willing(host.script, n - 1)
  {
    var a := host.Ask();
    same := a.Works? && host.assets[name] == text;
  }

  /** Checks everything that is already there before anything is uploaded. */
  method CheckExisting(host: Host, names: seq<string>, local: map<string, string>) returns (ok: bool)
    requires forall n <- names :: n in local
    modifies host`script
    ensures ok ==> NoConflict(host.assets, names, local)
    ensures forall n | n >= |names| && Willing(old(host.script), n) && NoConflict(host.assets, names, local) ::
      ok && Willing(host.script, n - |names|)
  {
    var i := 0;
    while i < |names|
      invariant 0 <= i <= |names|
      invariant NoConflict(host.assets, names[..i], local)
      invariant forall n | n >= |names| && Willing(old(host.script), n) && NoConflict(host.assets, names, local) ::
        Willing(host.script, n - i)
    {
      if names[i] in host.assets {
        var same := VerifyRemote(host, names[i], local[names[i]]);
        if !same {
          return false;
        }
      }
      i := i + 1;
    }
    assert names[..i] == names;
    ok := true;
  }

  /** Uploads one asset and reads it back. The host has none of that name whenever this is called. */
  method UploadVerified(host: Host, name: string, text: string) returns (ok: bool)
    requires name !in host.assets
    modifies host`script, host`assets
    ensures NothingOverwritten(old(host.assets), host.assets)
    ensures forall n <- host.assets :: n == name || n in old(host.assets)
    ensures ok ==> name in host.assets && host.assets[name] == text
    ensures forall n | n >= 3 && Willing(old(host.script), n) :: ok && Willing(host.script, n - 3)
  {
    var sent := host.Upload(name, text);
    if !sent {
      return false;
    }
    var seen := host.ListAssets();
    if seen.None? || name !in seen.value {
      return false;
    }
    ok := VerifyRemote(host, name, text);
  }

  /** The completion marker, handled last: verified if it is there, uploaded if not. */
  method PutManifest(host: Host, text: string) returns (ok: bool)
    modifies host`script, host`assets
    ensures NothingOverwritten(old(host.assets), host.assets)
    ensures forall n <- host.assets :: n == MANIFEST || n in old(host.assets)
    ensures ok ==> MANIFEST in host.assets && host.assets[MANIFEST] == text
    ensures MANIFEST !in old(host.assets) || old(host.assets)[MANIFEST] == text ==>
      forall n | n >= 4 && Willing(old(host.script), n) :: ok && Willing(host.script, n - 4)
  {
    var seen := host.ListAssets();
    if seen.None? {
      return false;
    }
    if MANIFEST in seen.value {
      ok := VerifyRemote(host, MANIFEST, text);
    } else {
      ok := UploadVerified(host, MANIFEST, text);
    }
  }

  /**
   * However the host answers: nothing stored is ever replaced, a conflict found at the start
   * leaves the release as it was, a manifest never appears before the other assets are complete,
   * and success means every asset is there as it is locally, and published if that was asked for.
   * A host that answers every call, with nothing in conflict, gets the release.
   */
  method PublishAssets(host: Host, files: seq<string>, local: map<string, string>, publish: bool) returns (ok: bool)
    requires Staged(files, local)
    modifies host
    ensures NothingOverwritten(old(host.assets), host.assets)
    ensures forall n <- host.assets :: n in old(host.assets) || n in files || n == MANIFEST
    ensures ManifestLast(old(host.assets), files, local) ==> ManifestLast(host.assets, files, local)
    ensures !NoConflict(old(host.assets), files + [MANIFEST], local) ==> !ok && host.assets == old(host.assets)
    ensures ok ==> forall n <- files + [MANIFEST] :: n in host.assets && host.assets[n] == local[n]
    ensures host.published && !old(host.published) ==> ok && publish
    ensures ok && publish ==> host.published
    ensures Willing(old(host.script), 4 * |files| + 7) && NoConflict(old(host.assets), files + [MANIFEST], local) ==> ok
  {
    var seen := host.ListAssets();
    if seen.None? {
      return false;
    }
    var remote := seen.value;
    ok := CheckExisting(host, files + [MANIFEST], local);
    if !ok {
      return;
    }
    ghost var was := host.assets;
    var i := 0;
    while i < |files|
      invariant 0 <= i <= |files| && NothingOverwritten(was, host.assets)
      invariant forall n <- host.assets :: n in was || n in files[..i]
      invariant forall j :: 0 <= j < i ==> files[j] in host.assets && host.assets[files[j]] == local[files[j]]
      invariant host.published == old(host.published)
      invariant Willing(old(host.script), 4 * |files| + 7) ==> Willing(host.script, 3 * (|files| - i) + 5)
    {
      if files[i] !in remote {
        ok := UploadVerified(host, files[i], local[files[i]]);
        if !ok {
          return;
        }
      } else {
        assert files[i] in files + [MANIFEST];
      }
      i := i + 1;
    }
    ok := PutManifest(host, local[MANIFEST]);
    if ok && publish {
      ok := host.Publish();
    }
  }
}
