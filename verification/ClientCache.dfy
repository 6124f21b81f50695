/** The app's history cache: pages of changes applied in seq order, then the cursor moved. */
module ClientCache {
  import opened HubSpec
  import opened HubReplica
  import opened HubSync

  ghost predicate InSeqOrder(entries: seq<Entry>) {
    forall i, j :: 0 <= i < j < |entries| ==> entries[i].seqNo <= entries[j].seqNo
  }

  class AssistantCache {
    var faults: map<nat, FaultWire>
    var messages: map<nat, MessageWire>
    var cursor: int

    ghost function Held(): Client
      reads this
    {
      Client(Cache(faults, messages), cursor)
    }

    constructor ()
      ensures Held() == NEW_CLIENT
    {
      faults, messages, cursor := map[], map[], 0;
    }

    /** Unknown kinds are skipped; objects replace what is there; tombstones delete. */
    method ApplyOne(p: Payload)
      modifies this`faults, this`messages
      ensures Held().cache == ApplyChange(old(Held().cache), p)
    {
      match p {
        case FaultChange(f) => faults := faults[f.id := f];
        case MessageChange(m) => messages := messages[m.id := m];
        case FaultGone(id) => faults := faults - {id};
        case MessageGone(id) => messages := messages - {id};
        case OtherPayload(_) =>
      }
    }

    method ApplyChanges(entries: seq<Entry>)
      modifies this`faults, this`messages
      ensures Held().cache == Fold(old(Held().cache), entries)
    {
      ghost var before := Held().cache;
      var i := 0;
      while i < |entries|
        invariant 0 <= i <= |entries|
        invariant Held().cache == Fold(before, entries[..i])
      {
        ApplyOne(entries[i].payload);
        assert entries[..i + 1] == entries[..i] + [entries[i]];
        FoldOne(before, entries[..i], entries[i]);
        i := i + 1;
      }
      assert entries[..|entries|] == entries;
    }

    /** One sync page. A page as the hub sends it, already in seq order, is folded as it is. */
    method ApplySyncPage(page: Page) returns (ghost sorted: seq<Entry>)
      modifies this
      ensures InSeqOrder(sorted) && multiset(sorted) == multiset(page.entries)
      ensures InSeqOrder(page.entries) ==> sorted == page.entries
      ensures Held() == Client(Fold(old(Held().cache), sorted), page.cursor)
    {
      var entries := SortChanges(page.entries);
      sorted := entries;
      ApplyChanges(entries);
      cursor := page.cursor;
    }
  }

  method SortChanges(entries: seq<Entry>) returns (sorted: seq<Entry>)
    ensures InSeqOrder(sorted) && multiset(sorted) == multiset(entries)
    ensures InSeqOrder(entries) ==> sorted == entries
  {
    sorted := [];
    var i := 0;
    while i < |entries|
      invariant 0 <= i <= |entries|
      invariant InSeqOrder(sorted) && multiset(sorted) == multiset(entries[..i])
      invariant InSeqOrder(entries) ==> sorted == entries[..i]
    {
      assert entries[..i + 1] == entries[..i] + [entries[i]];
      sorted := InsertChangeInOrder(sorted, entries[i]);
      i := i + 1;
    }
    assert entries[..|entries|] == entries;
  }

  method InsertChangeInOrder(sorted: seq<Entry>, e: Entry) returns (more: seq<Entry>)
    requires InSeqOrder(sorted)
    ensures InSeqOrder(more) && multiset(more) == multiset(sorted) + multiset{e}
    ensures (forall x <- sorted :: x.seqNo <= e.seqNo) ==> more == sorted + [e]
  {
    var k := |sorted|;
    while k > 0 && sorted[k - 1].seqNo > e.seqNo
      invariant 0 <= k <= |sorted|
      invariant forall j :: k <= j < |sorted| ==> sorted[j].seqNo > e.seqNo
    {
      k := k - 1;
    }
    more := ChangesWith(sorted, k, e);
    ChangesWithKeeps(sorted, k, e);
    if k < |sorted| {
      assert sorted[k] in sorted;
    }
  }

  function ChangesWith(sorted: seq<Entry>, k: nat, e: Entry): (more: seq<Entry>)
    requires k <= |sorted|
    ensures |more| == |sorted| + 1 && more[k] == e
    ensures forall i | 0 <= i < k :: more[i] == sorted[i]
    ensures forall i | k < i < |more| :: more[i] == sorted[i - 1]
  {
    sorted[..k] + [e] + sorted[k..]
  }

  lemma {:induction false} ChangesWithKeeps(sorted: seq<Entry>, k: nat, e: Entry)
    requires k <= |sorted|
    ensures multiset(ChangesWith(sorted, k, e)) == multiset(sorted) + multiset{e}
  {
    assert sorted == sorted[..k] + sorted[k..];
  }
}
