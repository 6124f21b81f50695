/**
 * The agent's persistent queues. Class `Queue` is one queue table with its AUTOINCREMENT
 * counter, its overflow record and its seq counter; the functions on `Lane` say what each
 * operation leaves behind, and the run lemmas say what every sequence of operations keeps.
 */
module AgentQueue {
  import opened Basics

  datatype Kind = Metrics | Events

  datatype Overflow = Overflow(dropped: nat, firstAt: int, lastAt: int)

  /** A queued body: data of the source, or one of the two notices the agent makes itself. */
  datatype Payload =
    | Data(body: string)
    | QueueOverflow(kind: Kind, overflow: Overflow)
    | PayloadDropped(kind: Kind, number: nat)  // a refused metrics seq, or a count of refused events

  datatype Row = Row(id: nat, seqNo: nat, payload: Payload, createdAt: int)

  datatype Lane = Lane(rows: seq<Row>, lastId: nat, overflow: Option<Overflow>, lastSeq: nat)

  const EMPTY_LANE: Lane := Lane([], 0, None, 0)

  // ---- what the operations compute ----

  function Insert(l: Lane, seqNo: nat, payload: Payload, now: int): Lane {
    l.(rows := l.rows + [Row(l.lastId + 1, seqNo, payload, now)], lastId := l.lastId + 1)
  }

  function Min(a: int, b: int): int { if a < b then a else b }

  function Max(a: int, b: int): int { if a > b then a else b }

  function Earliest(rows: seq<Row>): int
    requires rows != []
  {
    if |rows| == 1 then rows[0].createdAt else Min(Earliest(rows[..|rows| - 1]), rows[|rows| - 1].createdAt)
  }

  function Latest(rows: seq<Row>): int
    requires rows != []
  {
    if |rows| == 1 then rows[0].createdAt else Max(Latest(rows[..|rows| - 1]), rows[|rows| - 1].createdAt)
  }

  /** `at` is the enqueue time of one of the rows and none is earlier; or later. */
  ghost predicate IsEarliest(rows: seq<Row>, at: int) {
    (exists i :: 0 <= i < |rows| && rows[i].createdAt == at) && forall i :: 0 <= i < |rows| ==> at <= rows[i].createdAt
  }

  ghost predicate IsLatest(rows: seq<Row>, at: int) {
    (exists i :: 0 <= i < |rows| && rows[i].createdAt == at) && forall i :: 0 <= i < |rows| ==> rows[i].createdAt <= at
  }

  lemma {:induction false} WindowExact(rows: seq<Row>)
    requires rows != []
    ensures IsEarliest(rows, Earliest(rows)) && IsLatest(rows, Latest(rows))
  {
    var n := |rows| - 1;
    if n > 0 {
      WindowExact(rows[..n]);
      var i :| 0 <= i < n && rows[..n][i].createdAt == Earliest(rows[..n]);
      var j :| 0 <= j < n && rows[..n][j].createdAt == Latest(rows[..n]);
      assert rows[i].createdAt == Earliest(rows) || rows[n].createdAt == Earliest(rows);
      assert rows[j].createdAt == Latest(rows) || rows[n].createdAt == Latest(rows);
      assert forall k | 0 <= k < n :: rows[k] == rows[..n][k];
    }
  }

  /** Several overflows of one kind merge into one record with one time window. */
  function Merge(was: Option<Overflow>, more: Overflow): Overflow {
    match was
    case None => more
    case Some(o) => Overflow(o.dropped + more.dropped, Min(o.firstAt, more.firstAt), Max(o.lastAt, more.lastAt))
  }

  /** Drops the `n` oldest rows, or all of them when there are fewer, and records the loss. */
  function LaneTrimmed(l: Lane, n: int): Lane {
    if n <= 0 || l.rows == [] then l
    else
      var k := if n < |l.rows| then n else |l.rows|;
      var gone := l.rows[..k];
      l.(rows := l.rows[k..], overflow := Some(Merge(l.overflow, Overflow(k, Earliest(gone), Latest(gone)))))
  }

  function LaneEnqueued(l: Lane, max: nat, seqNo: nat, payload: Payload, now: int): Lane {
    var l1 := Insert(l, seqNo, payload, now);
    LaneTrimmed(l1, |l1.rows| - max)
  }

  function Without(rows: seq<Row>, ids: set<nat>): (rest: seq<Row>)
    ensures |rest| <= |rows|
    ensures forall r :: r in rest <==> r in rows && r.id !in ids
  {
    if rows == [] then [] else
      var front := Without(rows[..|rows| - 1], ids);
      var last := rows[|rows| - 1];
      assert rows == rows[..|rows| - 1] + [last];
      if last.id in ids then front else front + [last]
  }

  function LaneWithout(l: Lane, ids: set<nat>): Lane { l.(rows := Without(l.rows, ids)) }

  ghost predicate Increasing(rows: seq<Row>) {
    forall i, j :: 0 <= i < j < |rows| ==> rows[i].id < rows[j].id
  }

  /** Ids increase along the table and the counter is past them all. */
  ghost predicate Ordered(l: Lane) {
    Increasing(l.rows) && forall r <- l.rows :: 1 <= r.id <= l.lastId
  }

  lemma {:induction false} WithoutOrdered(rows: seq<Row>, ids: set<nat>)
    requires Increasing(rows)
    ensures Increasing(Without(rows, ids))
  {
    if rows != [] {
      var front, last := rows[..|rows| - 1], rows[|rows| - 1];
      WithoutOrdered(front, ids);
      assert forall r <- Without(front, ids) :: r in front && r.id < last.id;
    }
  }

  /** Deleting what a peek returned leaves exactly the rest of the table. */
  lemma {:induction false} WithoutPrefix(rows: seq<Row>, k: nat, ids: set<nat>)
    requires Increasing(rows) && k <= |rows| && ids == IdsOf(rows[..k])
    ensures Without(rows, ids) == rows[k..]
    decreases |rows|
  {
    if k == |rows| {
      assert forall r <- rows :: r in rows[..k];
      assert forall r :: r !in Without(rows, ids);
      NothingIn(Without(rows, ids));
    } else {
      var front, last := rows[..|rows| - 1], rows[|rows| - 1];
      assert front[..k] == rows[..k];
      WithoutPrefix(front, k, ids);
      assert last.id !in ids;
      assert front[k..] + [last] == rows[k..];
    }
  }

  function IdsOf(rows: seq<Row>): set<nat> { set r <- rows :: r.id }

  function SetOf(ids: seq<nat>): set<nat> { set id <- ids }

  // ---- the queue itself ----

  class Queue {
    const max: nat
    var rows: seq<Row>
    var lastId: nat
    var overflow: Option<Overflow>
    var lastSeq: nat

    ghost function Now(): Lane
      reads this
    {
      Lane(rows, lastId, overflow, lastSeq)
    }

    constructor (max: nat)
      ensures Now() == EMPTY_LANE && this.max == max
    {
      this.max := max;
      rows, lastId, overflow, lastSeq := [], 0, None, 0;
    }

    method NextSeq() returns (n: nat)
      modifies this`lastSeq
      ensures n == old(lastSeq) + 1 && Now() == old(Now()).(lastSeq := n)
    {
      lastSeq := lastSeq + 1;
      n := lastSeq;
    }

    method AddOverflow(dropped: nat, firstAt: int, lastAt: int)
      modifies this`overflow
      ensures Now() == old(Now()).(overflow := Some(Merge(old(overflow), Overflow(dropped, firstAt, lastAt))))
    {
      match overflow
      case None => overflow := Some(Overflow(dropped, firstAt, lastAt));
      case Some(o) =>
        overflow := Some(Overflow(o.dropped + dropped, Min(o.firstAt, firstAt), Max(o.lastAt, lastAt)));
    }

    method EnqueueNoTrim(seqNo: nat, payload: Payload, now: int)
      modifies this`rows, this`lastId
      ensures Now() == Insert(old(Now()), seqNo, payload, now)
    {
      lastId := lastId + 1;
      rows := rows + [Row(lastId, seqNo, payload, now)];
    }

    /** The rows dropped are the oldest ones; their number is returned. */
    method Enqueue(seqNo: nat, payload: Payload, now: int) returns (dropped: nat)
      modifies this`rows, this`lastId, this`overflow
      ensures Now() == LaneEnqueued(old(Now()), max, seqNo, payload, now)
      ensures |rows| <= max && dropped == |old(rows)| + 1 - |rows|
    {
      EnqueueNoTrim(seqNo, payload, now);
      dropped := 0;
      if |rows| > max {
        dropped := |rows| - max;
        var firstAt, lastAt := Window(rows[..dropped]);
        rows := rows[dropped..];
        AddOverflow(dropped, firstAt, lastAt);
      }
    }

    method DropOldest(n: int) returns (dropped: nat)
      modifies this`rows, this`overflow
      ensures Now() == LaneTrimmed(old(Now()), n) && dropped == |old(rows)| - |rows|
    {
      if n <= 0 || rows == [] {
        return 0;
      }
      dropped := if n < |rows| then n else |rows|;
      var firstAt, lastAt := Window(rows[..dropped]);
      rows := rows[dropped..];
      AddOverflow(dropped, firstAt, lastAt);
    }

    method DeleteIds(ids: seq<nat>)
      modifies this`rows
      ensures Now() == LaneWithout(old(Now()), SetOf(ids))
    {
      hide Without, SetOf;
      ghost var before := rows;
      var i := 0;
      WithoutNone(rows);
      SetOfEmpty(ids);
      while i < |ids|
        invariant 0 <= i <= |ids|
        invariant rows == Without(before, SetOf(ids[..i]))
      {
        rows := DeleteId(rows, ids[i]);
        WithoutMore(before, SetOf(ids[..i]), ids[i]);
        SetOfMore(ids, i);
        i := i + 1;
      }
      assert ids[..|ids|] == ids;
    }

    method Peek(limit: nat) returns (first: seq<Row>)
      ensures first == rows[..Min(limit, |rows|)]
    {
      first := if limit < |rows| then rows[..limit] else rows;
    }

    method TakeOverflow() returns (taken: Option<Overflow>)
      modifies this`overflow
      ensures taken == old(overflow) && Now() == old(Now()).(overflow := None)
    {
      taken := overflow;
      overflow := None;
    }
  }

  lemma SetOfEmpty(ids: seq<nat>)
    ensures SetOf(ids[..0]) == {}
  {
  }

  lemma SetOfMore(ids: seq<nat>, i: nat)
    requires i < |ids|
    ensures SetOf(ids[..i + 1]) == SetOf(ids[..i]) + {ids[i]}
  {
    assert ids[..i + 1] == ids[..i] + [ids[i]];
  }

  method DeleteId(rows: seq<Row>, id: nat) returns (kept: seq<Row>)
    ensures kept == Without(rows, {id})
  {
    kept := [];
    var j := 0;
    while j < |rows|
      invariant 0 <= j <= |rows|
      invariant kept == Without(rows[..j], {id})
    {
      assert rows[..j + 1][..j] == rows[..j];
      if rows[j].id != id { kept := kept + [rows[j]]; }
      j := j + 1;
    }
    assert rows[..|rows|] == rows;
  }

  /** SELECT MIN(created_at), MAX(created_at). */
  method Window(rows: seq<Row>) returns (firstAt: int, lastAt: int)
    requires rows != []
    ensures firstAt == Earliest(rows) && lastAt == Latest(rows)
  {
    firstAt, lastAt := rows[0].createdAt, rows[0].createdAt;
    var i := 1;
    while i < |rows|
      invariant 1 <= i <= |rows|
      invariant firstAt == Earliest(rows[..i]) && lastAt == Latest(rows[..i])
    {
      assert rows[..i + 1][..i] == rows[..i];
      if rows[i].createdAt < firstAt { firstAt := rows[i].createdAt; }
      if rows[i].createdAt > lastAt { lastAt := rows[i].createdAt; }
      i := i + 1;
    }
    assert rows[..|rows|] == rows;
  }

  lemma {:induction false} WithoutNone(rows: seq<Row>)
    ensures Without(rows, {}) == rows
  {
    if rows != [] {
      WithoutNone(rows[..|rows| - 1]);
      assert rows == rows[..|rows| - 1] + [rows[|rows| - 1]];
    }
  }

  lemma {:induction false} WithoutMore(rows: seq<Row>, ids: set<nat>, id: nat)
    ensures Without(Without(rows, ids), {id}) == Without(rows, ids + {id})
  {
    if rows != [] {
      var front, last := rows[..|rows| - 1], rows[|rows| - 1];
      WithoutMore(front, ids, id);
      if last.id !in ids {
        assert (Without(front, ids) + [last])[..|Without(front, ids)|] == Without(front, ids);
      }
    }
  }

  // ---- every sequence of operations ----

  datatype Op =
    | Put(seqNo: nat, payload: Payload, now: int)
    | PutNoTrim(seqNo: nat, payload: Payload, now: int)
    | DropOld(n: int)
    | Delete(ids: set<nat>)
    | Take
    | Alloc

  function Do(l: Lane, max: nat, op: Op): Lane {
    match op
    case Put(seqNo, payload, now) => LaneEnqueued(l, max, seqNo, payload, now)
    case PutNoTrim(seqNo, payload, now) => Insert(l, seqNo, payload, now)
    case DropOld(n) => LaneTrimmed(l, n)
    case Delete(ids) => LaneWithout(l, ids)
    case Take => l.(overflow := None)
    case Alloc => l.(lastSeq := l.lastSeq + 1)
  }

  /**
   * The books of a run: every row ever inserted, the rows acknowledged away, the rows dropped
   * since the record was last taken, and those dropped before.
   */
  datatype Ledger = Ledger(lane: Lane, inserted: seq<Row>, deleted: set<nat>, lost: seq<Row>, taken: set<nat>,
                           takenCount: nat)

  const NO_LEDGER: Ledger := Ledger(EMPTY_LANE, [], {}, [], {}, 0)

  function Filed(b: Ledger, seqNo: nat, payload: Payload, now: int): Ledger {
    b.(lane := Insert(b.lane, seqNo, payload, now),
       inserted := b.inserted + [Row(b.lane.lastId + 1, seqNo, payload, now)])
  }

  /** What a trim cuts away is booked as lost, oldest first. */
  function Trimmed(b: Ledger, n: int): Ledger {
    var l' := LaneTrimmed(b.lane, n);
    b.(lane := l', lost := b.lost + b.lane.rows[..|b.lane.rows| - |l'.rows|])
  }

  function Booked(b: Ledger, max: nat, op: Op): Ledger {
    match op
    case Put(seqNo, payload, now) =>
      var b1 := Filed(b, seqNo, payload, now);
      Trimmed(b1, |b1.lane.rows| - max)
    case PutNoTrim(seqNo, payload, now) => Filed(b, seqNo, payload, now)
    case DropOld(n) => Trimmed(b, n)
    case Delete(ids) => b.(lane := LaneWithout(b.lane, ids), deleted := b.deleted + ids * IdsOf(b.lane.rows))
    case Take => b.(lane := b.lane.(overflow := None), lost := [], taken := b.taken + IdsOf(b.lost),
                    takenCount := b.takenCount + Recorded(b.lane))
    case Alloc => b.(lane := b.lane.(lastSeq := b.lane.lastSeq + 1))
  }

  function Recorded(l: Lane): nat { if l.overflow.Some? then l.overflow.value.dropped else 0 }

  function BookAll(max: nat, ops: seq<Op>): Ledger {
    if ops == [] then NO_LEDGER else Booked(BookAll(max, ops[..|ops| - 1]), max, ops[|ops| - 1])
  }

  /** The first `n` ids are split over the four places. */
  ghost predicate Split(n: nat, present: set<nat>, deleted: set<nat>, lost: set<nat>, taken: set<nat>) {
    && UpTo(n) == present + deleted + lost + taken
    && present !! deleted && present !! lost && present !! taken
    && deleted !! lost && deleted !! taken && lost !! taken
  }

  ghost predicate Distinct(rows: seq<Row>) {
    forall i, j :: 0 <= i < j < |rows| ==> rows[i].id != rows[j].id
  }

  /** The rows are among those inserted, as they were. */
  ghost predicate From(rows: seq<Row>, inserted: seq<Row>) {
    forall i :: 0 <= i < |rows| ==> 1 <= rows[i].id <= |inserted| && rows[i] == inserted[rows[i].id - 1]
  }

  ghost predicate Numbered(inserted: seq<Row>) {
    forall i :: 0 <= i < |inserted| ==> inserted[i].id == i + 1
  }

  /** Each row inserted is in exactly one place, and the rows present are in insertion order. */
  ghost predicate Balanced(b: Ledger) {
    && |b.inserted| == b.lane.lastId && Numbered(b.inserted)
    && Increasing(b.lane.rows) && From(b.lane.rows, b.inserted)
    && Distinct(b.lost) && From(b.lost, b.inserted)
    && Split(b.lane.lastId, IdsOf(b.lane.rows), b.deleted, IdsOf(b.lost), b.taken)
  }

  /** The record counts the rows lost since it was last taken, and its window is exactly theirs. */
  ghost predicate Recounted(b: Ledger) {
    && b.takenCount == |b.taken|
    && (b.lost == [] ==> b.lane.overflow.None?)
    && (b.lost != [] ==> b.lane.overflow == Some(Overflow(|b.lost|, Earliest(b.lost), Latest(b.lost))))
  }

  lemma {:induction false} FiledKeeps(b: Ledger, seqNo: nat, payload: Payload, now: int)
    requires Balanced(b)
    ensures Balanced(Filed(b, seqNo, payload, now))
  {
    hide IdsOf, Split, Increasing, From, Distinct, Numbered;
    var row := Row(b.lane.lastId + 1, seqNo, payload, now);
    IdsOfConcat(b.lane.rows, [row]);
    IdsOfOne(row);
    SplitGrows(b.lane.lastId, IdsOf(b.lane.rows), b.deleted, IdsOf(b.lost), b.taken);
    FromGrows(b.lane.rows, b.inserted, row);
    FromGrows(b.lost, b.inserted, row);
    NextRow(b.lane.rows, b.inserted, row);
  }

  lemma SplitGrows(n: nat, present: set<nat>, deleted: set<nat>, lost: set<nat>, taken: set<nat>)
    requires Split(n, present, deleted, lost, taken)
    ensures Split(n + 1, present + {n + 1}, deleted, lost, taken)
  {
  }

  lemma FromGrows(rows: seq<Row>, inserted: seq<Row>, row: Row)
    requires From(rows, inserted)
    ensures From(rows, inserted + [row])
  {
  }

  lemma NextRow(rows: seq<Row>, inserted: seq<Row>, row: Row)
    requires Increasing(rows) && From(rows, inserted) && Numbered(inserted) && row.id == |inserted| + 1
    ensures Increasing(rows + [row]) && From(rows + [row], inserted + [row]) && Numbered(inserted + [row])
  {
  }

  lemma {:induction false} IdsOfOne(row: Row)
    ensures IdsOf([row]) == {row.id}
  {
    assert [row][0] == row;
  }

  lemma {:induction false} WindowConcat(a: seq<Row>, b: seq<Row>)
    requires a != [] && b != []
    ensures Earliest(a + b) == Min(Earliest(a), Earliest(b)) && Latest(a + b) == Max(Latest(a), Latest(b))
  {
    var n := |b| - 1;
    if n > 0 { WindowConcat(a, b[..n]); }
    assert (a + b)[..|a| + n] == a + b[..n];
    assert a + b[..0] == a;
  }

  lemma {:induction false} IdsOfConcat(a: seq<Row>, b: seq<Row>)
    ensures IdsOf(a + b) == IdsOf(a) + IdsOf(b)
  {
    assert forall r :: r in a + b <==> r in a || r in b;
  }

  lemma {:induction false} CutBalanced(b: Ledger, b': Ledger, k: nat)
    requires Balanced(b) && k <= |b.lane.rows|
    requires b'.lane.rows == b.lane.rows[k..] && b'.lost == b.lost + b.lane.rows[..k]
    requires b'.lane.lastId == b.lane.lastId && b'.(lane := b.lane, lost := b.lost) == b
    ensures Balanced(b')
  {
    hide IdsOf, Split, Increasing, From, Distinct, Numbered;
    var rows := b.lane.rows;
    var (head, rest) := (rows[..k], rows[k..]);
    assert rows == head + rest;
    IdsOfConcat(head, rest);
    IdsOfConcat(b.lost, head);
    PrefixApart(rows, k);
    FromParts(rows, b.inserted, k);
    FromConcat(b.lost, head, b.inserted);
    SplitMoves(b.lane.lastId, IdsOf(head), IdsOf(rest), b.deleted, IdsOf(b.lost), b.taken);
    LostApart(b.lost, head);
  }

  lemma FromParts(rows: seq<Row>, inserted: seq<Row>, k: nat)
    requires From(rows, inserted) && Increasing(rows) && k <= |rows|
    ensures From(rows[..k], inserted) && From(rows[k..], inserted) && Increasing(rows[k..])
  {
  }

  lemma FromConcat(a: seq<Row>, b: seq<Row>, inserted: seq<Row>)
    requires From(a, inserted) && From(b, inserted)
    ensures From(a + b, inserted)
  {
  }

  lemma SplitMoves(n: nat, head: set<nat>, rest: set<nat>, deleted: set<nat>, lost: set<nat>, taken: set<nat>)
    requires Split(n, head + rest, deleted, lost, taken) && head !! rest
    ensures Split(n, rest, deleted, lost + head, taken) && lost !! head
  {
  }

  lemma {:induction false} PrefixApart(rows: seq<Row>, k: nat)
    requires Increasing(rows) && k <= |rows|
    ensures IdsOf(rows[..k]) !! IdsOf(rows[k..])
    ensures Distinct(rows[..k])
  {
  }

  lemma {:induction false} LostApart(a: seq<Row>, b: seq<Row>)
    requires Distinct(a) && Distinct(b) && IdsOf(a) !! IdsOf(b)
    ensures Distinct(a + b)
  {
    forall i, j | 0 <= i < |a| && 0 <= j < |b| ensures a[i].id != b[j].id {
      assert a[i].id in IdsOf(a) && b[j].id in IdsOf(b);
    }
  }

  lemma {:induction false} TrimmedBalanced(b: Ledger, n: int)
    requires Balanced(b)
    ensures Balanced(Trimmed(b, n))
  {
    hide Earliest, Latest, Merge, Balanced;
    var b' := Trimmed(b, n);
    CutBalanced(b, b', |b.lane.rows| - |b'.lane.rows|);
  }

  lemma {:induction false} TrimmedRecounted(b: Ledger, n: int)
    requires Recounted(b)
    ensures Recounted(Trimmed(b, n))
  {
    hide Earliest, Latest;
    if n > 0 && b.lane.rows != [] {
      var gone := b.lane.rows[..|b.lane.rows| - |Trimmed(b, n).lane.rows|];
      if b.lost != [] {
        WindowConcat(b.lost, gone);
      } else {
        assert b.lost + gone == gone;
      }
    } else {
      assert b.lost + [] == b.lost;
    }
  }

  lemma {:induction false} DeleteKeeps(b: Ledger, max: nat, ids: set<nat>)
    requires Balanced(b)
    ensures Balanced(Booked(b, max, Delete(ids)))
  {
    hide IdsOf, Without, Split, Increasing, From, Distinct, Numbered;
    WithoutOrdered(b.lane.rows, ids);
    WithoutIds(b.lane.rows, ids);
    FromWithout(b.lane.rows, b.inserted, ids);
    SplitDeletes(b.lane.lastId, IdsOf(b.lane.rows), b.deleted, IdsOf(b.lost), b.taken, ids);
  }

  lemma SplitDeletes(n: nat, present: set<nat>, deleted: set<nat>, lost: set<nat>, taken: set<nat>, ids: set<nat>)
    requires Split(n, present, deleted, lost, taken)
    ensures Split(n, present - ids, deleted + ids * present, lost, taken)
  {
  }

  lemma FromWithout(rows: seq<Row>, inserted: seq<Row>, ids: set<nat>)
    requires From(rows, inserted)
    ensures From(Without(rows, ids), inserted)
  {
    var rest := Without(rows, ids);
    forall i | 0 <= i < |rest| ensures 1 <= rest[i].id <= |inserted| && rest[i] == inserted[rest[i].id - 1] {
      assert rest[i] in rest;
    }
  }

  lemma {:induction false} WithoutIds(rows: seq<Row>, ids: set<nat>)
    ensures IdsOf(Without(rows, ids)) == IdsOf(rows) - ids
  {
  }

  lemma {:induction false} DistinctCount(rows: seq<Row>)
    requires Distinct(rows)
    ensures |IdsOf(rows)| == |rows|
  {
    if rows != [] {
      var front, last := rows[..|rows| - 1], rows[|rows| - 1];
      DistinctCount(front);
      assert rows == front + [last];
      IdsOfConcat(front, [last]);
      IdsOfOne(last);
    } else {
      assert IdsOf(rows) == {};
    }
  }

  /** An exact count of what every operation did: nothing vanishes, nothing is counted twice. */
  lemma {:induction false} NothingUnaccounted(max: nat, ops: seq<Op>)
    ensures Balanced(BookAll(max, ops)) && Recounted(BookAll(max, ops))
  {
    if ops != [] {
      hide Balanced, Recounted, BookAll;
      var front, op := ops[..|ops| - 1], ops[|ops| - 1];
      var b := BookAll(max, front);
      NothingUnaccounted(max, front);
      assert BookAll(max, ops) == Booked(b, max, op) by { BookLast(max, ops); }
      BookedKeeps(b, max, op);
    } else {
      IdsOfNone();
    }
  }

  lemma BookLast(max: nat, ops: seq<Op>)
    requires ops != []
    ensures BookAll(max, ops) == Booked(BookAll(max, ops[..|ops| - 1]), max, ops[|ops| - 1])
  {
  }

  lemma {:induction false} BookedKeeps(b: Ledger, max: nat, op: Op)
    requires Balanced(b) && Recounted(b)
    ensures Balanced(Booked(b, max, op)) && Recounted(Booked(b, max, op))
  {
    hide Balanced, LaneTrimmed, Earliest, Latest;
    match op
    case Put(seqNo, payload, now) =>
      FiledKeeps(b, seqNo, payload, now);
      var b1 := Filed(b, seqNo, payload, now);
      TrimmedBalanced(b1, |b1.lane.rows| - max);
      TrimmedRecounted(b1, |b1.lane.rows| - max);
    case PutNoTrim(seqNo, payload, now) => FiledKeeps(b, seqNo, payload, now);
    case DropOld(n) =>
      TrimmedBalanced(b, n);
      TrimmedRecounted(b, n);
    case Delete(ids) => DeleteKeeps(b, max, ids);
    case Take => TakeKeeps(b, max);
    case Alloc => AllocKeeps(b, max);
  }

  lemma AllocKeeps(b: Ledger, max: nat)
    requires Balanced(b)
    ensures Balanced(Booked(b, max, Alloc))
  {
    hide IdsOf, Split, Increasing, From, Distinct, Numbered;
  }

  lemma {:induction false} TakeKeeps(b: Ledger, max: nat)
    requires Balanced(b) && Recounted(b)
    ensures Balanced(Booked(b, max, Take)) && Recounted(Booked(b, max, Take))
  {
    hide Earliest, Latest, IdsOf, Split, Increasing, From, Numbered;
    DistinctCount(b.lost);
    IdsOfNone();
    assert From([], b.inserted) by { FromNone(b.inserted); }
    SplitTakes(b.lane.lastId, IdsOf(b.lane.rows), b.deleted, IdsOf(b.lost), b.taken);
    assert Recorded(b.lane) == |b.lost|;
  }

  lemma FromNone(inserted: seq<Row>)
    ensures From([], inserted)
  {
  }

  lemma SplitTakes(n: nat, present: set<nat>, deleted: set<nat>, lost: set<nat>, taken: set<nat>)
    requires Split(n, present, deleted, lost, taken)
    ensures Split(n, present, deleted, {}, taken + lost) && |taken + lost| == |taken| + |lost|
  {
  }

  lemma IdsOfNone()
    ensures IdsOf([]) == {}
  {
  }

  /** The books of a run follow the queue itself. */
  lemma {:induction false} BooksFollowLane(max: nat, ops: seq<Op>)
    ensures BookAll(max, ops).lane == DoAll(max, ops)
  {
    if ops != [] {
      BooksFollowLane(max, ops[..|ops| - 1]);
    }
  }

  function DoAll(max: nat, ops: seq<Op>): Lane {
    if ops == [] then EMPTY_LANE else Do(DoAll(max, ops[..|ops| - 1]), max, ops[|ops| - 1])
  }

  function UpTo(n: nat): (s: set<nat>)
    ensures forall k :: k in s <==> 1 <= k <= n
  {
    if n == 0 then {} else UpTo(n - 1) + {n}
  }

  lemma {:induction false} UpToSize(n: nat)
    ensures |UpTo(n)| == n
  {
    if n > 0 {
      UpToSize(n - 1);
      assert UpTo(n) == UpTo(n - 1) + {n};
    }
  }

  /** Inserted = present + deleted + dropped as recorded + dropped as reported. */
  lemma {:induction false} CountsAddUp(max: nat, ops: seq<Op>)
    ensures var b := BookAll(max, ops);
      |b.inserted| == |b.lane.rows| + |b.deleted| + Recorded(b.lane) + b.takenCount
  {
    NothingUnaccounted(max, ops);
    hide BookAll, Earliest, Latest;
    var b := BookAll(max, ops);
    DistinctCount(b.lane.rows);
    DistinctCount(b.lost);
    UpToSize(b.lane.lastId);
    assert UpTo(b.lane.lastId) == IdsOf(b.lane.rows) + b.deleted + IdsOf(b.lost) + b.taken;
  }

  /** The window of the record is the exact first and last enqueue time of the rows it counts. */
  lemma {:induction false} WindowIsExact(max: nat, ops: seq<Op>)
    ensures var b := BookAll(max, ops);
      && (b.lane.overflow.None? <==> b.lost == [])
      && (b.lost != [] ==> var o := b.lane.overflow.value;
            o.dropped == |b.lost| && IsEarliest(b.lost, o.firstAt) && IsLatest(b.lost, o.lastAt))
  {
    NothingUnaccounted(max, ops);
    hide BookAll, Balanced, Earliest, Latest;
    if BookAll(max, ops).lost != [] {
      WindowExact(BookAll(max, ops).lost);
    }
  }

  lemma PrefixOlder(rows: seq<Row>, k: nat)
    requires Increasing(rows) && k <= |rows|
    ensures forall i, r | 0 <= i < k && r in rows[k..] :: rows[i].id < r.id
  {
  }

  /** What a trim takes is older than everything it leaves, and no more than needed. */
  lemma {:induction false} TrimTakesOldest(max: nat, ops: seq<Op>, op: Op)
    requires op.Put? || op.DropOld?
    ensures var (b, b') := (BookAll(max, ops), Booked(BookAll(max, ops), max, op));
      && b.lost <= b'.lost
      && (forall i, r | |b.lost| <= i < |b'.lost| && r in b'.lane.rows :: b'.lost[i].id < r.id)
      && (op.Put? ==> |b'.lane.rows| == Min(max, |b.lane.rows| + 1))
      && (op.DropOld? ==> |b'.lane.rows| == Max(0, |b.lane.rows| - Max(0, op.n)))
  {
    NothingUnaccounted(max, ops);
    hide Recounted, Earliest, Latest, Merge, BookAll, From, Split, IdsOf, Distinct, Increasing, Numbered;
    var b, b' := BookAll(max, ops), Booked(BookAll(max, ops), max, op);
    var b1 := if op.Put? then Filed(b, op.seqNo, op.payload, op.now) else b;
    if op.Put? { FiledKeeps(b, op.seqNo, op.payload, op.now); }
    var rows := b1.lane.rows;
    var k := |rows| - |b'.lane.rows|;
    assert b'.lost == b.lost + rows[..k] && b'.lane.rows == rows[k..];
    PrefixOlder(rows, k);
  }
}
