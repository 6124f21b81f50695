/**
 * Store-and-forward delivery of metric batches over a network that loses requests and answers
 * and delivers late copies. The agent numbers a batch when it is collected, queues it, and posts
 * the head of the queue until it is answered; the hub applies a batch only when its seq is above
 * the last one applied, and answers a duplicate like an accepted batch.
 */
module Delivery {
  import opened Basics
  import opened AgentQueue

  /** A POST the agent is waiting on: its place among all POSTs ever made, and the row it carries. */
  datatype Flight = Flight(no: nat, row: Row)

  /**
   * `sent` is the seq of every POST made, each a copy that may still arrive; `answered` are the
   * POSTs the hub has processed; `applied` the seqs it took in, in order; `last` its
   * last_metrics_seq. `acked` and `refused` are the rows deleted on a success and on a 400 or 413.
   */
  datatype Net = Net(book: Ledger, flight: Option<Flight>, sent: seq<nat>, answered: set<nat>,
                     last: int, applied: seq<nat>, acked: set<Row>, refused: set<Row>)

  datatype Move =
    | Collect(payload: Payload, now: int)
    | Skip                 // a seq was allocated but the batch never queued
    | TrimBacklog(n: int)
    | TakeRecord
    | Send
    | Deliver(no: nat)
    | Ack
    | GiveUp               // timeout, lost answer, retryable status or restart
    | Refused

  /** The agent starts with `seqNo` as its last seq, the hub with `last` as the last one applied. */
  function Start(seqNo: nat, last: int): Net {
    Net(NO_LEDGER.(lane := EMPTY_LANE.(lastSeq := seqNo)), None, [], {}, last, [], {}, {})
  }

  function Collected(b: Ledger, max: nat, payload: Payload, now: int): Ledger {
    Booked(Booked(b, max, Alloc), max, Put(b.lane.lastSeq + 1, payload, now))
  }

  /** The hub's last seq and everything it has taken in, after one more batch. */
  function TakenIn(last: int, applied: seq<nat>, seqNo: nat): (int, seq<nat>) {
    if seqNo <= last then (last, applied) else (seqNo, applied + [seqNo])
  }

  /** What the hub does with one copy of a POST. */
  function Receive(s: Net, no: nat): Net
    requires no < |s.sent|
  {
    var (last, applied) := TakenIn(s.last, s.applied, s.sent[no]);
    s.(answered := s.answered + {no}, last := last, applied := applied)
  }

  /** The receiving side of one source: the seq check in front of the samples table. */
  class MetricsIntake {
    var lastMetricsSeq: int
    var applied: seq<nat>

    constructor (last: int)
      ensures lastMetricsSeq == last && applied == []
    {
      lastMetricsSeq, applied := last, [];
    }

    /** A duplicate is answered as such and leaves nothing behind. */
    method Ingest(seqNo: nat) returns (duplicate: bool)
      modifies this
      ensures (lastMetricsSeq, applied) == TakenIn(old(lastMetricsSeq), old(applied), seqNo)
      ensures duplicate <==> applied == old(applied)
    {
      if seqNo <= lastMetricsSeq {
        return true;
      }
      applied := applied + [seqNo];
      lastMetricsSeq := seqNo;
      duplicate := false;
    }
  }

  function Forget(s: Net, max: nat): Net
    requires s.flight.Some?
  {
    s.(book := Booked(s.book, max, Delete({s.flight.value.row.id})), flight := None)
  }

  predicate Enabled(s: Net, m: Move) {
    match m
    case Send => s.flight.None? && s.book.lane.rows != []
    case Deliver(no) => no < |s.sent|
    case Ack => s.flight.Some? && s.flight.value.no in s.answered
    case Refused => s.flight.Some?
    case _ => true
  }

  /** A move that is not possible leaves everything as it is. */
  function Go(s: Net, max: nat, m: Move): Net {
    if !Enabled(s, m) then s else
      match m
      case Collect(payload, now) => s.(book := Collected(s.book, max, payload, now))
      case Skip => s.(book := Booked(s.book, max, Alloc))
      case TrimBacklog(n) => s.(book := Booked(s.book, max, DropOld(n)))
      case TakeRecord => s.(book := Booked(s.book, max, Take))
      case Send =>
        var head := s.book.lane.rows[0];
        s.(flight := Some(Flight(|s.sent|, head)), sent := s.sent + [head.seqNo])
      case Deliver(no) => Receive(s, no)
      case Ack => Forget(s, max).(acked := s.acked + {s.flight.value.row})
      case GiveUp => s.(flight := None)
      case Refused => Forget(s, max).(refused := s.refused + {s.flight.value.row})
  }

  function GoAll(seqNo: nat, last: int, max: nat, moves: seq<Move>): Net {
    if moves == [] then Start(seqNo, last)
    else Go(GoAll(seqNo, last, max, moves[..|moves| - 1]), max, moves[|moves| - 1])
  }

  // ---- what every run keeps ----

  ghost predicate Climbing(ns: seq<nat>) { forall i, j :: 0 <= i < j < |ns| ==> ns[i] < ns[j] }

  /** A later row carries a later seq. */
  ghost predicate SeqsClimb(rows: seq<Row>) {
    forall r, q | r in rows && q in rows && r.id < q.id :: r.seqNo < q.seqNo
  }

  ghost predicate NoneAbove(sent: seq<nat>, n: nat) { forall m <- sent :: m <= n }

  /** Queued seqs climb up to the counter; nothing sent is beyond the head, or beyond the flight. */
  ghost predicate InLine(s: Net, first: nat) {
    && SeqsClimb(s.book.lane.rows) && first <= s.book.lane.lastSeq
    && (forall r <- s.book.lane.rows :: first < r.seqNo <= s.book.lane.lastSeq)
    && (forall n <- s.sent :: first < n) && NoneAbove(s.sent, s.book.lane.lastSeq)
    && (s.flight.None? ==> forall r <- s.book.lane.rows :: NoneAbove(s.sent, r.seqNo))
    && (s.flight.Some? ==>
          var f := s.flight.value;
          && f.no < |s.sent| && s.sent[f.no] == f.row.seqNo && NoneAbove(s.sent, f.row.seqNo)
          && (forall r <- s.book.lane.rows :: f.row.seqNo < r.seqNo || r == f.row))
  }

  /** What the hub took in climbs, starting above where it stood. */
  ghost predicate HubClimbs(s: Net, last: int) {
    && Climbing(s.applied) && (forall n <- s.applied :: last < n && n in s.sent)
    && s.last == (if s.applied == [] then last else s.applied[|s.applied| - 1])
    && (forall n <- s.answered :: n < |s.sent|)
  }

  /** The answer in flight, if there is one, and every row acknowledged were really applied. */
  ghost predicate AcksHonest(s: Net) {
    && (s.flight.Some? && s.flight.value.no in s.answered ==> s.flight.value.row.seqNo in s.applied)
    && (forall r <- s.acked :: r.seqNo in s.applied)
  }

  /** Rows leave the queue only by being acknowledged, refused, or booked as dropped. */
  ghost predicate DeletedKnown(s: Net) {
    forall id <- s.book.deleted :: exists r :: (r in s.acked || r in s.refused) && r.id == id
  }

  predicate Brings(b: Ledger, op: Op, r: Row) {
    (op.Put? || op.PutNoTrim?) && r == Row(b.lane.lastId + 1, op.seqNo, op.payload, op.now)
  }

  /** What an operation on the queue can do to the rows, as far as the network is concerned. */
  lemma {:induction false} BookedRows(b: Ledger, max: nat, op: Op)
    ensures var b' := Booked(b, max, op);
      && b'.lane.lastSeq == b.lane.lastSeq + (if op.Alloc? then 1 else 0)
      && (forall r <- b'.lane.rows :: r in b.lane.rows || Brings(b, op, r))
      && (op.Delete? ==> forall r <- b'.lane.rows :: r.id !in op.ids)
      && b'.deleted <= b.deleted + (if op.Delete? then op.ids else {})
  {
    hide Earliest, Latest, Merge;
  }

  ghost predicate Kept(s: Net, first: nat, last: int) {
    && Balanced(s.book) && Recounted(s.book)
    && InLine(s, first) && HubClimbs(s, last) && DeletedKnown(s)
  }

  lemma IdsBounded(b: Ledger)
    requires Balanced(b)
    ensures forall r <- b.lane.rows :: r.id <= b.lane.lastId
    ensures forall r <- b.lane.rows :: b.lane.rows[0].id <= r.id
  {
    hide Split, IdsOf, Numbered, Distinct;
  }

  /** Rows removed, or one appended with the next seq: still in line. */
  lemma {:induction false} QueueMoves(s: Net, first: nat, b': Ledger)
    requires InLine(s, first) && s.book.lane.lastSeq <= b'.lane.lastSeq
    requires forall r <- s.book.lane.rows :: r.id <= s.book.lane.lastId
    requires forall r <- b'.lane.rows ::
               r in s.book.lane.rows || (r.id == s.book.lane.lastId + 1 && r.seqNo == s.book.lane.lastSeq + 1 == b'.lane.lastSeq)
    ensures InLine(s.(book := b'), first)
  {
    if s.flight.Some? {
      assert s.sent[s.flight.value.no] in s.sent;
    }
  }

  lemma {:induction false} BookMoveInLine(s: Net, first: nat, max: nat, m: Move)
    requires m.Collect? || m.Skip? || m.TrimBacklog? || m.TakeRecord?
    requires Balanced(s.book) && Recounted(s.book) && InLine(s, first)
    ensures var s' := Go(s, max, m);
      && Balanced(s'.book) && Recounted(s'.book) && InLine(s', first) && s'.book.deleted <= s.book.deleted
  {
    hide Balanced, Recounted, InLine, Booked;
    var b := s.book;
    IdsBounded(b);
    match m
    case Collect(payload, now) =>
      var b1 := Booked(b, max, Alloc);
      BookedKeeps(b, max, Alloc);
      BookedRows(b, max, Alloc);
      var op := Put(b.lane.lastSeq + 1, payload, now);
      BookedKeeps(b1, max, op);
      BookedRows(b1, max, op);
      assert b1.lane.lastId == b.lane.lastId by { AllocId(b, max); }
      QueueMoves(s, first, Booked(b1, max, op));
    case Skip =>
      BookedKeeps(b, max, Alloc);
      BookedRows(b, max, Alloc);
      QueueMoves(s, first, Booked(b, max, Alloc));
    case TrimBacklog(n) =>
      BookedKeeps(b, max, DropOld(n));
      BookedRows(b, max, DropOld(n));
      QueueMoves(s, first, Booked(b, max, DropOld(n)));
    case TakeRecord =>
      BookedKeeps(b, max, Take);
      BookedRows(b, max, Take);
      QueueMoves(s, first, Booked(b, max, Take));
  }

  lemma AllocId(b: Ledger, max: nat)
    ensures Booked(b, max, Alloc).lane.lastId == b.lane.lastId
  {
  }

  lemma {:induction false} SendInLine(s: Net, first: nat, max: nat)
    requires Balanced(s.book) && InLine(s, first) && Enabled(s, Send)
    ensures InLine(Go(s, max, Send), first)
  {
    HeadLowest(s.book);
    hide Balanced, InLine;
    FlightInLine(s, Go(s, max, Send), first);
  }

  lemma {:induction false} FlightInLine(s: Net, s': Net, first: nat)
    requires InLine(s, first) && s.flight.None? && s.book.lane.rows != []
    requires forall r <- s.book.lane.rows :: r == s.book.lane.rows[0] || s.book.lane.rows[0].seqNo < r.seqNo
    requires s'.book == s.book && s'.sent == s.sent + [s.book.lane.rows[0].seqNo]
    requires s'.flight == Some(Flight(|s.sent|, s.book.lane.rows[0]))
    ensures InLine(s', first)
  {
    hide NoneAbove, SeqsClimb;
    var head := s.book.lane.rows[0];
    assert head in s.book.lane.rows;
    NoneAboveMore(s.sent, head.seqNo, head.seqNo);
    NoneAboveMore(s.sent, head.seqNo, s.book.lane.lastSeq);
  }

  lemma NoneAboveMore(sent: seq<nat>, n: nat, m: nat)
    requires NoneAbove(sent, m) && n <= m
    ensures NoneAbove(sent + [n], m)
  {
  }

  lemma {:induction false} HeadLowest(b: Ledger)
    requires Balanced(b) && SeqsClimb(b.lane.rows) && b.lane.rows != []
    ensures forall r <- b.lane.rows :: r == b.lane.rows[0] || b.lane.rows[0].seqNo < r.seqNo
  {
    hide Split, IdsOf, Numbered, Distinct, From;
    var head := b.lane.rows[0];
    assert head in b.lane.rows;
    forall r | r in b.lane.rows ensures r == head || head.seqNo < r.seqNo {
      assert r == head || head.id < r.id;
    }
  }

  lemma {:induction false} LandInLine(s: Net, first: nat, max: nat)
    requires Balanced(s.book) && Recounted(s.book) && InLine(s, first) && s.flight.Some?
    ensures var s' := Forget(s, max);
      && Balanced(s'.book) && Recounted(s'.book) && InLine(s', first)
      && s'.book.deleted <= s.book.deleted + {s.flight.value.row.id}
  {
    hide Balanced, Recounted, Booked;
    var op := Delete({s.flight.value.row.id});
    IdsBounded(s.book);
    BookedKeeps(s.book, max, op);
    BookedRows(s.book, max, op);
    QueueMoves(s, first, Booked(s.book, max, op));
  }

  lemma {:induction false} StepKeeps(s: Net, max: nat, m: Move, first: nat, last: int)
    requires Kept(s, first, last)
    ensures Kept(Go(s, max, m), first, last)
  {
    hide Balanced, Recounted, Booked;
    match m
    case Collect(_, _) => BookMoveInLine(s, first, max, m);
    case Skip => BookMoveInLine(s, first, max, m);
    case TrimBacklog(_) => BookMoveInLine(s, first, max, m);
    case TakeRecord => BookMoveInLine(s, first, max, m);
    case Send =>
      if Enabled(s, m) { SendInLine(s, first, max); }
    case Deliver(no) =>
      if Enabled(s, m) { ReceiveClimbs(s, no, last); }
    case Ack =>
      if Enabled(s, m) {
        LandInLine(s, first, max);
        LandKnown(s, Go(s, max, m));
      }
    case GiveUp =>
    case Refused =>
      if Enabled(s, m) {
        LandInLine(s, first, max);
        LandKnown(s, Go(s, max, m));
      }
  }

  lemma {:induction false} ReceiveClimbs(s: Net, no: nat, last: int)
    requires HubClimbs(s, last) && no < |s.sent|
    ensures HubClimbs(Receive(s, no), last)
  {
    assert s.sent[no] in s.sent;
    assert s.applied != [] ==> s.applied[0] in s.applied;
  }

  lemma LandKnown(s: Net, s': Net)
    requires DeletedKnown(s) && s.flight.Some? && s'.book.deleted <= s.book.deleted + {s.flight.value.row.id}
    requires s.acked <= s'.acked && s.refused <= s'.refused
    requires s.flight.value.row in s'.acked || s.flight.value.row in s'.refused
    ensures DeletedKnown(s')
  {
    forall id | id in s'.book.deleted ensures exists r :: (r in s'.acked || r in s'.refused) && r.id == id {
      if id in s.book.deleted {
        var r :| (r in s.acked || r in s.refused) && r.id == id;
        assert r in s'.acked || r in s'.refused;
      }
    }
  }

  /** On every run the hub takes batches in strictly increasing order, each at most once. */
  lemma {:induction false} HubAlwaysClimbs(seqNo: nat, last: int, max: nat, moves: seq<Move>)
    ensures Kept(GoAll(seqNo, last, max, moves), seqNo, last)
  {
    if moves == [] {
      IdsOfNone();
    } else {
      HubAlwaysClimbs(seqNo, last, max, moves[..|moves| - 1]);
      StepKeeps(GoAll(seqNo, last, max, moves[..|moves| - 1]), max, moves[|moves| - 1], seqNo, last);
    }
  }

  lemma {:induction false} StepHonest(s: Net, max: nat, m: Move, first: nat, last: int)
    requires last <= first && Kept(s, first, last) && AcksHonest(s)
    ensures AcksHonest(Go(s, max, m))
  {
    hide Balanced, Recounted, Booked;
    if m.Deliver? && Enabled(s, m) && s.flight.Some? && s.flight.value.no == m.no {
      assert s.applied != [] ==> s.applied[|s.applied| - 1] in s.applied;
      assert s.sent[m.no] in s.sent;
    }
  }

  lemma {:induction false} AcksAlwaysHonest(seqNo: nat, last: int, max: nat, moves: seq<Move>)
    requires last <= seqNo
    ensures AcksHonest(GoAll(seqNo, last, max, moves))
  {
    if moves != [] {
      var front := moves[..|moves| - 1];
      AcksAlwaysHonest(seqNo, last, max, front);
      HubAlwaysClimbs(seqNo, last, max, front);
      StepHonest(GoAll(seqNo, last, max, front), max, moves[|moves| - 1], seqNo, last);
    }
  }

  lemma {:induction false} FirstCollect(seqNo: nat, last: int, max: nat, payload: Payload, now: int)
    requires max >= 1
    ensures var (s, s') := (Start(seqNo, last), Go(Start(seqNo, last), max, Collect(payload, now)));
      s'.book.lane.rows == [Row(1, seqNo + 1, payload, now)] && s'.(book := s.book) == s
  {
    hide Earliest, Latest, Merge;
  }

  lemma {:induction false} LoneHeadForgotten(s: Net, max: nat)
    requires s.flight.Some? && s.book.lane.rows == [s.flight.value.row]
    ensures Forget(s, max).book.lane.rows == []
  {
    hide Increasing;
    NothingIn(Without(s.book.lane.rows, {s.flight.value.row.id}));
  }

  /** An agent whose seqs start below what the hub has already applied loses its first batch. */
  lemma {:induction false} StaleSeqLosesBatch(seqNo: nat, last: int, max: nat, payload: Payload, now: int)
    requires seqNo < last && max >= 1
    ensures var s := GoAll(seqNo, last, max, [Collect(payload, now), Send, Deliver(0), Ack]);
      !AcksHonest(s) && s.acked != {} && s.applied == [] && s.book.lane.rows == []
  {
    var (m1, m2, m3, m4) := (Collect(payload, now), Send, Deliver(0), Ack);
    var row := Row(1, seqNo + 1, payload, now);
    FirstCollect(seqNo, last, max, payload, now);
    hide Booked, Collected;
    var s1 := Go(Start(seqNo, last), max, m1);
    var s2 := Go(s1, max, m2);
    var s3 := Go(s2, max, m3);
    LoneHeadForgotten(s3, max);
    FourMoves(seqNo, last, max, m1, m2, m3, m4);
    assert row in Go(s3, max, m4).acked;
  }

  lemma FourMoves(seqNo: nat, last: int, max: nat, m1: Move, m2: Move, m3: Move, m4: Move)
    ensures GoAll(seqNo, last, max, [m1, m2, m3, m4]) == Go(Go(Go(Go(Start(seqNo, last), max, m1), max, m2), max, m3), max, m4)
  {
    hide Go;
    assert [m1, m2, m3, m4][..3] == [m1, m2, m3] && [m1, m2, m3][..2] == [m1, m2] && [m1, m2][..1] == [m1] && [m1][..0] == [];
    assert GoAll(seqNo, last, max, [m1]) == Go(GoAll(seqNo, last, max, []), max, m1);
    assert GoAll(seqNo, last, max, [m1, m2]) == Go(GoAll(seqNo, last, max, [m1]), max, m2);
    assert GoAll(seqNo, last, max, [m1, m2, m3]) == Go(GoAll(seqNo, last, max, [m1, m2]), max, m3);
  }

  /** Success answers can be trusted on every run exactly when the hub starts no further than the agent. */
  lemma {:induction false} DeliverySafeExactly(seqNo: nat, last: int, max: nat)
    requires max >= 1
    ensures (forall moves :: AcksHonest(GoAll(seqNo, last, max, moves))) <==> last <= seqNo
  {
    if last <= seqNo {
      forall moves: seq<Move> ensures AcksHonest(GoAll(seqNo, last, max, moves)) {
        AcksAlwaysHonest(seqNo, last, max, moves);
      }
    } else {
      StaleSeqLosesBatch(seqNo, last, max, Data(""), 0);
    }
  }

  /** Every batch collected is still queued, or booked as dropped, or refused, or was really applied. */
  lemma {:induction false} NoBatchUnaccounted(seqNo: nat, last: int, max: nat, moves: seq<Move>, id: nat)
    requires last <= seqNo
    requires 1 <= id <= |GoAll(seqNo, last, max, moves).book.inserted|
    ensures var s := GoAll(seqNo, last, max, moves);
      || id in IdsOf(s.book.lane.rows) || id in IdsOf(s.book.lost) || id in s.book.taken
      || (exists r <- s.refused :: r.id == id) || (exists r <- s.acked :: r.id == id && r.seqNo in s.applied)
  {
    HubAlwaysClimbs(seqNo, last, max, moves);
    AcksAlwaysHonest(seqNo, last, max, moves);
    hide GoAll, IdsOf, InLine, HubClimbs;
    var s := GoAll(seqNo, last, max, moves);
    assert id in UpTo(s.book.lane.lastId);
  }

  // ---- nothing stays queued for want of a way ----

  lemma {:induction false} HeadForgotten(s: Net, max: nat)
    requires Increasing(s.book.lane.rows) && s.book.lane.rows != [] && s.flight.Some? && s.flight.value.row == s.book.lane.rows[0]
    ensures Forget(s, max).book.lane.rows == s.book.lane.rows[1..]
  {
    var rows := s.book.lane.rows;
    assert rows[..1] == [rows[0]];
    WithoutPrefix(rows, 1, {rows[0].id});
  }

  lemma GoMore(seqNo: nat, last: int, max: nat, moves: seq<Move>, m: Move)
    ensures GoAll(seqNo, last, max, moves + [m]) == Go(GoAll(seqNo, last, max, moves), max, m)
  {
    hide Go;
    assert (moves + [m])[..|moves|] == moves;
  }

  lemma ThreeMore(seqNo: nat, last: int, max: nat, moves: seq<Move>, m1: Move, m2: Move, m3: Move)
    ensures var s := GoAll(seqNo, last, max, moves);
      && GoAll(seqNo, last, max, moves + [m1, m2]) == Go(Go(s, max, m1), max, m2)
      && GoAll(seqNo, last, max, moves + [m1, m2, m3]) == Go(Go(Go(s, max, m1), max, m2), max, m3)
  {
    hide Go, GoAll;
    GoMore(seqNo, last, max, moves, m1);
    GoMore(seqNo, last, max, moves + [m1], m2);
    GoMore(seqNo, last, max, moves + [m1, m2], m3);
    assert moves + [m1] + [m2] == moves + [m1, m2];
    assert moves + [m1, m2] + [m3] == moves + [m1, m2, m3];
  }

  lemma BalancedIncreases(b: Ledger)
    requires Balanced(b)
    ensures Increasing(b.lane.rows)
  {
    hide Split, Distinct, From, Numbered, Increasing;
  }

  /** The head posted, and the copy delivered. */
  lemma HeadArrives(s: Net, max: nat)
    requires s.flight.None? && s.book.lane.rows != []
    ensures var (head, s') := (s.book.lane.rows[0], Go(Go(s, max, Send), max, Deliver(|s.sent|)));
      && s'.book == s.book && s'.flight == Some(Flight(|s.sent|, head)) && |s.sent| in s'.answered && |s'.sent| == |s.sent| + 1
      && s.applied <= s'.applied && s'.acked == s.acked && s'.refused == s.refused
  {
  }

  lemma HeadAnswered(s: Net, max: nat)
    requires s.flight.Some? && s.flight.value.no in s.answered && s.book.lane.rows != [] && s.flight.value.row == s.book.lane.rows[0]
    requires Increasing(s.book.lane.rows)
    ensures var (head, s') := (s.book.lane.rows[0], Go(s, max, Ack));
      && s'.book.lane.rows == s.book.lane.rows[1..] && s'.acked == s.acked + {head} && s'.applied == s.applied
      && s'.flight.None? && s'.refused == s.refused && s'.sent == s.sent
  {
    hide Booked, Increasing;
    HeadForgotten(s, max);
  }

  /** One POST that arrives and is answered: the head leaves the queue, really applied. */
  lemma {:induction false} RoundTripSettlesHead(seqNo: nat, last: int, max: nat, moves: seq<Move>)
    requires last <= seqNo && GoAll(seqNo, last, max, moves).flight.None? && GoAll(seqNo, last, max, moves).book.lane.rows != []
    ensures var s := GoAll(seqNo, last, max, moves);
      var (s', head) := (GoAll(seqNo, last, max, moves + [Send, Deliver(|s.sent|), Ack]), s.book.lane.rows[0]);
      && s'.book.lane.rows == s.book.lane.rows[1..] && s'.acked == s.acked + {head} && head.seqNo in s'.applied
      && s.applied <= s'.applied && s'.flight.None? && s'.refused == s.refused && |s'.sent| == |s.sent| + 1
  {
    hide GoAll, Go, Balanced, Recounted, HubClimbs, InLine, DeletedKnown, Increasing;
    var s := GoAll(seqNo, last, max, moves);
    HubAlwaysClimbs(seqNo, last, max, moves);
    BalancedIncreases(s.book);
    ThreeMore(seqNo, last, max, moves, Send, Deliver(|s.sent|), Ack);
    AcksAlwaysHonest(seqNo, last, max, moves + [Send, Deliver(|s.sent|)]);
    HeadArrives(s, max);
    HeadAnswered(Go(Go(s, max, Send), max, Deliver(|s.sent|)), max);
  }

  lemma HeadRefused(s: Net, max: nat)
    requires s.flight.None? && s.book.lane.rows != [] && Increasing(s.book.lane.rows)
    ensures var (head, s') := (s.book.lane.rows[0], Go(Go(s, max, Send), max, Refused));
      && s'.book.lane.rows == s.book.lane.rows[1..] && s'.refused == s.refused + {head}
      && s'.acked == s.acked && s'.applied == s.applied && s'.flight.None?
  {
    hide Booked, Increasing;
    HeadForgotten(Go(s, max, Send), max);
  }

  /** A POST answered 400 or 413: the head leaves the queue too, and is not applied by that answer. */
  lemma {:induction false} RefusalSettlesHead(seqNo: nat, last: int, max: nat, moves: seq<Move>)
    requires GoAll(seqNo, last, max, moves).flight.None? && GoAll(seqNo, last, max, moves).book.lane.rows != []
    ensures var s := GoAll(seqNo, last, max, moves);
      var (s', head) := (GoAll(seqNo, last, max, moves + [Send, Refused]), s.book.lane.rows[0]);
      && s'.book.lane.rows == s.book.lane.rows[1..] && s'.refused == s.refused + {head}
      && s'.acked == s.acked && s'.applied == s.applied && s'.flight.None?
  {
    hide GoAll, Go, Balanced, Recounted, HubClimbs, InLine, DeletedKnown, Increasing;
    var s := GoAll(seqNo, last, max, moves);
    HubAlwaysClimbs(seqNo, last, max, moves);
    BalancedIncreases(s.book);
    ThreeMore(seqNo, last, max, moves, Send, Refused, Skip);
    HeadRefused(s, max);
  }

  /** A POST for every row of the backlog, each arriving and answered. */
  function RoundTrips(sent: nat, n: nat): seq<Move>
    decreases n
  {
    if n == 0 then [] else [Send, Deliver(sent), Ack] + RoundTrips(sent + 1, n - 1)
  }

  /** From every state a run can reach, a network that works delivers the whole backlog. */
  lemma {:induction false} BacklogDelivered(seqNo: nat, last: int, max: nat, moves: seq<Move>)
    requires last <= seqNo && GoAll(seqNo, last, max, moves).flight.None?
    ensures var s := GoAll(seqNo, last, max, moves);
      var s' := GoAll(seqNo, last, max, moves + RoundTrips(|s.sent|, |s.book.lane.rows|));
      s'.book.lane.rows == [] && s.applied <= s'.applied && s.acked <= s'.acked
      && forall r <- s.book.lane.rows :: r in s'.acked && r.seqNo in s'.applied
    decreases |GoAll(seqNo, last, max, moves).book.lane.rows|
  {
    var s := GoAll(seqNo, last, max, moves);
    if s.book.lane.rows == [] {
      assert moves + [] == moves;
    } else {
      var more := moves + [Send, Deliver(|s.sent|), Ack];
      RoundTripSettlesHead(seqNo, last, max, moves);
      hide GoAll;
      BacklogDelivered(seqNo, last, max, more);
      assert more + RoundTrips(|s.sent| + 1, |s.book.lane.rows| - 1) == moves + RoundTrips(|s.sent|, |s.book.lane.rows|);
      assert forall r <- s.book.lane.rows :: r == s.book.lane.rows[0] || r in s.book.lane.rows[1..];
    }
  }
}
