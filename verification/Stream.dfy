/**
 * The change stream: check the window, subscribe, replay the table, then deliver what the
 * broker publishes. Transactions commit, publish in a step of their own and in any order,
 * retention trims, and buffers can fill up, at any moment in between.
 */
module Stream {
  import opened Basics
  import opened HubSpec
  import opened HubChanges
  import opened HubReplica
  import opened HubSync

  const CAPACITY: nat := 256

  /** What a subscriber's channel holds after a non-blocking send. */
  function Pushed(buffer: seq<Entry>, e: Entry): seq<Entry> {
    if |buffer| < CAPACITY then buffer + [e] else buffer
  }

  // ---- the broker and one handler ----

  /** Channels are numbered in the order they were made. */
  class Broker {
    var subs: map<nat, seq<Entry>>
    var nextSub: nat

    predicate Valid()
      reads this
    {
      forall id <- subs :: id < nextSub
    }

    constructor ()
      ensures Valid() && subs == map[]
    {
      subs, nextSub := map[], 0;
    }

    method Subscribe() returns (id: nat)
      requires Valid()
      modifies this
      ensures Valid() && id !in old(subs) && subs == old(subs)[id := []]
    {
      id := nextSub;
      subs, nextSub := subs[id := []], nextSub + 1;
    }

    method Unsubscribe(id: nat)
      requires Valid()
      modifies this
      ensures Valid() && subs == old(subs) - {id}
    {
      subs := subs - {id};
    }

    /** Every channel with room gets the entry; a full one loses it. */
    method Publish(e: Entry)
      requires Valid()
      modifies this
      ensures Valid() && subs == map id <- old(subs) :: Pushed(old(subs)[id], e)
    {
      var was := subs;
      var todo := subs.Keys;
      while todo != {}
        invariant Valid() && subs.Keys == was.Keys && todo <= was.Keys
        invariant forall id <- was :: subs[id] == if id in todo then was[id] else Pushed(was[id], e)
        decreases |todo|
      {
        assert (forall x :: x !in todo) ==> todo == {};
        var id :| id in todo;
        if |subs[id]| < CAPACITY { subs := subs[id := subs[id] + [e]]; }
        todo := todo - {id};
      }
    }

    /** The oldest entry of a channel, if it has one. */
    method Take(id: nat) returns (e: Option<Entry>)
      requires Valid() && id in subs
      modifies this
      ensures Valid() && (old(subs)[id] == [] ==> e.None? && subs == old(subs))
      ensures old(subs)[id] != [] ==> e == Some(old(subs)[id][0]) && subs == old(subs)[id := old(subs)[id][1..]]
    {
      if subs[id] == [] {
        return None;
      }
      e := Some(subs[id][0]);
      subs := subs[id := subs[id][1..]];
    }
  }

  /** One connection: the seq it has got to, and the frames written. */
  class Handler {
    var last: int
    var written: seq<Entry>

    constructor (since: int)
      ensures last == since && written == []
    {
      last, written := since, [];
    }

    method Replay(entries: seq<Entry>)
      modifies this
      ensures written == old(written) + entries
      ensures last == LastOf(old(last), entries)
    {
      ghost var before := written;
      var i := 0;
      while i < |entries|
        invariant 0 <= i <= |entries| && written == before + entries[..i]
        invariant last == LastOf(old(last), entries[..i])
      {
        written := written + [entries[i]];
        last := entries[i].seqNo;
        i := i + 1;
      }
      assert entries[..|entries|] == entries;
    }

    method Receive(e: Entry)
      modifies this
      ensures (last, written) == Received(old(last), old(written), e)
    {
      if e.seqNo <= last {
        return;
      }
      written := written + [e];
      last := e.seqNo;
    }
  }

  function LastOf(since: int, entries: seq<Entry>): int {
    if entries == [] then since else entries[|entries| - 1].seqNo
  }

  /** A delivered entry is written unless the stream is already past it. */
  function Received(last: int, written: seq<Entry>, e: Entry): (int, seq<Entry>) {
    if e.seqNo <= last then (last, written) else (e.seqNo, written + [e])
  }

  // ---- every interleaving ----

  datatype Phase = Opening | Checked | Subscribed | Live | Resynced

  /** `unpublished` are the entries committed whose publication has not happened yet. */
  datatype Wire = Wire(log: Changes, unpublished: seq<Entry>, phase: Phase, since: nat,
                         buffer: seq<Entry>, last: int, written: seq<Entry>)

  datatype Move =
    | Commit(entries: seq<Entry>)
    | Cut(k: nat)
    | Publish(i: nat)
    | Check
    | Subscribe
    | Replay
    | Deliver

  function Start(since: nat): Wire { Wire(Changes([], 0, []), [], Opening, since, [], since, []) }

  predicate Listening(w: Wire) { w.phase.Subscribed? || w.phase.Live? }

  predicate Enabled(w: Wire, m: Move) {
    match m
    case Commit(entries) =>
      forall i :: 0 <= i < |entries| ==> entries[i].seqNo == w.log.last + 1 + i && Stamped(entries[i])
    case Cut(k) => k <= |w.log.rows|
    case Publish(i) => i < |w.unpublished|
    case Check => w.phase.Opening?
    case Subscribe => w.phase.Checked?
    case Replay => w.phase.Subscribed?
    case Deliver => w.phase.Live? && w.buffer != []
  }

  function Go(w: Wire, m: Move): Wire {
    if !Enabled(w, m) then w else
      match m
      case Commit(entries) =>
        w.(log := Changes(w.log.rows + entries, w.log.last + |entries|, w.log.history + entries),
           unpublished := w.unpublished + entries)
      case Cut(k) => w.(log := w.log.(rows := w.log.rows[k..]))
      case Publish(i) =>
        w.(unpublished := w.unpublished[..i] + w.unpublished[i + 1..],
           buffer := if Listening(w) then Pushed(w.buffer, w.unpublished[i]) else w.buffer)
      case Check => w.(phase := if Resyncs(w.log, w.since) then Resynced else Checked)
      case Subscribe => w.(phase := Subscribed, buffer := [])
      case Replay =>
        var entries := After(w.log.rows, w.since);
        w.(phase := Live, written := entries, last := LastOf(w.since, entries))
      case Deliver =>
        var (last, written) := Received(w.last, w.written, w.buffer[0]);
        w.(buffer := w.buffer[1..], last := last, written := written)
  }

  function GoAll(since: nat, moves: seq<Move>): Wire {
    if moves == [] then Start(since) else Go(GoAll(since, moves[..|moves| - 1]), moves[|moves| - 1])
  }

  // ---- what every run keeps ----

  ghost predicate LogSound(c: Changes) { Dense(c) && Trimmed(c) >= 0 && c.rows == c.history[Trimmed(c)..] }

  ghost predicate Among(entries: seq<Entry>, history: seq<Entry>) {
    forall i :: 0 <= i < |entries| ==> 1 <= entries[i].seqNo <= |history| && entries[i] == history[entries[i].seqNo - 1]
  }

  ghost predicate Ascending(entries: seq<Entry>) {
    forall i, j :: 0 <= i < j < |entries| ==> entries[i].seqNo < entries[j].seqNo
  }

  /** What is written is committed, past the cursor, and strictly ascending up to `last`. */
  ghost predicate WritesAscend(w: Wire) {
    && LogSound(w.log) && Among(w.unpublished, w.log.history) && Among(w.buffer, w.log.history)
    && Among(w.written, w.log.history) && Ascending(w.written)
    && (forall i :: 0 <= i < |w.written| ==> w.since < w.written[i].seqNo)
    && w.last == LastOf(w.since, w.written)
    && (!w.phase.Live? ==> w.written == [])
  }

  lemma {:induction false} AfterIsTail(c: Changes, since: nat)
    requires LogSound(c)
    ensures var from := if since < Trimmed(c) then Trimmed(c) else if since < |c.history| then since else |c.history|;
      After(c.rows, since) == c.history[from..]
  {
    if since <= Trimmed(c) {
      AfterAll(c.rows, since);
    } else if since < |c.history| {
      AfterOfTail(c, since, c.rows, Trimmed(c));
    } else {
      AfterNone(c.rows, since);
    }
  }

  lemma {:induction false} AfterNone(rows: seq<Entry>, since: int)
    requires forall i :: 0 <= i < |rows| ==> rows[i].seqNo <= since
    ensures After(rows, since) == []
  {
    if rows != [] {
      AfterNone(rows[1..], since);
    }
  }

  lemma {:induction false} SuffixAscends(c: Changes, from: nat, since: int)
    requires LogSound(c) && from <= |c.history|
    ensures var entries := c.history[from..];
      && Among(entries, c.history) && Ascending(entries)
      && LastOf(since, entries) == (if from == |c.history| then since else |c.history|)
      && forall i :: 0 <= i < |entries| ==> from < entries[i].seqNo
  {
    hide Stamped;
    var entries := c.history[from..];
    assert forall i :: 0 <= i < |entries| ==> entries[i] == c.history[from + i] && entries[i].seqNo == from + i + 1;
    hide Dense;
  }

  lemma AmongMore(entries: seq<Entry>, history: seq<Entry>, more: seq<Entry>)
    requires Among(entries, history)
    ensures Among(entries, history + more)
  {
  }

  lemma AmongWithout(entries: seq<Entry>, history: seq<Entry>, i: nat)
    requires Among(entries, history) && i < |entries|
    ensures Among(entries[..i] + entries[i + 1..], history) && Among([entries[i]], history)
  {
  }

  lemma AmongConcat(a: seq<Entry>, b: seq<Entry>, history: seq<Entry>)
    requires Among(a, history) && Among(b, history)
    ensures Among(a + b, history)
  {
  }

  lemma {:induction false} CommitSound(c: Changes, entries: seq<Entry>)
    requires LogSound(c)
    requires forall i :: 0 <= i < |entries| ==> entries[i].seqNo == c.last + 1 + i && Stamped(entries[i])
    ensures LogSound(Changes(c.rows + entries, c.last + |entries|, c.history + entries))
    ensures Among(entries, c.history + entries)
  {
    hide Stamped, Dense;
    CommitDense(c, entries);
    var h' := c.history + entries;
    assert h'[Trimmed(c)..] == c.history[Trimmed(c)..] + entries;
    forall i | 0 <= i < |entries| ensures entries[i].seqNo == |c.history| + 1 + i {
      LastIsLength(c);
    }
  }

  lemma LastIsLength(c: Changes)
    requires Dense(c)
    ensures c.last == |c.history|
  {
  }

  lemma {:induction false} CommitDense(c: Changes, entries: seq<Entry>)
    requires Dense(c)
    requires forall i :: 0 <= i < |entries| ==> entries[i].seqNo == c.last + 1 + i && Stamped(entries[i])
    ensures Dense(Changes(c.rows + entries, c.last + |entries|, c.history + entries))
  {
    hide Stamped;
  }

  lemma CutSound(c: Changes, k: nat)
    requires LogSound(c) && k <= |c.rows|
    ensures LogSound(c.(rows := c.rows[k..]))
  {
    hide Stamped;
  }

  lemma {:induction false} WriteAscends(since: nat, written: seq<Entry>, e: Entry)
    requires Ascending(written) && LastOf(since, written) < e.seqNo
    requires forall i :: 0 <= i < |written| ==> since < written[i].seqNo
    ensures Ascending(written + [e]) && LastOf(since, written + [e]) == e.seqNo
    ensures forall i :: 0 <= i < |written + [e]| ==> since < (written + [e])[i].seqNo
  {
  }

  lemma {:induction false} StepAscends(w: Wire, m: Move)
    requires WritesAscend(w)
    ensures WritesAscend(Go(w, m))
  {
    hide After, Among, Ascending, LogSound;
    if Enabled(w, m) {
      match m
      case Commit(entries) =>
        CommitSound(w.log, entries);
        AmongMore(w.unpublished, w.log.history, entries);
        AmongMore(w.buffer, w.log.history, entries);
        AmongMore(w.written, w.log.history, entries);
        AmongConcat(w.unpublished, entries, w.log.history + entries);
      case Cut(k) => CutSound(w.log, k);
      case Publish(i) =>
        AmongWithout(w.unpublished, w.log.history, i);
        AmongConcat(w.buffer, [w.unpublished[i]], w.log.history);
      case Check =>
      case Subscribe => AmongNone(w.log.history);
      case Replay => ReplayAscends(w);
      case Deliver =>
        var e := w.buffer[0];
        assert w.buffer[..0] + w.buffer[0 + 1..] == w.buffer[1..];
        AmongWithout(w.buffer, w.log.history, 0);
        if e.seqNo > w.last {
          AmongConcat(w.written, [e], w.log.history);
          WriteAscends(w.since, w.written, e);
        }
    }
  }

  lemma AmongNone(history: seq<Entry>)
    ensures Among([], history)
  {
  }

  lemma {:induction false} ReplayAscends(w: Wire)
    requires WritesAscend(w) && Enabled(w, Replay)
    ensures WritesAscend(Go(w, Replay))
  {
    hide After, Among, Ascending;
    AfterIsTail(w.log, w.since);
    var c := w.log;
    var from := if w.since < Trimmed(c) then Trimmed(c) else if w.since < |c.history| then w.since else |c.history|;
    SuffixAscends(c, from, w.since);
  }

  /** On every interleaving, orderly or not, the ids a stream writes strictly increase. */
  lemma {:induction false} WritesAlwaysAscend(since: nat, moves: seq<Move>)
    ensures WritesAscend(GoAll(since, moves))
  {
    if moves != [] {
      WritesAlwaysAscend(since, moves[..|moves| - 1]);
      StepAscends(GoAll(since, moves[..|moves| - 1]), moves[|moves| - 1]);
    }
  }

  // ---- no gap and no repeat ----

  /** Written so far: exactly the committed entries in (since, last]. */
  ghost predicate Gapless(w: Wire) {
    && w.last == w.since + |w.written|
    && (w.written != [] ==> w.last <= |w.log.history| && w.written == w.log.history[w.since..w.last])
  }

  /** Published in commit order, into a channel with room, and nothing needed is gone at replay. */
  predicate Orderly(w: Wire, m: Move) {
    && (m.Publish? ==> m.i == 0 && (Listening(w) ==> |w.buffer| < CAPACITY))
    && (m.Replay? ==> Trimmed(w.log) <= w.since)
  }

  ghost predicate OrderlyRun(since: nat, moves: seq<Move>) {
    moves == [] || (OrderlyRun(since, moves[..|moves| - 1])
                    && Orderly(GoAll(since, moves[..|moves| - 1]), moves[|moves| - 1]))
  }

  function Published(w: Wire): int { |w.log.history| - |w.unpublished| }

  /** The channel holds the last entries published, and starts no later than `last` has got to. */
  ghost predicate Joined(w: Wire) {
    var p := Published(w);
    && p >= 0 && w.unpublished == w.log.history[p..]
    && (Listening(w) ==> |w.buffer| <= p && w.buffer == w.log.history[p - |w.buffer|..p])
    && (w.phase.Live? ==> p - |w.buffer| <= w.last)
  }

  lemma {:induction false} JoinedStep(w: Wire, m: Move)
    requires WritesAscend(w) && Joined(w) && Gapless(w) && Orderly(w, m)
    ensures Joined(Go(w, m)) && Gapless(Go(w, m))
  {
    if Enabled(w, m) {
      hide After, Among, Ascending, LogSound, Stamped, Joined, Gapless;
      match m
      case Commit(entries) => CommitJoined(w, entries);
      case Cut(k) => SameJoined(w, Go(w, m));
      case Publish(i) => PublishJoined(w);
      case Check => SameJoined(w, Go(w, m));
      case Subscribe => SubscribeJoined(w);
      case Replay => ReplayJoined(w);
      case Deliver =>
        BufferHead(w);
        DeliverGaplessExactly(w);
        HeadDue(w);
    }
  }

  lemma SameJoined(w: Wire, w': Wire)
    requires Joined(w) && Gapless(w) && w'.log.history == w.log.history
    requires w'.unpublished == w.unpublished && w'.buffer == w.buffer && w'.written == w.written
    requires w'.last == w.last && w'.since == w.since && (w'.phase == w.phase || !Listening(w'))
    ensures Joined(w') && Gapless(w')
  {
  }

  lemma SubscribeJoined(w: Wire)
    requires Joined(w) && Gapless(w) && Enabled(w, Subscribe)
    ensures Joined(Go(w, Subscribe)) && Gapless(Go(w, Subscribe))
  {
    assert w.log.history[Published(w)..Published(w)] == [];
  }

  lemma HeadDue(w: Wire)
    requires Joined(w) && Enabled(w, Deliver)
    ensures Published(w) - |w.buffer| <= w.last
  {
  }

  lemma {:induction false} CommitJoined(w: Wire, entries: seq<Entry>)
    requires Joined(w) && Gapless(w) && Enabled(w, Commit(entries))
    ensures Joined(Go(w, Commit(entries))) && Gapless(Go(w, Commit(entries)))
  {
    hide Stamped;
    var h, p := w.log.history, Published(w);
    assert (h + entries)[p..] == h[p..] + entries;
    assert Listening(w) ==> (h + entries)[p - |w.buffer|..p] == h[p - |w.buffer|..p];
    assert w.written != [] ==> (h + entries)[w.since..w.last] == h[w.since..w.last];
  }

  lemma {:induction false} PublishJoined(w: Wire)
    requires Joined(w) && Gapless(w) && Enabled(w, Publish(0)) && Orderly(w, Publish(0))
    ensures Joined(Go(w, Publish(0))) && Gapless(Go(w, Publish(0)))
  {
    var h, p := w.log.history, Published(w);
    PublishNext(h, p);
    var w' := Go(w, Publish(0));
    assert w'.unpublished == h[p + 1..] && Published(w') == p + 1;
    if Listening(w) {
      assert w'.buffer == w.buffer + [h[p]];
      SliceMore(h, p - |w.buffer|, p);
    }
  }

  lemma PublishNext(h: seq<Entry>, p: nat)
    requires p < |h|
    ensures h[p..][0] == h[p] && h[p..][..0] + h[p..][0 + 1..] == h[p + 1..]
  {
  }

  lemma SliceMore(h: seq<Entry>, from: nat, p: nat)
    requires from <= p < |h|
    ensures h[from..p] + [h[p]] == h[from..p + 1]
  {
  }

  lemma {:induction false} ReplayJoined(w: Wire)
    requires WritesAscend(w) && Joined(w) && Enabled(w, Replay) && Trimmed(w.log) <= w.since
    ensures Joined(Go(w, Replay)) && Gapless(Go(w, Replay))
  {
    hide After, Among, Ascending, Stamped, Gapless;
    AfterIsTail(w.log, w.since);
    var from := if w.since < |w.log.history| then w.since else |w.log.history|;
    SuffixAscends(w.log, from, w.since);
    ReplayGapless(w);
  }

  lemma {:induction false} ReplayGapless(w: Wire)
    requires WritesAscend(w) && Enabled(w, Replay) && Trimmed(w.log) <= w.since
    ensures Gapless(Go(w, Replay))
  {
    hide After, Among, Ascending, Stamped;
    AfterIsTail(w.log, w.since);
    var from := if w.since < |w.log.history| then w.since else |w.log.history|;
    SuffixAscends(w.log, from, w.since);
    assert w.log.history[from..] == w.log.history[from..|w.log.history|];
  }

  lemma {:induction false} BufferHead(w: Wire)
    requires WritesAscend(w) && Joined(w) && Enabled(w, Deliver)
    ensures w.buffer[0].seqNo == Published(w) - |w.buffer| + 1 && Joined(Go(w, Deliver))
  {
    hide After, Among, Ascending, Stamped;
    var h, b := w.log.history, Published(w) - |w.buffer|;
    assert w.buffer[0] == h[b];
    assert h[b..Published(w)][1..] == h[b + 1..Published(w)];
  }

  /** A delivery leaves a stream without a gap exactly when the entry is at most the next one due. */
  lemma {:induction false} DeliverGaplessExactly(w: Wire)
    requires WritesAscend(w) && Gapless(w) && Enabled(w, Deliver)
    ensures Gapless(Go(w, Deliver)) <==> w.buffer[0].seqNo <= w.last + 1
  {
    hide After, Ascending, Stamped;
    var h, e := w.log.history, w.buffer[0];
    if e.seqNo == w.last + 1 {
      assert h[w.since..w.last] + [h[w.last]] == h[w.since..w.last + 1];
      assert w.written == h[w.since..w.last] by {
        assert w.written == [] ==> h[w.since..w.last] == [];
      }
    }
  }

  lemma {:induction false} AscendsPast(since: int, written: seq<Entry>, i: nat)
    requires Ascending(written) && i < |written| && forall j :: 0 <= j < |written| ==> since < written[j].seqNo
    ensures written[i].seqNo > since + i
  {
    if i > 0 {
      AscendsPast(since, written, i - 1);
      assert written[i - 1].seqNo < written[i].seqNo;
    }
  }

  /** Ids only ever climb, so a stream has no gap exactly when it has written as many as it has passed. */
  lemma {:induction false} GaplessByCount(w: Wire)
    requires WritesAscend(w)
    ensures w.last >= w.since + |w.written|
    ensures Gapless(w) <==> w.last == w.since + |w.written|
  {
    hide LogSound;
    var n := |w.written|;
    if n > 0 {
      AscendsPast(w.since, w.written, n - 1);
      if w.last == w.since + n {
        forall i | 0 <= i < n ensures w.written[i] == w.log.history[w.since + i] {
          AscendsPast(w.since, w.written, i);
          RoomAbove(w.written, i);
        }
        assert w.written == w.log.history[w.since..w.last];
      }
    }
  }

  lemma {:induction false} RoomAbove(written: seq<Entry>, i: nat)
    requires Ascending(written) && i < |written|
    ensures written[i].seqNo + |written| - 1 - i <= written[|written| - 1].seqNo
    decreases |written| - i
  {
    if i < |written| - 1 {
      RoomAbove(written, i + 1);
      assert written[i].seqNo < written[i + 1].seqNo;
    }
  }

  /** A delivery of at most the next entry due; a replay from a table that reaches back to the cursor or is empty. */
  predicate Seamless(w: Wire, m: Move) {
    Enabled(w, m) ==>
      && (m.Deliver? ==> w.buffer[0].seqNo <= w.last + 1)
      && (m.Replay? ==> Trimmed(w.log) <= w.since || w.log.rows == [])
  }

  ghost predicate SeamlessRun(since: nat, moves: seq<Move>) {
    moves == [] || (SeamlessRun(since, moves[..|moves| - 1])
                    && Seamless(GoAll(since, moves[..|moves| - 1]), moves[|moves| - 1]))
  }

  lemma {:induction false} ReplaySeamlessExactly(w: Wire)
    requires WritesAscend(w) && Enabled(w, Replay)
    ensures Gapless(Go(w, Replay)) <==> Seamless(w, Replay)
  {
    hide After, Among, Ascending, Dense, Stamped;
    if Trimmed(w.log) <= w.since {
      ReplayGapless(w);
    } else {
      AfterIsTail(w.log, w.since);
      if w.log.rows != [] {
        SuffixAscends(w.log, Trimmed(w.log), w.since);
      }
    }
  }

  lemma {:induction false} StepSeamlessExactly(w: Wire, m: Move)
    requires WritesAscend(w)
    ensures Gapless(Go(w, m)) <==> Gapless(w) && Seamless(w, m)
  {
    hide WritesAscend, Gapless;
    StepAscends(w, m);
    GaplessByCount(w);
    GaplessByCount(Go(w, m));
    if Enabled(w, m) && m.Replay? {
      ReplaySeamlessExactly(w);
      NotYetWritten(w);
    }
  }

  lemma NotYetWritten(w: Wire)
    requires WritesAscend(w) && !w.phase.Live?
    ensures w.last == w.since + |w.written|
  {
  }

  /** Over every interleaving: a stream has no gap exactly when every replay and delivery so far was seamless. */
  lemma {:induction false} GaplessExactly(since: nat, moves: seq<Move>)
    ensures Gapless(GoAll(since, moves)) <==> SeamlessRun(since, moves)
  {
    if moves != [] {
      hide Go, Gapless, Seamless, WritesAscend;
      var front := moves[..|moves| - 1];
      GaplessExactly(since, front);
      WritesAlwaysAscend(since, front);
      StepSeamlessExactly(GoAll(since, front), moves[|moves| - 1]);
    }
  }

  /** Orderly publication and a window that held: everything in (since, last], once, in order. */
  lemma {:induction false} OrderlyStreamsAreGapless(since: nat, moves: seq<Move>)
    requires OrderlyRun(since, moves)
    ensures Joined(GoAll(since, moves)) && Gapless(GoAll(since, moves))
  {
    if moves != [] {
      var front := moves[..|moves| - 1];
      OrderlyStreamsAreGapless(since, front);
      WritesAlwaysAscend(since, front);
      JoinedStep(GoAll(since, front), moves[|moves| - 1]);
    }
  }

  /** Once the channel is drained and nothing awaits publication, the stream is at the end of the log. */
  lemma {:induction false} DrainedStreamIsCurrent(since: nat, moves: seq<Move>)
    requires OrderlyRun(since, moves)
    requires var w := GoAll(since, moves); w.phase.Live? && w.buffer == [] && w.unpublished == []
    requires since <= |GoAll(since, moves).log.history|
    ensures var w := GoAll(since, moves); w.last == |w.log.history| && w.written == w.log.history[since..]
  {
    hide GoAll, OrderlyRun;
    OrderlyStreamsAreGapless(since, moves);
    WritesAlwaysAscend(since, moves);
    GoAllKeepsSince(since, moves);
    var w := GoAll(since, moves);
    hide Ascending, LogSound, Stamped;
    assert w.written != [] ==> w.written[|w.written| - 1].seqNo <= |w.log.history|;
    assert w.log.history[w.since..|w.log.history|] == w.log.history[w.since..];
  }

  lemma {:induction false} GoAllKeepsSince(since: nat, moves: seq<Move>)
    ensures GoAll(since, moves).since == since
  {
    if moves != [] {
      GoAllKeepsSince(since, moves[..|moves| - 1]);
    }
  }

  /** Folding what such a stream has carried onto the log up to `since` gives the log up to `last`. */
  lemma {:induction false} GaplessStreamKeepsInStep(w: Wire, client: Client)
    requires Gapless(w) && w.last <= |w.log.history| && client.cursor == w.since && InStep(w.log, client)
    ensures InStep(w.log, Client(Fold(client.cache, w.written), w.last))
  {
    hide Fold;
    var h := w.log.history;
    FoldConcat(NO_CACHE, h[..w.since], w.written);
    assert h[..w.since] + w.written == h[..w.last] by {
      if w.written == [] {
        assert h[..w.since] + [] == h[..w.since];
      } else {
        assert h[..w.since] + h[w.since..w.last] == h[..w.last];
      }
    }
  }

  /** Two transactions that publish the other way round: the stream never writes the first entry. */
  lemma {:induction false} LateEntryIsSkipped(a: Entry, b: Entry)
    requires a.seqNo == 1 && b.seqNo == 2 && Stamped(a) && Stamped(b)
    ensures var w := GoAll(0, [Check, Subscribe, Replay, Commit([a]), Commit([b]), Publish(1), Deliver, Publish(0), Deliver]);
      w.log.history == [a, b] && w.unpublished == [] && w.buffer == [] && w.written == [b]
  {
    hide Stamped, Enabled;
    var moves := [Check, Subscribe, Replay, Commit([a]), Commit([b]), Publish(1), Deliver, Publish(0), Deliver];
    Unrolled(moves);
    hide Go;
    var w5 := TwoCommitted(a, b);
    SwappedPublication(w5, a, b);
  }

  lemma {:induction false} TwoCommitted(a: Entry, b: Entry) returns (w: Wire)
    requires a.seqNo == 1 && b.seqNo == 2 && Stamped(a) && Stamped(b)
    ensures w == Go(Go(Go(Go(Go(Start(0), Check), Subscribe), Replay), Commit([a])), Commit([b]))
    ensures w == Wire(Changes([a, b], 2, [a, b]), [a, b], Live, 0, [], 0, [])
  {
    var w3 := Go(Go(Go(Start(0), Check), Subscribe), Replay);
    assert w3 == Wire(Changes([], 0, []), [], Live, 0, [], 0, []);
    var w4 := Go(w3, Commit([a]));
    assert w4 == Wire(Changes([a], 1, [a]), [a], Live, 0, [], 0, []);
    w := Go(w4, Commit([b]));
    assert [a] + [b] == [a, b];
  }

  lemma {:induction false} SwappedPublication(w: Wire, a: Entry, b: Entry)
    requires a.seqNo == 1 && b.seqNo == 2 && w.phase.Live? && w.unpublished == [a, b] && w.buffer == []
    requires w.last == 0 && w.written == []
    ensures Go(Go(Go(Go(w, Publish(1)), Deliver), Publish(0)), Deliver)
         == w.(unpublished := [], last := 2, written := [b])
  {
    var w1 := Go(w, Publish(1));
    assert w1 == w.(unpublished := [a], buffer := [b]);
    var w2 := Go(w1, Deliver);
    assert w2 == w1.(buffer := [], last := 2, written := [b]);
    var w3 := Go(w2, Publish(0));
    assert w3 == w2.(unpublished := [], buffer := [a]);
    assert Go(w3, Deliver).buffer == [];
  }

  lemma Unrolled(moves: seq<Move>)
    requires |moves| == 9
    ensures GoAll(0, moves) == Go(Go(Go(Go(Go(Go(Go(Go(Go(Start(0), moves[0]), moves[1]), moves[2]), moves[3]), moves[4]),
                                           moves[5]), moves[6]), moves[7]), moves[8])
  {
    hide Go;
    Prefixes(moves);
  }

  lemma {:induction false} Prefixes(moves: seq<Move>)
    requires |moves| == 9
    ensures forall i | 0 <= i < 9 :: GoAll(0, moves[..i + 1]) == Go(GoAll(0, moves[..i]), moves[i])
    ensures moves[..9] == moves && moves[..0] == []
  {
    forall i | 0 <= i < 9 ensures GoAll(0, moves[..i + 1]) == Go(GoAll(0, moves[..i]), moves[i]) {
      assert moves[..i + 1][..i] == moves[..i];
    }
  }
}
