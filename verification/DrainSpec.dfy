/**
 * The agent's sender. `Drain` is one attempt to empty both queues against a scripted network;
 * class `Reporter.Reporter` runs it step by step on mutable queues and is proved equal to it. The
 * lemmas say what every script leaves: what was sent, in which order, and what is still queued.
 */
module DrainSpec {
  import opened Basics
  import opened AgentQueue

  /** How the hub, or the lack of one, answers a POST. */
  datatype Reply = Ack(seconds: int) | Poison | Unauthorized | Retry(after: int)

  datatype Post = Post(kind: Kind, rows: seq<Row>, reply: Reply)

  datatype Outcome = Done | Failed(reply: Reply)

  /** Both queues, the answers the network will still give, the POSTs made, the interval in seconds. */
  datatype Agent = Agent(metrics: Lane, events: Lane, replies: seq<Reply>, posts: seq<Post>, interval: int)

  datatype Limits = Limits(maxReplay: nat, maxEventSend: nat)

  // ---- notices ----

  function Notice(a: Agent, payload: Payload, now: int): Agent {
    var n := a.events.lastSeq + 1;
    a.(events := Insert(a.events.(lastSeq := n), n, payload, now))
  }

  function FlushMetrics(a: Agent, now: int): Agent {
    match a.metrics.overflow
    case None => a
    case Some(o) => Notice(a.(metrics := a.metrics.(overflow := None)), QueueOverflow(Metrics, o), now)
  }

  function FlushEvents(a: Agent, now: int): Agent {
    match a.events.overflow
    case None => a
    case Some(o) => Notice(a.(events := a.events.(overflow := None)), QueueOverflow(Events, o), now)
  }

  function Flush(a: Agent, now: int): Agent { FlushEvents(FlushMetrics(a, now), now) }

  // ---- the two sending phases ----

  /** An exhausted script is an unreachable hub. */
  function Answer(replies: seq<Reply>): Reply { if replies == [] then Retry(0) else replies[0] }

  function Sending(a: Agent, kind: Kind, rows: seq<Row>): Agent {
    a.(replies := if a.replies == [] then [] else a.replies[1..], posts := a.posts + [Post(kind, rows, Answer(a.replies))])
  }

  function Told(interval: int, seconds: int): int {
    if seconds <= 0 then interval else if seconds < 10 then 10 else if seconds > 600 then 600 else seconds
  }

  function MetricsPhase(a: Agent, limits: Limits, now: int): (Agent, Outcome)
    decreases |a.metrics.rows|
  {
    var rows := a.metrics.rows;
    if rows == [] then (a, Done)
    else if |rows| > limits.maxReplay then
      MetricsPhase(Flush(a.(metrics := LaneTrimmed(a.metrics, |rows| - limits.maxReplay)), now), limits, now)
    else
      var sent := Sending(a, Metrics, [rows[0]]);
      var rest := sent.(metrics := a.metrics.(rows := rows[1..]));
      match Answer(a.replies)
      case Ack(seconds) => MetricsPhase(rest.(interval := Told(a.interval, seconds)), limits, now)
      case Poison => MetricsPhase(Notice(rest, PayloadDropped(Metrics, rows[0].seqNo), now), limits, now)
      case other => (sent, Failed(other))
  }

  function EventsPhase(a: Agent, limits: Limits, now: int): (Agent, Outcome)
    requires limits.maxEventSend >= 1
    decreases |a.replies|
  {
    var rows := a.events.rows;
    if rows == [] then (a, Done)
    else
      var k := Min(limits.maxEventSend, |rows|);
      var sent := Sending(a, Events, rows[..k]);
      var rest := sent.(events := a.events.(rows := rows[k..]));
      match Answer(a.replies)
      case Ack(_) => EventsPhase(rest, limits, now)
      case Poison => EventsPhase(Notice(rest, PayloadDropped(Events, k), now), limits, now)
      case other => (sent, Failed(other))
  }

  function Drain(a: Agent, limits: Limits, now: int): (Agent, Outcome)
    requires limits.maxEventSend >= 1
  {
    var (b, o) := MetricsPhase(Flush(a, now), limits, now);
    if o.Failed? then (b, o) else EventsPhase(b, limits, now)
  }

  // ---- what was sent ----

  /** Rows that a POST took out of the queue for good. */
  function Settled(posts: seq<Post>, kind: Kind): seq<Row> {
    if posts == [] then [] else
      var p := posts[0];
      (if p.kind == kind && (p.reply.Ack? || p.reply.Poison?) then p.rows else []) + Settled(posts[1..], kind)
  }

  lemma {:induction false} SettledConcat(a: seq<Post>, b: seq<Post>, kind: Kind)
    ensures Settled(a + b, kind) == Settled(a, kind) + Settled(b, kind)
  {
    if a == [] {
      assert a + b == b;
    } else {
      assert (a + b)[1..] == a[1..] + b;
      SettledConcat(a[1..], b, kind);
    }
  }

  function NoticeTotal(rows: seq<Row>): nat {
    if rows == [] then 0 else
      (if rows[0].payload.QueueOverflow? then rows[0].payload.overflow.dropped else 0) + NoticeTotal(rows[1..])
  }

  lemma {:induction false} NoticeTotalConcat(a: seq<Row>, b: seq<Row>)
    ensures NoticeTotal(a + b) == NoticeTotal(a) + NoticeTotal(b)
  {
    if a == [] {
      assert a + b == b;
    } else {
      assert (a + b)[1..] == a[1..] + b;
      NoticeTotalConcat(a[1..], b);
    }
  }

  predicate Final(r: Reply) { r.Unauthorized? || r.Retry? }

  /** The new POSTs: only the last may fail, and it fails exactly when the phase does. */
  ghost predicate FailsLast(posts: seq<Post>, o: Outcome) {
    && (forall i :: 0 <= i < |posts| - 1 ==> !Final(posts[i].reply))
    && (o.Done? ==> posts == [] || !Final(posts[|posts| - 1].reply))
    && (o.Failed? ==> posts != [] && posts[|posts| - 1].reply == o.reply && Final(o.reply))
  }

  ghost predicate Answered(posts: seq<Post>, before: seq<Reply>, after: seq<Reply>) {
    && |posts| <= |before| + 1
    && (forall i :: 0 <= i < |posts| ==> posts[i].reply == (if i < |before| then before[i] else Retry(0)))
    && after == before[Min(|posts|, |before|)..]
  }

  /** One more POST in front of those of the rest of a phase. */
  lemma {:induction false} OneMore(p: Post, rest: seq<Post>, o: Outcome, before: seq<Reply>, after: seq<Reply>)
    requires p.reply == Answer(before) && !Final(p.reply) && FailsLast(rest, o)
    requires Answered(rest, before[1..], after)
    ensures FailsLast([p] + rest, o) && Answered([p] + rest, before, after)
    ensures forall kind :: Settled([p] + rest, kind) == (if p.kind == kind then p.rows else []) + Settled(rest, kind)
  {
    assert ([p] + rest)[1..] == rest;
  }

  // ---- the metrics phase ----

  ghost predicate MetricsSent(a: Agent, r: Agent, o: Outcome, posts: seq<Post>, notices: seq<Row>) {
    && r.posts == a.posts + posts && FailsLast(posts, o) && Answered(posts, a.replies, r.replies)
    && (forall p <- posts :: p.kind == Metrics && |p.rows| == 1)
    && Settled(posts, Metrics) + r.metrics.rows == a.metrics.rows && Settled(posts, Events) == []
    && |posts| <= |a.metrics.rows| && (o.Done? ==> r.metrics.rows == [] && |posts| == |a.metrics.rows|)
    && (o.Failed? ==> posts != [] && r.metrics.rows != [] && posts[|posts| - 1].rows == [r.metrics.rows[0]])
    && r.events.rows == a.events.rows + notices && NoticeTotal(notices) == 0
    && ((forall p <- posts :: !p.reply.Poison?) <==> notices == [])
    && r.metrics.overflow == a.metrics.overflow && r.events.overflow == a.events.overflow
  }

  lemma {:induction false} MetricsLoop(a: Agent, limits: Limits, now: int) returns (posts: seq<Post>, notices: seq<Row>)
    requires |a.metrics.rows| <= limits.maxReplay
    ensures var (r, o) := MetricsPhase(a, limits, now); MetricsSent(a, r, o, posts, notices)
    decreases |a.metrics.rows|
  {
    var rows := a.metrics.rows;
    if rows == [] {
      return [], [];
    }
    var p := Post(Metrics, [rows[0]], Answer(a.replies));
    if Final(p.reply) {
      MetricsFails(a);
      return [p], [];
    }
    hide MetricsSent;
    var sent := Sending(a, Metrics, [rows[0]]).(metrics := a.metrics.(rows := rows[1..]));
    var rest := if p.reply.Ack? then sent.(interval := Told(a.interval, p.reply.seconds))
                else Notice(sent, PayloadDropped(Metrics, rows[0].seqNo), now);
    var posts1, notices1 := MetricsLoop(rest, limits, now);
    posts, notices := [p] + posts1, rest.events.rows[|a.events.rows|..] + notices1;
    var (r, o) := MetricsPhase(rest, limits, now);
    MetricsOneMore(a, rest, r, o, posts1, notices1);
  }

  lemma {:induction false} MetricsFails(a: Agent)
    requires a.metrics.rows != [] && Final(Answer(a.replies))
    ensures var p := Post(Metrics, [a.metrics.rows[0]], Answer(a.replies));
      MetricsSent(a, Sending(a, Metrics, p.rows), Failed(p.reply), [p], [])
  {
    var p := Post(Metrics, [a.metrics.rows[0]], Answer(a.replies));
    assert [p][1..] == [];
  }

  /** A row acknowledged or refused, then the rest of the phase. */
  lemma {:induction false} MetricsOneMore(a: Agent, rest: Agent, r: Agent, o: Outcome, posts: seq<Post>, notices: seq<Row>)
    requires a.metrics.rows != [] && !Final(Answer(a.replies))
    requires rest.metrics == a.metrics.(rows := a.metrics.rows[1..]) && rest.replies == a.replies[1..]
    requires rest.posts == a.posts + [Post(Metrics, [a.metrics.rows[0]], Answer(a.replies))]
    requires rest.events.overflow == a.events.overflow && a.events.rows <= rest.events.rows
    requires |rest.events.rows| == |a.events.rows| + (if Answer(a.replies).Poison? then 1 else 0)
    requires forall i :: |a.events.rows| <= i < |rest.events.rows| ==> rest.events.rows[i].payload.PayloadDropped?
    requires MetricsSent(rest, r, o, posts, notices)
    ensures MetricsSent(a, r, o, [Post(Metrics, [a.metrics.rows[0]], Answer(a.replies))] + posts,
                        rest.events.rows[|a.events.rows|..] + notices)
  {
    hide FailsLast, Answered, Settled, NoticeTotal;
    var p, extra := Post(Metrics, [a.metrics.rows[0]], Answer(a.replies)), rest.events.rows[|a.events.rows|..];
    OneMore(p, posts, o, a.replies, r.replies);
    assert a.posts + ([p] + posts) == a.posts + [p] + posts;
    assert rest.events.rows == a.events.rows + extra;
    Regroup(a.metrics.rows, 1, [], [], Settled(posts, Metrics), r.metrics.rows);
    assert a.metrics.rows[..1] == [a.metrics.rows[0]] && a.metrics.rows + ([] + []) == a.metrics.rows;
    assert a.metrics.rows[1..] + [] + [] == a.metrics.rows[1..];
    assert [] + Settled(posts, Events) == Settled(posts, Events);
    assert a.events.rows + (extra + notices) == a.events.rows + extra + notices;
    MetricsNotices(p, posts, extra, notices);
  }

  lemma {:induction false} MetricsNotices(p: Post, posts: seq<Post>, extra: seq<Row>, notices: seq<Row>)
    requires |extra| == (if p.reply.Poison? then 1 else 0) && forall e <- extra :: e.payload.PayloadDropped?
    requires NoticeTotal(notices) == 0 && ((forall q <- posts :: !q.reply.Poison?) <==> notices == [])
    requires (forall q <- posts :: q.kind == Metrics && |q.rows| == 1) && p.kind == Metrics && |p.rows| == 1
    ensures NoticeTotal(extra + notices) == 0
    ensures (forall q <- [p] + posts :: !q.reply.Poison?) <==> extra + notices == []
    ensures forall q <- [p] + posts :: q.kind == Metrics && |q.rows| == 1
  {
    NoticeTotalConcat(extra, notices);
    assert extra == [] || extra == [extra[0]];
    assert p in [p] + posts && forall q <- posts :: q in [p] + posts;
  }

  // ---- the events phase ----

  /** POSTs it takes to send `n` rows, `size` at a time. */
  function Batches(n: nat, size: nat): nat
    requires size >= 1
  {
    if n == 0 then 0 else 1 + Batches(n - Min(size, n), size)
  }

  ghost predicate EventsSent(a: Agent, r: Agent, o: Outcome, posts: seq<Post>, notices: seq<Row>, size: nat)
    requires size >= 1
  {
    && r.posts == a.posts + posts && FailsLast(posts, o) && Answered(posts, a.replies, r.replies)
    && r.metrics == a.metrics && r.events.overflow == a.events.overflow
    && Settled(posts, Events) + r.events.rows == a.events.rows + notices && Settled(posts, Metrics) == []
    && (o.Failed? ==> posts != [] && r.events.rows != []
                      && posts[|posts| - 1].rows == r.events.rows[..Min(size, |r.events.rows|)])
    && EventsCounted(|a.events.rows|, r, o, posts, notices, size)
  }

  ghost predicate EventsCounted(n: nat, r: Agent, o: Outcome, posts: seq<Post>, notices: seq<Row>, size: nat)
    requires size >= 1
  {
    && (posts == [] <==> n == 0) && (forall p <- posts :: p.kind == Events && 1 <= |p.rows| <= size)
    && (o.Done? ==> r.events.rows == [] && (posts == [] || posts[|posts| - 1].reply.Ack?))
    && NoticeTotal(notices) == 0 && ((forall p <- posts :: !p.reply.Poison?) <==> notices == [])
    && ((forall p <- posts :: !p.reply.Poison?) ==>
          |posts| <= Batches(n, size) && (o.Done? ==> |posts| == Batches(n, size)))
  }

  lemma {:induction false} EventsLoop(a: Agent, limits: Limits, now: int) returns (posts: seq<Post>, notices: seq<Row>)
    requires limits.maxEventSend >= 1
    ensures var (r, o) := EventsPhase(a, limits, now); EventsSent(a, r, o, posts, notices, limits.maxEventSend)
    decreases |a.replies|
  {
    var rows, size := a.events.rows, limits.maxEventSend;
    if rows == [] {
      return [], [];
    }
    var k := Min(size, |rows|);
    var p := Post(Events, rows[..k], Answer(a.replies));
    if Final(p.reply) {
      EventsFails(a, size);
      return [p], [];
    }
    hide EventsSent;
    var sent := Sending(a, Events, rows[..k]).(events := a.events.(rows := rows[k..]));
    var rest := if p.reply.Ack? then sent else Notice(sent, PayloadDropped(Events, k), now);
    var posts1, notices1 := EventsLoop(rest, limits, now);
    posts, notices := [p] + posts1, rest.events.rows[|rows| - k..] + notices1;
    var (r, o) := EventsPhase(rest, limits, now);
    EventsOneMore(a, rest, r, o, posts1, notices1, size);
  }

  lemma {:induction false} EventsFails(a: Agent, size: nat)
    requires a.events.rows != [] && Final(Answer(a.replies)) && size >= 1
    ensures var p := Post(Events, a.events.rows[..Min(size, |a.events.rows|)], Answer(a.replies));
      EventsSent(a, Sending(a, Events, p.rows), Failed(p.reply), [p], [], size)
  {
    var p := Post(Events, a.events.rows[..Min(size, |a.events.rows|)], Answer(a.replies));
    assert [p][1..] == [];
  }

  lemma {:induction false} EventsOneMore(a: Agent, rest: Agent, r: Agent, o: Outcome, posts: seq<Post>, notices: seq<Row>, size: nat)
    requires a.events.rows != [] && !Final(Answer(a.replies)) && size >= 1
    requires var k := Min(size, |a.events.rows|);
      && rest.metrics == a.metrics && rest.replies == a.replies[1..]
      && rest.posts == a.posts + [Post(Events, a.events.rows[..k], Answer(a.replies))]
      && rest.events.overflow == a.events.overflow && a.events.rows[k..] <= rest.events.rows
      && |rest.events.rows| == |a.events.rows| - k + (if Answer(a.replies).Poison? then 1 else 0)
      && forall i :: |a.events.rows| - k <= i < |rest.events.rows| ==> rest.events.rows[i].payload.PayloadDropped?
    requires EventsSent(rest, r, o, posts, notices, size)
    ensures var k := Min(size, |a.events.rows|);
      EventsSent(a, r, o, [Post(Events, a.events.rows[..k], Answer(a.replies))] + posts,
                 rest.events.rows[|a.events.rows| - k..] + notices, size)
  {
    hide FailsLast, Answered, Settled, EventsCounted, NoticeTotal;
    var k := Min(size, |a.events.rows|);
    var p, extra := Post(Events, a.events.rows[..k], Answer(a.replies)), rest.events.rows[|a.events.rows| - k..];
    OneMore(p, posts, o, a.replies, r.replies);
    assert a.posts + ([p] + posts) == a.posts + [p] + posts;
    assert rest.events.rows == a.events.rows[k..] + extra;
    Regroup(a.events.rows, k, extra, notices, Settled(posts, Events), r.events.rows);
    EventsOneMoreCounted(|a.events.rows|, r, o, p, posts, extra, notices, size);
  }

  lemma Regroup(rows: seq<Row>, k: nat, extra: seq<Row>, notices: seq<Row>, settled: seq<Row>, left: seq<Row>)
    requires k <= |rows| && settled + left == rows[k..] + extra + notices
    ensures (rows[..k] + settled) + left == rows + (extra + notices)
  {
    assert rows == rows[..k] + rows[k..];
    assert (rows[..k] + settled) + left == rows[..k] + (settled + left);
    assert rows[..k] + (rows[k..] + extra + notices) == rows[..k] + rows[k..] + (extra + notices);
  }

  lemma {:induction false} EventsOneMoreCounted(n: nat, r: Agent, o: Outcome, p: Post, posts: seq<Post>,
                                                extra: seq<Row>, notices: seq<Row>, size: nat)
    requires size >= 1 && n > 0 && |p.rows| == Min(size, n) && p.kind == Events && !Final(p.reply)
    requires |extra| == (if p.reply.Poison? then 1 else 0) && forall e <- extra :: e.payload.PayloadDropped?
    requires EventsCounted(n - |p.rows| + |extra|, r, o, posts, notices, size)
    ensures EventsCounted(n, r, o, [p] + posts, extra + notices, size)
  {
    NoticeTotalConcat(extra, notices);
    assert extra == [] || extra == [extra[0]];
    assert p in [p] + posts && forall q <- posts :: q in [p] + posts;
  }

  // ---- one whole attempt ----

  function Newest(rows: seq<Row>, max: nat): seq<Row> { rows[|rows| - Min(max, |rows|)..] }

  /** Rows an attempt will trim, and the overflow notices it will queue. */
  function Excess(a: Agent, limits: Limits): nat { |a.metrics.rows| - Min(limits.maxReplay, |a.metrics.rows|) }

  function NoticeCount(a: Agent, limits: Limits): nat {
    (if a.metrics.overflow.Some? then 1 else 0) + (if a.events.overflow.Some? then 1 else 0)
    + (if Excess(a, limits) > 0 then 1 else 0)
  }

  function Prepared(a: Agent, limits: Limits, now: int): Agent {
    var b := Flush(a, now);
    if Excess(a, limits) == 0 then b
    else Flush(b.(metrics := LaneTrimmed(b.metrics, Excess(a, limits))), now)
  }

  lemma {:induction false} FlushLaw(a: Agent, now: int) returns (notices: seq<Row>)
    ensures var r := Flush(a, now);
      && r.metrics == a.metrics.(overflow := None) && r.events.overflow == None
      && r.events.rows == a.events.rows + notices && NoticeTotal(notices) == Recorded(a.metrics) + Recorded(a.events)
      && |notices| == (if a.metrics.overflow.Some? then 1 else 0) + (if a.events.overflow.Some? then 1 else 0)
      && r.replies == a.replies && r.posts == a.posts && r.interval == a.interval
  {
    notices := Flush(a, now).events.rows[|a.events.rows|..];
    var b := FlushMetrics(a, now);
    var (first, second) := (b.events.rows[|a.events.rows|..], Flush(a, now).events.rows[|b.events.rows|..]);
    assert notices == first + second;
    NoticeTotalConcat(first, second);
  }

  lemma {:induction false} PreparedLaw(a: Agent, limits: Limits, now: int) returns (notices: seq<Row>)
    ensures var r := Prepared(a, limits, now);
      && r.metrics.rows == Newest(a.metrics.rows, limits.maxReplay)
      && r.metrics.overflow == None && r.events.overflow == None
      && r.events.rows == a.events.rows + notices && |notices| == NoticeCount(a, limits)
      && NoticeTotal(notices) == Recorded(a.metrics) + Recorded(a.events) + Excess(a, limits)
      && r.replies == a.replies && r.posts == a.posts
      && MetricsPhase(Flush(a, now), limits, now) == MetricsPhase(r, limits, now)
  {
    hide Earliest, Latest, Flush;
    notices := FlushLaw(a, now);
    var b := Flush(a, now);
    if Excess(a, limits) > 0 {
      var c := b.(metrics := LaneTrimmed(b.metrics, Excess(a, limits)));
      var more := FlushLaw(c, now);
      NoticeTotalConcat(notices, more);
      assert b.events.rows + more == a.events.rows + (notices + more);
      notices := notices + more;
    }
  }

  ghost predicate MetricsFirst(posts: seq<Post>) {
    forall i, j :: 0 <= i < j < |posts| && posts[i].kind == Events ==> posts[j].kind == Events
  }

  /** The last POST carried what is now the head of its queue. */
  ghost predicate HeadFailed(r: Agent, p: Post, size: nat) {
    if r.metrics.rows != [] then p.kind == Metrics && p.rows == [r.metrics.rows[0]]
    else p.kind == Events && r.events.rows != [] && p.rows == r.events.rows[..Min(size, |r.events.rows|)]
  }

  /** The rows sent and left, in order; the notices count all recorded drops. */
  ghost predicate RowsAccounted(a: Agent, r: Agent, limits: Limits, posts: seq<Post>, notices: seq<Row>) {
    && r.posts == a.posts + posts
    && Settled(posts, Metrics) + r.metrics.rows == Newest(a.metrics.rows, limits.maxReplay)
    && Settled(posts, Events) + r.events.rows == a.events.rows + notices
    && NoticeTotal(notices) == Recorded(a.metrics) + Recorded(a.events) + Excess(a, limits)
  }

  /** Batches first, then events; only the last POST can fail, and then its rows head their queue. */
  ghost predicate PostsShaped(a: Agent, r: Agent, o: Outcome, limits: Limits, posts: seq<Post>) {
    && FailsLast(posts, o) && Answered(posts, a.replies, r.replies) && MetricsFirst(posts)
    && (forall p <- posts :: 1 <= |p.rows| <= if p.kind == Metrics then 1 else limits.maxEventSend)
    && (o.Done? ==> r.metrics.rows == [] && r.events.rows == [] && (posts == [] || posts[|posts| - 1].reply.Ack?))
    && (o.Failed? ==> posts != [] && HeadFailed(r, posts[|posts| - 1], limits.maxEventSend))
  }

  /** How many POSTs: no more than the acknowledged ones need, and all of them on success. */
  ghost predicate Counted(a: Agent, o: Outcome, limits: Limits, posts: seq<Post>)
    requires limits.maxEventSend >= 1
  {
    var need := Needed(a, limits);
    && (posts == [] ==> need == 0)
    && ((forall p <- posts :: !p.reply.Poison?) ==> |posts| <= need && (o.Done? ==> |posts| == need))
  }

  function Needed(a: Agent, limits: Limits): nat
    requires limits.maxEventSend >= 1
  {
    Min(limits.maxReplay, |a.metrics.rows|) + Batches(|a.events.rows| + NoticeCount(a, limits), limits.maxEventSend)
  }

  lemma {:induction false} DrainAccounts(a: Agent, limits: Limits, now: int) returns (posts: seq<Post>, notices: seq<Row>)
    requires limits.maxEventSend >= 1
    ensures var (r, o) := Drain(a, limits, now);
      RowsAccounted(a, r, limits, posts, notices) && PostsShaped(a, r, o, limits, posts) && Counted(a, o, limits, posts)
  {
    hide FailsLast, Answered, Settled, NoticeTotal, MetricsPhase, EventsPhase, Prepared, Flush, MetricsSent, EventsSent,
         RowsAccounted, PostsShaped, Counted;
    var notices0 := PreparedLaw(a, limits, now);
    var b := Prepared(a, limits, now);
    var posts1, notices1 := MetricsLoop(b, limits, now);
    var (c, o1) := MetricsPhase(b, limits, now);
    if o1.Failed? {
      MetricsPhaseAlone(a, b, c, o1, limits, posts1, notices0, notices1);
      return posts1, notices0 + notices1;
    }
    var posts2, notices2 := EventsLoop(c, limits, now);
    posts, notices := posts1 + posts2, notices0 + notices1 + notices2;
    var (r, o) := EventsPhase(c, limits, now);
    BothPhases(a, b, c, r, o, limits, posts1, posts2, notices0, notices1, notices2);
    BothPhasesShaped(a, b, c, r, o, limits, posts1, posts2, notices0, notices1, notices2);
    BothPhasesCounted(a, b, c, r, o, limits, posts1, posts2, notices0, notices1, notices2);
  }

  ghost predicate Begins(a: Agent, b: Agent, limits: Limits, notices: seq<Row>) {
    && b.metrics.rows == Newest(a.metrics.rows, limits.maxReplay)
    && b.events.rows == a.events.rows + notices && |notices| == NoticeCount(a, limits)
    && NoticeTotal(notices) == Recorded(a.metrics) + Recorded(a.events) + Excess(a, limits)
    && b.replies == a.replies && b.posts == a.posts
  }

  lemma {:induction false} MetricsPhaseAlone(a: Agent, b: Agent, c: Agent, o: Outcome, limits: Limits, posts: seq<Post>,
                                             notices0: seq<Row>, notices1: seq<Row>)
    requires limits.maxEventSend >= 1 && Begins(a, b, limits, notices0)
    requires o.Failed? && MetricsSent(b, c, o, posts, notices1)
    ensures RowsAccounted(a, c, limits, posts, notices0 + notices1)
    ensures PostsShaped(a, c, o, limits, posts) && Counted(a, o, limits, posts)
  {
    hide FailsLast, Answered, Settled, NoticeTotal;
    NoticeTotalConcat(notices0, notices1);
    assert a.events.rows + notices0 + notices1 == a.events.rows + (notices0 + notices1);
  }

  lemma {:induction false} BothPhases(a: Agent, b: Agent, c: Agent, r: Agent, o: Outcome, limits: Limits, posts1: seq<Post>,
                                      posts2: seq<Post>, notices0: seq<Row>, notices1: seq<Row>, notices2: seq<Row>)
    requires limits.maxEventSend >= 1 && Begins(a, b, limits, notices0)
    requires MetricsSent(b, c, Done, posts1, notices1) && EventsSent(c, r, o, posts2, notices2, limits.maxEventSend)
    ensures RowsAccounted(a, r, limits, posts1 + posts2, notices0 + notices1 + notices2)
  {
    hide FailsLast, Answered, Settled, NoticeTotal, EventsCounted;
    NoticeTotalConcat(notices0, notices1);
    NoticeTotalConcat(notices0 + notices1, notices2);
    SettledConcat(posts1, posts2, Metrics);
    SettledConcat(posts1, posts2, Events);
    EventsRegroup(a.events.rows, notices0, notices1, notices2);
    assert a.posts + posts1 + posts2 == a.posts + (posts1 + posts2);
    assert NoticeTotal(notices2) == 0 by { EventsNoTotal(|c.events.rows|, r, o, posts2, notices2, limits.maxEventSend); }
  }

  lemma EventsNoTotal(n: nat, r: Agent, o: Outcome, posts: seq<Post>, notices: seq<Row>, size: nat)
    requires size >= 1 && EventsCounted(n, r, o, posts, notices, size)
    ensures NoticeTotal(notices) == 0
  {
  }

  lemma BeginsReplies(a: Agent, b: Agent, limits: Limits, notices: seq<Row>)
    requires Begins(a, b, limits, notices)
    ensures b.replies == a.replies
  {
  }

  lemma MetricsThenEvents(first: seq<Post>, second: seq<Post>, size: nat)
    requires forall p <- first :: p.kind == Metrics && |p.rows| == 1
    requires forall p <- second :: p.kind == Events && 1 <= |p.rows| <= size
    ensures MetricsFirst(first + second)
    ensures forall p <- first + second :: 1 <= |p.rows| <= if p.kind == Metrics then 1 else size
  {
  }

  lemma {:induction false} BothPhasesShaped(a: Agent, b: Agent, c: Agent, r: Agent, o: Outcome, limits: Limits,
                                            posts1: seq<Post>, posts2: seq<Post>, notices0: seq<Row>,
                                            notices1: seq<Row>, notices2: seq<Row>)
    requires limits.maxEventSend >= 1 && Begins(a, b, limits, notices0)
    requires MetricsSent(b, c, Done, posts1, notices1) && EventsSent(c, r, o, posts2, notices2, limits.maxEventSend)
    ensures PostsShaped(a, r, o, limits, posts1 + posts2)
  {
    NoneFails(posts1, b.replies, c.replies);
    hide FailsLast, Answered, Settled, NoticeTotal, MetricsFirst, Batches, Begins, Newest;
    assert b.replies == a.replies by { BeginsReplies(a, b, limits, notices0); }
    TwoPhases(posts1, posts2, o, a.replies, c.replies, r.replies);
    MetricsThenEvents(posts1, posts2, limits.maxEventSend);
    if o.Done? && posts2 == [] && posts1 != [] {
      assert posts1[|posts1| - 1] in posts1;
    }
  }

  lemma EventsRegroup(rows: seq<Row>, x: seq<Row>, y: seq<Row>, z: seq<Row>)
    ensures rows + x + y + z == rows + (x + y + z)
  {
  }

  lemma {:induction false} BothPhasesCounted(a: Agent, b: Agent, c: Agent, r: Agent, o: Outcome, limits: Limits,
                                             posts1: seq<Post>, posts2: seq<Post>, notices0: seq<Row>,
                                             notices1: seq<Row>, notices2: seq<Row>)
    requires limits.maxEventSend >= 1 && Begins(a, b, limits, notices0)
    requires MetricsSent(b, c, Done, posts1, notices1) && EventsSent(c, r, o, posts2, notices2, limits.maxEventSend)
    ensures Counted(a, o, limits, posts1 + posts2)
  {
    hide FailsLast, Answered, Settled, NoticeTotal;
    var posts := posts1 + posts2;
    if forall p <- posts :: !p.reply.Poison? {
      assert forall p <- posts1 :: p in posts;
      assert forall p <- posts2 :: p in posts;
    }
  }

  lemma NoneFails(posts: seq<Post>, before: seq<Reply>, after: seq<Reply>)
    requires FailsLast(posts, Done) && Answered(posts, before, after)
    ensures |posts| <= |before| && after == before[|posts|..]
    ensures forall i :: 0 <= i < |posts| ==> !Final(posts[i].reply)
  {
    assert posts != [] ==> !Final(posts[|posts| - 1].reply);
  }

  lemma {:induction false} TwoPhases(first: seq<Post>, second: seq<Post>, o: Outcome, before: seq<Reply>,
                                     between: seq<Reply>, after: seq<Reply>)
    requires FailsLast(first, Done) && Answered(first, before, between)
    requires FailsLast(second, o) && Answered(second, between, after)
    ensures FailsLast(first + second, o) && Answered(first + second, before, after)
  {
    NoneFails(first, before, between);
    var posts := first + second;
    forall i | 0 <= i < |posts| ensures posts[i].reply == (if i < |before| then before[i] else Retry(0)) {
      if i >= |first| {
        assert posts[i] == second[i - |first|];
      }
    }
    assert FailsLast(posts, o) by {
      hide Answered;
      forall i | 0 <= i < |posts| - 1 ensures !Final(posts[i].reply) {
        if i >= |first| {
          assert posts[i] == second[i - |first|];
        }
      }
    }
  }

  predicate Pending(a: Agent) { a.metrics.rows != [] || a.events.rows != [] }

  // ---- when an attempt succeeds ----

  /** What is left to send: batches, and events and notices. */
  datatype Load = Load(batches: nat, events: nat)

  const NO_LOAD: Load := Load(0, 0)

  function LoadOf(a: Agent, limits: Limits): Load {
    Load(Min(limits.maxReplay, |a.metrics.rows|), |a.events.rows| + NoticeCount(a, limits))
  }

  /** One answer: a batch or up to `size` events are settled, and a refusal queues one notice. */
  function Relieved(l: Load, size: nat, reply: Reply): Load {
    var extra := if reply.Poison? then 1 else 0;
    if l.batches > 0 then Load(l.batches - 1, l.events + extra)
    else if l.events > 0 then Load(0, l.events - Min(size, l.events) + extra)
    else NO_LOAD
  }

  function LoadAfter(l: Load, size: nat, replies: seq<Reply>): Load
    decreases |replies|
  {
    if replies == [] then l else LoadAfter(Relieved(l, size, replies[0]), size, replies[1..])
  }

  /** Answer `j` is the acknowledgement that settles the rest, and nothing before it ends the attempt. */
  ghost predicate SettledBy(l: Load, size: nat, replies: seq<Reply>, j: int) {
    && 0 <= j < |replies| && replies[j].Ack? && (forall i :: 0 <= i < j ==> !Final(replies[i]))
    && var rest := LoadAfter(l, size, replies[..j]);
       (rest.batches == 0 && rest.events <= size) || rest == Load(1, 0)
  }

  predicate Emptied(l: Load, size: nat, replies: seq<Reply>)
    decreases |replies|
  {
    l == NO_LOAD || (replies != [] && !Final(replies[0]) && Emptied(Relieved(l, size, replies[0]), size, replies[1..]))
  }

  lemma {:induction false} SettledShift(l: Load, size: nat, replies: seq<Reply>, j: nat)
    requires replies != [] && !Final(replies[0])
    ensures SettledBy(l, size, replies, j + 1) <==> SettledBy(Relieved(l, size, replies[0]), size, replies[1..], j)
  {
    hide Relieved, Final;
    if j + 1 < |replies| {
      assert replies[..j + 1][1..] == replies[1..][..j];
      assert forall i :: 0 <= i < j ==> replies[1..][i] == replies[i + 1];
    }
  }

  lemma {:induction false} EmptiedSettles(l: Load, size: nat, replies: seq<Reply>) returns (j: int)
    requires size >= 1 && Emptied(l, size, replies) && l != NO_LOAD
    ensures SettledBy(l, size, replies, j)
    decreases |replies|
  {
    var next, rest := Relieved(l, size, replies[0]), replies[1..];
    if next == NO_LOAD {
      j := 0;
    } else {
      hide SettledBy;
      j := EmptiedSettles(next, size, rest);
      assert j >= 0 by { SettledInRange(next, size, rest, j); }
      SettledShift(l, size, replies, j);
      j := j + 1;
    }
  }

  lemma SettledInRange(l: Load, size: nat, replies: seq<Reply>, j: int)
    requires SettledBy(l, size, replies, j)
    ensures 0 <= j < |replies| && !Final(replies[0])
  {
  }

  lemma {:induction false} SettledEmpties(l: Load, size: nat, replies: seq<Reply>, j: int)
    requires size >= 1 && SettledBy(l, size, replies, j)
    ensures Emptied(l, size, replies)
    decreases |replies|
  {
    SettledInRange(l, size, replies, j);
    if l != NO_LOAD && j > 0 {
      hide SettledBy;
      SettledShift(l, size, replies, j - 1);
      SettledEmpties(Relieved(l, size, replies[0]), size, replies[1..], j - 1);
    }
  }

  lemma {:induction false} EventsEmptied(a: Agent, limits: Limits, now: int)
    requires limits.maxEventSend >= 1
    ensures EventsPhase(a, limits, now).1.Done? <==> Emptied(Load(0, |a.events.rows|), limits.maxEventSend, a.replies)
    decreases |a.replies|
  {
    var rows := a.events.rows;
    if rows != [] && !Final(Answer(a.replies)) {
      var k := Min(limits.maxEventSend, |rows|);
      var rest := Sending(a, Events, rows[..k]).(events := a.events.(rows := rows[k..]));
      EventsEmptied(if Answer(a.replies).Ack? then rest else Notice(rest, PayloadDropped(Events, k), now), limits, now);
    }
  }

  /** Both phases from an agent that has nothing left to trim. */
  lemma {:induction false} PhasesEmptied(a: Agent, limits: Limits, now: int)
    requires limits.maxEventSend >= 1 && |a.metrics.rows| <= limits.maxReplay
    ensures var (b, o) := MetricsPhase(a, limits, now);
      o.Done? && EventsPhase(b, limits, now).1.Done?
      <==> Emptied(Load(|a.metrics.rows|, |a.events.rows|), limits.maxEventSend, a.replies)
    decreases |a.metrics.rows|
  {
    hide EventsPhase;
    var rows := a.metrics.rows;
    if rows == [] {
      EventsEmptied(a, limits, now);
    } else if !Final(Answer(a.replies)) {
      var rest := Sending(a, Metrics, [rows[0]]).(metrics := a.metrics.(rows := rows[1..]));
      PhasesEmptied(if Answer(a.replies).Ack? then rest.(interval := Told(a.interval, Answer(a.replies).seconds))
                    else Notice(rest, PayloadDropped(Metrics, rows[0].seqNo), now), limits, now);
    }
  }

  lemma {:induction false} EmptiedExactly(l: Load, size: nat, replies: seq<Reply>)
    requires size >= 1
    ensures Emptied(l, size, replies) <==> l == NO_LOAD || exists j :: SettledBy(l, size, replies, j)
  {
    assert l == NO_LOAD ==> Emptied(l, size, replies);
    hide Emptied, SettledBy;
    if Emptied(l, size, replies) && l != NO_LOAD {
      var j := EmptiedSettles(l, size, replies);
    }
    forall j | SettledBy(l, size, replies, j) ensures Emptied(l, size, replies) {
      SettledEmpties(l, size, replies, j);
    }
  }

  lemma {:induction false} DrainEmptied(a: Agent, limits: Limits, now: int)
    requires limits.maxEventSend >= 1
    ensures Drain(a, limits, now).1.Done? <==> Emptied(LoadOf(a, limits), limits.maxEventSend, a.replies)
  {
    hide MetricsPhase, EventsPhase, Prepared, Flush, Emptied, NoticeCount, NoticeTotal, Excess;
    var notices := PreparedLaw(a, limits, now);
    PhasesEmptied(Prepared(a, limits, now), limits, now);
  }

  /**
   * For every script: an attempt succeeds exactly when nothing is pending, or some answer is an
   * acknowledgement before which none was final, at a point where all batches are settled and one
   * body of events is left, or just one batch.
   */
  lemma {:induction false} DoneExactly(a: Agent, limits: Limits, now: int)
    requires limits.maxEventSend >= 1
    ensures Drain(a, limits, now).1.Done?
            <==> LoadOf(a, limits) == NO_LOAD || exists j :: SettledBy(LoadOf(a, limits), limits.maxEventSend, a.replies, j)
  {
    hide Drain, LoadOf, Emptied, SettledBy;
    DrainEmptied(a, limits, now);
    EmptiedExactly(LoadOf(a, limits), limits.maxEventSend, a.replies);
  }

  /** A hub that acknowledges everything empties both queues, exactly when it answers often enough. */
  lemma {:induction false} AckingHubEmptiesQueues(a: Agent, limits: Limits, now: int)
    requires limits.maxEventSend >= 1 && forall r <- a.replies :: r.Ack?
    ensures var (r, o) := Drain(a, limits, now);
      && (o.Done? <==> Needed(a, limits) <= |a.replies|)
      && (o.Done? ==> r.metrics.rows == [] && r.events.rows == [])
      && (!o.Done? ==> |r.posts| == |a.posts| + |a.replies| + 1)
  {
    var posts, notices := DrainAccounts(a, limits, now);
    hide Drain, Settled, NoticeTotal, Batches, HeadFailed, MetricsFirst, Needed;
    var (r, o) := Drain(a, limits, now);
    if o.Done? {
      NoneFails(posts, a.replies, r.replies);
      forall p | p in posts ensures !p.reply.Poison? {
        var i :| 0 <= i < |posts| && posts[i] == p;
        assert p.reply == a.replies[i] && a.replies[i] in a.replies;
      }
    } else {
      assert forall i :: 0 <= i < |a.replies| ==> a.replies[i] in a.replies;
      forall p | p in posts ensures !p.reply.Poison? {
        var i :| 0 <= i < |posts| && posts[i] == p;
        assert i < |a.replies| ==> a.replies[i] in a.replies;
      }
    }
  }

  /** A hub that refuses every body keeps the sender busy for as long as it answers. */
  lemma {:induction false} RefusingHubNeverDone(a: Agent, limits: Limits, now: int)
    requires limits.maxEventSend >= 1 && Pending(a) && forall r <- a.replies :: r.Poison?
    ensures var (r, o) := Drain(a, limits, now); o.Failed? && |r.posts| == |a.posts| + |a.replies| + 1
  {
    PendingNeeds(a, limits);
    var posts, notices := DrainAccounts(a, limits, now);
    hide Drain, Settled, NoticeTotal, Batches, HeadFailed, MetricsFirst, Needed;
    var (r, o) := Drain(a, limits, now);
    assert forall i :: 0 <= i < |a.replies| ==> a.replies[i] in a.replies;
    assert posts != [];
  }

  lemma PendingNeeds(a: Agent, limits: Limits)
    requires limits.maxEventSend >= 1 && Pending(a)
    ensures Needed(a, limits) > 0
  {
  }

  // ---- the sending loop ----

  const PROBE_EVERY: int := 300_000

  function Pow2(n: nat): (p: nat)
    ensures p >= 1
  {
    if n == 0 then 1 else 2 * Pow2(n - 1)
  }

  /** Milliseconds to wait after `attempt` earlier failures. */
  function Backoff(attempt: nat): (delay: int)
    ensures 1000 <= delay <= 60_000
  {
    if attempt > 10 || 1000 * Pow2(attempt) > 60_000 then 60_000 else 1000 * Pow2(attempt)
  }

  lemma {:induction false} BackoffGrows(attempt: nat)
    ensures Backoff(attempt + 1) == Min(2 * Backoff(attempt), 60_000)
  {
    if attempt >= 6 {
      assert Pow2(6) == 64;
      Pow2Grows(6, attempt);
    }
  }

  lemma {:induction false} Pow2Grows(m: nat, n: nat)
    requires m <= n
    ensures Pow2(m) <= Pow2(n)
  {
    if m < n {
      Pow2Grows(m, n - 1);
    }
  }

  /** The loop's own state; `nextTry` is None when nothing holds the next attempt back. */
  datatype Loop = Loop(agent: Agent, attempt: nat, unauthorized: bool, nextTry: Option<int>)

  predicate Waiting(l: Loop, now: int) { l.nextTry.Some? && now < l.nextTry.value }

  function AfterProbe(l: Loop, reply: Reply, end: int): Loop
    requires !reply.Ack?
  {
    if reply.Unauthorized? then l.(nextTry := Some(end + PROBE_EVERY))
    else l.(unauthorized := false, attempt := l.attempt + 1, nextTry := Some(end + Backoff(l.attempt)))
  }

  /** While the key is refused, one POST of the head row tries it again. */
  function Probe(l: Loop, end: int): Loop {
    var a := l.agent;
    var reply := Answer(a.replies);
    if a.metrics.rows != [] then
      var sent := Sending(a, Metrics, [a.metrics.rows[0]]);
      if reply.Ack? then
        Loop(sent.(metrics := a.metrics.(rows := a.metrics.rows[1..]), interval := Told(a.interval, reply.seconds)),
             0, false, l.nextTry)
      else AfterProbe(l.(agent := sent), reply, end)
    else if a.events.rows != [] then
      var sent := Sending(a, Events, [a.events.rows[0]]);
      if reply.Ack? then Loop(sent.(events := a.events.(rows := a.events.rows[1..])), 0, false, l.nextTry)
      else AfterProbe(l.(agent := sent), reply, end)
    else l.(unauthorized := false)
  }

  function AfterDrain(l: Loop, o: Outcome, end: int): Loop {
    match o
    case Done => l.(attempt := 0, nextTry := None)
    case Failed(Unauthorized) => l.(unauthorized := true, nextTry := Some(end + PROBE_EVERY))
    case Failed(Retry(after)) =>
      l.(attempt := l.attempt + 1, nextTry := Some(end + if after > 0 then after else Backoff(l.attempt)))
    case Failed(_) => l.(attempt := 0)
  }

  /** One turn of the loop, started at `now` and over at `end`. */
  function Turn(l: Loop, limits: Limits, now: int, end: int): Loop
    requires limits.maxEventSend >= 1
  {
    if Waiting(l, now) || !Pending(l.agent) then l
    else if l.unauthorized then Probe(l, end)
    else var (a, o) := Drain(l.agent, limits, now); AfterDrain(l.(agent := a), o, end)
  }

  datatype Move = Collect(payload: Payload, now: int) | Emit(payload: Payload, now: int) | Try(now: int, end: int)

  datatype Caps = Caps(maxBatches: nat, maxEvents: nat, limits: Limits)

  function PutNext(l: Lane, max: nat, payload: Payload, now: int): Lane {
    LaneEnqueued(l.(lastSeq := l.lastSeq + 1), max, l.lastSeq + 1, payload, now)
  }

  function Go(l: Loop, caps: Caps, m: Move): Loop
    requires caps.limits.maxEventSend >= 1
  {
    match m
    case Collect(payload, now) =>
      l.(agent := l.agent.(metrics := PutNext(l.agent.metrics, caps.maxBatches, payload, now)))
    case Emit(payload, now) =>
      l.(agent := l.agent.(events := PutNext(l.agent.events, caps.maxEvents, payload, now)))
    case Try(now, end) => Turn(l, caps.limits, now, end)
  }

  const IDLE: Loop := Loop(Agent(EMPTY_LANE, EMPTY_LANE, [], [], 30), 0, false, None)

  function GoAll(script: seq<Reply>, caps: Caps, moves: seq<Move>): Loop
    requires caps.limits.maxEventSend >= 1
  {
    if moves == [] then IDLE.(agent := IDLE.agent.(replies := script))
    else Go(GoAll(script, caps, moves[..|moves| - 1]), caps, moves[|moves| - 1])
  }

  /** When the last POST was answered 401, the end of the turn that made it. */
  function RefusedAt(script: seq<Reply>, caps: Caps, moves: seq<Move>): Option<int>
    requires caps.limits.maxEventSend >= 1
  {
    if moves == [] then None
    else
      var front, m := moves[..|moves| - 1], moves[|moves| - 1];
      var l, l' := GoAll(script, caps, front), GoAll(script, caps, moves);
      if |l'.agent.posts| <= |l.agent.posts| then RefusedAt(script, caps, front)
      else if l'.agent.posts[|l'.agent.posts| - 1].reply.Unauthorized? && m.Try? then Some(m.end)
      else None
  }

  lemma {:induction false} TurnLaw(l: Loop, limits: Limits, now: int, end: int)
    requires limits.maxEventSend >= 1
    ensures var l' := Turn(l, limits, now, end);
      && l.agent.posts <= l'.agent.posts && (l'.agent.posts == l.agent.posts ==> l' == l)
      && (l'.agent.posts != l.agent.posts ==>
            && !Waiting(l, now)
            && var last := l'.agent.posts[|l'.agent.posts| - 1];
               (last.reply.Unauthorized? <==> l'.unauthorized && l'.nextTry == Some(end + PROBE_EVERY))
               && (l'.unauthorized ==> last.reply.Unauthorized?)
               && (l.unauthorized ==> |l'.agent.posts| == |l.agent.posts| + 1 && |last.rows| == 1))
  {
    var a := l.agent;
    if !Waiting(l, now) && Pending(a) && !l.unauthorized {
      PendingNeeds(a, limits);
      var posts, notices := DrainAccounts(a, limits, now);
      hide Drain, Settled, NoticeTotal, Batches, HeadFailed, MetricsFirst, Needed, Answered;
      var (r, o) := Drain(a, limits, now);
      assert r.posts == a.posts + posts && posts != [];
      assert r.posts[|r.posts| - 1] == posts[|posts| - 1];
    }
  }

  lemma CollectingPostsNothing(l: Loop, caps: Caps, m: Move)
    requires caps.limits.maxEventSend >= 1 && !m.Try?
    ensures var l' := Go(l, caps, m);
      l'.agent.posts == l.agent.posts && forall at :: PausedSince(l, at) ==> PausedSince(l', at)
  {
    hide PutNext;
  }

  /** The sender is paused exactly when its last POST was refused, at the end of the turn that made it. */
  predicate PausedSince(l: Loop, at: Option<int>) {
    (l.unauthorized <==> at.Some?) && (at.Some? ==> l.nextTry == Some(at.value + PROBE_EVERY))
  }

  lemma TryMarks(l: Loop, caps: Caps, m: Move, at: Option<int>)
    requires caps.limits.maxEventSend >= 1 && m.Try? && PausedSince(l, at)
    ensures var l' := Go(l, caps, m);
      PausedSince(l', if |l'.agent.posts| <= |l.agent.posts| then at
                      else if l'.agent.posts[|l'.agent.posts| - 1].reply.Unauthorized? then Some(m.end) else None)
  {
    hide Turn;
    TurnLaw(l, caps.limits, m.now, m.end);
  }

  lemma RefusedNext(script: seq<Reply>, caps: Caps, front: seq<Move>, m: Move)
    requires caps.limits.maxEventSend >= 1
    ensures var (l, l') := (GoAll(script, caps, front), Go(GoAll(script, caps, front), caps, m));
      GoAll(script, caps, front + [m]) == l'
      && RefusedAt(script, caps, front + [m]) ==
         if |l'.agent.posts| <= |l.agent.posts| then RefusedAt(script, caps, front)
         else if l'.agent.posts[|l'.agent.posts| - 1].reply.Unauthorized? && m.Try? then Some(m.end) else None
  {
    hide Go;
    assert (front + [m])[..|front|] == front;
  }

  lemma PausedNext(script: seq<Reply>, caps: Caps, front: seq<Move>, m: Move)
    requires caps.limits.maxEventSend >= 1 && PausedSince(GoAll(script, caps, front), RefusedAt(script, caps, front))
    ensures PausedSince(GoAll(script, caps, front + [m]), RefusedAt(script, caps, front + [m]))
  {
    hide Go, GoAll, RefusedAt, PausedSince;
    RefusedNext(script, caps, front, m);
    if m.Try? {
      TryMarks(GoAll(script, caps, front), caps, m, RefusedAt(script, caps, front));
    } else {
      CollectingPostsNothing(GoAll(script, caps, front), caps, m);
    }
  }

  /**
   * However batches, events and turns interleave: after a POST answered 401 the sender is
   * marked unauthorized and its next POST is a single head row, at least five minutes later.
   */
  lemma {:induction false} RefusedKeyPausesSending(script: seq<Reply>, caps: Caps, moves: seq<Move>)
    requires caps.limits.maxEventSend >= 1
    ensures PausedSince(GoAll(script, caps, moves), RefusedAt(script, caps, moves))
  {
    if moves != [] {
      hide GoAll, RefusedAt, PausedSince;
      var front, m := moves[..|moves| - 1], moves[|moves| - 1];
      RefusedKeyPausesSending(script, caps, front);
      PausedNext(script, caps, front, m);
      assert moves == front + [m];
    }
  }

  lemma {:induction false} NextPostAfterRefusal(script: seq<Reply>, caps: Caps, moves: seq<Move>, now: int, end: int)
    requires caps.limits.maxEventSend >= 1 && RefusedAt(script, caps, moves).Some?
    ensures var (l, l') := (GoAll(script, caps, moves), GoAll(script, caps, moves + [Try(now, end)]));
      |l'.agent.posts| > |l.agent.posts| ==>
        && now >= RefusedAt(script, caps, moves).value + PROBE_EVERY
        && |l'.agent.posts| == |l.agent.posts| + 1 && |l'.agent.posts[|l.agent.posts|].rows| == 1
  {
    hide Turn;
    RefusedKeyPausesSending(script, caps, moves);
    assert (moves + [Try(now, end)])[..|moves|] == moves;
    TurnLaw(GoAll(script, caps, moves), caps.limits, now, end);
  }
}
