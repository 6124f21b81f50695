/**
 * What the agent tells the hub about its own losses, what the hub tells it about the interval, and
 * when it tries again: for every script, each notice an attempt queues, in order and field by
 * field, the interval that the acknowledgements leave, and the loop's next attempt.
 */
module DrainLaws {
  import opened Basics
  import opened AgentQueue
  import opened DrainSpec

  // ---- notices ----

  function Payloads(rows: seq<Row>): (r: seq<Payload>)
    ensures |r| == |rows| && forall i :: 0 <= i < |r| ==> r[i] == rows[i].payload
  {
    if rows == [] then [] else [rows[0].payload] + Payloads(rows[1..])
  }

  /** Queued one after the other at `now`, under the seqs after `last`. */
  ghost predicate QueuedFrom(notices: seq<Row>, last: nat, now: int) {
    forall i :: 0 <= i < |notices| ==> notices[i].seqNo == last + 1 + i && notices[i].createdAt == now
  }

  /** A refused batch is named by its seq, refused events by their number. */
  function Refusals(posts: seq<Post>): seq<Payload> {
    if posts == [] then [] else
      (if !posts[0].reply.Poison? then []
       else if posts[0].kind == Metrics then (if posts[0].rows == [] then [] else [PayloadDropped(Metrics, posts[0].rows[0].seqNo)])
       else [PayloadDropped(Events, |posts[0].rows|)])
      + Refusals(posts[1..])
  }

  lemma {:induction false} RefusalsConcat(a: seq<Post>, b: seq<Post>)
    ensures Refusals(a + b) == Refusals(a) + Refusals(b)
  {
    if a == [] {
      assert a + b == b;
    } else {
      assert (a + b)[1..] == a[1..] + b;
      RefusalsConcat(a[1..], b);
    }
  }

  lemma {:induction false} PayloadsConcat(a: seq<Row>, b: seq<Row>)
    ensures Payloads(a + b) == Payloads(a) + Payloads(b)
  {
  }

  lemma QueuedConcat(a: seq<Row>, b: seq<Row>, last: nat, now: int)
    requires QueuedFrom(a, last, now) && QueuedFrom(b, last + |a|, now)
    ensures QueuedFrom(a + b, last, now)
  {
  }

  // ---- the interval ----

  /** The hub's wish, kept between ten seconds and ten minutes. */
  predicate Clamped(seconds: int, interval: int) {
    10 <= interval <= 600 && (seconds < 10 ==> interval == 10) && (seconds > 600 ==> interval == 600)
    && (10 <= seconds <= 600 ==> interval == seconds)
  }

  predicate Tells(p: Post) { p.kind == Metrics && p.reply.Ack? && p.reply.seconds > 0 }

  /** The interval is the wish of the last batch acknowledged with one, or what it was. */
  ghost predicate IntervalFollows(was: int, posts: seq<Post>, interval: int) {
    if forall p <- posts :: !Tells(p) then interval == was
    else exists i :: 0 <= i < |posts| && Tells(posts[i]) && Clamped(posts[i].reply.seconds, interval)
                     && forall j :: i < j < |posts| ==> !Tells(posts[j])
  }

  lemma {:induction false} IntervalMore(was: int, p: Post, posts: seq<Post>, interval: int)
    requires IntervalFollows(if p.kind == Metrics && p.reply.Ack? then Told(was, p.reply.seconds) else was, posts, interval)
    ensures IntervalFollows(was, [p] + posts, interval)
  {
    var all := [p] + posts;
    assert p in all && forall q <- posts :: q in all;
    if forall q <- posts :: !Tells(q) {
      if Tells(p) {
        assert Tells(all[0]) && Clamped(all[0].reply.seconds, interval);
      }
    } else {
      var i :| 0 <= i < |posts| && Tells(posts[i]) && Clamped(posts[i].reply.seconds, interval)
               && forall j :: i < j < |posts| ==> !Tells(posts[j]);
      assert Tells(all[i + 1]) && Clamped(all[i + 1].reply.seconds, interval);
    }
  }

  lemma IntervalStays(was: int, first: seq<Post>, second: seq<Post>, interval: int)
    requires IntervalFollows(was, first, interval) && forall p <- second :: p.kind == Events
    ensures IntervalFollows(was, first + second, interval)
  {
    var all := first + second;
    assert forall q <- first :: q in all;
    if !(forall p <- first :: !Tells(p)) {
      var i :| 0 <= i < |first| && Tells(first[i]) && Clamped(first[i].reply.seconds, interval)
               && forall j :: i < j < |first| ==> !Tells(first[j]);
      assert Tells(all[i]);
    }
  }

  // ---- the two phases ----

  /** What a phase adds: POSTs, notices for the refused ones, and the interval. */
  ghost predicate PhaseTells(a: Agent, r: Agent, posts: seq<Post>, notices: seq<Row>, now: int) {
    && r.posts == a.posts + posts && Payloads(notices) == Refusals(posts) && QueuedFrom(notices, a.events.lastSeq, now)
    && r.events.lastSeq == a.events.lastSeq + |notices| && IntervalFollows(a.interval, posts, r.interval)
  }

  lemma NothingTold(a: Agent, now: int)
    ensures PhaseTells(a, a, [], [], now)
  {
  }

  lemma FailureTells(a: Agent, kind: Kind, rows: seq<Row>, now: int)
    requires Final(Answer(a.replies))
    ensures PhaseTells(a, Sending(a, kind, rows), [Post(kind, rows, Answer(a.replies))], [], now)
  {
    var p := Post(kind, rows, Answer(a.replies));
    assert [p][1..] == [];
  }

  lemma {:induction false} PhaseMore(a: Agent, rest: Agent, r: Agent, p: Post, own: seq<Row>, posts: seq<Post>, notices: seq<Row>, now: int)
    requires rest.posts == a.posts + [p] && rest.events.lastSeq == a.events.lastSeq + |own|
    requires Payloads(own) == Refusals([p]) && QueuedFrom(own, a.events.lastSeq, now)
    requires rest.interval == if p.kind == Metrics && p.reply.Ack? then Told(a.interval, p.reply.seconds) else a.interval
    requires PhaseTells(rest, r, posts, notices, now)
    ensures PhaseTells(a, r, [p] + posts, own + notices, now)
  {
    hide Refusals, IntervalFollows, Told, Payloads;
    assert a.posts + [p] + posts == a.posts + ([p] + posts);
    RefusalsConcat([p], posts);
    PayloadsConcat(own, notices);
    QueuedConcat(own, notices, a.events.lastSeq, now);
    IntervalMore(a.interval, p, posts, r.interval);
  }

  lemma OwnRefusal(p: Post)
    ensures Refusals([p]) == if !p.reply.Poison? then []
                             else if p.kind == Metrics then (if p.rows == [] then [] else [PayloadDropped(Metrics, p.rows[0].seqNo)])
                             else [PayloadDropped(Events, |p.rows|)]
  {
    assert [p][1..] == [];
  }

  lemma {:induction false} MetricsTell(a: Agent, limits: Limits, now: int) returns (posts: seq<Post>, notices: seq<Row>)
    requires |a.metrics.rows| <= limits.maxReplay
    ensures var (r, o) := MetricsPhase(a, limits, now);
      PhaseTells(a, r, posts, notices, now) && r.events.rows == a.events.rows + notices && Settled(posts, Events) == []
    decreases |a.metrics.rows|
  {
    hide PhaseTells, Told, Refusals;
    var rows := a.metrics.rows;
    if rows == [] {
      NothingTold(a, now);
      return [], [];
    }
    var p := Post(Metrics, [rows[0]], Answer(a.replies));
    if Final(p.reply) {
      FailureTells(a, Metrics, p.rows, now);
      assert [p][1..] == [];
      return [p], [];
    }
    var sent := Sending(a, Metrics, [rows[0]]).(metrics := a.metrics.(rows := rows[1..]));
    var rest := if p.reply.Ack? then sent.(interval := Told(a.interval, p.reply.seconds))
                else Notice(sent, PayloadDropped(Metrics, rows[0].seqNo), now);
    var own := rest.events.rows[|a.events.rows|..];
    var posts1, notices1 := MetricsTell(rest, limits, now);
    posts, notices := [p] + posts1, own + notices1;
    assert rest.events.rows == a.events.rows + own;
    OwnRefusal(p);
    PhaseMore(a, rest, MetricsPhase(rest, limits, now).0, p, own, posts1, notices1, now);
    SettledConcat([p], posts1, Events);
    assert [p][1..] == [];
  }

  lemma {:induction false} EventsTell(a: Agent, limits: Limits, now: int) returns (posts: seq<Post>, notices: seq<Row>)
    requires limits.maxEventSend >= 1
    ensures var (r, o) := EventsPhase(a, limits, now);
      PhaseTells(a, r, posts, notices, now) && Settled(posts, Events) + r.events.rows == a.events.rows + notices
      && forall p <- posts :: p.kind == Events
    decreases |a.replies|
  {
    hide PhaseTells, Refusals;
    var rows := a.events.rows;
    if rows == [] {
      NothingTold(a, now);
      return [], [];
    }
    var k := Min(limits.maxEventSend, |rows|);
    var p := Post(Events, rows[..k], Answer(a.replies));
    if Final(p.reply) {
      FailureTells(a, Events, p.rows, now);
      assert [p][1..] == [];
      return [p], [];
    }
    var sent := Sending(a, Events, rows[..k]).(events := a.events.(rows := rows[k..]));
    var rest := if p.reply.Ack? then sent else Notice(sent, PayloadDropped(Events, k), now);
    var own := rest.events.rows[|rows| - k..];
    var posts1, notices1 := EventsTell(rest, limits, now);
    posts, notices := [p] + posts1, own + notices1;
    assert rest.events.rows == rows[k..] + own;
    OwnRefusal(p);
    PhaseMore(a, rest, EventsPhase(rest, limits, now).0, p, own, posts1, notices1, now);
    SettledConcat([p], posts1, Events);
    assert [p][1..] == [];
    Regroup(rows, k, own, notices1, Settled(posts1, Events), EventsPhase(rest, limits, now).0.events.rows);
  }

  // ---- the whole attempt ----

  /** The rows an attempt gives up before it sends: the oldest, beyond what it may replay. */
  function GivenUp(a: Agent, limits: Limits): seq<Row> { a.metrics.rows[..Excess(a, limits)] }

  /** The losses recorded before, those of batches first, and then the rows given up now. */
  ghost predicate TellsLosses(a: Agent, limits: Limits, told: seq<Payload>) {
    exists trimmed: seq<Payload> ::
      && told == (if a.metrics.overflow.Some? then [QueueOverflow(Metrics, a.metrics.overflow.value)] else [])
               + (if a.events.overflow.Some? then [QueueOverflow(Events, a.events.overflow.value)] else []) + trimmed
      && if GivenUp(a, limits) == [] then trimmed == []
         else |trimmed| == 1 && trimmed[0].QueueOverflow? && trimmed[0].kind == Metrics
              && trimmed[0].overflow.dropped == |GivenUp(a, limits)| && IsEarliest(GivenUp(a, limits), trimmed[0].overflow.firstAt)
              && IsLatest(GivenUp(a, limits), trimmed[0].overflow.lastAt)
  }

  lemma {:induction false} FlushTells(a: Agent, now: int) returns (notices: seq<Row>)
    ensures var r := Flush(a, now);
      && r.events.rows == a.events.rows + notices && QueuedFrom(notices, a.events.lastSeq, now)
      && r.events.lastSeq == a.events.lastSeq + |notices| && r.interval == a.interval && r.posts == a.posts && r.replies == a.replies
      && r.metrics == a.metrics.(overflow := None) && r.events.overflow.None?
      && Payloads(notices) == (if a.metrics.overflow.Some? then [QueueOverflow(Metrics, a.metrics.overflow.value)] else [])
                            + (if a.events.overflow.Some? then [QueueOverflow(Events, a.events.overflow.value)] else [])
  {
    notices := Flush(a, now).events.rows[|a.events.rows|..];
  }

  lemma {:induction false} PreparedTells(a: Agent, limits: Limits, now: int) returns (notices: seq<Row>)
    ensures var r := Prepared(a, limits, now);
      && r.events.rows == a.events.rows + notices && QueuedFrom(notices, a.events.lastSeq, now)
      && r.events.lastSeq == a.events.lastSeq + |notices| && r.interval == a.interval && r.posts == a.posts
      && |r.metrics.rows| <= limits.maxReplay
      && TellsLosses(a, limits, Payloads(notices))
      && MetricsPhase(Flush(a, now), limits, now) == MetricsPhase(r, limits, now)
  {
    hide Earliest, Latest, Flush, IsEarliest, IsLatest, Payloads;
    notices := FlushTells(a, now);
    var b := Flush(a, now);
    if Excess(a, limits) > 0 {
      var c := b.(metrics := LaneTrimmed(b.metrics, Excess(a, limits)));
      var more := FlushTells(c, now);
      WindowExact(GivenUp(a, limits));
      PayloadsConcat(notices, more);
      QueuedConcat(notices, more, a.events.lastSeq, now);
      assert b.events.rows + more == a.events.rows + (notices + more);
      assert Payloads(more) == [QueueOverflow(Metrics, c.metrics.overflow.value)] + [];
      assert Payloads(notices) + Payloads(more) == Payloads(notices) + [QueueOverflow(Metrics, c.metrics.overflow.value)];
      notices := notices + more;
    } else {
      assert Payloads(notices) == Payloads(notices) + [];
    }
  }

  /** Everything an attempt tells: these losses, then a notice for each refused POST, in order. */
  ghost predicate AttemptTells(a: Agent, r: Agent, posts: seq<Post>, notices: seq<Row>, losses: seq<Payload>, now: int) {
    && r.posts == a.posts + posts && Settled(posts, Events) + r.events.rows == a.events.rows + notices
    && QueuedFrom(notices, a.events.lastSeq, now) && r.events.lastSeq == a.events.lastSeq + |notices|
    && Payloads(notices) == losses + Refusals(posts) && IntervalFollows(a.interval, posts, r.interval)
  }

  /** The batches, after the losses. */
  lemma {:induction false} BatchesTell(a: Agent, b: Agent, c: Agent, first: seq<Row>, posts: seq<Post>, notices: seq<Row>, now: int)
    requires b.events.rows == a.events.rows + first && QueuedFrom(first, a.events.lastSeq, now)
    requires b.events.lastSeq == a.events.lastSeq + |first| && b.interval == a.interval && b.posts == a.posts
    requires PhaseTells(b, c, posts, notices, now) && c.events.rows == b.events.rows + notices && Settled(posts, Events) == []
    ensures AttemptTells(a, c, posts, first + notices, Payloads(first), now)
  {
    hide Refusals, IntervalFollows, Payloads, Settled, QueuedFrom;
    PayloadsConcat(first, notices);
    QueuedConcat(first, notices, a.events.lastSeq, now);
    assert a.events.rows + first + notices == a.events.rows + (first + notices);
    assert [] + c.events.rows == c.events.rows;
  }

  /** The events, after the batches. */
  lemma {:induction false} EventsTellToo(a: Agent, c: Agent, r: Agent, posts: seq<Post>, notices: seq<Row>, losses: seq<Payload>,
                                         more: seq<Post>, later: seq<Row>, now: int)
    requires AttemptTells(a, c, posts, notices, losses, now) && Settled(posts, Events) == []
    requires PhaseTells(c, r, more, later, now) && Settled(more, Events) + r.events.rows == c.events.rows + later
    requires forall p <- more :: p.kind == Events
    ensures AttemptTells(a, r, posts + more, notices + later, losses, now)
  {
    hide Refusals, IntervalFollows, Payloads, Settled, QueuedFrom;
    PayloadsConcat(notices, later);
    QueuedConcat(notices, later, a.events.lastSeq, now);
    RefusalsConcat(posts, more);
    SettledConcat(posts, more, Events);
    NoneTell(more);
    IntervalThrough(a.interval, posts, more, c.interval, r.interval);
    assert [] + c.events.rows == c.events.rows && [] + Settled(more, Events) == Settled(more, Events);
    assert a.events.rows + notices + later == a.events.rows + (notices + later);
    assert a.posts + posts + more == a.posts + (posts + more);
    assert losses + Refusals(posts) + Refusals(more) == losses + (Refusals(posts) + Refusals(more));
  }

  lemma NoneTell(posts: seq<Post>)
    requires forall p <- posts :: p.kind == Events
    ensures forall p <- posts :: !Tells(p)
  {
  }

  lemma IntervalThrough(was: int, first: seq<Post>, second: seq<Post>, between: int, interval: int)
    requires IntervalFollows(was, first, between) && IntervalFollows(between, second, interval)
    requires forall p <- second :: p.kind == Events
    ensures IntervalFollows(was, first + second, interval)
  {
    IntervalStays(was, first, second, between);
  }

  /** For every script: the notices queued by an attempt, and the interval it leaves. */
  lemma {:induction false} DrainTells(a: Agent, limits: Limits, now: int)
    returns (posts: seq<Post>, notices: seq<Row>, losses: seq<Payload>)
    requires limits.maxEventSend >= 1
    ensures AttemptTells(a, Drain(a, limits, now).0, posts, notices, losses, now) && TellsLosses(a, limits, losses)
  {
    hide MetricsPhase, EventsPhase, Prepared, Flush, Refusals, TellsLosses, IntervalFollows, Payloads, Settled, QueuedFrom,
         PhaseTells, AttemptTells;
    var first := PreparedTells(a, limits, now);
    var b := Prepared(a, limits, now);
    losses := Payloads(first);
    posts, notices := MetricsTell(b, limits, now);
    var (c, o) := MetricsPhase(b, limits, now);
    BatchesTell(a, b, c, first, posts, notices, now);
    notices := first + notices;
    if o.Done? {
      var more, later := EventsTell(c, limits, now);
      EventsTellToo(a, c, EventsPhase(c, limits, now).0, posts, notices, losses, more, later, now);
      posts, notices := posts + more, notices + later;
    }
  }

  // ---- when the loop tries, and when it tries again ----

  /** Its time has come, and something is queued. */
  predicate Due(l: Loop, now: int) {
    (l.nextTry.None? || now >= l.nextTry.value) && (l.agent.metrics.rows != [] || l.agent.events.rows != [])
  }

  /** A second after the first failure, twice as long after each more, a minute at most. */
  lemma {:induction false} BackoffExactly(attempt: nat)
    ensures Backoff(0) == 1000 && Backoff(attempt + 1) == Min(2 * Backoff(attempt), 60_000)
  {
    BackoffGrows(attempt);
  }

  /** What the last answer of a turn makes of the loop: when to try again, and whether as a probe. */
  ghost predicate Reschedules(l: Loop, l': Loop, last: Reply, end: int) {
    match last
    case Ack(_) => !l'.unauthorized && l'.attempt == 0 && l'.nextTry == if l.unauthorized then l.nextTry else None
    case Unauthorized => l'.unauthorized && l'.attempt == l.attempt && l'.nextTry == Some(end + 5 * 60_000)
    case Retry(after) =>
      && !l'.unauthorized && l'.attempt == l.attempt + 1
      && l'.nextTry == Some(end + if after > 0 && !l.unauthorized then after else Backoff(l.attempt))
    case Poison => l.unauthorized && !l'.unauthorized && l'.attempt == l.attempt + 1 && l'.nextTry == Some(end + Backoff(l.attempt))
  }

  /** A probe posts one row, the oldest batch or else the oldest event, and only a success takes it away. */
  ghost predicate ProbedHead(a: Agent, a': Agent) {
    var kind := if a.metrics.rows != [] then Metrics else Events;
    var head := if kind == Metrics then a.metrics.rows else a.events.rows;
    head != [] && a'.posts == a.posts + [Post(kind, head[..1], Answer(a.replies))]
    && a'.metrics == a.metrics.(rows := a'.metrics.rows) && a'.events == a.events.(rows := a'.events.rows)
    && a'.metrics.rows == (if kind == Metrics && Answer(a.replies).Ack? then head[1..] else a.metrics.rows)
    && a'.events.rows == (if kind == Events && Answer(a.replies).Ack? then head[1..] else a.events.rows)
    && IntervalFollows(a.interval, a'.posts[|a.posts|..], a'.interval)
  }

  lemma {:induction false} ProbeLaw(l: Loop, end: int)
    requires Pending(l.agent) && l.unauthorized
    ensures ProbedHead(l.agent, Probe(l, end).agent)
    ensures Reschedules(l, Probe(l, end), Answer(l.agent.replies), end)
  {
    var (a, a') := (l.agent, Probe(l, end).agent);
    var p := Post(if a.metrics.rows != [] then Metrics else Events,
                  if a.metrics.rows != [] then a.metrics.rows[..1] else a.events.rows[..1], Answer(a.replies));
    assert a.metrics.rows != [] ==> a.metrics.rows[..1] == [a.metrics.rows[0]];
    assert a.metrics.rows == [] ==> a.events.rows[..1] == [a.events.rows[0]];
    assert a'.posts == a.posts + [p] && a'.posts[|a.posts|..] == [p] && [p] + [] == [p];
    NoPosts(a'.interval);
    IntervalMore(a.interval, p, [], a'.interval);
  }

  lemma NoPosts(interval: int)
    ensures IntervalFollows(interval, [], interval)
  {
  }

  /**
   * Every turn: it posts exactly when its time has come and something is queued, and otherwise
   * changes nothing; a refused key is probed with one row, anything else is a whole attempt; and
   * the last answer alone decides the next one.
   */
  lemma {:induction false} TurnExactly(l: Loop, limits: Limits, now: int, end: int)
    requires limits.maxEventSend >= 1
    ensures var l' := Turn(l, limits, now, end);
      && l.agent.posts <= l'.agent.posts && (|l'.agent.posts| > |l.agent.posts| <==> Due(l, now))
      && (!Due(l, now) ==> l' == l)
      && (Due(l, now) ==>
            && Reschedules(l, l', l'.agent.posts[|l'.agent.posts| - 1].reply, end)
            && if l.unauthorized then ProbedHead(l.agent, l'.agent) else l'.agent == Drain(l.agent, limits, now).0)
  {
    if Due(l, now) {
      if l.unauthorized {
        hide Probe, IntervalFollows, Reschedules;
        ProbeLaw(l, end);
      } else {
        DrainedTurn(l, limits, now, end);
      }
    }
  }

  lemma {:induction false} DrainedTurn(l: Loop, limits: Limits, now: int, end: int)
    requires limits.maxEventSend >= 1 && Due(l, now) && !l.unauthorized
    ensures var (l', a') := (Turn(l, limits, now, end), Drain(l.agent, limits, now).0);
      && l'.agent == a' && l.agent.posts <= a'.posts && |a'.posts| > |l.agent.posts|
      && Reschedules(l, l', a'.posts[|a'.posts| - 1].reply, end)
  {
    PendingNeeds(l.agent, limits);
    var posts, notices := DrainAccounts(l.agent, limits, now);
    hide Drain, RowsAccounted, PostsShaped, Counted, Needed, Backoff, Reschedules;
    var (r, o) := Drain(l.agent, limits, now);
    LastPost(l.agent, r, o, limits, posts, notices);
    AnswerReschedules(l, r, o, posts[|posts| - 1].reply, end);
  }

  /** The last POST of an attempt with something to send carries its outcome. */
  lemma LastPost(a: Agent, r: Agent, o: Outcome, limits: Limits, posts: seq<Post>, notices: seq<Row>)
    requires limits.maxEventSend >= 1 && Needed(a, limits) > 0
    requires RowsAccounted(a, r, limits, posts, notices) && PostsShaped(a, r, o, limits, posts) && Counted(a, o, limits, posts)
    ensures posts != [] && r.posts == a.posts + posts && r.posts[|r.posts| - 1] == posts[|posts| - 1]
    ensures var last := posts[|posts| - 1].reply;
      (o.Done? ==> last.Ack?) && (o.Failed? ==> last == o.reply && Final(last))
  {
    hide Settled, NoticeTotal, HeadFailed, MetricsFirst, Needed, Answered;
  }

  lemma AnswerReschedules(l: Loop, r: Agent, o: Outcome, last: Reply, end: int)
    requires !l.unauthorized && (o.Done? ==> last.Ack?) && (o.Failed? ==> last == o.reply && Final(last))
    ensures Reschedules(l, AfterDrain(l.(agent := r), o, end), last, end)
  {
    hide Backoff;
  }
}
