/**
 * The sender as the agent runs it, on two mutable queues and a network that answers from a
 * script. Every method is proved equal to its function in `DrainSpec`.
 */
module Reporter {
  import opened Basics
  import opened AgentQueue
  import opened DrainSpec

  class Reporter {
    const metrics: Queue
    const events: Queue
    const limits: Limits
    var replies: seq<Reply>
    var posts: seq<Post>
    var interval: int
    var attempt: nat
    var unauthorized: bool
    var nextTry: Option<int>

    ghost predicate Valid()
      reads this, metrics, events
    {
      metrics != events && limits.maxEventSend >= 1 && Ordered(metrics.Now()) && Ordered(events.Now())
    }

    ghost function Sender(): Agent
      reads this, metrics, events
    {
      Agent(metrics.Now(), events.Now(), replies, posts, interval)
    }

    ghost function State(): Loop
      reads this, metrics, events
    {
      Loop(Sender(), attempt, unauthorized, nextTry)
    }

    constructor (caps: Caps, script: seq<Reply>)
      requires caps.limits.maxEventSend >= 1
      ensures Valid() && fresh(metrics) && fresh(events) && limits == caps.limits
      ensures metrics.max == caps.maxBatches && events.max == caps.maxEvents
      ensures State() == GoAll(script, caps, [])
    {
      metrics := new Queue(caps.maxBatches);
      events := new Queue(caps.maxEvents);
      limits, replies, posts, interval := caps.limits, script, [], 30;
      attempt, unauthorized, nextTry := 0, false, None;
    }

    /** One POST: the next answer of the network, or a timeout when there is none. */
    method Send(kind: Kind, rows: seq<Row>) returns (reply: Reply)
      modifies this`replies, this`posts
      ensures reply == Answer(old(replies)) && Sender() == Sending(old(Sender()), kind, rows)
    {
      reply := Answer(replies);
      posts := posts + [Post(kind, rows, reply)];
      if replies != [] { replies := replies[1..]; }
    }

    method SetInterval(seconds: int)
      modifies this`interval
      ensures interval == Told(old(interval), seconds)
    {
      if seconds > 0 {
        interval := if seconds < 10 then 10 else if seconds > 600 then 600 else seconds;
      }
    }

    method EmitNoTrim(payload: Payload, now: int)
      requires Valid()
      modifies events
      ensures Valid() && Sender() == Notice(old(Sender()), payload, now)
    {
      var n := events.NextSeq();
      events.EnqueueNoTrim(n, payload, now);
    }

    method FlushOverflow(now: int)
      requires Valid()
      modifies metrics, events
      ensures Valid() && Sender() == Flush(old(Sender()), now) && metrics.rows == old(metrics.rows)
    {
      var lost := metrics.TakeOverflow();
      if lost.Some? { EmitNoTrim(QueueOverflow(Metrics, lost.value), now); }
      lost := events.TakeOverflow();
      if lost.Some? { EmitNoTrim(QueueOverflow(Events, lost.value), now); }
    }

    /** Deleting the rows of a peek leaves the rest of the table. */
    method DeletePeeked(q: Queue, rows: seq<Row>)
      requires Ordered(q.Now()) && rows <= q.rows
      modifies q
      ensures Ordered(q.Now()) && q.Now() == old(q.Now()).(rows := old(q.rows)[|rows|..])
    {
      hide Increasing, Without, IdsOf, SetOf;
      var ids := ListIds(rows);
      assert q.rows[..|rows|] == rows;
      WithoutPrefix(q.rows, |rows|, SetOf(ids));
      SuffixOrdered(q.Now(), |rows|);
      q.DeleteIds(ids);
    }

    method DrainMetrics(now: int) returns (o: Outcome)
      requires Valid()
      modifies this`replies, this`posts, this`interval, metrics, events
      ensures Valid() && (Sender(), o) == MetricsPhase(old(Sender()), limits, now)
    {
      hide Ordered, LaneTrimmed, Flush, Told, Notice;
      while metrics.rows != []
        invariant Valid() && MetricsPhase(Sender(), limits, now) == MetricsPhase(old(Sender()), limits, now)
        decreases |metrics.rows|
      {
        if |metrics.rows| > limits.maxReplay {
          TrimmedOrdered(metrics.Now(), |metrics.rows| - limits.maxReplay);
          var _ := metrics.DropOldest(|metrics.rows| - limits.maxReplay);
          FlushOverflow(now);
        } else {
          var head := metrics.Peek(1);
          assert head == [metrics.rows[0]];
          var reply := Send(Metrics, head);
          if Final(reply) {
            return Failed(reply);
          }
          DeletePeeked(metrics, head);
          if reply.Ack? {
            SetInterval(reply.seconds);
          } else {
            EmitNoTrim(PayloadDropped(Metrics, head[0].seqNo), now);
          }
        }
      }
      o := Done;
    }

    method DrainEvents(now: int) returns (o: Outcome)
      requires Valid()
      modifies this`replies, this`posts, events
      ensures Valid() && (Sender(), o) == EventsPhase(old(Sender()), limits, now)
    {
      while events.rows != []
        invariant Valid() && EventsPhase(Sender(), limits, now) == EventsPhase(old(Sender()), limits, now)
        decreases |replies|
      {
        var batch := events.Peek(limits.maxEventSend);
        var reply := Send(Events, batch);
        if Final(reply) {
          return Failed(reply);
        }
        DeletePeeked(events, batch);
        if reply.Poison? { EmitNoTrim(PayloadDropped(Events, |batch|), now); }
      }
      o := Done;
    }

    method DrainOnce(now: int) returns (o: Outcome)
      requires Valid()
      modifies this`replies, this`posts, this`interval, metrics, events
      ensures Valid() && (Sender(), o) == Drain(old(Sender()), limits, now)
    {
      FlushOverflow(now);
      o := DrainMetrics(now);
      if o.Done? { o := DrainEvents(now); }
    }

    method HandleProbeError(reply: Reply, end: int)
      requires !reply.Ack?
      modifies this`attempt, this`unauthorized, this`nextTry
      ensures State() == AfterProbe(old(State()), reply, end)
    {
      if reply.Unauthorized? {
        nextTry := Some(end + PROBE_EVERY);
      } else {
        unauthorized := false;
        nextTry := Some(end + Backoff(attempt));
        attempt := attempt + 1;
      }
    }

    method ProbeUnauthorized(end: int)
      requires Valid()
      modifies this, metrics, events
      ensures Valid() && State() == Probe(old(State()), end)
    {
      var head := metrics.Peek(1);
      if head != [] {
        assert head == [metrics.rows[0]];
        var reply := Send(Metrics, head);
        if reply.Ack? {
          SetInterval(reply.seconds);
          DeletePeeked(metrics, head);
          unauthorized, attempt := false, 0;
        } else {
          HandleProbeError(reply, end);
        }
        return;
      }
      head := events.Peek(1);
      if head == [] {
        unauthorized := false;
        return;
      }
      assert head == [events.rows[0]];
      var reply := Send(Events, head);
      if reply.Ack? {
        DeletePeeked(events, head);
        unauthorized, attempt := false, 0;
      } else {
        HandleProbeError(reply, end);
      }
    }

    /** One turn of the sending loop, started at `now` and over at `end`. */
    method TakeTurn(now: int, end: int)
      requires Valid()
      modifies this, metrics, events
      ensures Valid() && State() == Turn(old(State()), limits, now, end)
    {
      hide Drain, Ordered, Probe, Backoff;
      if nextTry.Some? && now < nextTry.value {
        return;
      }
      if |metrics.rows| + |events.rows| == 0 {
        return;
      }
      if unauthorized {
        ProbeUnauthorized(end);
        return;
      }
      var o := DrainOnce(now);
      match o {
        case Done => attempt, nextTry := 0, None;
        case Failed(Unauthorized) => unauthorized, nextTry := true, Some(end + PROBE_EVERY);
        case Failed(Retry(after)) =>
          nextTry := Some(end + if after > 0 then after else Backoff(attempt));
          attempt := attempt + 1;
        case Failed(_) => attempt := 0;
      }
    }

    method CollectOnce(payload: Payload, now: int)
      requires Valid()
      modifies metrics
      ensures Valid() && Sender() == old(Sender()).(metrics := PutNext(old(metrics.Now()), metrics.max, payload, now))
    {
      hide Ordered, LaneEnqueued;
      PutOrdered(metrics.Now(), metrics.max, payload, now);
      var n := metrics.NextSeq();
      var _ := metrics.Enqueue(n, payload, now);
    }

    method EmitEvent(payload: Payload, now: int)
      requires Valid()
      modifies events
      ensures Valid() && Sender() == old(Sender()).(events := PutNext(old(events.Now()), events.max, payload, now))
    {
      hide Ordered, LaneEnqueued;
      PutOrdered(events.Now(), events.max, payload, now);
      var n := events.NextSeq();
      var _ := events.Enqueue(n, payload, now);
    }
  }

  method ListIds(rows: seq<Row>) returns (ids: seq<nat>)
    ensures SetOf(ids) == IdsOf(rows)
  {
    ids := [];
    var i := 0;
    while i < |rows|
      invariant 0 <= i <= |rows|
      invariant SetOf(ids) == IdsOf(rows[..i])
    {
      hide SetOf, IdsOf;
      assert rows[..i + 1] == rows[..i] + [rows[i]];
      IdsOfConcat(rows[..i], [rows[i]]);
      IdsOfOne(rows[i]);
      SetOfAdded(ids, rows[i].id);
      ids := ids + [rows[i].id];
      i := i + 1;
    }
    assert rows[..|rows|] == rows;
  }

  lemma SetOfAdded(ids: seq<nat>, id: nat)
    ensures SetOf(ids + [id]) == SetOf(ids) + {id}
  {
  }

  lemma SuffixOrdered(l: Lane, k: nat)
    requires Ordered(l) && k <= |l.rows|
    ensures Ordered(l.(rows := l.rows[k..]))
  {
  }

  lemma {:induction false} TrimmedOrdered(l: Lane, n: int)
    requires Ordered(l)
    ensures Ordered(LaneTrimmed(l, n)) && |LaneTrimmed(l, n).rows| == Max(0, |l.rows| - Max(0, n))
  {
    hide Earliest, Latest, Merge, Increasing;
    var l' := LaneTrimmed(l, n);
    SuffixOrdered(l, |l.rows| - |l'.rows|);
  }

  lemma {:induction false} PutOrdered(l: Lane, max: nat, payload: Payload, now: int)
    requires Ordered(l)
    ensures Ordered(PutNext(l, max, payload, now))
  {
    hide LaneTrimmed;
    var l1 := Insert(l.(lastSeq := l.lastSeq + 1), l.lastSeq + 1, payload, now);
    TrimmedOrdered(l1, |l1.rows| - max);
  }
}
