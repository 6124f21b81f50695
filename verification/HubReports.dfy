/**
 * A request of one report, end to end: when it is well formed and new, what it does to the round
 * of its key, in terms of the report's own text and the tables before the request.
 */
module HubReports {
  import opened Basics
  import opened HubSpec
  import opened HubOrder
  import opened HubEvents
  import opened HubIngest

  /** A well-formed report of a key under an id that is not in the table. */
  ghost predicate NewReport(s: Hub, source: string, raw: RawEvent, now: int) {
    WellFormed(raw, now) && raw.faultKey !in {None, Some("")} && EventKey(source, Reported(raw.eventId)) !in s.events
  }

  /**
   * An open or update of a key without a row puts its first round up, opened by its seq, unless a
   * later resolve is recorded; a resolve takes down the round an earlier seq opened. Where the hub
   * itself does not write the key this is exact: the round is up afterwards if it was, but for such
   * a resolve, or if an open or update finds no later resolve recorded.
   */
  ghost predicate ReportCounts(s: Hub, s': Hub, source: string, raw: RawEvent, now: int) {
    NewReport(s, source, raw, now) ==>
      var ref := FaultRef(source, raw.faultKey.value);
      var free := NoneRecorded(s, ref, raw.seqNo);
      && (raw.action != Some("resolve") && ref !in s.faults && free ==>
            PhaseAt(s', ref) == Up(1) && s'.faults[ref].openedBySeq == raw.seqNo)
      && (raw.action == Some("resolve") && ClosableBy(s, ref, raw.seqNo) ==> PhaseAt(s', ref) == Down(s.faults[ref].incident))
      && (raw.faultKey != Some("heartbeat") ==>
            (PhaseAt(s', ref).Up? <==> if raw.action == Some("resolve") then PhaseAt(s, ref).Up? && !ClosableBy(s, ref, raw.seqNo)
                                       else PhaseAt(s, ref).Up? || free))
  }

  // ---- the one event ----

  lemma {:induction false} OneAccepted(s: Hub, source: string, raw: RawEvent, now: int, order: seq<Event>)
    requires NewReport(s, source, raw, now) && BatchOrder(s.events, source, [raw], now, order)
    ensures |order| == 1 && ReadsAs(raw, order[0])
  {
    hide WellFormed, ReadsAs, Validate;
    ValidExactly(raw, now);
    var ev := Validate(raw, now).ev;
    assert ReadsAs(raw, ev);
    assert FateOf(s.events, source, [raw], 0, now).Accepted?;
    assert [raw][0] == raw;
    assert Accepts(s.events, source, [raw], now, ev);
    forall x | x in order ensures x == ev {
      assert Accepts(s.events, source, [raw], now, x);
      SameReading(raw, x, ev);
    }
    assert ev in order;
    forall i | 0 <= i < |order| ensures order[i] == ev {
      assert order[i] in order;
    }
    assert |order| > 1 ==> order[0].id != order[1].id;
  }

  lemma BatchOfOne(s: Hub, source: string, ev: Event, now: int)
    ensures ApplyBatch(s, source, [ev], now).faults == Apply(s, source, ev, false, ev.seqNo <= LastSeq(s, source), now).faults
  {
    hide Apply, LastSeq;
    var steps := Reports(source, [ev], now);
    assert steps[..|steps| - 1] == [];
    assert Run(s, []) == s;
    RunLast(s, steps);
  }

  /** The round after the event, from the round before. */
  lemma {:induction false} ReportRound(s: Hub, source: string, ev: Event, now: int)
    requires ev.topic.OnFault?
    ensures var (s', ref) := (ApplyBatch(s, source, [ev], now), FaultRef(source, ev.topic.key));
      var (up, free) := (PhaseAt(s, ref).Up?, NoneRecorded(s, ref, ev.seqNo));
      && (PhaseAt(s', ref).Up? <==> if ev.topic.action.Resolve? then up && !ClosableBy(s, ref, ev.seqNo) else up || free)
      && (!ev.topic.action.Resolve? && ref !in s.faults && free ==>
            PhaseAt(s', ref) == Up(1) && s'.faults[ref].openedBySeq == ev.seqNo)
      && (ev.topic.action.Resolve? ==>
            PhaseAt(s', ref) == if ClosableBy(s, ref, ev.seqNo) then Down(s.faults[ref].incident) else PhaseAt(s, ref))
  {
    BatchOfOne(s, source, ev, now);
    hide Apply, ApplyBatch, LastSeq;
    var (ref, late) := (FaultRef(source, ev.topic.key), ev.seqNo <= LastSeq(s, source));
    if ev.topic.action.Resolve? {
      ResolvedRow(s, source, ev, false, late, now);
    } else if ref !in s.faults {
      NewKeyRow(s, source, ev, false, late, now);
      if !NoneRecorded(s, ref, ev.seqNo) {
        var n := FirstRecorded(s, ref, ev.seqNo);
      }
    } else if s.faults[ref].state.IsResolved? && NoneRecorded(s, ref, ev.seqNo) {
      ReopenedRow(s, source, ev, false, late, now);
    } else {
      JoinedRow(s, source, ev, false, late, now);
    }
  }

  lemma FirstRecorded(s: Hub, ref: FaultRef, seqNo: int) returns (n: int)
    requires !NoneRecorded(s, ref, seqNo)
    ensures NextRecorded(s, ref, seqNo, n)
  {
    n := FindPending(s.pending, ref, seqNo).value.0;
  }

  // ---- the touch before it ----

  /** Another key's row and recorded resolves, and the reports received. */
  ghost predicate KeepsKey(s: Hub, s1: Hub, ref: FaultRef) {
    && FaultAt(s1, ref) == FaultAt(s, ref) && (forall n :: PendingKey(ref, n) in s1.pending <==> PendingKey(ref, n) in s.pending)
  }

  lemma {:induction false} TouchKeepsKey(s: Hub, source: string, title: string, body: string, now: int, ref: FaultRef)
    requires ref != FaultRef(source, "heartbeat")
    ensures KeepsKey(s, Run(s, TouchSteps(s, source, title, body, now)), ref)
  {
    var steps := TouchSteps(s, source, title, body, now);
    if steps != [] {
      assert steps[..0] == [];
      hide Apply, PhaseAt;
      var d := HeartbeatBack(title, body, now);
      OtherKeyUntouched(Ticked(s), source, HubEventOf(s, d), true, false, now, ref);
      forall n { ApplyRecords(Ticked(s), source, HubEventOf(s, d), true, false, now, ref, n); }
    }
  }

  lemma {:induction false} TouchKeepsReports(s: Hub, source: string, title: string, body: string, now: int)
    ensures var s1 := Run(s, TouchSteps(s, source, title, body, now));
      forall k: EventKey :: k.id.Reported? ==> (k in s1.events <==> k in s.events)
  {
    var steps := TouchSteps(s, source, title, body, now);
    if steps != [] {
      assert steps[..0] == [];
      hide Apply, PhaseAt;
      ApplyKeepsCounters(Ticked(s), source, HubEventOf(s, HeartbeatBack(title, body, now)), true, false, now);
    }
  }

  /** The heartbeat round itself: closed by the touch, or as it was. */
  lemma {:induction false} TouchedHeartbeat(s: Hub, source: string, title: string, body: string, now: int)
    ensures var (s1, ref) := (Run(s, TouchSteps(s, source, title, body, now)), FaultRef(source, "heartbeat"));
      && (ref !in s.faults ==> s1 == s)
      && (ref in s.faults && s.faults[ref].state.IsOpen? ==>
            s1.faults == s.faults || PhaseAt(s1, ref) == Down(s.faults[ref].incident))
  {
    var steps := TouchSteps(s, source, title, body, now);
    if steps != [] {
      assert steps[..0] == [];
      hide Apply;
      ResolvedRow(Ticked(s), source, HubEventOf(s, HeartbeatBack(title, body, now)), true, false, now);
    }
  }

  /** A request of one report counts as its text says. */
  lemma {:induction false} OneReportCounts(s: Hub, source: string, raw: RawEvent, title: string, body: string, now: int,
                                           order: seq<Event>)
    requires var s1 := Run(s, TouchSteps(s, source, title, body, now)); BatchOrder(s1.events, source, [raw], now, order)
    ensures var s1 := Run(s, TouchSteps(s, source, title, body, now));
      ReportCounts(s, ApplyBatch(s1, source, order, now), source, raw, now)
  {
    hide Run, TouchSteps, BatchOrder, WellFormed, ApplyBatch;
    var s1 := Run(s, TouchSteps(s, source, title, body, now));
    if NewReport(s, source, raw, now) {
      TouchKeepsReports(s, source, title, body, now);
      OneAccepted(s1, source, raw, now, order);
      var (ev, ref) := (order[0], FaultRef(source, raw.faultKey.value));
      assert order == [ev];
      ReportRound(s1, source, ev, now);
      AsksResolve(raw, ev);
      TouchedHeartbeat(s, source, title, body, now);
      if raw.faultKey != Some("heartbeat") {
        TouchKeepsKey(s, source, title, body, now, ref);
      }
      hide ReadsAs;
    }
  }

  lemma AsksResolve(raw: RawEvent, ev: Event)
    requires ReadsAs(raw, ev) && raw.faultKey !in {None, Some("")}
    ensures ev.topic.OnFault? && raw.faultKey == Some(ev.topic.key) && ev.seqNo == raw.seqNo
    ensures ev.topic.action.Resolve? <==> raw.action == Some("resolve")
  {
    assert Some("open") != Some("resolve") && Some("update") != Some("resolve") by {
      assert |"open"| != |"resolve"| && |"update"| != |"resolve"|;
    }
  }
}
