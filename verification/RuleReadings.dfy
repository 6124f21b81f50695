/**
 * One sample through a threshold rule: for every value the sample reports, exactly when the round
 * of its key is up afterwards, in terms of the value, the limits and the times on the timer.
 */
module RuleReadings {
  import opened Basics
  import opened HubSpec
  import opened HubOrder
  import opened HubEvents
  import opened Rules

  /** On the wrong side of the limit. */
  ghost predicate Exceeds(r: Rule, v: real)
    requires r.value.Some?
  {
    var limit := r.value.value;
    if v == limit then r.op in {Gte, Lte} else if v > limit then r.op in {Gt, Gte} else r.op in {Lt, Lte}
  }

  /** Strictly on the right side of the recovery limit, which is the limit itself if none is given. */
  ghost predicate BackInRange(r: Rule, v: real)
    requires r.value.Some?
  {
    var limit := if r.recoverValue.Some? then r.recoverValue.value else r.value.value;
    if r.op in {Gt, Gte} then v < limit else v > limit
  }

  /** Seconds since the timer's start, or since now if it is not running. */
  predicate ForLong(running: bool, since: int, at: int, seconds: int) {
    if running then at - since >= seconds * 1000 else seconds <= 0
  }

  /** The round after one value: a violation that has lasted opens it, a recovery that has lasted closes it. */
  ghost predicate UpAfter(r: Rule, t: Timer, up: bool, v: real, at: int)
    requires r.value.Some?
  {
    if Exceeds(r, v) then up || ForLong(t.breach, t.breachSince, at, r.forSeconds)
    else up && !(BackInRange(r, v) && ForLong(t.recovering, t.recoverSince, at, r.recoverForSeconds))
  }

  lemma {:induction false} LimitsMean(r: Rule, v: real)
    requires r.value.Some?
    ensures Violates(r.op, v, r.value.value) <==> Exceeds(r, v)
    ensures Recovers(r.op, v, RecoverLimit(r)) <==> BackInRange(r, v)
  {
  }

  lemma {:induction false} JudgedRound(r: Rule, t: Timer, up: bool, v: real, at: int)
    requires r.value.Some?
    ensures var d := Judged(r, t, up, v, at).1;
      && (UpAfter(r, t, up, v, at) <==> d.Raise? || (up && !d.Clear?)) && (d.Raise? ==> !up) && (d.Clear? ==> up)
      && (d.Quiet? <==> UpAfter(r, t, up, v, at) == up)
  {
    hide Exceeds, BackInRange;
    LimitsMean(r, v);
  }

  /** The round the engine opens is the rule's own: its severity, dated by the sample. */
  ghost predicate OpenedByRule(s: Hub, ref: FaultRef, r: Rule, at: int) {
    && ref in s.faults && Unresolved(s.faults[ref]) && s.faults[ref].severity == r.severity && s.faults[ref].eventCount == 1
    && s.faults[ref].openedAt == at && s.faults[ref].lastEventAt == at
  }

  /** The round the engine closes is dated by the sample. */
  ghost predicate ClosedByRule(s: Hub, ref: FaultRef, at: int) {
    ref in s.faults && s.faults[ref].state.IsResolved? && s.faults[ref].resolvedAt == Some(at)
  }

  lemma {:induction false} RaisedRow(s: Hub, source: string, r: Rule, sel: string, at: int, now: int)
    requires HubOwned(s, RefOf(source, r, sel)) && RoundAt(s, RefOf(source, r, sel)).None?
    ensures OpenedByRule(Emit(s, source, DraftOf(r, sel, Raise, at), now), RefOf(source, r, sel), r, at)
  {
    hide Apply, TitleOf;
    var ev := HubEventOf(s, DraftOf(r, sel, Raise, at));
    if RefOf(source, r, sel) in s.faults {
      ReopenedRow(Ticked(s), source, ev, true, false, now);
    } else {
      NewKeyRow(Ticked(s), source, ev, true, false, now);
    }
  }

  lemma {:induction false} ClearedRow(s: Hub, source: string, r: Rule, sel: string, at: int, now: int)
    requires HubOwned(s, RefOf(source, r, sel)) && RoundAt(s, RefOf(source, r, sel)).Some?
    ensures ClosedByRule(Emit(s, source, DraftOf(r, sel, Clear, at), now), RefOf(source, r, sel), at)
  {
    hide Apply, TitleOf;
    ResolvedRow(Ticked(s), source, HubEventOf(s, DraftOf(r, sel, Clear, at)), true, false, now);
  }

  /** The timer goes on tracking the samples of its key: the new one after the others, or none after a clearing. */
  ghost predicate TimerFollows(s: Hub, s': Hub, ref: FaultRef, r: Rule, t: Timer, t': Timer, v: real, at: int)
    requires r.value.Some?
  {
    var (up, up') := (RoundAt(s, ref), RoundAt(s', ref));
    forall seen :: Tracks(r, t, seen) ==> Tracks(r, t', if up.Some? && up'.None? then [] else seen + [Obs(at, v, up)])
  }

  /** What one value does to the round of its key. */
  ghost predicate RoundFollows(s: Hub, s': Hub, ref: FaultRef, r: Rule, t: Timer, t': Timer, v: real, at: int)
    requires r.value.Some?
  {
    var up := RoundAt(s, ref).Some?;
    && (RoundAt(s', ref).Some? <==> UpAfter(r, t, up, v, at)) && TimerFollows(s, s', ref, r, t, t', v, at)
    && (RoundAt(s', ref).Some? && !up ==> OpenedByRule(s', ref, r, at))
    && (RoundAt(s', ref).None? && up ==> ClosedByRule(s', ref, at))
    && (RoundAt(s', ref).Some? && up ==> RoundAt(s', ref) == RoundAt(s, ref))
  }

  lemma {:induction false} ReadingExactly(states: map<TimerKey, Timer>, s: Hub, source: string, r: Rule, x: Gauge, at: int, now: int)
    requires r.value.Some? && HubOwned(s, RefOf(source, r, x.sel))
    ensures var ((states', s'), k) := (Evaluated(states, s, source, r, x, at, now), TimerKey(source, r.id, x.sel));
      && RoundFollows(s, s', RefOf(source, r, x.sel), r, TimerAt(states, k), TimerAt(states', k), x.v, at)
      && HubOwned(s', RefOf(source, r, x.sel))
      && (RoundAt(s', RefOf(source, r, x.sel)).Some? == RoundAt(s, RefOf(source, r, x.sel)).Some? ==> s' == s)
  {
    hide Emit, Judged, HubOwned, UpAfter, DraftOf, OpenedByRule, ClosedByRule, Tracks;
    var (ref, t) := (RefOf(source, r, x.sel), TimerAt(states, TimerKey(source, r.id, x.sel)));
    var up := UpAt(s, source, FaultKeyOf(r, x.sel));
    JudgedRound(r, t, up, x.v, at);
    var d := Judged(r, t, up, x.v, at).1;
    DecisionTakesEffect(s, source, r, x.sel, d, at, now);
    if d.Raise? {
      RaisedRow(s, source, r, x.sel, at, now);
    } else if d.Clear? {
      ClearedRow(s, source, r, x.sel, at, now);
    }
    forall seen | Tracks(r, t, seen)
      ensures Tracks(r, Judged(r, t, up, x.v, at).0, if d.Clear? then [] else seen + [Obs(at, x.v, RoundAt(s, ref))])
    {
      JudgedExactly(r, t, seen, RoundAt(s, ref), x.v, at);
    }
  }

  // ---- all the values of a sample ----

  lemma KeysOfSelectors(r: Rule, sel: string, other: string)
    ensures FaultKeyOf(r, sel) == FaultKeyOf(r, other) <==> sel == other
  {
    var n := |"rule:" + r.id + ":"|;
    assert FaultKeyOf(r, sel)[n..] == sel && FaultKeyOf(r, other)[n..] == other;
  }

  /** A value under another selector leaves the key's timer and round alone. */
  lemma {:induction false} OtherReading(states: map<TimerKey, Timer>, s: Hub, source: string, r: Rule, x: Gauge, at: int,
                                        now: int, sel: string)
    requires r.value.Some? && x.sel != sel && HubOwned(s, RefOf(source, r, sel))
    ensures var (states', s') := Evaluated(states, s, source, r, x, at, now);
      && TimerAt(states', TimerKey(source, r.id, sel)) == TimerAt(states, TimerKey(source, r.id, sel))
      && HubOwned(s', RefOf(source, r, sel)) && FaultAt(s', RefOf(source, r, sel)) == FaultAt(s, RefOf(source, r, sel))
  {
    hide Emit, Apply, Judged, HubOwned, FaultKeyOf, TitleOf;
    KeysOfSelectors(r, x.sel, sel);
    var d := Judged(r, TimerAt(states, TimerKey(source, r.id, x.sel)), UpAt(s, source, FaultKeyOf(r, x.sel)), x.v, at).1;
    if !d.Quiet? {
      var draft := DraftOf(r, x.sel, d, at);
      StepKeepsHubOwned(s, HubEvent(source, draft, now), RefOf(source, r, sel));
      EmittedApart(s, source, draft, now, RefOf(source, r, sel));
    }
  }

  lemma {:induction false} EmittedApart(s: Hub, source: string, d: Draft, now: int, ref: FaultRef)
    requires !WritesKey(source, d.topic, ref)
    ensures FaultAt(Emit(s, source, d, now), ref) == FaultAt(s, ref)
  {
    hide Apply;
    OtherKeyUntouched(Ticked(s), source, HubEventOf(s, d), true, false, now, ref);
  }

  lemma SameFaultSameRound(s: Hub, s': Hub, ref: FaultRef)
    requires FaultAt(s', ref) == FaultAt(s, ref)
    ensures RoundAt(s', ref) == RoundAt(s, ref) && (ref in s'.faults <==> ref in s.faults)
    ensures ref in s.faults ==> s'.faults[ref] == s.faults[ref]
  {
  }

  lemma {:induction false} OtherReadings(states: map<TimerKey, Timer>, s: Hub, source: string, r: Rule, xs: seq<Gauge>,
                                         at: int, now: int, sel: string)
    requires r.value.Some? && HubOwned(s, RefOf(source, r, sel)) && forall i :: 0 <= i < |xs| ==> xs[i].sel != sel
    ensures var (states', s') := EvaluatedAll(states, s, source, r, xs, at, now);
      && TimerAt(states', TimerKey(source, r.id, sel)) == TimerAt(states, TimerKey(source, r.id, sel))
      && HubOwned(s', RefOf(source, r, sel)) && FaultAt(s', RefOf(source, r, sel)) == FaultAt(s, RefOf(source, r, sel))
  {
    hide Evaluated, HubOwned, TimerAt, FaultAt, RefOf;
    if xs != [] {
      var front := xs[..|xs| - 1];
      OtherReadings(states, s, source, r, front, at, now, sel);
      var (states1, s1) := EvaluatedAll(states, s, source, r, front, at, now);
      OtherReading(states1, s1, source, r, xs[|xs| - 1], at, now, sel);
    }
  }

  /** The value under a selector decides its round, whatever else the sample reports. */
  lemma {:induction false} ReadingsExactly(states: map<TimerKey, Timer>, s: Hub, source: string, r: Rule, xs: seq<Gauge>,
                                           at: int, now: int, i: nat)
    requires r.value.Some? && i < |xs| && HubOwned(s, RefOf(source, r, xs[i].sel))
    requires forall j :: 0 <= j < |xs| && xs[j].sel == xs[i].sel ==> j == i
    ensures var ((states', s'), k) := (EvaluatedAll(states, s, source, r, xs, at, now), TimerKey(source, r.id, xs[i].sel));
      && RoundFollows(s, s', RefOf(source, r, xs[i].sel), r, TimerAt(states, k), TimerAt(states', k), xs[i].v, at)
      && HubOwned(s', RefOf(source, r, xs[i].sel))
  {
    hide Evaluated, HubOwned, TimerAt, RefOf, UpAfter, OpenedByRule, ClosedByRule, RoundFollows;
    var front, x, sel := xs[..|xs| - 1], xs[|xs| - 1], xs[i].sel;
    var (states1, s1) := EvaluatedAll(states, s, source, r, front, at, now);
    var ((states', s'), k) := (EvaluatedAll(states, s, source, r, xs, at, now), TimerKey(source, r.id, sel));
    if i == |xs| - 1 {
      OtherReadings(states, s, source, r, front, at, now, sel);
      ReadingExactly(states1, s1, source, r, x, at, now);
      FollowsSince(s, s1, s', RefOf(source, r, sel), r, TimerAt(states, k), TimerAt(states', k), x.v, at);
    } else {
      ReadingsExactly(states, s, source, r, front, at, now, i);
      OtherReading(states1, s1, source, r, x, at, now, sel);
      FollowsThrough(s, s1, s', RefOf(source, r, sel), r, TimerAt(states, k), TimerAt(states', k), xs[i].v, at);
    }
  }

  lemma FollowsSince(s: Hub, s1: Hub, s': Hub, ref: FaultRef, r: Rule, t: Timer, t': Timer, v: real, at: int)
    requires r.value.Some? && FaultAt(s1, ref) == FaultAt(s, ref) && RoundFollows(s1, s', ref, r, t, t', v, at)
    ensures RoundFollows(s, s', ref, r, t, t', v, at)
  {
    hide UpAfter, Tracks;
    SameFaultSameRound(s, s1, ref);
  }

  lemma FollowsThrough(s: Hub, s1: Hub, s': Hub, ref: FaultRef, r: Rule, t: Timer, t': Timer, v: real, at: int)
    requires r.value.Some? && FaultAt(s', ref) == FaultAt(s1, ref) && RoundFollows(s, s1, ref, r, t, t', v, at)
    ensures RoundFollows(s, s', ref, r, t, t', v, at)
  {
    hide UpAfter, Tracks;
    SameFaultSameRound(s1, s', ref);
  }

  // ---- a whole sample ----

  /** No two disks of the sample have this mount. */
  predicate MountOnce(r: Rule, s: Sample, sel: string) {
    r.metric.Disk? ==> forall j, k :: 0 <= j < k < |s.disks| ==> SelOf(s.disks[j]) != sel || SelOf(s.disks[k]) != sel
  }

  lemma {:induction false} ReadOnce(r: Rule, s: Sample, i: nat, j: nat)
    requires i < j < |Extract(r, s)| && MountOnce(r, s, Extract(r, s)[i].sel)
    ensures Extract(r, s)[i].sel != Extract(r, s)[j].sel
  {
    hide Reports, SelOf, Selected, DiskReadings;
    ReadExactly(r, s);
    if r.metric.Disk? {
      var at := DisksReadInOrder(r.target, s.disks);
      assert at[i] < at[j];
    }
  }

  /** Every value the sample reports decides the round of its key. */
  ghost predicate SampleDecides(states: map<TimerKey, Timer>, s: Hub, states': map<TimerKey, Timer>, s': Hub,
                                source: string, r: Rule, sample: Sample, at: int)
    requires r.value.Some?
  {
    forall x: Gauge :: Reports(r, sample, x) && MountOnce(r, sample, x.sel) && HubOwned(s, RefOf(source, r, x.sel)) ==>
      var k := TimerKey(source, r.id, x.sel);
      RoundFollows(s, s', RefOf(source, r, x.sel), r, TimerAt(states, k), TimerAt(states', k), x.v, at)
  }

  lemma {:induction false} SampleExactly(states: map<TimerKey, Timer>, s: Hub, source: string, r: Rule, sample: Sample,
                                         at: int, now: int)
    requires r.value.Some?
    ensures var (states', s') := EvaluatedAll(states, s, source, r, Extract(r, sample), at, now);
      SampleDecides(states, s, states', s', source, r, sample, at)
  {
    hide Extract, EvaluatedAll, Reports, MountOnce, HubOwned, RefOf, TimerAt, RoundFollows;
    ReadExactly(r, sample);
    var xs := Extract(r, sample);
    var (states', s') := EvaluatedAll(states, s, source, r, xs, at, now);
    forall x: Gauge | Reports(r, sample, x) && MountOnce(r, sample, x.sel) && HubOwned(s, RefOf(source, r, x.sel))
      ensures var k := TimerKey(source, r.id, x.sel);
        RoundFollows(s, s', RefOf(source, r, x.sel), r, TimerAt(states, k), TimerAt(states', k), x.v, at)
    {
      var i: nat :| i < |xs| && xs[i] == x;
      forall j | 0 <= j < |xs| && xs[j].sel == x.sel ensures j == i {
        if j < i { ReadOnce(r, sample, j, i); } else if j > i { ReadOnce(r, sample, i, j); }
      }
      ReadingsExactly(states, s, source, r, xs, at, now, i);
    }
  }
}
