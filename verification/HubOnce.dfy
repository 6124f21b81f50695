/**
 * At most once. The event table is the only memory of what was applied and retention erases it;
 * what it has erased, validation refuses for its age. Deduplication goes by id alone, so what
 * counts is the date a delivery carries against the receipt of the one it repeats: an id can be
 * applied again exactly when the later delivery is dated beyond that receipt by more than the
 * days retention keeps over the ninety days validation accepts.
 */
module HubOnce {
  import opened HubSpec
  import opened HubRounds
  import opened HubOrder
  import opened HubIngest

  /** A step as the handlers admit it, under a retention of at least `days`. */
  ghost predicate Admitted(s: Hub, step: Step, days: int) {
    && Enabled(s, step)
    && (step.Report? ==> step.now - step.ev.occurredAt <= BACKFILL_WINDOW)
    && (step.Retention? ==> step.limits.messagesDays >= days)
  }

  /** Every step admitted, no clock going back, the last at `t` at the latest. */
  ghost predicate AdmittedRun(steps: seq<Step>, days: int, t: int) {
    steps != [] ==>
      var front, step := steps[..|steps| - 1], steps[|steps| - 1];
      Admitted(Run(EMPTY_HUB, front), step, days) && step.now <= t && AdmittedRun(front, days, step.now)
  }

  /** The latest date at which a repetition of an event received at `receivedAt` is harmless. */
  function Horizon(receivedAt: int, days: int): int { receivedAt + (days - 90) * DAY }

  /** What was applied is still in the table, or was received more than `days` before `t`. */
  ghost predicate Remembered(s: Hub, days: int, t: int) {
    forall a <- s.applied ::
      && a.key.id.Reported? && a.receivedAt <= t
      && ((a.key in s.events && s.events[a.key].receivedAt == a.receivedAt) || a.receivedAt < t - days * DAY)
  }

  ghost predicate AppliedOnce(s: Hub) {
    forall i, j :: 0 <= i < j < |s.applied| ==> s.applied[i].key != s.applied[j].key
  }

  /** A delivery whose id has been applied before is dated no later than the horizon of each time. */
  ghost predicate WithinHorizon(s: Hub, step: Step, days: int) {
    step.Report? ==>
      forall a <- s.applied :: a.key == EventKey(step.source, step.ev.id) ==>
        step.ev.occurredAt <= Horizon(a.receivedAt, days)
  }

  ghost predicate HorizonRun(steps: seq<Step>, days: int) {
    steps != [] ==>
      WithinHorizon(Run(EMPTY_HUB, steps[..|steps| - 1]), steps[|steps| - 1], days) && HorizonRun(steps[..|steps| - 1], days)
  }

  lemma RememberedLater(s: Hub, days: int, t: int, later: int)
    requires Remembered(s, days, t) && t <= later
    ensures Remembered(s, days, later)
  {
  }

  lemma {:induction false} StepRemembers(s: Hub, step: Step, days: int)
    requires Admitted(s, step, days) && Remembered(s, days, step.now)
    ensures Remembered(Next(s, step), days, step.now) && s.applied <= Next(s, step).applied
  {
    hide Apply, Retain;
    match step
    case Report(source, ev, now) =>
      ApplyKeepsCounters(s, source, ev, false, ev.seqNo <= LastSeq(s, source), now);
    case HubEvent(source, d, now) =>
      ApplyKeepsCounters(Ticked(s), source, HubEventOf(s, d), true, false, now);
    case Retention(limits, drops, now) =>
      RetainTables(s, limits, drops, now);
      CutNoLater(limits, days, now);
    case _ =>
  }

  lemma CutNoLater(limits: Limits, days: int, now: int)
    requires limits.messagesDays >= days
    ensures Cut(limits, now) <= now - days * DAY
  {
  }

  /** Over every admitted run, whatever the dates of the events. */
  lemma {:induction false} AlwaysRemembered(steps: seq<Step>, days: int, t: int)
    requires AdmittedRun(steps, days, t)
    ensures Remembered(Run(EMPTY_HUB, steps), days, t)
  {
    if steps != [] {
      hide Next, Remembered, Admitted;
      var front, step := steps[..|steps| - 1], steps[|steps| - 1];
      AlwaysRemembered(front, days, step.now);
      StepRemembers(Run(EMPTY_HUB, front), step, days);
      RememberedLater(Run(EMPTY_HUB, steps), days, step.now, t);
    }
  }

  /** A second application of an id is always beyond the horizon of the first, and inside the window. */
  lemma {:induction false} RepeatBeyondHorizon(s: Hub, step: Step, days: int, a: Applied)
    requires Remembered(s, days, step.now) && Admitted(s, step, days) && step.Report?
    requires a in s.applied && a.key == EventKey(step.source, step.ev.id)
    ensures step.ev.occurredAt > Horizon(a.receivedAt, days)
    ensures step.ev.occurredAt >= a.receivedAt - BACKFILL_WINDOW
  {
  }

  /**
   * Over any mix of batches, repetitions and retention runs with a clock that does not go back,
   * no source event is applied twice if no repetition is dated beyond the horizon.
   */
  lemma {:induction false} AppliedAtMostOnce(steps: seq<Step>, days: int, t: int)
    requires AdmittedRun(steps, days, t) && HorizonRun(steps, days)
    ensures AppliedOnce(Run(EMPTY_HUB, steps))
  {
    if steps != [] {
      hide Next, Remembered, Admitted, Horizon;
      var front, step := steps[..|steps| - 1], steps[|steps| - 1];
      var s := Run(EMPTY_HUB, front);
      AppliedAtMostOnce(front, days, step.now);
      AlwaysRemembered(front, days, step.now);
      if step.Report? {
        forall a | a in s.applied ensures a.key != EventKey(step.source, step.ev.id) {
          if a.key == EventKey(step.source, step.ev.id) {
            RepeatBeyondHorizon(s, step, days, a);
          }
        }
      }
      StepApplies(s, step);
    }
  }

  lemma {:induction false} StepApplies(s: Hub, step: Step)
    requires Enabled(s, step)
    ensures Next(s, step).applied ==
            if step.Report? then s.applied + [Applied(EventKey(step.source, step.ev.id), step.ev.occurredAt, step.now)]
            else s.applied
  {
    hide Apply, Retain;
    match step
    case Report(source, ev, now) =>
      ApplyKeepsCounters(s, source, ev, false, ev.seqNo <= LastSeq(s, source), now);
    case HubEvent(source, d, now) =>
      ApplyKeepsCounters(Ticked(s), source, HubEventOf(s, d), true, false, now);
    case Retention(limits, drops, now) => RetainTables(s, limits, drops, now);
    case _ =>
  }

  // ---- batches are such steps ----

  lemma RunSnoc(steps: seq<Step>, step: Step, days: int, t: int)
    ensures Run(EMPTY_HUB, steps + [step]) == Next(Run(EMPTY_HUB, steps), step)
    ensures AdmittedRun(steps + [step], days, t)
            <==> Admitted(Run(EMPTY_HUB, steps), step, days) && step.now <= t && AdmittedRun(steps, days, step.now)
  {
    assert (steps + [step])[..|steps|] == steps;
  }

  lemma {:induction false} RunConcat(steps: seq<Step>, more: seq<Step>)
    ensures Run(EMPTY_HUB, steps + more) == Run(Run(EMPTY_HUB, steps), more)
  {
    if more == [] {
      assert steps + more == steps;
    } else {
      assert (steps + more)[..|steps + more| - 1] == steps + more[..|more| - 1];
      RunConcat(steps, more[..|more| - 1]);
    }
  }

  /** What one request accepts, applied in order, extends an admitted run by admitted steps. */
  lemma {:induction false} BatchIsAdmitted(steps: seq<Step>, days: int, source: string, raws: seq<RawEvent>, now: int,
                                           order: seq<Event>)
    requires AdmittedRun(steps, days, now) && BatchOrder(Run(EMPTY_HUB, steps).events, source, raws, now, order)
    ensures AdmittedRun(steps + Reports(source, order, now), days, now)
  {
    var s := Run(EMPTY_HUB, steps);
    forall ev | ev in order
      ensures ev.id.Reported? && EventKey(source, ev.id) !in s.events && now - ev.occurredAt <= BACKFILL_WINDOW
    {
      AcceptedEventsAreNew(s.events, source, raws, now, ev);
    }
    hide Run, BatchOrder, Accepts;
    assert DistinctIds(order) by { BatchDistinct(s.events, source, raws, now, order); }
    ReportsAdmitted(steps, days, source, order, now);
  }

  lemma BatchDistinct(known: map<EventKey, EventRow>, source: string, raws: seq<RawEvent>, now: int, order: seq<Event>)
    requires BatchOrder(known, source, raws, now, order)
    ensures DistinctIds(order)
  {
  }

  lemma {:induction false} ReportsAdmitted(steps: seq<Step>, days: int, source: string, order: seq<Event>, now: int)
    requires AdmittedRun(steps, days, now) && DistinctIds(order)
    requires forall ev <- order :: ev.id.Reported? && EventKey(source, ev.id) !in Run(EMPTY_HUB, steps).events
                                   && now - ev.occurredAt <= BACKFILL_WINDOW
    ensures AdmittedRun(steps + Reports(source, order, now), days, now)
  {
    hide Run, AdmittedRun, Reports, DistinctIds;
    if order == [] {
      NoReports(source, now);
      assert steps + [] == steps;
    } else {
      var front, ev := order[..|order| - 1], order[|order| - 1];
      var reports := Reports(source, front, now);
      assert order == front + [ev];
      DistinctFront(order);
      ReportsAdmitted(steps, days, source, front, now);
      ReportsFront(source, order, now);
      assert Reports(source, order, now) == reports + [Report(source, ev, now)];
      assert steps + Reports(source, order, now) == steps + reports + [Report(source, ev, now)];
      BatchRecords(Run(EMPTY_HUB, steps), source, front, now);
      RunConcat(steps, reports);
      RunSnoc(steps + reports, Report(source, ev, now), days, now);
    }
  }

  // ---- beyond the horizon ----

  lemma {:induction false} Enumerate(s: set<Drop>) returns (q: seq<Drop>)
    ensures (forall x :: x in q <==> x in s) && forall i, j :: 0 <= i < j < |q| ==> q[i] != q[j]
    decreases |s|
  {
    if s == {} {
      return [];
    }
    assert (forall x :: x !in s) ==> s == {};
    var x :| x in s;
    var rest := Enumerate(s - {x});
    q := rest + [x];
  }

  /** Every state has a listing of what expires, so a retention run is always possible. */
  lemma {:induction false} Listable(s: Hub, cut: int) returns (drops: seq<Drop>)
    ensures ListsExpired(s, cut, drops)
  {
    var ids, refs := ExpiredMessages(s, cut), ExpiredFaults(s, cut);
    drops := Enumerate((set id <- ids :: DropMessage(id)) + (set ref <- refs :: DropFault(ref)));
  }

  /** The admitted runs in which `first`, received at `r1`, is followed by `again`, applied at `r2`. */
  ghost predicate AppliedAgain(source: string, first: Event, r1: int, again: Event, r2: int, days: int,
                               before: seq<Step>, between: seq<Step>)
  {
    AdmittedRun(before + [Report(source, first, r1)] + between + [Report(source, again, r2)], days, r2)
  }

  lemma {:induction false} AppliedStays(steps: seq<Step>, more: seq<Step>, days: int, t: int)
    requires AdmittedRun(steps + more, days, t)
    ensures Run(EMPTY_HUB, steps).applied <= Run(EMPTY_HUB, steps + more).applied
  {
    if more == [] {
      assert steps + more == steps;
    } else {
      hide Next, Admitted;
      var front, step := more[..|more| - 1], more[|more| - 1];
      assert steps + more == steps + front + [step];
      RunSnoc(steps + front, step, days, t);
      AppliedStays(steps, front, days, step.now);
      assert Enabled(Run(EMPTY_HUB, steps + front), step) by { AdmittedEnabled(Run(EMPTY_HUB, steps + front), step, days); }
      StepApplies(Run(EMPTY_HUB, steps + front), step);
    }
  }

  lemma AdmittedEnabled(s: Hub, step: Step, days: int)
    requires Admitted(s, step, days)
    ensures Enabled(s, step)
  {
  }

  lemma {:induction false} AdmittedPrefix(steps: seq<Step>, more: seq<Step>, days: int, t: int)
    requires AdmittedRun(steps + more, days, t)
    ensures AdmittedRun(steps, days, t)
  {
    if more == [] {
      assert steps + more == steps;
    } else {
      hide Run, Admitted;
      var front, step := more[..|more| - 1], more[|more| - 1];
      assert steps + more == steps + front + [step];
      RunSnoc(steps + front, step, days, t);
      AdmittedPrefix(steps, front, days, step.now);
      AdmittedLater(steps, days, step.now, t);
    }
  }

  lemma AdmittedLater(steps: seq<Step>, days: int, t: int, later: int)
    requires AdmittedRun(steps, days, t) && t <= later
    ensures AdmittedRun(steps, days, later)
  {
  }

  lemma {:induction false} RepeatOnlyBeyond(source: string, first: Event, r1: int, again: Event, r2: int, days: int,
                                            before: seq<Step>, between: seq<Step>)
    requires first.id == again.id && AppliedAgain(source, first, r1, again, r2, days, before, between)
    ensures again.occurredAt > Horizon(r1, days) && again.occurredAt >= r1 - BACKFILL_WINDOW
  {
    hide Run, Admitted, AdmittedRun, Remembered, Horizon;
    var (p, q) := (Report(source, first, r1), Report(source, again, r2));
    var steps := before + [p] + between;
    RunSnoc(steps, q, days, r2);
    AlwaysRemembered(steps, days, r2);
    AppliedStays(before + [p], between, days, r2);
    AdmittedPrefix(before + [p], between, days, r2);
    RunSnoc(before, p, days, r2);
    var s := Run(EMPTY_HUB, before);
    AdmittedEnabled(s, p, days);
    StepApplies(s, p);
    hide Next;
    var a := Applied(EventKey(source, first.id), first.occurredAt, r1);
    assert a in Next(s, p).applied;
    RepeatBeyondHorizon(Run(EMPTY_HUB, steps), q, days, a);
  }

  /** First the event, then a retention run just after it has expired, then the repetition. */
  lemma {:induction false} RepeatApplied(source: string, first: Event, r1: int, again: Event, days: int)
    returns (r2: int, between: seq<Step>)
    requires first.id == again.id && first.id.Reported? && r1 - first.occurredAt <= BACKFILL_WINDOW
    requires again.occurredAt > Horizon(r1, days) && again.occurredAt >= r1 - BACKFILL_WINDOW
    ensures AppliedAgain(source, first, r1, again, r2, days, [], between)
  {
    var due := r1 + days * DAY + 1;
    r2 := if due > r1 then due else r1;
    var (p, q, limits) := (Report(source, first, r1), Report(source, again, r2), Limits(days, 7, 100000));
    var s1 := Next(EMPTY_HUB, p);
    var drops := Listable(s1, Cut(limits, r2));
    var sweep := Retention(limits, drops, r2);
    between := [sweep];
    assert r1 < Cut(limits, r2);
    FirstForgotten(source, first, r1, limits, drops, r2);
    hide Next, Retain, ListsExpired, Horizon, Cut;
    RunSnoc([], p, days, r2);
    RunSnoc([p], sweep, days, r2);
    RunSnoc([p, sweep], q, days, r2);
    assert [] + [p] == [p] && [p] + [sweep] == [p, sweep] && [] + [p] + between + [q] == [p, sweep] + [q];
  }

  lemma {:induction false} FirstForgotten(source: string, first: Event, r1: int, limits: Limits, drops: seq<Drop>, r2: int)
    requires ListsExpired(Next(EMPTY_HUB, Report(source, first, r1)), Cut(limits, r2), drops) && r1 < Cut(limits, r2)
    ensures EventKey(source, first.id) !in Next(Next(EMPTY_HUB, Report(source, first, r1)), Retention(limits, drops, r2)).events
  {
    hide Apply, Retain, ListsExpired, Cut;
    ApplyKeepsCounters(EMPTY_HUB, source, first, false, first.seqNo <= LastSeq(EMPTY_HUB, source), r1);
    RetainTables(Next(EMPTY_HUB, Report(source, first, r1)), limits, drops, r2);
  }

  /**
   * For any event accepted at `r1` and any repetition of its id, with whatever contents and under
   * any number of days: some admitted run applies both exactly when the repetition is dated beyond
   * the horizon of the first (and is not too old to be accepted at all).
   */
  lemma {:induction false} RepeatedExactly(source: string, first: Event, r1: int, again: Event, days: int)
    requires first.id == again.id && first.id.Reported? && r1 - first.occurredAt <= BACKFILL_WINDOW
    ensures (exists r2, before, between :: AppliedAgain(source, first, r1, again, r2, days, before, between))
            <==> again.occurredAt > Horizon(r1, days) && again.occurredAt >= r1 - BACKFILL_WINDOW
  {
    hide AppliedAgain, Horizon;
    if again.occurredAt > Horizon(r1, days) && again.occurredAt >= r1 - BACKFILL_WINDOW {
      var r2, between := RepeatApplied(source, first, r1, again, days);
    }
    forall r2, before, between | AppliedAgain(source, first, r1, again, r2, days, before, between)
      ensures again.occurredAt > Horizon(r1, days) && again.occurredAt >= r1 - BACKFILL_WINDOW
    {
      RepeatOnlyBeyond(source, first, r1, again, r2, days, before, between);
    }
  }
}
