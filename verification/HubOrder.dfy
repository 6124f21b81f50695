/**
 * Seq order. When each event on a key comes after everything recorded for it, the fault row is a
 * two-state automaton and the pending lookup never finds anything; this covers sources that
 * deliver in order and every key only the hub writes. Out of order, a late open can reopen a
 * round: exactly when no pending resolve is recorded after it.
 */
module HubOrder {
  import opened Basics
  import opened HubSpec
  import opened HubRounds

  lemma {:induction false} ApplyAt(s: Hub, source: string, ev: Event, byHub: bool, late: bool, now: int)
    requires ev.topic.OnFault?
    ensures var (s', ref) := (Apply(s, source, ev, byHub, late, now), FaultRef(source, ev.topic.key));
      var v := VerdictOn(s, ref, ev.topic.action, ev);
      && (v.Deferred? ==>
            s'.faults == s.faults && s'.pending.Keys == s.pending.Keys + {PendingKey(ref, ev.seqNo)})
      && (v.Moved? ==> s'.faults == s.faults[ref := StampFault(v.row, s.changes)] && s'.pending == s.pending)
  {
    hide VerdictOn;
  }

  lemma {:induction false} ApplyAside(s: Hub, source: string, ev: Event, byHub: bool, late: bool, now: int)
    requires ev.topic.Standalone?
    ensures var s' := Apply(s, source, ev, byHub, late, now); s'.faults == s.faults && s'.pending == s.pending
  {
  }

  /** An event is recorded under its id; sequence counters move only at the transaction level. */
  lemma {:induction false} ApplyKeepsCounters(s: Hub, source: string, ev: Event, byHub: bool, late: bool, now: int)
    ensures var s' := Apply(s, source, ev, byHub, late, now);
      && s'.lastEventSeq == s.lastEventSeq && s'.hubSeq == s.hubSeq && s'.applied == s.applied
      && s'.events == s.events[EventKey(source, ev.id) :=
                                EventRow(ev.seqNo, ev.topic, ev.occurredAt, now, late, byHub)]
  {
    if ev.topic.OnFault? {
      hide VerdictOn, Effect;
      var ref := FaultRef(source, ev.topic.key);
      EffectKeepsCounters(s, ref, ev, byHub, late, VerdictOn(s, ref, ev.topic.action, ev), now);
    }
  }

  lemma {:induction false} EffectKeepsCounters(s: Hub, ref: FaultRef, ev: Event, byHub: bool, late: bool, v: Verdict, now: int)
    ensures var s' := Effect(s, ref, ev, byHub, late, v, now);
      && s'.lastEventSeq == s.lastEventSeq && s'.hubSeq == s.hubSeq && s'.applied == s.applied
      && s'.events == s.events[EventKey(ref.source, ev.id) :=
                                EventRow(ev.seqNo, ev.topic, ev.occurredAt, now, late, byHub)]
  {
  }

  // ---- the two-state automaton ----

  datatype Phase = Absent | Up(round: int) | Down(round: int)

  datatype Input = Told(action: Action) | Forget | Nothing

  function PhaseAt(s: Hub, ref: FaultRef): Phase {
    if ref !in s.faults then Absent
    else if s.faults[ref].state.IsOpen? then Up(s.faults[ref].incident) else Down(s.faults[ref].incident)
  }

  function Advance(p: Phase, input: Input): Phase {
    match input
    case Nothing => p
    case Forget => Absent
    case Told(Resolve) => if p.Up? then Down(p.round) else p
    case Told(_) => if p.Absent? then Up(1) else if p.Down? then Up(p.round + 1) else p
  }

  /** Everything recorded for the key has seq at most `bound`. */
  ghost predicate Behind(s: Hub, ref: FaultRef, bound: int) {
    && (ref in s.faults && s.faults[ref].state.IsOpen? ==> s.faults[ref].openedBySeq <= bound)
    && (forall n :: PendingKey(ref, n) in s.pending ==> n <= bound)
  }

  lemma {:induction false} NewerEventAdvances(s: Hub, source: string, ev: Event, byHub: bool, late: bool, now: int, bound: int)
    requires ev.topic.OnFault? && bound < ev.seqNo
    requires Behind(s, FaultRef(source, ev.topic.key), bound)
    ensures FindPending(s.pending, FaultRef(source, ev.topic.key), ev.seqNo).None?
    ensures var (s', ref) := (Apply(s, source, ev, byHub, late, now), FaultRef(source, ev.topic.key));
      && PhaseAt(s', ref) == Advance(PhaseAt(s, ref), Told(ev.topic.action))
      && Behind(s', ref, ev.seqNo)
  {
    hide Apply;
    ApplyAt(s, source, ev, byHub, late, now);
    var ref := FaultRef(source, ev.topic.key);
    assert FindPending(s.pending, ref, ev.seqNo).None?;
  }

  /** An event of another key, or of none, leaves this key alone. */
  lemma {:induction false} OtherKeyUntouched(s: Hub, source: string, ev: Event, byHub: bool, late: bool, now: int, ref: FaultRef)
    requires ev.topic.OnFault? ==> FaultRef(source, ev.topic.key) != ref
    ensures var s' := Apply(s, source, ev, byHub, late, now);
      && PhaseAt(s', ref) == PhaseAt(s, ref) && FaultAt(s', ref) == FaultAt(s, ref)
      && (forall bound :: Behind(s, ref, bound) ==> Behind(s', ref, bound))
  {
    hide Apply;
    if ev.topic.OnFault? { ApplyAt(s, source, ev, byHub, late, now); } else { ApplyAside(s, source, ev, byHub, late, now); }
  }

  // ---- in-order delivery ----

  predicate WritesKey(source: string, topic: Topic, ref: FaultRef) {
    topic.OnFault? && FaultRef(source, topic.key) == ref
  }

  ghost predicate InOrder(s: Hub, step: Step, ref: FaultRef) {
    && (step.Report? && step.source == ref.source ==> LastSeq(s, step.source) < step.ev.seqNo)
    && (step.HubEvent? ==> !WritesKey(step.source, step.draft.topic, ref))
  }

  function InputOf(s: Hub, step: Step, ref: FaultRef): Input {
    match step
    case Report(source, ev, _) => if WritesKey(source, ev.topic, ref) then Told(ev.topic.action) else Nothing
    case Retention(limits, _, now) => if ref in ExpiredFaults(s, Cut(limits, now)) then Forget else Nothing
    case _ => Nothing
  }

  lemma {:induction false} StepRefinesAutomaton(s: Hub, step: Step, ref: FaultRef)
    requires Enabled(s, step) && InOrder(s, step, ref) && Behind(s, ref, LastSeq(s, ref.source))
    ensures var s' := Next(s, step);
      && PhaseAt(s', ref) == Advance(PhaseAt(s, ref), InputOf(s, step, ref))
      && Behind(s', ref, LastSeq(s', ref.source))
    ensures step.Report? && WritesKey(step.source, step.ev.topic, ref)
            ==> FindPending(s.pending, ref, step.ev.seqNo).None?
  {
    hide Apply, Retain, FlagFault, MarkMessage;
    match step
    case Report(source, ev, now) =>
      var late := ev.seqNo <= LastSeq(s, source);
      if WritesKey(source, ev.topic, ref) {
        NewerEventAdvances(s, source, ev, false, late, now, LastSeq(s, source));
      } else {
        OtherKeyUntouched(s, source, ev, false, late, now, ref);
      }
      ApplyKeepsCounters(s, source, ev, false, late, now);
    case HubEvent(source, d, now) =>
      var ev := HubEventOf(s, d);
      OtherKeyUntouched(Ticked(s), source, ev, true, false, now, ref);
      ApplyKeepsCounters(Ticked(s), source, ev, true, false, now);
    case Retention(limits, drops, now) => RetainTables(s, limits, drops, now);
    case Flagging(r, flag, now) => FlagTables(s, r, flag, now);
    case Reading(id, read, now) => ReadTables(s, id, read, now);
    case Other(_, _) =>
  }

  lemma FlagTables(s: Hub, ref: FaultRef, flag: Flag, now: int)
    ensures var s' := FlagFault(s, ref, flag, now);
      && s'.pending == s.pending && s'.lastEventSeq == s.lastEventSeq && s'.faults.Keys == s.faults.Keys
      && forall r <- s.faults :: s'.faults[r].state == s.faults[r].state && s'.faults[r].incident == s.faults[r].incident
                                 && s'.faults[r].id == s.faults[r].id && s'.faults[r].openedBySeq == s.faults[r].openedBySeq
  {
    hide Log, ToFaultWire, SetFlag, FlagChanges;
    if ref in s.faults && FlagChanges(s.faults[ref], flag) {
      FlagKeepsState(s.faults[ref], flag, now);
      var row := StampFault(SetFlag(s.faults[ref], flag, now), s.changes);
      assert FlagFault(s, ref, flag, now).faults == s.faults[ref := row];
    }
  }

  lemma FlagKeepsState(f: Fault, flag: Flag, now: int)
    ensures var g := SetFlag(f, flag, now);
      g.state == f.state && g.incident == f.incident && g.id == f.id && g.openedBySeq == f.openedBySeq
  {
  }

  lemma ReadTables(s: Hub, id: nat, read: bool, now: int)
    ensures var s' := MarkMessage(s, id, read, now);
      s'.pending == s.pending && s'.lastEventSeq == s.lastEventSeq && s'.faults == s.faults
  {
    hide Log;
  }

  ghost predicate InOrderRun(s: Hub, steps: seq<Step>, ref: FaultRef) {
    steps != [] ==> InOrderRun(s, steps[..|steps| - 1], ref)
                    && InOrder(Run(s, steps[..|steps| - 1]), steps[|steps| - 1], ref)
  }

  /** The inputs the key receives over a run. */
  function Inputs(s: Hub, steps: seq<Step>, ref: FaultRef): seq<Input> {
    if steps == [] then [] else
      Inputs(s, steps[..|steps| - 1], ref) + [InputOf(Run(s, steps[..|steps| - 1]), steps[|steps| - 1], ref)]
  }

  function Automaton(inputs: seq<Input>): Phase {
    if inputs == [] then Absent else Advance(Automaton(inputs[..|inputs| - 1]), inputs[|inputs| - 1])
  }

  /** Delivered in order, a key's row is the two-state automaton fed with its events. */
  lemma {:induction false} InOrderRefinesAutomaton(steps: seq<Step>, ref: FaultRef)
    requires ValidRun(EMPTY_HUB, steps) && InOrderRun(EMPTY_HUB, steps, ref)
    ensures var s := Run(EMPTY_HUB, steps);
      PhaseAt(s, ref) == Automaton(Inputs(EMPTY_HUB, steps, ref)) && Behind(s, ref, LastSeq(s, ref.source))
  {
    if steps != [] {
      var front := steps[..|steps| - 1];
      InOrderRefinesAutomaton(front, ref);
      StepRefinesAutomaton(Run(EMPTY_HUB, front), steps[|steps| - 1], ref);
      var inputs := Inputs(EMPTY_HUB, steps, ref);
      assert inputs[..|inputs| - 1] == Inputs(EMPTY_HUB, front, ref);
    }
  }

  // ---- keys only the hub writes ----

  ghost predicate HubOwned(s: Hub, ref: FaultRef) { Behind(s, ref, s.hubSeq) }

  lemma {:induction false} StepKeepsHubOwned(s: Hub, step: Step, ref: FaultRef)
    requires Enabled(s, step) && HubOwned(s, ref)
    requires step.Report? ==> !WritesKey(step.source, step.ev.topic, ref)
    ensures HubOwned(Next(s, step), ref)
    ensures step.HubEvent? && WritesKey(step.source, step.draft.topic, ref)
            ==> PhaseAt(Next(s, step), ref) == Advance(PhaseAt(s, ref), Told(step.draft.topic.action))
    ensures step.Report? || (step.HubEvent? && !WritesKey(step.source, step.draft.topic, ref))
            ==> PhaseAt(Next(s, step), ref) == PhaseAt(s, ref)
  {
    hide Apply, Retain;
    match step
    case Report(source, ev, now) =>
      var late := ev.seqNo <= LastSeq(s, source);
      OtherKeyUntouched(s, source, ev, false, late, now, ref);
      ApplyKeepsCounters(s, source, ev, false, late, now);
    case HubEvent(source, d, now) =>
      var ev := HubEventOf(s, d);
      ApplyKeepsCounters(Ticked(s), source, ev, true, false, now);
      if WritesKey(source, d.topic, ref) {
        NewerEventAdvances(Ticked(s), source, ev, true, false, now, s.hubSeq);
      } else {
        OtherKeyUntouched(Ticked(s), source, ev, true, false, now, ref);
      }
    case Retention(limits, drops, now) => RetainTables(s, limits, drops, now);
    case _ =>
  }

  // ---- late opens ----

  /** A resolve with a larger seq has already been received for the key. */
  ghost predicate Superseded(s: Hub, ref: FaultRef, ev: Event) {
    exists k <- s.events :: k.source == ref.source && s.events[k].topic == OnFault(ref.key, Resolve)
                            && s.events[k].seqNo > ev.seqNo
  }

  ghost predicate IsOpenAt(s: Hub, ref: FaultRef) { PhaseAt(s, ref).Up? }

  /** Whether an open finds the round down and leaves it up depends only on the pending table. */
  lemma {:induction false} LateOpenExactly(s: Hub, source: string, ev: Event, byHub: bool, late: bool, now: int)
    requires ev.topic.OnFault? && !ev.topic.action.Resolve?
    ensures var (s', ref) := (Apply(s, source, ev, byHub, late, now), FaultRef(source, ev.topic.key));
      !IsOpenAt(s, ref) ==>
        (IsOpenAt(s', ref) <==> !exists n :: PendingKey(ref, n) in s.pending && n > ev.seqNo)
  {
    hide Apply;
    ApplyAt(s, source, ev, byHub, late, now);
  }

  /** The step is a resolve of the key with seq `n`, from the source or from the hub itself. */
  predicate Resolves(s: Hub, step: Step, ref: FaultRef, n: int) {
    match step
    case Report(source, ev, _) => WritesKey(source, ev.topic, ref) && ev.topic.action.Resolve? && ev.seqNo == n
    case HubEvent(source, d, _) => WritesKey(source, d.topic, ref) && d.topic.action.Resolve? && s.hubSeq + 1 == n
    case _ => false
  }

  predicate Closes(s: Hub, step: Step, ref: FaultRef) { PhaseAt(s, ref).Up? && !PhaseAt(Next(s, step), ref).Up? }

  /** Retention takes the record of the resolve away. */
  predicate Forgets(s: Hub, step: Step, ref: FaultRef, n: int) {
    step.Retention? && PendingKey(ref, n) in s.pending && PendingKey(ref, n) !in Next(s, step).pending
  }

  lemma ResolveVerdict(s: Hub, ref: FaultRef, action: Action, ev: Event)
    ensures var v := VerdictOn(s, ref, action, ev);
      && (v.Deferred? ==> action.Resolve?)
      && (v.Moved? && action.Resolve? ==> PhaseAt(s, ref).Up? && v.row.state.IsResolved?)
  {
  }

  lemma {:induction false} ApplyRecords(s: Hub, source: string, ev: Event, byHub: bool, late: bool, now: int, ref: FaultRef, n: int)
    ensures var s' := Apply(s, source, ev, byHub, late, now);
      PendingKey(ref, n) in s'.pending
      <==> PendingKey(ref, n) in s.pending
           || (WritesKey(source, ev.topic, ref) && ev.topic.action.Resolve? && ev.seqNo == n
               && !(PhaseAt(s, ref).Up? && !PhaseAt(s', ref).Up?))
  {
    hide Apply, VerdictOn;
    match ev.topic
    case Standalone => ApplyAside(s, source, ev, byHub, late, now);
    case OnFault(key, action) =>
      ApplyAt(s, source, ev, byHub, late, now);
      ResolveVerdict(s, FaultRef(source, key), action, ev);
  }

  lemma {:induction false} StepRecords(s: Hub, step: Step, ref: FaultRef, n: int)
    requires Enabled(s, step)
    ensures PendingKey(ref, n) in Next(s, step).pending
            <==> (PendingKey(ref, n) in s.pending && !Forgets(s, step, ref, n))
                 || (Resolves(s, step, ref, n) && !Closes(s, step, ref))
  {
    hide Apply, Retain, FlagFault, MarkMessage;
    match step
    case Report(source, ev, now) => ApplyRecords(s, source, ev, false, ev.seqNo <= LastSeq(s, source), now, ref, n);
    case HubEvent(source, d, now) => ApplyRecords(Ticked(s), source, HubEventOf(s, d), true, false, now, ref, n);
    case Retention(limits, drops, now) => RetainTables(s, limits, drops, now);
    case Flagging(r, flag, now) => FlagTables(s, r, flag, now);
    case Reading(id, read, now) => ReadTables(s, id, read, now);
    case Other(_, _) =>
  }

  /** Step `i` is a resolve of the key with seq `n`, as it was received. */
  ghost predicate Received(steps: seq<Step>, i: int, ref: FaultRef, n: int) {
    0 <= i < |steps| && Resolves(Run(EMPTY_HUB, steps[..i]), steps[i], ref, n)
  }

  ghost predicate ClosedOnArrival(steps: seq<Step>, i: int, ref: FaultRef) {
    0 <= i < |steps| && Closes(Run(EMPTY_HUB, steps[..i]), steps[i], ref)
  }

  ghost predicate ForgottenAt(steps: seq<Step>, j: int, ref: FaultRef, n: int) {
    0 <= j < |steps| && Forgets(Run(EMPTY_HUB, steps[..j]), steps[j], ref, n)
  }

  /** It is recorded still: it closed nothing when it came, and no retention run has taken it since. */
  ghost predicate Outstanding(steps: seq<Step>, i: int, ref: FaultRef, n: int) {
    Received(steps, i, ref, n) && !ClosedOnArrival(steps, i, ref) && forall j :: j > i ==> !ForgottenAt(steps, j, ref, n)
  }

  lemma OutstandingMore(steps: seq<Step>, step: Step, i: int, ref: FaultRef, n: int)
    ensures var s := Run(EMPTY_HUB, steps);
      Outstanding(steps + [step], i, ref, n)
      <==> (Outstanding(steps, i, ref, n) && !Forgets(s, step, ref, n))
           || (i == |steps| && Resolves(s, step, ref, n) && !Closes(s, step, ref))
  {
    hide Run, Resolves, Closes, Forgets;
    var more := steps + [step];
    assert forall k :: 0 <= k <= |steps| ==> more[..k] == steps[..k];
    assert steps[..|steps|] == steps;
    forall k ensures ForgottenAt(more, k, ref, n)
      <==> ForgottenAt(steps, k, ref, n) || (k == |steps| && Forgets(Run(EMPTY_HUB, steps), step, ref, n))
    {
    }
    assert ForgottenAt(more, |steps|, ref, n) <==> Forgets(Run(EMPTY_HUB, steps), step, ref, n);
  }

  ghost predicate AnyOutstanding(steps: seq<Step>, ref: FaultRef, n: int) { exists i :: Outstanding(steps, i, ref, n) }

  lemma AnyOutstandingMore(steps: seq<Step>, step: Step, ref: FaultRef, n: int)
    ensures var s := Run(EMPTY_HUB, steps);
      AnyOutstanding(steps + [step], ref, n)
      <==> (AnyOutstanding(steps, ref, n) && !Forgets(s, step, ref, n))
           || (Resolves(s, step, ref, n) && !Closes(s, step, ref))
  {
    hide Run, Outstanding, Resolves, Closes, Forgets;
    forall i
      ensures Outstanding(steps + [step], i, ref, n)
              <==> (Outstanding(steps, i, ref, n) && !Forgets(Run(EMPTY_HUB, steps), step, ref, n))
                   || (i == |steps| && Resolves(Run(EMPTY_HUB, steps), step, ref, n)
                       && !Closes(Run(EMPTY_HUB, steps), step, ref))
    {
      OutstandingMore(steps, step, i, ref, n);
    }
    OutstandingMore(steps, step, |steps|, ref, n);
  }

  lemma RunMore(steps: seq<Step>, step: Step)
    ensures Run(EMPTY_HUB, steps + [step]) == Next(Run(EMPTY_HUB, steps), step)
    ensures ValidRun(EMPTY_HUB, steps + [step]) <==> ValidRun(EMPTY_HUB, steps) && Enabled(Run(EMPTY_HUB, steps), step)
  {
    hide Next, Enabled;
    assert (steps + [step])[..|steps|] == steps;
  }

  lemma PendingNext(front: seq<Step>, step: Step, ref: FaultRef, n: int)
    requires ValidRun(EMPTY_HUB, front + [step])
    requires PendingKey(ref, n) in Run(EMPTY_HUB, front).pending <==> AnyOutstanding(front, ref, n)
    ensures PendingKey(ref, n) in Run(EMPTY_HUB, front + [step]).pending <==> AnyOutstanding(front + [step], ref, n)
  {
    hide Run, ValidRun, Next, Enabled, AnyOutstanding, Resolves, Closes, Forgets;
    RunMore(front, step);
    StepRecords(Run(EMPTY_HUB, front), step, ref, n);
    AnyOutstandingMore(front, step, ref, n);
  }

  /** Over every run: what is pending is exactly the resolves outstanding. */
  lemma {:induction false} PendingExactly(steps: seq<Step>, ref: FaultRef, n: int)
    requires ValidRun(EMPTY_HUB, steps)
    ensures PendingKey(ref, n) in Run(EMPTY_HUB, steps).pending <==> AnyOutstanding(steps, ref, n)
  {
    hide Next, Enabled, Resolves, Closes, Forgets;
    if steps != [] {
      var front, step := steps[..|steps| - 1], steps[|steps| - 1];
      PendingExactly(front, ref, n);
      assert steps == front + [step];
      hide Run, ValidRun, AnyOutstanding;
      PendingNext(front, step, ref, n);
    }
  }

  /** Every resolve of a larger seq has closed a round on arrival or been removed by retention since. */
  ghost predicate LateOpenAllowed(steps: seq<Step>, ref: FaultRef, seqNo: int) {
    forall i, n :: Received(steps, i, ref, n) && n > seqNo ==>
      ClosedOnArrival(steps, i, ref) || exists j :: j > i && ForgottenAt(steps, j, ref, n)
  }

  /**
   * Over every run: an open that finds the round down leaves it up exactly when every resolve of
   * a larger seq received so far closed a round as it came or has since been removed by retention.
   */
  lemma {:induction false} LateOpenOverRuns(steps: seq<Step>, source: string, ev: Event, now: int)
    requires ValidRun(EMPTY_HUB, steps + [Report(source, ev, now)])
    requires ev.topic.OnFault? && !ev.topic.action.Resolve?
    requires !IsOpenAt(Run(EMPTY_HUB, steps), FaultRef(source, ev.topic.key))
    ensures var ref := FaultRef(source, ev.topic.key);
      IsOpenAt(Run(EMPTY_HUB, steps + [Report(source, ev, now)]), ref)
      <==> LateOpenAllowed(steps, ref, ev.seqNo)
  {
    hide Apply, Run, ValidRun, AnyOutstanding, Enabled;
    var ref, s, step := FaultRef(source, ev.topic.key), Run(EMPTY_HUB, steps), Report(source, ev, now);
    RunMore(steps, step);
    LateOpenExactly(s, source, ev, false, ev.seqNo <= LastSeq(s, source), now);
    ReportPhase(s, source, ev, now, ref);
    hide LateOpenAllowed, IsOpenAt, Next;
    forall n ensures PendingKey(ref, n) in s.pending <==> AnyOutstanding(steps, ref, n) {
      PendingExactly(steps, ref, n);
    }
    NoneOutstanding(steps, ref, ev.seqNo);
  }

  lemma ReportPhase(s: Hub, source: string, ev: Event, now: int, ref: FaultRef)
    ensures PhaseAt(Next(s, Report(source, ev, now)), ref)
         == PhaseAt(Apply(s, source, ev, false, ev.seqNo <= LastSeq(s, source), now), ref)
  {
    hide Apply;
  }

  lemma NoneOutstanding(steps: seq<Step>, ref: FaultRef, seqNo: int)
    ensures LateOpenAllowed(steps, ref, seqNo) <==> forall n :: AnyOutstanding(steps, ref, n) ==> n <= seqNo
  {
    hide Received, ClosedOnArrival, ForgottenAt;
    if LateOpenAllowed(steps, ref, seqNo) {
      forall n | AnyOutstanding(steps, ref, n) ensures n <= seqNo {
        var i :| Outstanding(steps, i, ref, n);
        assert Received(steps, i, ref, n);
      }
    } else {
      var i, n :| Received(steps, i, ref, n) && n > seqNo && !ClosedOnArrival(steps, i, ref)
                  && forall j :: j > i ==> !ForgottenAt(steps, j, ref, n);
      assert Outstanding(steps, i, ref, n);
      assert AnyOutstanding(steps, ref, n);
    }
  }

  function PlainEvent(id: string, seqNo: int, action: Action): Event {
    Event(Reported(id), seqNo, "feedback_fault", 0, "warning", OnFault("k", action), "t", None)
  }

  function PlainReport(id: string, seqNo: int, action: Action): Step { Report("src", PlainEvent(id, seqNo, action), 0) }

  /** A resolve that closes a round is not kept, so an older open reopens it: seqs 1, 10, then 5. */
  lemma {:induction false} GhostOpen()
    ensures var (ref, steps) := (FaultRef("src", "k"), [PlainReport("a", 1, Open), PlainReport("b", 10, Resolve)]);
      var late := PlainReport("c", 5, Open);
      && ValidRun(EMPTY_HUB, steps + [late])
      && Superseded(Run(EMPTY_HUB, steps), ref, late.ev) && !IsOpenAt(Run(EMPTY_HUB, steps), ref)
      && IsOpenAt(Run(EMPTY_HUB, steps + [late]), ref)
  {
    hide Next, Run, ValidRun, Enabled, Superseded, IsOpenAt, PlainReport;
    var (r1, r2) := (PlainReport("a", 1, Open), PlainReport("b", 10, Resolve));
    var s1 := Next(EMPTY_HUB, r1);
    GhostEvents(s1, Next(s1, r2));
    GhostPhases(s1, Next(s1, r2));
    RunOfThree(r1, r2, PlainReport("c", 5, Open));
  }

  lemma RunOfThree(r1: Step, r2: Step, r3: Step)
    ensures var s := Next(Next(EMPTY_HUB, r1), r2);
      && Run(EMPTY_HUB, [r1, r2]) == s && Run(EMPTY_HUB, [r1, r2] + [r3]) == Next(s, r3)
      && (ValidRun(EMPTY_HUB, [r1, r2] + [r3])
          <==> Enabled(EMPTY_HUB, r1) && Enabled(Next(EMPTY_HUB, r1), r2) && Enabled(s, r3))
  {
    assert Run(EMPTY_HUB, []) == EMPTY_HUB && ValidRun(EMPTY_HUB, []);
    hide Next, Run, ValidRun, Enabled;
    assert [] + [r1] == [r1] && [r1] + [r2] == [r1, r2];
    RunMore([], r1);
    RunMore([r1], r2);
    RunMore([r1, r2], r3);
  }

  lemma PlainReported(s: Hub, id: string, seqNo: int, action: Action)
    ensures Next(s, PlainReport(id, seqNo, action)).events
         == s.events[EventKey("src", Reported(id)) :=
                      EventRow(seqNo, OnFault("k", action), 0, 0, seqNo <= LastSeq(s, "src"), false)]
  {
    hide Apply;
    ApplyKeepsCounters(s, "src", PlainEvent(id, seqNo, action), false, seqNo <= LastSeq(s, "src"), 0);
  }

  lemma GhostEvents(s1: Hub, s2: Hub)
    requires s1 == Next(EMPTY_HUB, PlainReport("a", 1, Open)) && s2 == Next(s1, PlainReport("b", 10, Resolve))
    ensures var late := PlainReport("c", 5, Open);
      && Enabled(EMPTY_HUB, PlainReport("a", 1, Open)) && Enabled(s1, PlainReport("b", 10, Resolve)) && Enabled(s2, late)
      && Superseded(s2, FaultRef("src", "k"), late.ev)
  {
    hide Next, LastSeq;
    PlainReported(EMPTY_HUB, "a", 1, Open);
    PlainReported(s1, "b", 10, Resolve);
    assert EventKey("src", Reported("b")) in s2.events && s2.events[EventKey("src", Reported("b"))].seqNo == 10;
  }

  lemma {:induction false} GhostPhases(s1: Hub, s2: Hub)
    requires s1 == Next(EMPTY_HUB, PlainReport("a", 1, Open)) && s2 == Next(s1, PlainReport("b", 10, Resolve))
    ensures var ref := FaultRef("src", "k"); !IsOpenAt(s2, ref) && IsOpenAt(Next(s2, PlainReport("c", 5, Open)), ref)
  {
    hide Apply;
    var ref := FaultRef("src", "k");
    NewerEventAdvances(EMPTY_HUB, "src", PlainEvent("a", 1, Open), false, 1 <= LastSeq(EMPTY_HUB, "src"), 0, 0);
    NewerEventAdvances(s1, "src", PlainEvent("b", 10, Resolve), false, 10 <= LastSeq(s1, "src"), 0, 1);
    NothingPending(s1, s2);
    LateOpenExactly(s2, "src", PlainEvent("c", 5, Open), false, 5 <= LastSeq(s2, "src"), 0);
  }

  lemma {:induction false} NothingPending(s1: Hub, s2: Hub)
    requires s1 == Next(EMPTY_HUB, PlainReport("a", 1, Open)) && s2 == Next(s1, PlainReport("b", 10, Resolve))
    ensures forall n :: PendingKey(FaultRef("src", "k"), n) !in s2.pending
  {
    hide Apply, VerdictOn;
    var ref := FaultRef("src", "k");
    NewerEventAdvances(EMPTY_HUB, "src", PlainEvent("a", 1, Open), false, 1 <= LastSeq(EMPTY_HUB, "src"), 0, 0);
    NewerEventAdvances(s1, "src", PlainEvent("b", 10, Resolve), false, 10 <= LastSeq(s1, "src"), 0, 1);
    forall n ensures PendingKey(ref, n) !in s2.pending {
      ApplyRecords(EMPTY_HUB, "src", PlainEvent("a", 1, Open), false, 1 <= LastSeq(EMPTY_HUB, "src"), 0, ref, n);
      ApplyRecords(s1, "src", PlainEvent("b", 10, Resolve), false, 10 <= LastSeq(s1, "src"), 0, ref, n);
    }
  }
}
