/**
 * What one event leaves, field by field: the fault row in each branch of the state machine, the
 * message row and its notification, the messages a closed round takes in; and over every run,
 * that a closed row was closed by a resolve really received for its key.
 */
module HubEvents {
  import opened Basics
  import opened HubSpec
  import opened HubRounds
  import opened HubOrder
  import opened HubLinks

  // ---- the fault row ----

  /** `n` is the least seq above `seqNo` of a resolve recorded for the key. */
  ghost predicate NextRecorded(s: Hub, ref: FaultRef, seqNo: int, n: int) {
    && PendingKey(ref, n) in s.pending && n > seqNo
    && forall k :: PendingKey(ref, k) in s.pending && k > seqNo ==> n <= k
  }

  ghost predicate NoneRecorded(s: Hub, ref: FaultRef, seqNo: int) {
    forall k :: PendingKey(ref, k) in s.pending ==> k <= seqNo
  }

  ghost predicate Unresolved(f: Fault) {
    f.state.IsOpen? && f.resolvedAt.None? && f.resolvedBySeq.None? && f.resolvedBy.None?
  }

  /** Closed as the recorded resolve of seq `n` says. */
  ghost predicate ResolvedAs(f: Fault, n: int, p: Pending) {
    && f.state.IsResolved? && f.resolvedAt == Some(p.occurredAt) && f.resolvedBySeq == Some(n)
    && f.resolvedBy == Some(p.eventId)
  }

  ghost predicate SameResolution(f: Fault, g: Fault) {
    f.state == g.state && f.resolvedAt == g.resolvedAt && f.resolvedBySeq == g.resolvedBySeq && f.resolvedBy == g.resolvedBy
  }

  ghost predicate SameFlags(f: Fault, g: Fault) { f.readAt == g.readAt && f.mutedAt == g.mutedAt && f.mutedUntil == g.mutedUntil }

  /** The round that `ev` opens: dated, worded and counted from it alone. */
  ghost predicate OpenedBy(f: Fault, ev: Event) {
    && f.severity == ev.severity && f.title == ev.title && f.summary == ev.body
    && f.openedAt == ev.occurredAt && f.openedBySeq == ev.seqNo && f.lastEventAt == ev.occurredAt
    && f.eventCount == 1 && f.readAt.None?
  }

  /** An open or update on a key without a row, in every field of the new row. */
  lemma {:induction false} NewKeyRow(s: Hub, source: string, ev: Event, byHub: bool, late: bool, now: int)
    requires ev.topic.OnFault? && !ev.topic.action.Resolve? && FaultRef(source, ev.topic.key) !in s.faults
    ensures var (s', ref) := (Apply(s, source, ev, byHub, late, now), FaultRef(source, ev.topic.key));
      && s'.faults.Keys == s.faults.Keys + {ref} && s'.pending == s.pending
      && var f := s'.faults[ref];
         && OpenedBy(f, ev) && f.id == s.nextId && f.incident == 1 && f.mutedAt.None? && f.mutedUntil.None?
         && f.changeSeq == s.changes.last + 1
         && (NoneRecorded(s, ref, ev.seqNo) ==> Unresolved(f))
         && (forall n :: NextRecorded(s, ref, ev.seqNo, n) ==> ResolvedAs(f, n, s.pending[PendingKey(ref, n)]))
  {
    hide Apply;
    ApplyAt(s, source, ev, byHub, late, now);
    var ref := FaultRef(source, ev.topic.key);
    var later := FindPending(s.pending, ref, ev.seqNo);
    forall n | NextRecorded(s, ref, ev.seqNo, n) ensures later == Some((n, s.pending[PendingKey(ref, n)])) {
    }
  }

  /** The higher of two severities; a tie keeps the first. */
  ghost predicate Higher(a: string, b: string, r: string) {
    && (r == a || r == b) && SeverityRank(r) >= SeverityRank(a) && SeverityRank(r) >= SeverityRank(b)
    && (SeverityRank(a) == SeverityRank(b) ==> r == a)
  }

  lemma SeveritiesRanked()
    ensures SeverityRank("critical") > SeverityRank("warning") > SeverityRank("info")
    ensures forall x :: x != "critical" && x != "warning" && x != "info" ==> SeverityRank(x) < SeverityRank("info")
  {
  }

  /** An open or update that joins a round: the round up, or a closed one a recorded resolve covers. */
  lemma {:induction false} JoinedRow(s: Hub, source: string, ev: Event, byHub: bool, late: bool, now: int)
    requires ev.topic.OnFault? && !ev.topic.action.Resolve? && FaultRef(source, ev.topic.key) in s.faults
    requires var ref := FaultRef(source, ev.topic.key);
      s.faults[ref].state.IsOpen? || !NoneRecorded(s, ref, ev.seqNo)
    ensures var (s', ref) := (Apply(s, source, ev, byHub, late, now), FaultRef(source, ev.topic.key));
      && s'.faults.Keys == s.faults.Keys && s'.pending == s.pending
      && var (f, f') := (s.faults[ref], s'.faults[ref]);
         && SameResolution(f', f) && SameFlags(f', f) && f'.id == f.id && f'.incident == f.incident
         && f'.openedAt == f.openedAt && f'.openedBySeq == f.openedBySeq && f'.eventCount == f.eventCount + 1
         && f'.title == ev.title && f'.summary == ev.body && Higher(f.severity, ev.severity, f'.severity)
         && f'.lastEventAt == (if ev.occurredAt > f.lastEventAt then ev.occurredAt else f.lastEventAt)
         && f'.changeSeq == s.changes.last + 1
  {
    hide Apply;
    ApplyAt(s, source, ev, byHub, late, now);
  }

  /** An open or update that reopens a closed key: the next round. */
  lemma {:induction false} ReopenedRow(s: Hub, source: string, ev: Event, byHub: bool, late: bool, now: int)
    requires ev.topic.OnFault? && !ev.topic.action.Resolve? && FaultRef(source, ev.topic.key) in s.faults
    requires var ref := FaultRef(source, ev.topic.key);
      s.faults[ref].state.IsResolved? && NoneRecorded(s, ref, ev.seqNo)
    ensures var (s', ref) := (Apply(s, source, ev, byHub, late, now), FaultRef(source, ev.topic.key));
      && s'.faults.Keys == s.faults.Keys && s'.pending == s.pending
      && var (f, f') := (s.faults[ref], s'.faults[ref]);
         && OpenedBy(f', ev) && Unresolved(f') && f'.id == f.id && f'.incident == f.incident + 1
         && f'.mutedAt == f.mutedAt && f'.mutedUntil == f.mutedUntil && f'.changeSeq == s.changes.last + 1
  {
    hide Apply;
    ApplyAt(s, source, ev, byHub, late, now);
  }

  ghost predicate ClosableBy(s: Hub, ref: FaultRef, seqNo: int) {
    ref in s.faults && s.faults[ref].state.IsOpen? && s.faults[ref].openedBySeq < seqNo
  }

  /** A resolve closes the round that an earlier seq opened; any other leaves all rows alone and is recorded. */
  lemma {:induction false} ResolvedRow(s: Hub, source: string, ev: Event, byHub: bool, late: bool, now: int)
    requires ev.topic.OnFault? && ev.topic.action.Resolve?
    ensures var (s', ref) := (Apply(s, source, ev, byHub, late, now), FaultRef(source, ev.topic.key));
      && s'.faults.Keys == s.faults.Keys
      && (ClosableBy(s, ref, ev.seqNo) ==>
            var (f, f') := (s.faults[ref], s'.faults[ref]);
            && f'.state.IsResolved? && f'.resolvedAt == Some(ev.occurredAt) && f'.resolvedBySeq == Some(ev.seqNo)
            && f'.resolvedBy == Some(ev.id) && SameFlags(f', f) && f'.id == f.id && f'.incident == f.incident
            && f'.openedAt == f.openedAt && f'.openedBySeq == f.openedBySeq && f'.severity == f.severity
            && f'.eventCount == f.eventCount + 1 && f'.title == ev.title && f'.summary == ev.body
            && f'.lastEventAt == ev.occurredAt && f'.changeSeq == s.changes.last + 1 && s'.pending == s.pending)
      && (!ClosableBy(s, ref, ev.seqNo) ==>
            var k := PendingKey(ref, ev.seqNo);
            && s'.faults == s.faults && k in s'.pending && s'.pending.Keys == s.pending.Keys + {k}
            && (k !in s.pending ==> s'.pending[k] == Pending(ev.occurredAt, ev.title, ev.id))
            && (forall x <- s.pending :: s'.pending[x] == s.pending[x]))
  {
    hide Apply;
    ApplyAt(s, source, ev, byHub, late, now);
    if !ClosableBy(s, FaultRef(source, ev.topic.key), ev.seqNo) {
      RecordedAt(s, source, ev, byHub, late, now);
    }
  }

  lemma {:induction false} RecordedAt(s: Hub, source: string, ev: Event, byHub: bool, late: bool, now: int)
    requires ev.topic.OnFault? && VerdictOn(s, FaultRef(source, ev.topic.key), ev.topic.action, ev).Deferred?
    ensures var k := PendingKey(FaultRef(source, ev.topic.key), ev.seqNo);
      Apply(s, source, ev, byHub, late, now).pending
      == if k in s.pending then s.pending else s.pending[k := Pending(ev.occurredAt, ev.title, ev.id)]
  {
    hide VerdictOn, MessageOf, Log;
  }

  /** Rows of other keys stay, and so does everything when the event has no key. */
  lemma {:induction false} OtherRows(s: Hub, source: string, ev: Event, byHub: bool, late: bool, now: int)
    ensures var s' := Apply(s, source, ev, byHub, late, now);
      forall r <- s.faults :: (ev.topic.OnFault? ==> r != FaultRef(source, ev.topic.key)) ==> r in s'.faults && s'.faults[r] == s.faults[r]
  {
    hide Apply;
    if ev.topic.OnFault? { ApplyAt(s, source, ev, byHub, late, now); } else { ApplyAside(s, source, ev, byHub, late, now); }
  }

  // ---- the message and its notification ----

  /** The message row repeats its event; the hub's own events keep their kind, a source's open does not. */
  ghost predicate Tells(m: Message, source: string, ev: Event, byHub: bool, late: bool, now: int) {
    && m.source == source && m.severity == ev.severity && m.title == ev.title && m.body == ev.body
    && m.occurredAt == ev.occurredAt && m.receivedAt == now && m.readAt.None?
    && m.eventId == ev.id && m.eventSeq == ev.seqNo && m.outOfOrder == late
    && m.faultKey == (if ev.topic.OnFault? then Some(ev.topic.key) else None)
    && m.kind == (if !byHub && ev.topic.OnFault? && ev.topic.action == Open then "fault_open" else ev.kind)
  }

  /** The event moves the row of its key, or else is a resolve that comes first. */
  ghost predicate Moves(s: Hub, ref: FaultRef, ev: Event) {
    ev.topic.OnFault? && (ev.topic.action.Resolve? ==> ClosableBy(s, ref, ev.seqNo))
  }

  /** The fault a message of the event belongs to, and its round if the event moved it. */
  ghost predicate Belongs(m: Message, s: Hub, s': Hub, ref: FaultRef, ev: Event) {
    if Moves(s, ref, ev) then ref in s'.faults && m.faultId == Some(s'.faults[ref].id) && m.incident == Some(s'.faults[ref].incident)
    else m.incident.None?
         && m.faultId == if ev.topic.OnFault? && ref in s.faults then Some(s.faults[ref].id) else None
  }

  /** What the message announces: the change of the round, or news. */
  function NoticeOf(s: Hub, s': Hub, ref: FaultRef, ev: Event): NotifyKind {
    var (before, after) := (PhaseAt(s, ref).Up?, PhaseAt(s', ref).Up?);
    if !ev.topic.OnFault? then NewMessage
    else if !before && after then IncidentOpen
    else if before && !after then IncidentResolved
    else if before && !ev.topic.action.Resolve? then IncidentUpdate
    else NewMessage
  }

  function OwnerOf(v: Verdict): Option<nat> {
    match v
    case Deferred(was) => if was.Some? then Some(was.value.id) else None
    case Moved(f, _) => Some(f.id)
  }

  function RoundOf(v: Verdict): Option<int> { if v.Moved? then Some(v.row.incident) else None }

  predicate MutedIn(v: Verdict) {
    match v
    case Deferred(was) => was.Some? && was.value.mutedAt.Some?
    case Moved(f, _) => f.mutedAt.Some?
  }

  /** `m` is the new row under `id`, and the last change is that row with its notification. */
  ghost predicate PostedLast(s: Hub, s': Hub, id: nat, kind: NotifyKind, muted: bool, now: int) {
    && s'.nextId == id + 1 && s'.messages.Keys == s.messages.Keys + {id} && s'.changes.history != []
    && s'.changes.history[|s'.changes.history| - 1]
       == Entry(s'.changes.last, MessageChange(ToMessageWire(id, s'.messages[id])),
                Some(Notify(kind, s'.messages[id].faultId, muted)), now)
  }

  lemma PostMessage(s: Hub, m: Message, kind: NotifyKind, muted: bool, now: int)
    ensures var s' := Post(s, m, kind, muted, now);
      PostedLast(s, s', s.nextId, kind, muted, now) && s'.messages[s.nextId] == m.(changeSeq := s'.changes.last)
  {
    hide ToMessageWire;
  }

  lemma SettledIds(s: Hub, ref: FaultRef, ev: Event, v: Verdict, now: int)
    ensures var s1 := Settle(s, ref, ev, v, now); s1.nextId == MessageId(s, ref, v) && s1.messages.Keys == s.messages.Keys
  {
    hide Orphans, At, ToFaultWire, Log;
  }

  lemma {:induction false} EffectMessage(s: Hub, ref: FaultRef, ev: Event, byHub: bool, late: bool, v: Verdict, now: int)
    ensures var (s', id) := (Effect(s, ref, ev, byHub, late, v, now), MessageId(s, ref, v));
      && PostedLast(s, s', id, if v.Moved? then v.kind else NewMessage, MutedIn(v), now)
      && s'.messages[id] == MessageOf(ref.source, ev, byHub, late, now, OwnerOf(v), RoundOf(v))
                              .(changeSeq := s'.changes.last)
  {
    hide Settle, Post, ToMessageWire, MessageOf;
    var s0 := Record(s, ref.source, ev, byHub, late, now);
    SettledIds(s0, ref, ev, v, now);
    PostMessage(Settle(s0, ref, ev, v, now), MessageOf(ref.source, ev, byHub, late, now, OwnerOf(v), RoundOf(v)),
                if v.Moved? then v.kind else NewMessage, MutedIn(v), now);
    assert (MessageOf(ref.source, ev, byHub, late, now, OwnerOf(v), RoundOf(v))).faultId == OwnerOf(v) by {
      OwnerKept(ref.source, ev, byHub, late, now, OwnerOf(v), RoundOf(v));
    }
  }

  lemma OwnerKept(source: string, ev: Event, byHub: bool, late: bool, now: int, owner: Option<nat>, round: Option<int>)
    ensures MessageOf(source, ev, byHub, late, now, owner, round).faultId == owner
  {
  }

  lemma {:induction false} JudgedNotice(s: Hub, ref: FaultRef, action: Action, ev: Event)
    requires ev.topic == OnFault(ref.key, action)
    ensures var v := VerdictOn(s, ref, action, ev);
      && (v.Moved? <==> Moves(s, ref, ev))
      && (v.Deferred? ==> v.was == FaultAt(s, ref))
      && (v.Moved? ==> v.kind == (if !PhaseAt(s, ref).Up? && v.row.state.IsOpen? then IncidentOpen
                                  else if PhaseAt(s, ref).Up? && v.row.state.IsResolved? then IncidentResolved
                                  else if PhaseAt(s, ref).Up? && !action.Resolve? then IncidentUpdate else NewMessage))
  {
  }

  /** The event's message is the last change of its transaction. */
  ghost predicate ToldLast(s: Hub, s': Hub, source: string, ev: Event, byHub: bool, late: bool, now: int) {
    var ref := FaultRef(source, if ev.topic.OnFault? then ev.topic.key else "");
    exists id :: id >= s.nextId && id in s'.messages
      && PostedLast(s, s', id, NoticeOf(s, s', ref, ev), ev.topic.OnFault? && ref in s'.faults && s'.faults[ref].mutedAt.Some?, now)
      && Tells(s'.messages[id], source, ev, byHub, late, now) && Belongs(s'.messages[id], s, s', ref, ev)
  }

  lemma {:induction false} EventMessage(s: Hub, source: string, ev: Event, byHub: bool, late: bool, now: int)
    ensures ToldLast(s, Apply(s, source, ev, byHub, late, now), source, ev, byHub, late, now)
  {
    if ev.topic.Standalone? {
      LoneMessage(s, source, ev, byHub, late, now);
    } else {
      KeyedMessage(s, source, ev, byHub, late, now);
    }
  }

  lemma {:induction false} LoneMessage(s: Hub, source: string, ev: Event, byHub: bool, late: bool, now: int)
    requires ev.topic.Standalone?
    ensures ToldLast(s, Apply(s, source, ev, byHub, late, now), source, ev, byHub, late, now)
  {
    hide ToMessageWire;
    var s' := Apply(s, source, ev, byHub, late, now);
    assert PostedLast(s, s', s.nextId, NewMessage, false, now);
    assert Tells(s'.messages[s.nextId], source, ev, byHub, late, now);
  }

  lemma ApplyIsEffect(s: Hub, source: string, ev: Event, byHub: bool, late: bool, now: int)
    requires ev.topic.OnFault?
    ensures var ref := FaultRef(source, ev.topic.key);
      Apply(s, source, ev, byHub, late, now) == Effect(s, ref, ev, byHub, late, VerdictOn(s, ref, ev.topic.action, ev), now)
  {
    hide Effect, VerdictOn;
  }

  /** The rows an event leaves, in terms of the verdict on it. */
  ghost predicate RowsBy(s: Hub, s': Hub, ref: FaultRef, v: Verdict) {
    if v.Moved? then s'.faults == s.faults[ref := StampFault(v.row, s.changes)] else s'.faults == s.faults
  }

  lemma JudgedMessage(s: Hub, s': Hub, ref: FaultRef, ev: Event, byHub: bool, late: bool, v: Verdict, m: Message, now: int)
    requires ev.topic.OnFault? && v == VerdictOn(s, ref, ev.topic.action, ev) && ref.key == ev.topic.key && RowsBy(s, s', ref, v)
    requires m == MessageOf(ref.source, ev, byHub, late, now, OwnerOf(v), RoundOf(v)).(changeSeq := m.changeSeq)
    ensures Tells(m, ref.source, ev, byHub, late, now) && Belongs(m, s, s', ref, ev)
    ensures NoticeOf(s, s', ref, ev) == if v.Moved? then v.kind else NewMessage
    ensures MutedIn(v) <==> ref in s'.faults && s'.faults[ref].mutedAt.Some?
  {
    JudgedNotice(s, ref, ev.topic.action, ev);
    hide VerdictOn, ClosableBy;
  }

  lemma {:induction false} KeyedMessage(s: Hub, source: string, ev: Event, byHub: bool, late: bool, now: int)
    requires ev.topic.OnFault?
    ensures ToldLast(s, Apply(s, source, ev, byHub, late, now), source, ev, byHub, late, now)
  {
    hide Apply, VerdictOn, Effect, PostedLast, ToMessageWire, ClosableBy, Tells, Belongs, NoticeOf, MessageOf;
    var s', ref := Apply(s, source, ev, byHub, late, now), FaultRef(source, ev.topic.key);
    var v := VerdictOn(s, ref, ev.topic.action, ev);
    ApplyIsEffect(s, source, ev, byHub, late, now);
    ApplyAt(s, source, ev, byHub, late, now);
    EffectMessage(s, ref, ev, byHub, late, v, now);
    var id := MessageId(s, ref, v);
    assert id in s'.messages by { PostedIn(s, s', id, if v.Moved? then v.kind else NewMessage, MutedIn(v), now); }
    JudgedMessage(s, s', ref, ev, byHub, late, v, s'.messages[id], now);
  }

  lemma PostedIn(s: Hub, s': Hub, id: nat, kind: NotifyKind, muted: bool, now: int)
    requires PostedLast(s, s', id, kind, muted, now)
    ensures id in s'.messages
  {
  }

  // ---- messages a closed round takes in ----

  /** A message of the key without a fault, from within the round. */
  ghost predicate WithinRound(m: Message, ref: FaultRef, f: Fault) {
    && m.source == ref.source && m.faultKey == Some(ref.key) && m.faultId.None?
    && f.resolvedBySeq.Some? && f.openedBySeq <= m.eventSeq <= f.resolvedBySeq.value
  }

  /** Each message of `s` afterwards: taken in by the closed row `f`, or as it was. */
  ghost predicate TakenIn(s: Hub, s': Hub, ref: FaultRef, f: Option<Fault>) {
    forall id <- s.messages ::
      && id in s'.messages
      && s'.messages[id] ==
         if f.Some? && f.value.state.IsResolved? && WithinRound(s.messages[id], ref, f.value)
         then s.messages[id].(faultId := Some(f.value.id), incident := Some(f.value.incident)) else s.messages[id]
  }

  lemma {:induction false} VerdictTakesIn(s: Hub, ref: FaultRef, ev: Event, byHub: bool, late: bool, v: Verdict, now: int)
    requires IdsSound(s)
    ensures TakenIn(s, Effect(s, ref, ev, byHub, late, v, now), ref, if v.Moved? then Some(v.row) else None)
  {
    hide Effect, MessageOf, At;
    if v.Moved? { MovedTables(s, ref, ev, byHub, late, v, now); } else { DeferredTables(s, ref, ev, byHub, late, v, now); }
  }

  /** When an event leaves its row closed, the round takes in every such message; nothing else of any message changes. */
  lemma {:induction false} RoundTakesIn(s: Hub, source: string, ev: Event, byHub: bool, late: bool, now: int)
    requires IdsSound(s) && ev.topic.OnFault?
    ensures var (s', ref) := (Apply(s, source, ev, byHub, late, now), FaultRef(source, ev.topic.key));
      && (Moves(s, ref, ev) ==> ref in s'.faults)
      && TakenIn(s, s', ref, if Moves(s, ref, ev) then Some(s'.faults[ref]) else None)
  {
    hide Apply, VerdictOn, Effect, ClosableBy, TakenIn, IdsSound;
    var s', ref := Apply(s, source, ev, byHub, late, now), FaultRef(source, ev.topic.key);
    var v := VerdictOn(s, ref, ev.topic.action, ev);
    ApplyIsEffect(s, source, ev, byHub, late, now);
    ApplyAt(s, source, ev, byHub, late, now);
    JudgedNotice(s, ref, ev.topic.action, ev);
    VerdictTakesIn(s, ref, ev, byHub, late, v, now);
    if v.Moved? { StampedTakesIn(s, s', ref, v.row, StampFault(v.row, s.changes)); }
  }

  lemma StampedTakesIn(s: Hub, s': Hub, ref: FaultRef, f: Fault, g: Fault)
    requires TakenIn(s, s', ref, Some(f)) && g == f.(changeSeq := g.changeSeq)
    ensures TakenIn(s, s', ref, Some(g))
  {
  }

  // ---- a closed round was closed by a resolve that was received ----

  predicate ClosedAs(f: Fault, id: EventId, n: int, at: int) {
    f.state.IsResolved? && f.resolvedBy == Some(id) && f.resolvedBySeq == Some(n) && f.resolvedAt == Some(at)
  }

  /** The key's row or its recorded resolves name a resolve with this id, seq and date. */
  predicate Names(s: Hub, ref: FaultRef, id: EventId, n: int, at: int) {
    || (ref in s.faults && ClosedAs(s.faults[ref], id, n, at))
    || (var k := PendingKey(ref, n); k in s.pending && s.pending[k].eventId == id && s.pending[k].occurredAt == at)
  }

  predicate IsResolve(source: string, ev: Event, ref: FaultRef, id: EventId, n: int, at: int) {
    source == ref.source && ev.topic == OnFault(ref.key, Resolve) && ev.id == id && ev.seqNo == n && ev.occurredAt == at
  }

  /** The step brings that resolve in. */
  predicate Brings(s: Hub, step: Step, ref: FaultRef, id: EventId, n: int, at: int) {
    match step
    case Report(source, ev, _) => IsResolve(source, ev, ref, id, n, at)
    case HubEvent(source, d, _) => IsResolve(source, HubEventOf(s, d), ref, id, n, at)
    case _ => false
  }

  ghost predicate CameIn(steps: seq<Step>, ref: FaultRef, id: EventId, n: int, at: int) {
    exists i :: 0 <= i < |steps| && Brings(Run(EMPTY_HUB, steps[..i]), steps[i], ref, id, n, at)
  }

  lemma VerdictNames(s: Hub, ref: FaultRef, ev: Event, id: EventId, n: int, at: int)
    requires ev.topic.OnFault? && ref.key == ev.topic.key
    ensures var v := VerdictOn(s, ref, ev.topic.action, ev);
      v.Moved? && ClosedAs(v.row, id, n, at) ==> Names(s, ref, id, n, at) || IsResolve(ref.source, ev, ref, id, n, at)
  {
  }

  lemma {:induction false} ApplyNames(s: Hub, source: string, ev: Event, byHub: bool, late: bool, now: int,
                                      ref: FaultRef, id: EventId, n: int, at: int)
    requires Names(Apply(s, source, ev, byHub, late, now), ref, id, n, at)
    ensures Names(s, ref, id, n, at) || IsResolve(source, ev, ref, id, n, at)
  {
    hide Apply, VerdictOn;
    match ev.topic
    case Standalone => ApplyAside(s, source, ev, byHub, late, now);
    case OnFault(key, action) =>
      var own := FaultRef(source, key);
      ApplyAt(s, source, ev, byHub, late, now);
      VerdictNames(s, own, ev, id, n, at);
      if VerdictOn(s, own, action, ev).Deferred? {
        RecordedAt(s, source, ev, byHub, late, now);
        JudgedNotice(s, own, action, ev);
      }
  }

  lemma FlagNames(s: Hub, r: FaultRef, flag: Flag, now: int, ref: FaultRef, id: EventId, n: int, at: int)
    ensures Names(FlagFault(s, r, flag, now), ref, id, n, at) ==> Names(s, ref, id, n, at)
  {
    hide Log, ToFaultWire;
  }

  lemma RetainNames(s: Hub, limits: Limits, drops: seq<Drop>, now: int, ref: FaultRef, id: EventId, n: int, at: int)
    requires ListsExpired(s, Cut(limits, now), drops)
    ensures Names(Retain(s, limits, drops, now), ref, id, n, at) ==> Names(s, ref, id, n, at)
  {
    hide Retain, ListsExpired;
    RetainTables(s, limits, drops, now);
  }

  lemma {:induction false} StepNames(s: Hub, step: Step, ref: FaultRef, id: EventId, n: int, at: int)
    requires Enabled(s, step) && Names(Next(s, step), ref, id, n, at)
    ensures Names(s, ref, id, n, at) || Brings(s, step, ref, id, n, at)
  {
    hide Apply, Retain, FlagFault, MarkMessage;
    match step
    case Report(source, ev, now) => ApplyNames(s, source, ev, false, ev.seqNo <= LastSeq(s, source), now, ref, id, n, at);
    case HubEvent(source, d, now) => ApplyNames(Ticked(s), source, HubEventOf(s, d), true, false, now, ref, id, n, at);
    case Flagging(r, flag, now) => FlagNames(s, r, flag, now, ref, id, n, at);
    case Reading(i, read, now) => ReadTables(s, i, read, now);
    case Retention(limits, drops, now) => RetainNames(s, limits, drops, now, ref, id, n, at);
    case Other(_, _) =>
  }

  lemma CameInMore(steps: seq<Step>, step: Step, ref: FaultRef, id: EventId, n: int, at: int)
    requires CameIn(steps, ref, id, n, at) || Brings(Run(EMPTY_HUB, steps), step, ref, id, n, at)
    ensures CameIn(steps + [step], ref, id, n, at)
  {
    hide Run, Brings;
    var more := steps + [step];
    assert forall k :: 0 <= k <= |steps| ==> more[..k] == steps[..k];
    assert steps[..|steps|] == steps;
    if Brings(Run(EMPTY_HUB, steps), step, ref, id, n, at) {
      assert Brings(Run(EMPTY_HUB, more[..|steps|]), more[|steps|], ref, id, n, at);
    } else {
      var i :| 0 <= i < |steps| && Brings(Run(EMPTY_HUB, steps[..i]), steps[i], ref, id, n, at);
      assert Brings(Run(EMPTY_HUB, more[..i]), more[i], ref, id, n, at);
    }
  }

  /** Over every run: what a closed row or a recorded resolve names was received for that key. */
  lemma {:induction false} NamedCameIn(steps: seq<Step>, ref: FaultRef, id: EventId, n: int, at: int)
    requires ValidRun(EMPTY_HUB, steps) && Names(Run(EMPTY_HUB, steps), ref, id, n, at)
    ensures CameIn(steps, ref, id, n, at)
  {
    if steps == [] {
      hide Brings;
    } else {
      hide Run, ValidRun, Next, Enabled, Names, Brings, CameIn;
      var front, step := steps[..|steps| - 1], steps[|steps| - 1];
      assert steps == front + [step];
      RunMore(front, step);
      StepNames(Run(EMPTY_HUB, front), step, ref, id, n, at);
      if Names(Run(EMPTY_HUB, front), ref, id, n, at) {
        NamedCameIn(front, ref, id, n, at);
      }
      CameInMore(front, step, ref, id, n, at);
    }
  }

  /** In every reachable state a closed row carries the id, seq and date of a resolve received for its key. */
  lemma {:induction false} ClosedByReceived(steps: seq<Step>, ref: FaultRef)
    requires ValidRun(EMPTY_HUB, steps) && ref in Run(EMPTY_HUB, steps).faults
    ensures var f := Run(EMPTY_HUB, steps).faults[ref];
      f.state.IsResolved? ==>
        && f.resolvedBy.Some? && f.resolvedBySeq.Some? && f.resolvedAt.Some?
        && CameIn(steps, ref, f.resolvedBy.value, f.resolvedBySeq.value, f.resolvedAt.value)
  {
    RoundsAlwaysSound(steps);
    hide Run, CameIn;
    var f := Run(EMPTY_HUB, steps).faults[ref];
    if f.state.IsResolved? {
      NamedCameIn(steps, ref, f.resolvedBy.value, f.resolvedBySeq.value, f.resolvedAt.value);
    }
  }

  // ---- transactions around an event ----

  /** A source's event: late when its seq is not above the last, which is then the greater of the two. */
  lemma {:induction false} ReportedEvent(s: Hub, source: string, ev: Event, now: int)
    ensures var s' := ApplyReported(s, source, ev, now);
      var last := if source in s.lastEventSeq then s.lastEventSeq[source] else 0;
      && ToldLast(s, s', source, ev, false, ev.seqNo <= last, now)
      && source in s'.lastEventSeq && s'.lastEventSeq[source] >= last && s'.lastEventSeq[source] >= ev.seqNo
      && s'.lastEventSeq[source] in {last, ev.seqNo}
      && (forall x <- s.lastEventSeq :: x != source ==> x in s'.lastEventSeq && s'.lastEventSeq[x] == s.lastEventSeq[x])
  {
    hide Apply, Tells, Belongs, NoticeOf, PostedLast;
    var late := ev.seqNo <= LastSeq(s, source);
    ApplyKeepsCounters(s, source, ev, false, late, now);
    EventMessage(s, source, ev, false, late, now);
    ToldByTables(s, Apply(s, source, ev, false, late, now), ApplyReported(s, source, ev, now), source, ev, false, late, now);
  }

  lemma ToldByTables(s: Hub, s1: Hub, s': Hub, source: string, ev: Event, byHub: bool, late: bool, now: int)
    requires ToldLast(s, s1, source, ev, byHub, late, now)
    requires s'.faults == s1.faults && s'.messages == s1.messages && s'.changes == s1.changes && s'.nextId == s1.nextId
    ensures ToldLast(s, s', source, ev, byHub, late, now)
  {
    hide Tells, ToMessageWire;
  }

  /** The hub's own event: the draft under the next hub seq and a fresh id. */
  lemma {:induction false} HubMadeEvent(s: Hub, source: string, d: Draft, now: int)
    ensures var s' := Emit(s, source, d, now);
      && s'.hubSeq == s.hubSeq + 1 && s'.lastEventSeq == s.lastEventSeq
      && exists ev :: ToldLast(Ticked(s), s', source, ev, true, false, now)
           && ev.id == Internal(s.nextId) && ev.seqNo == s.hubSeq + 1 && ev.kind == d.kind && ev.occurredAt == d.occurredAt
           && ev.severity == d.severity && ev.topic == d.topic && ev.title == d.title && ev.body == d.body
  {
    var ev := HubEventOf(s, d);
    hide Apply, ToldLast;
    ApplyKeepsCounters(Ticked(s), source, ev, true, false, now);
    EventMessage(Ticked(s), source, ev, true, false, now);
  }

  /** Reading, muting and unmuting: which fields they set, and that they leave the rest of the row alone. */
  lemma {:induction false} FlagMeans(s: Hub, ref: FaultRef, flag: Flag, now: int)
    requires ref in s.faults
    ensures var (s', f) := (FlagFault(s, ref, flag, now), s.faults[ref]);
      && s'.faults.Keys == s.faults.Keys && (forall r <- s.faults :: r != ref ==> s'.faults[r] == s.faults[r]) && s'.messages == s.messages
      && var g := s'.faults[ref];
         && g == f.(readAt := g.readAt, mutedAt := g.mutedAt, mutedUntil := g.mutedUntil, changeSeq := g.changeSeq)
         && g.readAt == (if flag.MarkRead? && f.readAt.None? then Some(now) else f.readAt)
         && g.mutedAt == (if flag.Mute? && f.mutedAt.None? then Some(now) else if flag.Unmute? then None else f.mutedAt)
         && (g.mutedAt != f.mutedAt ==> g.mutedUntil.None?) && (g.mutedAt == f.mutedAt ==> g.mutedUntil == f.mutedUntil)
         && (if g.readAt == f.readAt && g.mutedAt == f.mutedAt then s' == s else g.changeSeq == s'.changes.last == s.changes.last + 1)
  {
    hide Log, ToFaultWire;
    LogCounts(s.changes, FaultChange(ToFaultWire(ref, StampFault(SetFlag(s.faults[ref], flag, now), s.changes))), None, now);
  }

  lemma LogCounts(c: Changes, p: Payload, notify: Option<Notify>, now: int)
    ensures Log(c, p, notify, now).last == c.last + 1
  {
  }

  /** Marking a message read or unread sets that and nothing else. */
  lemma {:induction false} ReadMeans(s: Hub, id: nat, read: bool, now: int)
    requires id in s.messages
    ensures var (s', m) := (MarkMessage(s, id, read, now), s.messages[id]);
      && s'.messages.Keys == s.messages.Keys && (forall k <- s.messages :: k != id ==> s'.messages[k] == s.messages[k])
      && s'.faults == s.faults && s'.messages[id] == m.(readAt := s'.messages[id].readAt, changeSeq := s'.messages[id].changeSeq)
      && s'.messages[id].readAt.Some? == read && (m.readAt.Some? == read ==> s' == s)
      && (read && m.readAt.None? ==> s'.messages[id].readAt == Some(now))
  {
    hide Log, ToMessageWire;
    if read != s.messages[id].readAt.Some? {
      var row := s.messages[id].(readAt := if read then Some(now) else None);
      assert MarkMessage(s, id, read, now).messages == s.messages[id := StampMessage(row, s.changes)];
    }
  }

  // ---- what retention keeps, by date ----

  /** Closed before `cut`. */
  ghost predicate LongClosed(f: Fault, cut: int) {
    f.state.IsResolved? && f.resolvedAt.Some? && f.resolvedAt.value < cut
  }

  /** A message goes with its fault; one without a fault goes by the day it was received. */
  ghost predicate Outdated(s: Hub, m: Message, cut: int) {
    if m.faultId.Some? then exists r <- s.faults :: LongClosed(s.faults[r], cut) && s.faults[r].id == m.faultId.value
    else m.receivedAt < cut
  }

  lemma {:induction false} RetainedByDate(s: Hub, limits: Limits, drops: seq<Drop>, now: int)
    requires ListsExpired(s, Cut(limits, now), drops)
    ensures var (s', cut) := (Retain(s, limits, drops, now), now - limits.messagesDays * 86_400_000);
      && (forall r :: r in s'.faults <==> r in s.faults && !LongClosed(s.faults[r], cut))
      && (forall r <- s'.faults :: s'.faults[r] == s.faults[r])
      && (forall id :: id in s'.messages <==> id in s.messages && !Outdated(s, s.messages[id], cut))
      && (forall id <- s'.messages :: s'.messages[id] == s.messages[id])
      && (forall k :: k in s'.events <==> k in s.events && s.events[k].receivedAt >= cut)
      && (forall k <- s'.events :: s'.events[k] == s.events[k])
      && (forall k :: k in s'.pending <==>
            k in s.pending && s.pending[k].occurredAt >= cut && !(k.ref in s.faults && LongClosed(s.faults[k.ref], cut)))
      && (forall k <- s'.pending :: s'.pending[k] == s.pending[k])
  {
    hide Retain, ListsExpired;
    RetainTables(s, limits, drops, now);
    forall id | id in s.messages ensures id in ExpiredMessages(s, Cut(limits, now)) <==> Outdated(s, s.messages[id], Cut(limits, now)) {
    }
  }

  lemma {:induction false} TrimmedTo(log: seq<Entry>, cutTime: int, cutSeq: int)
    ensures forall e :: e in Trim(log, cutTime, cutSeq) <==> e in log && (e.createdAt >= cutTime || e.seqNo > cutSeq)
  {
    if log != [] {
      TrimmedTo(log[..|log| - 1], cutTime, cutSeq);
      assert log == log[..|log| - 1] + [log[|log| - 1]];
    }
  }

  /** A change is kept for its days, and the newest ones by number whatever their age. */
  lemma {:induction false} ChangesByDate(c: Changes, limits: Limits, now: int)
    requires c.rows != []
    ensures forall e :: e in TrimChanges(c, limits, now).rows <==>
      e in c.rows && (e.createdAt >= now - limits.changesDays * 86_400_000
                      || e.seqNo > c.rows[|c.rows| - 1].seqNo - limits.changesMinSeq)
  {
    TrimmedTo(c.rows, now - limits.changesDays * DAY, c.rows[|c.rows| - 1].seqNo - limits.changesMinSeq);
  }
}
