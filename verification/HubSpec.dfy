/**
 * The hub's database as a value, and every committed write as a function on it.
 * Class `HubStore.Store` performs the same writes step by step on mutable tables
 * and is proved equal to these functions; the lemmas of the other modules are about them.
 */
module HubSpec {
  import opened Basics

  const HUB_SEQ_BASE: int := 0x4000_0000_0000_0000
  const DAY: int := 86_400_000

  // ---- rows ----

  /** Ids of source events are chosen by the source; the hub draws its own from fresh ULIDs. */
  datatype EventId = Reported(text: string) | Internal(n: nat)

  datatype Action = Open | Update | Resolve

  datatype Topic = Standalone | OnFault(key: string, action: Action)

  datatype Event = Event(id: EventId, seqNo: int, kind: string, occurredAt: int, severity: string,
                         topic: Topic, title: string, body: Option<string>)

  datatype FaultRef = FaultRef(source: string, key: string)

  datatype FaultState = IsOpen | IsResolved

  datatype Fault = Fault(id: nat, severity: string, title: string, summary: Option<string>,
                         state: FaultState, incident: int, openedAt: int, openedBySeq: int,
                         lastEventAt: int, resolvedAt: Option<int>, resolvedBySeq: Option<int>,
                         resolvedBy: Option<EventId>, eventCount: int, readAt: Option<int>,
                         mutedAt: Option<int>, mutedUntil: Option<int>, changeSeq: nat)

  datatype PendingKey = PendingKey(ref: FaultRef, seqNo: int)

  datatype Pending = Pending(occurredAt: int, title: string, eventId: EventId)

  datatype Message = Message(source: string, kind: string, severity: string, title: string,
                             body: Option<string>, occurredAt: int, receivedAt: int,
                             readAt: Option<int>, faultId: Option<nat>, incident: Option<int>,
                             eventId: EventId, eventSeq: int, faultKey: Option<string>,
                             outOfOrder: bool, changeSeq: nat)

  datatype EventKey = EventKey(source: string, id: EventId)

  datatype EventRow = EventRow(seqNo: int, topic: Topic, occurredAt: int, receivedAt: int,
                               outOfOrder: bool, byHub: bool)

  // ---- change log ----

  /** The fault object clients see: the row without its two seq columns. */
  datatype FaultWire = FaultWire(id: nat, changeSeq: nat, ref: FaultRef, severity: string, title: string,
                                 summary: Option<string>, state: FaultState, incident: int,
                                 openedAt: int, lastEventAt: int, resolvedAt: Option<int>,
                                 resolvedBy: Option<EventId>, eventCount: int, readAt: Option<int>,
                                 mutedAt: Option<int>, mutedUntil: Option<int>)

  datatype MessageWire = MessageWire(id: nat, changeSeq: nat, source: string, kind: string,
                                     severity: string, title: string, body: Option<string>,
                                     occurredAt: int, receivedAt: int, readAt: Option<int>,
                                     faultId: Option<nat>, incident: Option<int>)

  datatype Drop = DropMessage(id: nat) | DropFault(ref: FaultRef)

  datatype Payload =
    | FaultChange(fault: FaultWire)
    | MessageChange(message: MessageWire)
    | FaultGone(id: nat)
    | MessageGone(id: nat)
    | OtherPayload(kind: string)  // source, rules, settings and source tombstones

  datatype NotifyKind = NewMessage | IncidentOpen | IncidentUpdate | IncidentResolved

  datatype Notify = Notify(kind: NotifyKind, faultId: Option<nat>, muted: bool)

  datatype Entry = Entry(seqNo: nat, payload: Payload, notify: Option<Notify>, createdAt: int)

  datatype Applied = Applied(key: EventKey, occurredAt: int, receivedAt: int)

  /** The `changes` table, its counter, and (for the proofs) every change ever committed. */
  datatype Changes = Changes(rows: seq<Entry>, last: nat, history: seq<Entry>)

  /**
   * The database. The last two fields are history variables for the proofs: the messages whose
   * incident was back-filled, each with the seq of the change it followed, and the source events
   * ever applied.
   */
  datatype Hub = Hub(faults: map<FaultRef, Fault>, pending: map<PendingKey, Pending>,
                     messages: map<nat, Message>, events: map<EventKey, EventRow>, changes: Changes,
                     hubSeq: int, nextId: nat, lastEventSeq: map<string, int>,
                     backfilled: map<nat, nat>, applied: seq<Applied>)

  const EMPTY_HUB: Hub := Hub(map[], map[], map[], map[], Changes([], 0, []), HUB_SEQ_BASE, 0, map[], map[], [])

  function ToFaultWire(ref: FaultRef, f: Fault): FaultWire {
    FaultWire(f.id, f.changeSeq, ref, f.severity, f.title, f.summary, f.state, f.incident, f.openedAt,
              f.lastEventAt, f.resolvedAt, f.resolvedBy, f.eventCount, f.readAt, f.mutedAt, f.mutedUntil)
  }

  function ToMessageWire(id: nat, m: Message): MessageWire {
    MessageWire(id, m.changeSeq, m.source, m.kind, m.severity, m.title, m.body, m.occurredAt,
                m.receivedAt, m.readAt, m.faultId, m.incident)
  }

  // ---- single-row writes, each with its change row ----

  function Log(c: Changes, p: Payload, notify: Option<Notify>, now: int): Changes {
    var e := Entry(c.last + 1, p, notify, now);
    Changes(c.rows + [e], c.last + 1, c.history + [e])
  }

  function StampFault(f: Fault, c: Changes): Fault { f.(changeSeq := c.last + 1) }

  function StampMessage(m: Message, c: Changes): Message { m.(changeSeq := c.last + 1) }

  function PutFault(s: Hub, ref: FaultRef, f: Fault, now: int): Hub {
    var row := StampFault(f, s.changes);
    s.(faults := s.faults[ref := row], changes := Log(s.changes, FaultChange(ToFaultWire(ref, row)), None, now))
  }

  function PutMessage(s: Hub, id: nat, m: Message, notify: Option<Notify>, now: int): Hub {
    var row := StampMessage(m, s.changes);
    s.(messages := s.messages[id := row],
       changes := Log(s.changes, MessageChange(ToMessageWire(id, row)), notify, now))
  }

  function Remove(s: Hub, d: Drop, now: int): Hub {
    match d
    case DropMessage(id) => s.(messages := s.messages - {id}, changes := Log(s.changes, MessageGone(id), None, now))
    case DropFault(ref) =>
      if ref in s.faults then
        s.(faults := s.faults - {ref}, changes := Log(s.changes, FaultGone(s.faults[ref].id), None, now))
      else s
  }

  // ---- the incident state machine ----

  function SeverityRank(s: string): int {
    if s == "critical" then 3 else if s == "warning" then 2 else if s == "info" then 1 else 0
  }

  function MaxSeverity(a: string, b: string): string {
    if SeverityRank(b) > SeverityRank(a) then b else a
  }

  function NewFault(id: nat, ev: Event): Fault {
    Fault(id, ev.severity, ev.title, ev.body, IsOpen, 1, ev.occurredAt, ev.seqNo, ev.occurredAt,
          None, None, None, 1, None, None, None, 0)
  }

  function Merge(f: Fault, ev: Event): Fault {
    f.(eventCount := f.eventCount + 1, severity := MaxSeverity(f.severity, ev.severity), title := ev.title,
       summary := ev.body, lastEventAt := if ev.occurredAt > f.lastEventAt then ev.occurredAt else f.lastEventAt)
  }

  function Reopen(f: Fault, ev: Event): Fault {
    f.(incident := f.incident + 1, state := IsOpen, severity := ev.severity, title := ev.title,
       summary := ev.body, openedAt := ev.occurredAt, openedBySeq := ev.seqNo, lastEventAt := ev.occurredAt,
       resolvedAt := None, resolvedBySeq := None, resolvedBy := None, eventCount := 1, readAt := None)
  }

  function Close(f: Fault, ev: Event): Fault {
    f.(state := IsResolved, resolvedAt := Some(ev.occurredAt), resolvedBySeq := Some(ev.seqNo),
       resolvedBy := Some(ev.id), lastEventAt := ev.occurredAt, eventCount := f.eventCount + 1,
       title := ev.title, summary := ev.body)
  }

  /** Seqs of the recorded resolves of `ref` that are later than `seqNo`. */
  function LaterPending(pending: map<PendingKey, Pending>, ref: FaultRef, seqNo: int): (r: set<int>)
    ensures forall n :: n in r <==> n > seqNo && PendingKey(ref, n) in pending
  {
    set k <- pending | k == PendingKey(ref, k.seqNo) && k.seqNo > seqNo :: k.seqNo
  }

  /** The earliest of them, as the transaction looks it up. */
  function FindPending(pending: map<PendingKey, Pending>, ref: FaultRef, seqNo: int): (r: Option<(int, Pending)>)
    ensures r.None? <==> forall n :: PendingKey(ref, n) in pending ==> n <= seqNo
    ensures r.Some? ==> PendingKey(ref, r.value.0) in pending && r.value.0 > seqNo
                        && r.value.1 == pending[PendingKey(ref, r.value.0)]
    ensures r.Some? ==> forall n :: PendingKey(ref, n) in pending && n > seqNo ==> r.value.0 <= n
  {
    var later := LaterPending(pending, ref, seqNo);
    if later == {} then None else Some((Least(later), pending[PendingKey(ref, Least(later))]))
  }

  /**
   * What one event does to its fault: recorded as a resolve that arrived first, with the row
   * (if any) untouched; or the row moves, and `kind` is announced.
   */
  datatype Verdict = Deferred(was: Option<Fault>) | Moved(row: Fault, kind: NotifyKind)

  /** `was` is the fault row, `later` the earliest recorded resolve after the event, `id` a fresh id. */
  function Judge(was: Option<Fault>, later: Option<(int, Pending)>, id: nat, action: Action, ev: Event): Verdict {
    if action.Resolve? then
      if was.Some? && was.value.state.IsOpen? && was.value.openedBySeq < ev.seqNo
      then Moved(Close(was.value, ev), IncidentResolved) else Deferred(was)
    else
      match was
      case None =>
        var f := NewFault(id, ev);
        if later.Some? then
          var (seqNo, p) := later.value;
          Moved(f.(state := IsResolved, resolvedAt := Some(p.occurredAt),
                   resolvedBySeq := Some(seqNo), resolvedBy := Some(p.eventId)), NewMessage)
        else
          Moved(f, IncidentOpen)
      case Some(f) =>
        if f.state.IsOpen? then Moved(Merge(f, ev), IncidentUpdate)
        else if later.Some? then Moved(Merge(f, ev), NewMessage)
        else Moved(Reopen(f, ev), IncidentOpen)
  }

  function FaultAt(s: Hub, ref: FaultRef): Option<Fault> {
    if ref in s.faults then Some(s.faults[ref]) else None
  }

  function VerdictOn(s: Hub, ref: FaultRef, action: Action, ev: Event): Verdict {
    Judge(FaultAt(s, ref), FindPending(s.pending, ref, ev.seqNo), s.nextId, action, ev)
  }

  /** Messages of the key that no fault owned when they arrived and that the closed round `f` covers. */
  function Orphans(messages: map<nat, Message>, ref: FaultRef, f: Fault): set<nat> {
    set id <- messages | f.state.IsResolved? && f.resolvedBySeq.Some?
                         && messages[id].source == ref.source && messages[id].faultKey == Some(ref.key)
                         && messages[id].faultId.None?
                         && f.openedBySeq <= messages[id].eventSeq <= f.resolvedBySeq.value
  }

  function Adopt(messages: map<nat, Message>, ids: set<nat>, f: Fault): map<nat, Message> {
    map id <- messages :: if id in ids then messages[id].(faultId := Some(f.id), incident := Some(f.incident))
                          else messages[id]
  }

  function At(ids: set<nat>, seqNo: nat): map<nat, nat> { map id <- ids :: seqNo }

  /** Applies the verdict: the row and its change, back-filled messages, or the recorded resolve. */
  function Settle(s: Hub, ref: FaultRef, ev: Event, v: Verdict, now: int): Hub {
    match v
    case Deferred(_) =>
      var k := PendingKey(ref, ev.seqNo);
      s.(pending := if k in s.pending then s.pending else s.pending[k := Pending(ev.occurredAt, ev.title, ev.id)])
    case Moved(f, _) =>
      var row := StampFault(f, s.changes);
      var ids := Orphans(s.messages, ref, f);
      s.(nextId := if ref in s.faults then s.nextId else s.nextId + 1,
         faults := s.faults[ref := row],
         changes := Log(s.changes, FaultChange(ToFaultWire(ref, row)), None, now),
         messages := Adopt(s.messages, ids, f), backfilled := s.backfilled + At(ids, s.changes.last + 1))
  }

  function MessageKind(ev: Event, byHub: bool): string {
    if !byHub && ev.topic.OnFault? && ev.topic.action.Open? then "fault_open" else ev.kind
  }

  /** The message row of an event; `owner` is its fault and `incident` the round it counts in. */
  function MessageOf(source: string, ev: Event, byHub: bool, late: bool, now: int,
                     owner: Option<nat>, incident: Option<int>): Message {
    Message(source, MessageKind(ev, byHub), ev.severity, ev.title, ev.body, ev.occurredAt, now, None,
            owner, incident, ev.id, ev.seqNo, if ev.topic.OnFault? then Some(ev.topic.key) else None, late, 0)
  }

  function Post(s: Hub, m: Message, kind: NotifyKind, muted: bool, now: int): Hub {
    PutMessage(s.(nextId := s.nextId + 1), s.nextId, m, Some(Notify(kind, m.faultId, muted)), now)
  }

  function Announce(s: Hub, source: string, ev: Event, byHub: bool, late: bool, v: Verdict, now: int): Hub {
    match v
    case Deferred(was) =>
      Post(s, MessageOf(source, ev, byHub, late, now, if was.Some? then Some(was.value.id) else None, None),
           NewMessage, was.Some? && was.value.mutedAt.Some?, now)
    case Moved(f, kind) =>
      Post(s, MessageOf(source, ev, byHub, late, now, Some(f.id), Some(f.incident)), kind, f.mutedAt.Some?, now)
  }

  function Record(s: Hub, source: string, ev: Event, byHub: bool, late: bool, now: int): Hub {
    s.(events := s.events[EventKey(source, ev.id) := EventRow(ev.seqNo, ev.topic, ev.occurredAt, now, late, byHub)])
  }

  /** The writes of an event on `ref`, given the verdict. */
  function Effect(s: Hub, ref: FaultRef, ev: Event, byHub: bool, late: bool, v: Verdict, now: int): Hub {
    Announce(Settle(Record(s, ref.source, ev, byHub, late, now), ref, ev, v, now), ref.source, ev, byHub, late, v, now)
  }

  /** One event, from the source or from the hub itself. */
  function Apply(s: Hub, source: string, ev: Event, byHub: bool, late: bool, now: int): Hub {
    match ev.topic
    case Standalone =>
      Post(Record(s, source, ev, byHub, late, now), MessageOf(source, ev, byHub, late, now, None, None),
           NewMessage, false, now)
    case OnFault(key, action) =>
      var ref := FaultRef(source, key);
      Effect(s, ref, ev, byHub, late, VerdictOn(s, ref, action, ev), now)
  }

  // ---- transactions ----

  function LastSeq(s: Hub, source: string): int {
    if source in s.lastEventSeq then s.lastEventSeq[source] else 0
  }

  /** An event reported by a source, after validation and deduplication. */
  function ApplyReported(s: Hub, source: string, ev: Event, now: int): Hub {
    var s1 := Apply(s, source, ev, false, ev.seqNo <= LastSeq(s, source), now);
    var last := if ev.seqNo > LastSeq(s, source) then ev.seqNo else LastSeq(s, source);
    s1.(lastEventSeq := s1.lastEventSeq[source := last],
        applied := s1.applied + [Applied(EventKey(source, ev.id), ev.occurredAt, now)])
  }

  datatype Draft = Draft(kind: string, severity: string, topic: Topic, title: string,
                         body: Option<string>, occurredAt: int)

  function HubEventOf(s: Hub, d: Draft): Event {
    Event(Internal(s.nextId), s.hubSeq + 1, d.kind, d.occurredAt, d.severity, d.topic, d.title, d.body)
  }

  function Ticked(s: Hub): Hub { s.(hubSeq := s.hubSeq + 1, nextId := s.nextId + 1) }

  /** An event the hub makes itself: next hub seq, fresh id, never late. */
  function Emit(s: Hub, source: string, d: Draft, now: int): Hub {
    Apply(Ticked(s), source, HubEventOf(s, d), true, false, now)
  }

  datatype Flag = MarkRead | Mute | Unmute

  function SetFlag(f: Fault, flag: Flag, now: int): Fault {
    match flag
    case MarkRead => if f.readAt.None? then f.(readAt := Some(now)) else f
    case Mute => if f.mutedAt.None? then f.(mutedAt := Some(now), mutedUntil := None) else f
    case Unmute => if f.mutedAt.Some? then f.(mutedAt := None, mutedUntil := None) else f
  }

  predicate FlagChanges(f: Fault, flag: Flag) {
    match flag
    case MarkRead => f.readAt.None?
    case Mute => f.mutedAt.None?
    case Unmute => f.mutedAt.Some?
  }

  function FlagFault(s: Hub, ref: FaultRef, flag: Flag, now: int): Hub {
    if ref in s.faults && FlagChanges(s.faults[ref], flag)
    then PutFault(s, ref, SetFlag(s.faults[ref], flag, now), now) else s
  }

  function MarkMessage(s: Hub, id: nat, read: bool, now: int): Hub {
    if id in s.messages && read != s.messages[id].readAt.Some?
    then PutMessage(s, id, s.messages[id].(readAt := if read then Some(now) else None), None, now) else s
  }

  datatype Limits = Limits(messagesDays: int, changesDays: int, changesMinSeq: int)

  function ClosedBefore(faults: map<FaultRef, Fault>, cut: int): set<FaultRef> {
    set r <- faults | faults[r].state.IsResolved? && faults[r].resolvedAt.Some? && faults[r].resolvedAt.value < cut
  }

  function LoneBefore(messages: map<nat, Message>, cut: int): set<nat> {
    set id <- messages | messages[id].faultId.None? && messages[id].receivedAt < cut
  }

  function ReceivedSince(events: map<EventKey, EventRow>, cut: int): map<EventKey, EventRow> {
    map k <- events | events[k].receivedAt >= cut :: events[k]
  }

  function OccurredSince(pending: map<PendingKey, Pending>, cut: int): map<PendingKey, Pending> {
    map k <- pending | pending[k].occurredAt >= cut :: pending[k]
  }

  function ExceptOf(pending: map<PendingKey, Pending>, refs: set<FaultRef>): map<PendingKey, Pending> {
    map k <- pending | k.ref !in refs :: pending[k]
  }

  function ExpiredFaults(s: Hub, cut: int): set<FaultRef> { ClosedBefore(s.faults, cut) }

  function ExpiredIds(s: Hub, cut: int): (ids: set<nat>)
    ensures forall r <- ExpiredFaults(s, cut) :: s.faults[r].id in ids
  {
    set r <- ExpiredFaults(s, cut) :: s.faults[r].id
  }

  function ExpiredMessages(s: Hub, cut: int): set<nat> {
    set id <- s.messages | if s.messages[id].faultId.Some? then s.messages[id].faultId.value in ExpiredIds(s, cut)
                           else s.messages[id].receivedAt < cut
  }

  /** `drops` lists each expired row once, in whatever order the queries return them. */
  ghost predicate ListsExpired(s: Hub, cut: int, drops: seq<Drop>) {
    && (forall i, j | 0 <= i < j < |drops| :: drops[i] != drops[j])
    && (forall d :: d in drops <==> match d
                                    case DropMessage(id) => id in ExpiredMessages(s, cut)
                                    case DropFault(ref) => ref in ExpiredFaults(s, cut))
  }

  function RemoveAll(s: Hub, drops: seq<Drop>, now: int): Hub {
    if drops == [] then s else Remove(RemoveAll(s, drops[..|drops| - 1], now), drops[|drops| - 1], now)
  }

  predicate Keeps(e: Entry, cutTime: int, cutSeq: int) {
    !(e.createdAt < cutTime && e.seqNo <= cutSeq)
  }

  function Trim(log: seq<Entry>, cutTime: int, cutSeq: int): seq<Entry> {
    if log == [] then [] else
      var front := Trim(log[..|log| - 1], cutTime, cutSeq);
      var e := log[|log| - 1];
      if Keeps(e, cutTime, cutSeq) then front + [e] else front
  }

  function TrimChanges(c: Changes, limits: Limits, now: int): Changes {
    if c.rows == [] then c
    else c.(rows := Trim(c.rows, now - limits.changesDays * DAY, c.rows[|c.rows| - 1].seqNo - limits.changesMinSeq))
  }

  /** Old events go, and pending resolves that are old or whose fault expires. */
  function Purge(s: Hub, cut: int): Hub {
    s.(events := ReceivedSince(s.events, cut),
       pending := ExceptOf(OccurredSince(s.pending, cut), ExpiredFaults(s, cut)))
  }

  function Cut(limits: Limits, now: int): int { now - limits.messagesDays * DAY }

  /** The message, event, pending and change parts of the retention transaction. */
  function Retain(s: Hub, limits: Limits, drops: seq<Drop>, now: int): Hub {
    var s1 := RemoveAll(Purge(s, Cut(limits, now)), drops, now);
    s1.(changes := TrimChanges(s1.changes, limits, now))
  }

  // ---- runs ----

  datatype Step =
    | Report(source: string, ev: Event, now: int)
    | HubEvent(source: string, draft: Draft, now: int)
    | Flagging(ref: FaultRef, flag: Flag, now: int)
    | Reading(id: nat, read: bool, now: int)
    | Retention(limits: Limits, drops: seq<Drop>, now: int)
    | Other(kind: string, now: int)

  function Next(s: Hub, step: Step): Hub {
    match step
    case Report(source, ev, now) => ApplyReported(s, source, ev, now)
    case HubEvent(source, draft, now) => Emit(s, source, draft, now)
    case Flagging(ref, flag, now) => FlagFault(s, ref, flag, now)
    case Reading(id, read, now) => MarkMessage(s, id, read, now)
    case Retention(limits, drops, now) => Retain(s, limits, drops, now)
    case Other(kind, now) => s.(changes := Log(s.changes, OtherPayload(kind), None, now))
  }

  /** Deduplication has let a reported event through; a retention run drops exactly what expired. */
  ghost predicate Enabled(s: Hub, step: Step) {
    match step
    case Report(source, ev, now) => ev.id.Reported? && EventKey(source, ev.id) !in s.events
    case Retention(limits, drops, now) => ListsExpired(s, Cut(limits, now), drops)
    case _ => true
  }

  function Run(s: Hub, steps: seq<Step>): Hub {
    if steps == [] then s else Next(Run(s, steps[..|steps| - 1]), steps[|steps| - 1])
  }

  ghost predicate ValidRun(s: Hub, steps: seq<Step>) {
    steps == [] ||
    (ValidRun(s, steps[..|steps| - 1]) && Enabled(Run(s, steps[..|steps| - 1]), steps[|steps| - 1]))
  }
}
