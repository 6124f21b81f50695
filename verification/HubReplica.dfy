/**
 * Replication: folding the change log through a client's cache rebuilds the hub's fault table
 * exactly, and its message table but for the fault and incident of rows adopted since their last
 * change. What clients of a trimmed log are left with is `HubSync`'s subject.
 */
module HubReplica {
  import opened Basics
  import opened HubSpec
  import opened HubLinks

  datatype Cache = Cache(faults: map<nat, FaultWire>, messages: map<nat, MessageWire>)

  function ApplyChange(c: Cache, p: Payload): Cache {
    match p
    case FaultChange(f) => c.(faults := c.faults[f.id := f])
    case MessageChange(m) => c.(messages := c.messages[m.id := m])
    case FaultGone(id) => c.(faults := c.faults - {id})
    case MessageGone(id) => c.(messages := c.messages - {id})
    case OtherPayload(_) => c
  }

  function Fold(c: Cache, entries: seq<Entry>): Cache {
    if entries == [] then c
    else ApplyChange(Fold(c, entries[..|entries| - 1]), entries[|entries| - 1].payload)
  }

  const NO_CACHE: Cache := Cache(map[], map[])

  function Replica(s: Hub): Cache { Fold(NO_CACHE, s.changes.history) }

  // ---- agreement ----

  /** The object of a fault shows its row, all but the two seq columns. */
  ghost predicate ShowsFault(w: FaultWire, ref: FaultRef, f: Fault) {
    && w.id == f.id && w.ref == ref && w.changeSeq == f.changeSeq
    && w.severity == f.severity && w.title == f.title && w.summary == f.summary
    && w.state == f.state && w.incident == f.incident && w.eventCount == f.eventCount
    && w.openedAt == f.openedAt && w.lastEventAt == f.lastEventAt
    && w.resolvedAt == f.resolvedAt && w.resolvedBy == f.resolvedBy
    && w.readAt == f.readAt && w.mutedAt == f.mutedAt && w.mutedUntil == f.mutedUntil
  }

  /** The object of a message shows its row, but for the fault and round it counts in. */
  ghost predicate ShowsText(w: MessageWire, id: nat, m: Message) {
    && w.id == id && w.changeSeq == m.changeSeq && w.source == m.source && w.kind == m.kind
    && w.severity == m.severity && w.title == m.title && w.body == m.body
    && w.occurredAt == m.occurredAt && w.receivedAt == m.receivedAt && w.readAt == m.readAt
  }

  ghost predicate ShowsMessage(w: MessageWire, id: nat, m: Message) {
    ShowsText(w, id, m) && w.faultId == m.faultId && w.incident == m.incident
  }

  ghost predicate FaultsAgree(faults: map<FaultRef, Fault>, cached: map<nat, FaultWire>) {
    && (forall r <- faults :: faults[r].id in cached && ShowsFault(cached[faults[r].id], r, faults[r]))
    && (forall id <- cached :: cached[id].ref in faults && faults[cached[id].ref].id == id)
  }

  /** The row was adopted by a fault, and no change of it has been written since. */
  predicate Unlogged(adopted: map<nat, nat>, id: nat, m: Message) { id in adopted && m.changeSeq < adopted[id] }

  /** As the row was last logged: as it stands, but for an adoption since. */
  ghost predicate ShowsLogged(w: MessageWire, adopted: map<nat, nat>, id: nat, m: Message) {
    if Unlogged(adopted, id, m) then ShowsText(w, id, m) && w.faultId.None? && w.incident.None? else ShowsMessage(w, id, m)
  }

  function UnloggedRows(s: Hub): set<nat> { set id <- s.messages | Unlogged(s.backfilled, id, s.messages[id]) }

  ghost predicate MessagesAgree(messages: map<nat, Message>, adopted: map<nat, nat>, cached: map<nat, MessageWire>) {
    && messages.Keys == cached.Keys
    && forall id <- messages :: ShowsLogged(cached[id], adopted, id, messages[id])
  }

  ghost predicate MessagesEqual(messages: map<nat, Message>, cached: map<nat, MessageWire>) {
    && messages.Keys == cached.Keys
    && forall id <- messages :: ShowsMessage(cached[id], id, messages[id])
  }

  /** Adopted rows have a fault, and no row or adoption is dated beyond the log. */
  ghost predicate Dated(s: Hub) {
    && (forall id <- s.messages :: s.messages[id].changeSeq <= s.changes.last)
    && (forall id <- s.messages :: id in s.backfilled ==> s.messages[id].faultId.Some?)
    && (forall id <- s.backfilled :: s.backfilled[id] <= s.changes.last)
  }

  ghost predicate Replicated(s: Hub) {
    && FaultsAgree(s.faults, Replica(s).faults) && MessagesAgree(s.messages, s.backfilled, Replica(s).messages)
    && Dated(s)
  }

  lemma FoldOne(c: Cache, entries: seq<Entry>, e: Entry)
    ensures Fold(c, entries + [e]) == ApplyChange(Fold(c, entries), e.payload)
  {
    assert (entries + [e])[..|entries|] == entries;
  }

  lemma LogFolds(c: Changes, p: Payload, notify: Option<Notify>, now: int)
    ensures var c' := Log(c, p, notify, now);
      Fold(NO_CACHE, c'.history) == ApplyChange(Fold(NO_CACHE, c.history), p) && c'.last == c.last + 1
  {
    FoldOne(NO_CACHE, c.history, Entry(c.last + 1, p, notify, now));
  }

  lemma {:induction false} FoldConcat(c: Cache, a: seq<Entry>, b: seq<Entry>)
    ensures Fold(c, a + b) == Fold(Fold(c, a), b)
  {
    if b == [] {
      assert a + b == a;
    } else {
      assert (a + b)[..|a + b| - 1] == a + b[..|b| - 1];
      FoldConcat(c, a, b[..|b| - 1]);
    }
  }

  /** A message row written with its change: it is logged as it stands. */
  lemma {:induction false} PutMessageKeepsReplica(s: Hub, id: nat, m: Message, notify: Option<Notify>, now: int)
    requires Replicated(s) && (id in s.backfilled ==> m.faultId.Some?)
    ensures Replicated(PutMessage(s, id, m, notify, now))
  {
    var row := StampMessage(m, s.changes);
    LogFolds(s.changes, MessageChange(ToMessageWire(id, row)), notify, now);
    hide Log, Fold, FaultsAgree, MessagesAgree;
    MessagePutAgrees(s.messages, s.backfilled, Replica(s).messages, id, row);
  }

  lemma MessagePutAgrees(messages: map<nat, Message>, adopted: map<nat, nat>, cached: map<nat, MessageWire>, id: nat, row: Message)
    requires MessagesAgree(messages, adopted, cached) && !Unlogged(adopted, id, row)
    ensures MessagesAgree(messages[id := row], adopted, cached[id := ToMessageWire(id, row)])
  {
  }

  lemma {:induction false} PostKeepsReplica(s: Hub, m: Message, kind: NotifyKind, muted: bool, now: int)
    requires Replicated(s) && s.nextId !in s.messages && s.nextId !in s.backfilled
    ensures Replicated(Post(s, m, kind, muted, now))
  {
    hide PutMessage, Fold, FaultsAgree, MessagesAgree;
    PutMessageKeepsReplica(s.(nextId := s.nextId + 1), s.nextId, m, Some(Notify(kind, m.faultId, muted)), now);
  }

  /** Rows adopted at a seq beyond their own agree with their last change but for the adoption. */
  lemma {:induction false} AdoptAgrees(messages: map<nat, Message>, adopted: map<nat, nat>, cached: map<nat, MessageWire>,
                                       ids: set<nat>, f: Fault, seqNo: nat)
    requires MessagesAgree(messages, adopted, cached)
    requires forall id <- ids :: id in messages && messages[id].faultId.None? && messages[id].incident.None?
    requires forall id <- messages :: messages[id].changeSeq < seqNo
    ensures MessagesAgree(Adopt(messages, ids, f), adopted + At(ids, seqNo), cached)
  {
  }

  /** Writing the row of `ref` and its change keeps the tables in step; ids must stay distinct. */
  lemma {:induction false} PutAgrees(faults: map<FaultRef, Fault>, cached: map<nat, FaultWire>, ref: FaultRef, row: Fault)
    requires FaultsAgree(faults, cached)
    requires forall r <- faults :: r != ref ==> faults[r].id != row.id
    requires ref in faults ==> faults[ref].id == row.id
    ensures FaultsAgree(faults[ref := row], cached[row.id := ToFaultWire(ref, row)])
  {
  }

  lemma MovedSettles(s: Hub, ref: FaultRef, ev: Event, v: Verdict, now: int)
    requires v.Moved?
    ensures var (s', row, ids) := (Settle(s, ref, ev, v, now), StampFault(v.row, s.changes), Orphans(s.messages, ref, v.row));
      && s'.faults == s.faults[ref := row] && s'.messages == Adopt(s.messages, ids, v.row)
      && s'.backfilled == s.backfilled + At(ids, s.changes.last + 1) && s'.changes.last == s.changes.last + 1
      && Replica(s') == ApplyChange(Replica(s), FaultChange(ToFaultWire(ref, row)))
  {
    LogFolds(s.changes, FaultChange(ToFaultWire(ref, StampFault(v.row, s.changes))), None, now);
    hide Log, Orphans, Adopt, ToFaultWire, Fold;
  }

  lemma AdoptionDated(s: Hub, ids: set<nat>, f: Fault, s': Hub)
    requires Dated(s) && forall id <- ids :: id in s.messages
    requires s'.messages == Adopt(s.messages, ids, f) && s'.backfilled == s.backfilled + At(ids, s.changes.last + 1)
    requires s'.changes.last == s.changes.last + 1
    ensures Dated(s')
  {
  }

  lemma {:induction false} SettleKeepsReplica(s: Hub, ref: FaultRef, ev: Event, v: Verdict, now: int)
    requires Replicated(s) && IdsSound(s) && Linked(s) && VerdictCounts(s, ref, v)
    ensures Replicated(Settle(s, ref, ev, v, now))
  {
    if v.Moved? {
      MovedSettles(s, ref, ev, v, now);
      OrphansAreFree(s, ref, v.row);
      hide Settle, Fold, Orphans, Adopt, MessagesAgree, FaultsAgree, Linked, ToMessageWire, ToFaultWire, At;
      var ids := Orphans(s.messages, ref, v.row);
      AdoptAgrees(s.messages, s.backfilled, Replica(s).messages, ids, v.row, s.changes.last + 1);
      PutAgrees(s.faults, Replica(s).faults, ref, StampFault(v.row, s.changes));
      AdoptionDated(s, ids, v.row, Settle(s, ref, ev, v, now));
    }
  }

  lemma OrphansAreFree(s: Hub, ref: FaultRef, f: Fault)
    requires Linked(s)
    ensures forall id <- Orphans(s.messages, ref, f) ::
      id in s.messages && s.messages[id].faultId.None? && s.messages[id].incident.None?
  {
    forall id <- Orphans(s.messages, ref, f) ensures s.messages[id].incident.None? {
      assert MessageLinked(s.faults, s.messages[id]);
    }
  }

  lemma {:induction false} EffectKeepsReplica(s: Hub, ref: FaultRef, ev: Event, byHub: bool, late: bool, v: Verdict, now: int)
    requires Replicated(s) && IdsSound(s) && Linked(s) && VerdictCounts(s, ref, v)
    ensures Replicated(Effect(s, ref, ev, byHub, late, v, now))
  {
    hide Post, Replicated, Linked, MessageOf, Settle;
    var s0 := Record(s, ref.source, ev, byHub, late, now);
    assert Replicated(s0) && IdsSound(s0) && Linked(s0) by { OtherTables(s, s0); }
    SettleKeepsReplica(s0, ref, ev, v, now);
    var s1 := Settle(s0, ref, ev, v, now);
    assert s1.nextId !in s1.messages && s1.nextId !in s1.backfilled by { SettleFreshId(s0, ref, ev, v, now); }
    match v
    case Deferred(was) =>
      PostKeepsReplica(s1, MessageOf(ref.source, ev, byHub, late, now, if was.Some? then Some(was.value.id) else None, None),
                       NewMessage, was.Some? && was.value.mutedAt.Some?, now);
    case Moved(f, kind) =>
      PostKeepsReplica(s1, MessageOf(ref.source, ev, byHub, late, now, Some(f.id), Some(f.incident)), kind,
                       f.mutedAt.Some?, now);
  }

  lemma OtherTables(s: Hub, s': Hub)
    requires s' == s.(events := s'.events, hubSeq := s'.hubSeq, pending := s'.pending, nextId := s'.nextId,
                      lastEventSeq := s'.lastEventSeq, applied := s'.applied)
    requires Replicated(s) && IdsSound(s) && Linked(s) && s.nextId <= s'.nextId
    ensures Replicated(s') && IdsSound(s') && Linked(s')
  {
  }

  lemma SettleFreshId(s: Hub, ref: FaultRef, ev: Event, v: Verdict, now: int)
    requires IdsSound(s)
    ensures var s1 := Settle(s, ref, ev, v, now); s1.nextId !in s1.messages && s1.nextId !in s1.backfilled
  {
  }

  lemma {:induction false} ApplyKeepsReplica(s: Hub, source: string, ev: Event, byHub: bool, late: bool, now: int)
    requires Replicated(s) && LinksSound(s)
    ensures Replicated(Apply(s, source, ev, byHub, late, now))
  {
    hide Effect, VerdictOn, Replicated, Post, MessageOf;
    match ev.topic
    case Standalone =>
      var s0 := Record(s, source, ev, byHub, late, now);
      OtherTables(s, s0);
      PostKeepsReplica(s0, MessageOf(source, ev, byHub, late, now, None, None), NewMessage, false, now);
    case OnFault(key, action) =>
      var ref := FaultRef(source, key);
      JudgeCounts(s, ref, action, ev);
      EffectKeepsReplica(s, ref, ev, byHub, late, VerdictOn(s, ref, action, ev), now);
  }

  lemma RemovedMessage(s: Hub, id: nat, now: int)
    requires Replicated(s)
    ensures Replicated(Remove(s, DropMessage(id), now))
  {
    LogFolds(s.changes, MessageGone(id), None, now);
    hide Log, Fold, FaultsAgree, MessagesAgree;
    MessageGoneAgrees(s.messages, s.backfilled, Replica(s).messages, id);
  }

  lemma RemovedFault(s: Hub, ref: FaultRef, now: int)
    requires Replicated(s) && ref in s.faults
    ensures Replicated(Remove(s, DropFault(ref), now))
  {
    LogFolds(s.changes, FaultGone(s.faults[ref].id), None, now);
    hide Log, Fold, FaultsAgree, MessagesAgree;
    GoneAgrees(s.faults, Replica(s).faults, ref);
  }

  lemma {:induction false} RemoveKeepsReplica(s: Hub, d: Drop, now: int)
    requires Replicated(s) && IdsSound(s)
    ensures Replicated(Remove(s, d, now)) && IdsSound(Remove(s, d, now))
  {
    hide Replicated, Log;
    match d
    case DropMessage(id) => RemovedMessage(s, id, now);
    case DropFault(ref) => if ref in s.faults { RemovedFault(s, ref, now); }
  }

  lemma MessageGoneAgrees(messages: map<nat, Message>, adopted: map<nat, nat>, cached: map<nat, MessageWire>, id: nat)
    requires MessagesAgree(messages, adopted, cached)
    ensures MessagesAgree(messages - {id}, adopted, cached - {id})
  {
    hide ShowsLogged;
  }

  lemma {:induction false} GoneAgrees(faults: map<FaultRef, Fault>, cached: map<nat, FaultWire>, ref: FaultRef)
    requires FaultsAgree(faults, cached) && ref in faults
    ensures FaultsAgree(faults - {ref}, cached - {faults[ref].id})
  {
    assert cached[faults[ref].id].ref == ref;
  }

  lemma {:induction false} RemoveAllKeepsReplica(s: Hub, drops: seq<Drop>, now: int)
    requires Replicated(s) && IdsSound(s)
    ensures Replicated(RemoveAll(s, drops, now)) && IdsSound(RemoveAll(s, drops, now))
  {
    hide Replicated, IdsSound, Remove;
    if drops != [] {
      RemoveAllKeepsReplica(s, drops[..|drops| - 1], now);
      RemoveKeepsReplica(RemoveAll(s, drops[..|drops| - 1], now), drops[|drops| - 1], now);
    }
  }

  lemma {:induction false} FlagKeepsReplica(s: Hub, ref: FaultRef, flag: Flag, now: int)
    requires Replicated(s) && IdsSound(s)
    ensures Replicated(FlagFault(s, ref, flag, now))
  {
    if ref in s.faults && FlagChanges(s.faults[ref], flag) {
      var row := StampFault(SetFlag(s.faults[ref], flag, now), s.changes);
      LogFolds(s.changes, FaultChange(ToFaultWire(ref, row)), None, now);
      hide Log, ToFaultWire, Fold, FaultsAgree, MessagesAgree;
      PutAgrees(s.faults, Replica(s).faults, ref, row);
    }
  }

  lemma {:induction false} MarkKeepsReplica(s: Hub, id: nat, read: bool, now: int)
    requires Replicated(s)
    ensures Replicated(MarkMessage(s, id, read, now))
  {
    hide PutMessage, Fold, FaultsAgree, MessagesAgree;
    if MarkMessage(s, id, read, now) != s {
      PutMessageKeepsReplica(s, id, s.messages[id].(readAt := if read then Some(now) else None), None, now);
    }
  }

  lemma {:induction false} RetainKeepsReplica(s: Hub, limits: Limits, drops: seq<Drop>, now: int)
    requires Replicated(s) && LinksSound(s)
    ensures Replicated(Retain(s, limits, drops, now))
  {
    var s1 := Purge(s, Cut(limits, now));
    OtherTables(s, s1);
    hide Purge, RemoveAll, TrimChanges, Fold, Linked, FaultsAgree, MessagesAgree;
    RemoveAllKeepsReplica(s1, drops, now);
    TrimKeepsHistory(RemoveAll(s1, drops, now).changes, limits, now);
  }

  lemma OtherLogged(s: Hub, kind: string, now: int)
    requires Replicated(s)
    ensures Replicated(Next(s, Other(kind, now)))
  {
    LogFolds(s.changes, OtherPayload(kind), None, now);
    hide Log, Fold, FaultsAgree, MessagesAgree;
  }

  lemma TickedReplica(s: Hub)
    requires Replicated(s) && LinksSound(s)
    ensures Replicated(Ticked(s)) && LinksSound(Ticked(s))
  {
    OtherTables(s, Ticked(s));
  }

  lemma AppliedTables(s: Hub, s': Hub)
    requires Replicated(s) && s' == s.(lastEventSeq := s'.lastEventSeq, applied := s'.applied)
    ensures Replicated(s')
  {
    hide Fold, FaultsAgree, MessagesAgree;
  }

  lemma {:induction false} StepKeepsReplica(s: Hub, step: Step)
    requires Replicated(s) && LinksSound(s) && Enabled(s, step)
    ensures Replicated(Next(s, step))
  {
    hide Apply, Retain, FlagFault, MarkMessage, Replicated, Ticked, Log;
    match step
    case Report(source, ev, now) =>
      ApplyKeepsReplica(s, source, ev, false, ev.seqNo <= LastSeq(s, source), now);
      AppliedTables(Apply(s, source, ev, false, ev.seqNo <= LastSeq(s, source), now), Next(s, step));
    case HubEvent(source, d, now) =>
      TickedReplica(s);
      ApplyKeepsReplica(Ticked(s), source, HubEventOf(s, d), true, false, now);
    case Flagging(ref, flag, now) => FlagKeepsReplica(s, ref, flag, now);
    case Reading(id, read, now) => MarkKeepsReplica(s, id, read, now);
    case Retention(limits, drops, now) => RetainKeepsReplica(s, limits, drops, now);
    case Other(kind, now) => OtherLogged(s, kind, now);
  }

  lemma TrimKeepsHistory(c: Changes, limits: Limits, now: int)
    ensures TrimChanges(c, limits, now).history == c.history && TrimChanges(c, limits, now).last == c.last
  {
  }

  /** In every reachable state the whole log, folded, is the hub's fault table and its messages. */
  lemma {:induction false} LogRebuildsTables(steps: seq<Step>)
    requires ValidRun(EMPTY_HUB, steps)
    ensures Replicated(Run(EMPTY_HUB, steps))
  {
    if steps != [] {
      hide Next, Replicated;
      LogRebuildsTables(steps[..|steps| - 1]);
      LinksAlwaysSound(steps[..|steps| - 1]);
      StepKeepsReplica(Run(EMPTY_HUB, steps[..|steps| - 1]), steps[|steps| - 1]);
    }
  }

  /** The messages of which the folded log has another object than the hub. */
  ghost function DiffersFromLog(s: Hub): set<nat> {
    set id <- s.messages | id !in Replica(s).messages || !ShowsMessage(Replica(s).messages[id], id, s.messages[id])
  }

  lemma {:induction false} UnloggedDiffers(s: Hub)
    requires Replicated(s)
    ensures DiffersFromLog(s) == UnloggedRows(s)
  {
    hide Fold;
    forall id <- s.messages
      ensures ShowsMessage(Replica(s).messages[id], id, s.messages[id]) <==> !Unlogged(s.backfilled, id, s.messages[id])
    {
    }
  }
}
