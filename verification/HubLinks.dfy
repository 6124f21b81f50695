/**
 * Messages and their faults: every message that names a fault points at the existing row of its
 * own key and at a round that row has reached, and a row's `eventCount` is the number of
 * messages inserted in its current round. Back-filled messages join a round without counting.
 */
module HubLinks {
  import opened Basics
  import opened HubSpec
  import opened HubRounds

  ghost predicate IdsSound(s: Hub) {
    && (forall r <- s.faults :: s.faults[r].id < s.nextId)
    && (forall r1 <- s.faults, r2 <- s.faults :: r1 != r2 ==> s.faults[r1].id != s.faults[r2].id)
    && (forall id <- s.messages :: id < s.nextId)
    && (forall id <- s.backfilled :: id < s.nextId)
  }

  ghost predicate MessageLinked(faults: map<FaultRef, Fault>, m: Message) {
    && (m.incident.Some? ==> m.faultId.Some?)
    && (m.faultId.Some? ==>
          && m.faultKey.Some?
          && FaultRef(m.source, m.faultKey.value) in faults
          && faults[FaultRef(m.source, m.faultKey.value)].id == m.faultId.value
          && (m.incident.Some? ==> m.incident.value <= faults[FaultRef(m.source, m.faultKey.value)].incident))
  }

  ghost predicate Linked(s: Hub) {
    forall id <- s.messages :: MessageLinked(s.faults, s.messages[id])
  }

  /** The messages inserted, not back-filled, in round `incident` of fault `fid`. */
  function Counted(messages: map<nat, Message>, backfilled: set<nat>, fid: nat, incident: int): set<nat> {
    set id <- messages | messages[id].faultId == Some(fid) && messages[id].incident == Some(incident)
                         && id !in backfilled
  }

  ghost predicate CountsExact(s: Hub) {
    forall r <- s.faults ::
      s.faults[r].eventCount == |Counted(s.messages, s.backfilled.Keys, s.faults[r].id, s.faults[r].incident)|
  }

  ghost predicate LinksSound(s: Hub) { IdsSound(s) && Linked(s) && CountsExact(s) }

  /** The row moves to the next event of its round, or to the first event of the next one. */
  ghost predicate VerdictCounts(s: Hub, ref: FaultRef, v: Verdict) {
    match v
    case Deferred(was) => was == FaultAt(s, ref)
    case Moved(f, _) =>
      if ref !in s.faults then f.id == s.nextId && f.incident == 1 && f.eventCount == 1
      else
        var g := s.faults[ref];
        && f.id == g.id
        && ((f.incident == g.incident && f.eventCount == g.eventCount + 1)
            || (f.incident == g.incident + 1 && f.eventCount == 1))
  }

  lemma {:induction false} JudgeCounts(s: Hub, ref: FaultRef, action: Action, ev: Event)
    ensures VerdictCounts(s, ref, VerdictOn(s, ref, action, ev))
  {
  }

  function MessageId(s: Hub, ref: FaultRef, v: Verdict): nat {
    if v.Moved? && ref !in s.faults then s.nextId + 1 else s.nextId
  }

  /** The row and id part of an event's writes: one new message, plus the orphans it adopts. */
  lemma {:induction false} MovedTables(s: Hub, ref: FaultRef, ev: Event, byHub: bool, late: bool, v: Verdict, now: int)
    requires v.Moved?
    ensures var (s', id) := (Effect(s, ref, ev, byHub, late, v, now), MessageId(s, ref, v));
      && s'.faults == s.faults[ref := StampFault(v.row, s.changes)]
      && s'.nextId == id + 1 && s'.backfilled == s.backfilled + At(Orphans(s.messages, ref, v.row), s.changes.last + 1)
      && s'.backfilled.Keys == s.backfilled.Keys + Orphans(s.messages, ref, v.row)
      && s'.messages == Adopt(s.messages, Orphans(s.messages, ref, v.row), v.row)
                          [id := MessageOf(ref.source, ev, byHub, late, now, Some(v.row.id), Some(v.row.incident))
                                   .(changeSeq := s.changes.last + 2)]
  {
    hide ToFaultWire, ToMessageWire, Adopt, Orphans, MessageOf;
  }

  lemma {:induction false} DeferredTables(s: Hub, ref: FaultRef, ev: Event, byHub: bool, late: bool, v: Verdict, now: int)
    requires v.Deferred?
    ensures var s' := Effect(s, ref, ev, byHub, late, v, now);
      && s'.faults == s.faults && s'.nextId == s.nextId + 1 && s'.backfilled == s.backfilled
      && s'.messages == s.messages[s.nextId :=
            MessageOf(ref.source, ev, byHub, late, now, if v.was.Some? then Some(v.was.value.id) else None, None)
              .(changeSeq := s.changes.last + 1)]
  {
    hide ToFaultWire, ToMessageWire, MessageOf;
  }

  lemma {:induction false} InsertCountedSet(messages: map<nat, Message>, backfilled: set<nat>, ids: set<nat>, f: Fault,
                                            id: nat, m: Message, fid: nat, n: int)
    requires id !in messages && id !in backfilled
    requires forall k <- ids :: k in messages && messages[k].faultId.None?
    requires m.faultId == Some(f.id) && m.incident == Some(f.incident)
    ensures var more := Counted(Adopt(messages, ids, f)[id := m], backfilled + ids, fid, n);
      more == Counted(messages, backfilled, fid, n) + (if fid == f.id && n == f.incident then {id} else {})
  {
    var after := Adopt(messages, ids, f)[id := m];
    forall k <- messages
      ensures k in Counted(after, backfilled + ids, fid, n) <==> k in Counted(messages, backfilled, fid, n)
    {
    }
  }

  /** Adopting orphans counts nothing; inserting a message counts it in its round alone. */
  lemma {:induction false} InsertCounts(messages: map<nat, Message>, backfilled: set<nat>, ids: set<nat>, f: Fault,
                                        id: nat, m: Message, fid: nat, n: int)
    requires id !in messages && id !in backfilled
    requires forall k <- ids :: k in messages && messages[k].faultId.None?
    requires m.faultId == Some(f.id) && m.incident == Some(f.incident)
    ensures |Counted(Adopt(messages, ids, f)[id := m], backfilled + ids, fid, n)|
         == |Counted(messages, backfilled, fid, n)| + (if fid == f.id && n == f.incident then 1 else 0)
  {
    hide Adopt;
    InsertCountedSet(messages, backfilled, ids, f, id, m, fid, n);
    assert id !in Counted(messages, backfilled, fid, n);
  }

  lemma {:induction false} NewRoundIsEmpty(s: Hub, ref: FaultRef, v: Verdict)
    requires IdsSound(s) && Linked(s) && VerdictCounts(s, ref, v) && v.Moved?
    requires ref !in s.faults || v.row.incident != s.faults[ref].incident
    ensures Counted(s.messages, s.backfilled.Keys, v.row.id, v.row.incident) == {}
  {
  }

  lemma {:induction false} MovedKeepsLinks(s: Hub, ref: FaultRef, ev: Event, byHub: bool, late: bool, v: Verdict, now: int)
    requires IdsSound(s) && Linked(s) && VerdictCounts(s, ref, v) && v.Moved?
    requires ev.topic.OnFault? && ev.topic.key == ref.key
    ensures var s' := Effect(s, ref, ev, byHub, late, v, now); IdsSound(s') && Linked(s')
  {
    hide Effect, IdsSound, Linked;
    MovedKeepsIds(s, ref, ev, byHub, late, v, now);
    MovedKeepsLinked(s, ref, ev, byHub, late, v, now);
  }

  lemma {:induction false} MovedKeepsIds(s: Hub, ref: FaultRef, ev: Event, byHub: bool, late: bool, v: Verdict, now: int)
    requires IdsSound(s) && VerdictCounts(s, ref, v) && v.Moved?
    ensures IdsSound(Effect(s, ref, ev, byHub, late, v, now))
  {
    hide Effect, MessageOf;
    MovedTables(s, ref, ev, byHub, late, v, now);
  }

  lemma {:induction false} MovedKeepsLinked(s: Hub, ref: FaultRef, ev: Event, byHub: bool, late: bool, v: Verdict, now: int)
    requires Linked(s) && VerdictCounts(s, ref, v) && v.Moved? && ev.topic.OnFault? && ev.topic.key == ref.key
    ensures Linked(Effect(s, ref, ev, byHub, late, v, now))
  {
    hide Effect;
    MovedTables(s, ref, ev, byHub, late, v, now);
  }

  lemma {:induction false} MovedKeepsCounts(s: Hub, ref: FaultRef, ev: Event, byHub: bool, late: bool, v: Verdict, now: int)
    requires LinksSound(s) && VerdictCounts(s, ref, v) && v.Moved?
    ensures CountsExact(Effect(s, ref, ev, byHub, late, v, now))
  {
    hide Effect, Counted, Adopt, MessageKind, Linked;
    var s', id, ids := Effect(s, ref, ev, byHub, late, v, now), MessageId(s, ref, v), Orphans(s.messages, ref, v.row);
    MovedTables(s, ref, ev, byHub, late, v, now);
    forall r <- s'.faults
      ensures s'.faults[r].eventCount == |Counted(s'.messages, s'.backfilled.Keys, s'.faults[r].id, s'.faults[r].incident)|
    {
      InsertCounts(s.messages, s.backfilled.Keys, ids, v.row, id, s'.messages[id], s'.faults[r].id, s'.faults[r].incident);
      if r == ref && (ref !in s.faults || v.row.incident != s.faults[ref].incident) {
        NewRoundIsEmpty(s, ref, v);
      }
    }
  }

  lemma {:induction false} DeferredKeepsLinks(s: Hub, ref: FaultRef, ev: Event, byHub: bool, late: bool, v: Verdict, now: int)
    requires LinksSound(s) && VerdictCounts(s, ref, v) && v.Deferred?
    requires ev.topic.OnFault? && ev.topic.key == ref.key
    ensures LinksSound(Effect(s, ref, ev, byHub, late, v, now))
  {
    hide Effect;
    var s' := Effect(s, ref, ev, byHub, late, v, now);
    DeferredTables(s, ref, ev, byHub, late, v, now);
    PlainInsertKeepsCounts(s, s', s.nextId);
  }

  lemma {:induction false} EffectKeepsLinks(s: Hub, ref: FaultRef, ev: Event, byHub: bool, late: bool, v: Verdict, now: int)
    requires LinksSound(s) && VerdictCounts(s, ref, v)
    requires ev.topic.OnFault? && ev.topic.key == ref.key
    ensures LinksSound(Effect(s, ref, ev, byHub, late, v, now))
  {
    hide Effect;
    if v.Deferred? {
      DeferredKeepsLinks(s, ref, ev, byHub, late, v, now);
    } else {
      MovedKeepsLinks(s, ref, ev, byHub, late, v, now);
      MovedKeepsCounts(s, ref, ev, byHub, late, v, now);
    }
  }

  /** A write that changes no round and no counted message keeps the counts. */
  lemma {:induction false} PlainInsertKeepsCounts(s: Hub, s': Hub, id: nat)
    requires CountsExact(s) && id !in s.messages && id in s'.messages && s'.messages[id].incident.None?
    requires s'.faults == s.faults && s'.messages == s.messages[id := s'.messages[id]] && s'.backfilled.Keys == s.backfilled.Keys
    ensures CountsExact(s')
  {
    forall r <- s'.faults
      ensures Counted(s'.messages, s'.backfilled.Keys, s'.faults[r].id, s'.faults[r].incident)
           == Counted(s.messages, s.backfilled.Keys, s.faults[r].id, s.faults[r].incident)
    {
    }
  }

  lemma {:induction false} StandaloneKeepsLinks(s: Hub, source: string, ev: Event, byHub: bool, late: bool, now: int)
    requires LinksSound(s) && ev.topic.Standalone?
    ensures LinksSound(Apply(s, source, ev, byHub, late, now))
  {
    hide ToMessageWire;
    var s' := Apply(s, source, ev, byHub, late, now);
    assert s'.faults == s.faults;
    PlainInsertKeepsCounts(s, s', s.nextId);
  }

  lemma {:induction false} ApplyKeepsLinks(s: Hub, source: string, ev: Event, byHub: bool, late: bool, now: int)
    requires LinksSound(s)
    ensures LinksSound(Apply(s, source, ev, byHub, late, now))
  {
    if ev.topic.OnFault? {
      hide Effect, VerdictOn, LinksSound;
      var ref := FaultRef(source, ev.topic.key);
      JudgeCounts(s, ref, ev.topic.action, ev);
      EffectKeepsLinks(s, ref, ev, byHub, late, VerdictOn(s, ref, ev.topic.action, ev), now);
    } else {
      StandaloneKeepsLinks(s, source, ev, byHub, late, now);
    }
  }

  lemma {:induction false} RetainKeepsLinks(s: Hub, limits: Limits, drops: seq<Drop>, now: int)
    requires LinksSound(s) && ListsExpired(s, Cut(limits, now), drops)
    ensures LinksSound(Retain(s, limits, drops, now))
  {
    hide Retain;
    var s', cut := Retain(s, limits, drops, now), Cut(limits, now);
    RetainTables(s, limits, drops, now);
    forall id <- s'.messages ensures MessageLinked(s'.faults, s'.messages[id]) {
      var m := s.messages[id];
      assert MessageLinked(s.faults, m);
      if m.faultId.Some? {
        var r := FaultRef(m.source, m.faultKey.value);
        assert m.faultId.value !in ExpiredIds(s, cut);
        assert r !in ExpiredFaults(s, cut);
      }
    }
    RetainKeepsCounts(s, s', cut);
  }

  lemma {:induction false} RetainKeepsCounts(s: Hub, s': Hub, cut: int)
    requires LinksSound(s) && s'.backfilled.Keys == s.backfilled.Keys
    requires s'.faults == s.faults - ExpiredFaults(s, cut) && s'.messages == s.messages - ExpiredMessages(s, cut)
    ensures CountsExact(s')
  {
    forall r <- s'.faults
      ensures Counted(s'.messages, s'.backfilled.Keys, s'.faults[r].id, s'.faults[r].incident)
           == Counted(s.messages, s.backfilled.Keys, s.faults[r].id, s.faults[r].incident)
    {
      assert s.faults[r].id !in ExpiredIds(s, cut);
    }
  }

  lemma FlaggedRow(s: Hub, ref: FaultRef, flag: Flag, now: int)
    ensures var s' := FlagFault(s, ref, flag, now);
      && s'.messages == s.messages && s'.backfilled == s.backfilled && s'.nextId == s.nextId
      && s'.faults.Keys == s.faults.Keys
      && forall r <- s.faults :: s'.faults[r].id == s.faults[r].id && s'.faults[r].incident == s.faults[r].incident
                                 && s'.faults[r].eventCount == s.faults[r].eventCount
  {
    hide ToFaultWire, Log;
  }

  lemma {:induction false} FlagKeepsLinks(s: Hub, ref: FaultRef, flag: Flag, now: int)
    requires LinksSound(s)
    ensures LinksSound(FlagFault(s, ref, flag, now))
  {
    hide FlagFault, Counted;
    FlaggedRow(s, ref, flag, now);
  }

  /** A message row that keeps its round leaves every count as it was. */
  lemma RewrittenCounted(messages: map<nat, Message>, backfilled: set<nat>, id: nat, m: Message, fid: nat, incident: int)
    requires id in messages && m.faultId == messages[id].faultId && m.incident == messages[id].incident
    ensures Counted(messages[id := m], backfilled, fid, incident) == Counted(messages, backfilled, fid, incident)
  {
  }

  lemma RewrittenLinked(s: Hub, id: nat, m: Message)
    requires Linked(s) && id in s.messages && m.source == s.messages[id].source && m.faultKey == s.messages[id].faultKey
    requires m.faultId == s.messages[id].faultId && m.incident == s.messages[id].incident
    ensures Linked(s.(messages := s.messages[id := m]))
  {
    assert MessageLinked(s.faults, s.messages[id]);
  }

  lemma {:induction false} MarkKeepsLinks(s: Hub, id: nat, read: bool, now: int)
    requires LinksSound(s)
    ensures LinksSound(MarkMessage(s, id, read, now))
  {
    hide ToMessageWire, Counted, Linked, Log;
    var s' := MarkMessage(s, id, read, now);
    if s' != s {
      var m := s'.messages[id];
      assert s'.messages == s.messages[id := m];
      assert Linked(s') by {
        RewrittenLinked(s, id, m);
        SameTablesLinked(s.(messages := s'.messages), s');
      }
      forall r <- s.faults
        ensures Counted(s'.messages, s'.backfilled.Keys, s'.faults[r].id, s'.faults[r].incident)
             == Counted(s.messages, s.backfilled.Keys, s.faults[r].id, s.faults[r].incident)
      {
        RewrittenCounted(s.messages, s.backfilled.Keys, id, m, s.faults[r].id, s.faults[r].incident);
      }
    }
  }

  lemma SameTablesLinked(s: Hub, s': Hub)
    requires Linked(s) && s'.messages == s.messages && s'.faults == s.faults
    ensures Linked(s')
  {
  }

  lemma {:induction false} StepKeepsLinks(s: Hub, step: Step)
    requires LinksSound(s) && Enabled(s, step)
    ensures LinksSound(Next(s, step))
  {
    hide Apply, Retain, FlagFault, MarkMessage, Counted;
    match step
    case Report(source, ev, now) => ApplyKeepsLinks(s, source, ev, false, ev.seqNo <= LastSeq(s, source), now);
    case HubEvent(source, d, now) => ApplyKeepsLinks(Ticked(s), source, HubEventOf(s, d), true, false, now);
    case Flagging(ref, flag, now) => FlagKeepsLinks(s, ref, flag, now);
    case Reading(id, read, now) => MarkKeepsLinks(s, id, read, now);
    case Retention(limits, drops, now) => RetainKeepsLinks(s, limits, drops, now);
    case Other(kind, now) =>
  }

  /** In every reachable state messages are linked and event counts are exact. */
  lemma {:induction false} LinksAlwaysSound(steps: seq<Step>)
    requires ValidRun(EMPTY_HUB, steps)
    ensures LinksSound(Run(EMPTY_HUB, steps))
  {
    hide Next, Enabled;
    if steps != [] {
      LinksAlwaysSound(steps[..|steps| - 1]);
      StepKeepsLinks(Run(EMPTY_HUB, steps[..|steps| - 1]), steps[|steps| - 1]);
    }
  }
}
