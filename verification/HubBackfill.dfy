/**
 * Back-filling: when a closed round adopts messages that arrived before its fault, their rows
 * change and no change row says so. Over every run the rows that differ from the folded log are
 * those adopted since they were last written, and no others.
 */
module HubBackfill {
  import opened HubSpec
  import opened HubRounds
  import opened HubLinks
  import opened HubReplica

  function AdoptedIn(s: Hub, source: string, ev: Event): set<nat> {
    match ev.topic
    case Standalone => {}
    case OnFault(key, action) =>
      var ref := FaultRef(source, key);
      var v := VerdictOn(s, ref, action, ev);
      if v.Moved? then Orphans(s.messages, ref, v.row) else {}
  }

  /** The messages a step adopts. */
  function AdoptedBy(s: Hub, step: Step): set<nat> {
    match step
    case Report(source, ev, _) => AdoptedIn(s, source, ev)
    case HubEvent(source, d, _) => AdoptedIn(Ticked(s), source, HubEventOf(s, d))
    case _ => {}
  }

  /** The messages a step writes with a change row, or drops. */
  function WrittenBy(s: Hub, step: Step): set<nat> {
    match step
    case Reading(id, read, _) => if id in s.messages && read != s.messages[id].readAt.Some? then {id} else {}
    case Retention(limits, _, now) => ExpiredMessages(s, Cut(limits, now))
    case _ => {}
  }

  /** Adopted at some step of the run, and neither written nor dropped since. */
  function AdoptedSince(steps: seq<Step>): set<nat> {
    if steps == [] then {} else
      var s, step := Run(EMPTY_HUB, steps[..|steps| - 1]), steps[|steps| - 1];
      AdoptedSince(steps[..|steps| - 1]) - WrittenBy(s, step) + AdoptedBy(s, step)
  }

  lemma {:induction false} AdoptionUnlogs(messages: map<nat, Message>, adopted: map<nat, nat>, ids: set<nat>, f: Fault,
                                          seqNo: nat, id: nat, m: Message, more: map<nat, Message>)
    requires id !in messages && id !in adopted && (forall k <- messages :: messages[k].changeSeq < seqNo)
    requires forall k <- ids :: k in messages
    requires more == Adopt(messages, ids, f)[id := m]
    ensures (set k <- more | Unlogged(adopted + At(ids, seqNo), k, more[k]))
         == (set k <- messages | Unlogged(adopted, k, messages[k])) + ids
  {
    assert id !in ids;
  }

  lemma {:induction false} EffectUnlogs(s: Hub, ref: FaultRef, ev: Event, byHub: bool, late: bool, v: Verdict, now: int)
    requires IdsSound(s) && Dated(s)
    ensures UnloggedRows(Effect(s, ref, ev, byHub, late, v, now))
         == UnloggedRows(s) + if v.Moved? then Orphans(s.messages, ref, v.row) else {}
  {
    hide Effect, Orphans, Adopt, At, MessageOf;
    var s' := Effect(s, ref, ev, byHub, late, v, now);
    if v.Moved? {
      MovedTables(s, ref, ev, byHub, late, v, now);
      var id, ids := MessageId(s, ref, v), Orphans(s.messages, ref, v.row);
      assert forall k <- ids :: k in s.messages by { OrphansAreRows(s.messages, ref, v.row); }
      AdoptionUnlogs(s.messages, s.backfilled, ids, v.row, s.changes.last + 1, id, s'.messages[id], s'.messages);
    } else {
      DeferredTables(s, ref, ev, byHub, late, v, now);
      InsertKeepsUnlogged(s, s', s.nextId);
    }
  }

  lemma OrphansAreRows(messages: map<nat, Message>, ref: FaultRef, f: Fault)
    ensures forall k <- Orphans(messages, ref, f) :: k in messages
  {
  }

  lemma InsertKeepsUnlogged(s: Hub, s': Hub, id: nat)
    requires id !in s.messages && id !in s.backfilled && id in s'.messages
    requires s'.messages == s.messages[id := s'.messages[id]] && s'.backfilled == s.backfilled
    ensures UnloggedRows(s') == UnloggedRows(s)
  {
  }

  lemma {:induction false} ApplyUnlogs(s: Hub, source: string, ev: Event, byHub: bool, late: bool, now: int)
    requires IdsSound(s) && Dated(s)
    ensures UnloggedRows(Apply(s, source, ev, byHub, late, now)) == UnloggedRows(s) + AdoptedIn(s, source, ev)
  {
    hide Effect, VerdictOn, Orphans, MessageOf, UnloggedRows;
    match ev.topic
    case Standalone => InsertKeepsUnlogged(s, Apply(s, source, ev, byHub, late, now), s.nextId);
    case OnFault(key, action) =>
      var ref := FaultRef(source, key);
      EffectUnlogs(s, ref, ev, byHub, late, VerdictOn(s, ref, action, ev), now);
  }

  lemma {:induction false} StepUnlogs(s: Hub, step: Step)
    requires IdsSound(s) && Dated(s) && Enabled(s, step)
    ensures UnloggedRows(Next(s, step)) == UnloggedRows(s) - WrittenBy(s, step) + AdoptedBy(s, step)
  {
    hide Apply, AdoptedIn, Retain, FlagFault, MarkMessage, IdsSound;
    match step
    case Report(source, ev, now) => ApplyUnlogs(s, source, ev, false, ev.seqNo <= LastSeq(s, source), now);
    case HubEvent(source, d, now) =>
      assert IdsSound(Ticked(s)) by { TickedIds(s); }
      ApplyUnlogs(Ticked(s), source, HubEventOf(s, d), true, false, now);
    case Flagging(ref, flag, now) => FlaggedRow(s, ref, flag, now);
    case Reading(id, read, now) => MarkLogs(s, id, read, now);
    case Retention(limits, drops, now) =>
      RetainTables(s, limits, drops, now);
      assert Next(s, step).backfilled == s.backfilled;
    case Other(_, _) =>
  }

  lemma TickedIds(s: Hub)
    requires IdsSound(s)
    ensures IdsSound(Ticked(s))
  {
  }

  /** A message that is written is logged as it stands. */
  lemma MarkLogs(s: Hub, id: nat, read: bool, now: int)
    requires Dated(s)
    ensures UnloggedRows(MarkMessage(s, id, read, now)) == UnloggedRows(s) - WrittenBy(s, Reading(id, read, now))
  {
    hide Log, ToMessageWire;
    var s' := MarkMessage(s, id, read, now);
    if s' != s {
      assert s'.messages[id].changeSeq == s.changes.last + 1;
    }
  }

  /** Over every run: a folded message differs from the hub's exactly when it was adopted after its last change. */
  lemma {:induction false} AdoptedSinceExactly(steps: seq<Step>)
    requires ValidRun(EMPTY_HUB, steps)
    ensures DiffersFromLog(Run(EMPTY_HUB, steps)) == AdoptedSince(steps)
  {
    UnloggedExactly(steps);
    LogRebuildsTables(steps);
    hide Run, Replicated, UnloggedRows, AdoptedSince, DiffersFromLog;
    UnloggedDiffers(Run(EMPTY_HUB, steps));
  }

  lemma {:induction false} UnloggedExactly(steps: seq<Step>)
    requires ValidRun(EMPTY_HUB, steps)
    ensures UnloggedRows(Run(EMPTY_HUB, steps)) == AdoptedSince(steps)
  {
    if steps != [] {
      hide Next, Enabled, UnloggedRows, WrittenBy, AdoptedBy, FaultsAgree, MessagesAgree;
      var front := steps[..|steps| - 1];
      UnloggedExactly(front);
      LinksAlwaysSound(front);
      LogRebuildsTables(front);
      StepUnlogs(Run(EMPTY_HUB, front), steps[|steps| - 1]);
    }
  }

  /** One event, whatever differs already: the messages that differ afterwards are those and the ones it adopts. */
  lemma {:induction false} BackfillExactly(s: Hub, ref: FaultRef, ev: Event, byHub: bool, late: bool, v: Verdict, now: int)
    requires LinksSound(s) && Replicated(s) && VerdictCounts(s, ref, v)
    ensures DiffersFromLog(Effect(s, ref, ev, byHub, late, v, now))
         == DiffersFromLog(s) + if v.Moved? then Orphans(s.messages, ref, v.row) else {}
  {
    hide Effect, DiffersFromLog, UnloggedRows, Orphans, FaultsAgree, MessagesAgree;
    EffectKeepsReplica(s, ref, ev, byHub, late, v, now);
    EffectUnlogs(s, ref, ev, byHub, late, v, now);
    UnloggedDiffers(s);
    UnloggedDiffers(Effect(s, ref, ev, byHub, late, v, now));
  }
}
