/**
 * Incident rounds: the link between a fault row and the resolves recorded before their open,
 * kept by every committed write; what the seq order promises about late opens, and when it fails.
 */
module HubRounds {
  import opened Basics
  import opened HubSpec

  /** An open round is covered by no recorded resolve; a closed one was closed by a later seq. */
  ghost predicate RoundSound(pending: map<PendingKey, Pending>, ref: FaultRef, f: Fault) {
    && f.incident >= 1
    && (f.state.IsOpen? ==> f.resolvedAt.None? && f.resolvedBySeq.None? && f.resolvedBy.None?
                            && forall k <- pending :: k.ref == ref ==> k.seqNo <= f.openedBySeq)
    && (f.state.IsResolved? ==> f.resolvedAt.Some? && f.resolvedBySeq.Some? && f.resolvedBy.Some?
                                && f.resolvedBySeq.value > f.openedBySeq)
  }

  ghost predicate RoundsSound(s: Hub) {
    forall r <- s.faults :: RoundSound(s.pending, r, s.faults[r])
  }

  /** Rows that survive a write keep their id and never lose a round; fresh rows get unused ids. */
  ghost predicate RoundsGrow(s: Hub, s': Hub) {
    && s.nextId <= s'.nextId
    && forall r <- s'.faults ::
         if r in s.faults && s.faults[r].id == s'.faults[r].id then s.faults[r].incident <= s'.faults[r].incident
         else s'.faults[r].id >= s.nextId
  }

  ghost predicate IdsUsed(s: Hub) {
    forall r <- s.faults :: s.faults[r].id < s.nextId
  }

  ghost predicate VerdictSound(s: Hub, ref: FaultRef, ev: Event, v: Verdict) {
    match v
    case Deferred(was) =>
      ref in s.faults && s.faults[ref].state.IsOpen? ==> ev.seqNo <= s.faults[ref].openedBySeq
    case Moved(f, _) =>
      && RoundSound(s.pending, ref, f)
      && (if ref in s.faults then f.id == s.faults[ref].id && s.faults[ref].incident <= f.incident
          else f.id == s.nextId)
  }

  lemma JudgeIsSound(s: Hub, ref: FaultRef, action: Action, ev: Event)
    requires RoundsSound(s)
    ensures VerdictSound(s, ref, ev, VerdictOn(s, ref, action, ev))
  {
  }

  /** An event of the key that starts its first or next round. */
  predicate StartsRound(s: Hub, ref: FaultRef, v: Verdict) {
    v.Moved? && (ref !in s.faults || v.row.incident > s.faults[ref].incident)
  }

  /**
   * What an event may do to the row of an existing fault: mutes survive everything, a new round
   * is unread and dated by its opening event, within a round severity only rises, the opening
   * stays, and the last-event time goes back exactly when an older resolve closes the round.
   */
  lemma {:induction false} RowFollowsEvent(s: Hub, ref: FaultRef, action: Action, ev: Event)
    requires ref in s.faults
    ensures var v := VerdictOn(s, ref, action, ev);
      v.Moved? ==>
        var (was, f) := (s.faults[ref], v.row);
        && f.mutedAt == was.mutedAt && f.mutedUntil == was.mutedUntil && f.title == ev.title && f.summary == ev.body
        && (StartsRound(s, ref, v) ==> f.readAt.None? && f.openedAt == f.lastEventAt == ev.occurredAt
                                       && f.openedBySeq == ev.seqNo && f.severity == ev.severity && was.state.IsResolved?)
        && (!StartsRound(s, ref, v) ==>
              && f.readAt == was.readAt && f.openedAt == was.openedAt && f.openedBySeq == was.openedBySeq
              && SeverityRank(f.severity) >= SeverityRank(was.severity)
              && (!action.Resolve? ==> SeverityRank(f.severity) >= SeverityRank(ev.severity)
                                       && f.state == was.state && f.resolvedAt == was.resolvedAt)
              && (action.Resolve? ==> f.state.IsResolved? && f.resolvedAt == Some(ev.occurredAt) && f.resolvedBy == Some(ev.id))
              && (f.lastEventAt < was.lastEventAt <==> action.Resolve? && ev.occurredAt < was.lastEventAt))
  {
  }

  lemma {:induction false} EffectKeepsRounds(s: Hub, ref: FaultRef, ev: Event, byHub: bool, late: bool, v: Verdict, now: int)
    requires RoundsSound(s) && IdsUsed(s) && VerdictSound(s, ref, ev, v)
    ensures var s' := Effect(s, ref, ev, byHub, late, v, now); RoundsSound(s') && IdsUsed(s') && RoundsGrow(s, s')
  {
  }

  lemma {:induction false} ApplyKeepsRounds(s: Hub, source: string, ev: Event, byHub: bool, late: bool, now: int)
    requires RoundsSound(s) && IdsUsed(s)
    ensures var s' := Apply(s, source, ev, byHub, late, now); RoundsSound(s') && IdsUsed(s') && RoundsGrow(s, s')
  {
    if ev.topic.OnFault? {
      var ref := FaultRef(source, ev.topic.key);
      var v := VerdictOn(s, ref, ev.topic.action, ev);
      JudgeIsSound(s, ref, ev.topic.action, ev);
      EffectKeepsRounds(s, ref, ev, byHub, late, v, now);
    }
  }

  lemma {:induction false} RemoveAllTables(s: Hub, drops: seq<Drop>, now: int)
    ensures var s' := RemoveAll(s, drops, now);
      && s'.faults == (map r <- s.faults | DropFault(r) !in drops :: s.faults[r])
      && s'.messages == (map id <- s.messages | DropMessage(id) !in drops :: s.messages[id])
      && s' == s.(faults := s'.faults, messages := s'.messages, changes := s'.changes)
  {
    if drops != [] {
      hide Remove;
      var front, d := drops[..|drops| - 1], drops[|drops| - 1];
      RemoveAllTables(s, front, now);
      RemoveTables(RemoveAll(s, front, now), d, now);
      assert forall x :: x in drops <==> x in front || x == d by { assert drops == front + [d]; }
    }
  }

  lemma RemoveTables(s: Hub, d: Drop, now: int)
    ensures var s' := Remove(s, d, now);
      && s'.faults == (map r <- s.faults | DropFault(r) != d :: s.faults[r])
      && s'.messages == (map id <- s.messages | DropMessage(id) != d :: s.messages[id])
      && s' == s.(faults := s'.faults, messages := s'.messages, changes := s'.changes)
  {
    hide Log;
  }

  /** What a retention run leaves: exactly the rows that had not expired. */
  lemma {:induction false} RetainTables(s: Hub, limits: Limits, drops: seq<Drop>, now: int)
    requires ListsExpired(s, Cut(limits, now), drops)
    ensures var (s', kept) := (Retain(s, limits, drops, now), Purge(s, Cut(limits, now)));
      && s'.faults == s.faults - ExpiredFaults(s, Cut(limits, now))
      && s'.messages == s.messages - ExpiredMessages(s, Cut(limits, now))
      && s' == kept.(faults := s'.faults, messages := s'.messages, changes := s'.changes)
  {
    hide RemoveAll, TrimChanges;
    var cut := Cut(limits, now);
    RemoveAllTables(Purge(s, cut), drops, now);
    assert forall r <- s.faults :: DropFault(r) in drops <==> r in ExpiredFaults(s, cut);
    assert forall id <- s.messages :: DropMessage(id) in drops <==> id in ExpiredMessages(s, cut);
  }

  lemma {:induction false} EmitKeepsRounds(s: Hub, source: string, d: Draft, now: int)
    requires RoundsSound(s) && IdsUsed(s)
    ensures var s' := Emit(s, source, d, now); RoundsSound(s') && IdsUsed(s') && RoundsGrow(s, s')
  {
    hide Apply;
    ApplyKeepsRounds(Ticked(s), source, HubEventOf(s, d), true, false, now);
  }

  lemma {:induction false} StepKeepsRounds(s: Hub, step: Step)
    requires RoundsSound(s) && IdsUsed(s) && Enabled(s, step)
    ensures var s' := Next(s, step); RoundsSound(s') && IdsUsed(s') && RoundsGrow(s, s')
  {
    hide Apply, Emit, Retain, FlagFault, MarkMessage, RoundsSound, IdsUsed, RoundsGrow;
    match step
    case Report(source, ev, now) =>
      var s1 := Apply(s, source, ev, false, ev.seqNo <= LastSeq(s, source), now);
      ApplyKeepsRounds(s, source, ev, false, ev.seqNo <= LastSeq(s, source), now);
      RoundsByTables(s, s1, Next(s, step));
    case HubEvent(source, d, now) => EmitKeepsRounds(s, source, d, now);
    case Flagging(ref, flag, now) => FlagKeepsRounds(s, ref, flag, now);
    case Reading(id, read, now) =>
      SameRounds(s);
      MarkTables(s, id, read, now);
      RoundsByTables(s, s, Next(s, step));
    case Retention(limits, drops, now) => RetainKeepsRounds(s, limits, drops, now);
    case Other(kind, now) =>
      SameRounds(s);
      RoundsByTables(s, s, Next(s, step));
  }

  lemma MarkTables(s: Hub, id: nat, read: bool, now: int)
    ensures var s' := MarkMessage(s, id, read, now); s'.faults == s.faults && s'.pending == s.pending && s'.nextId == s.nextId
  {
  }

  lemma SameRounds(s: Hub)
    requires RoundsSound(s) && IdsUsed(s)
    ensures RoundsGrow(s, s)
  {
  }

  /** Only the fault and pending tables and the id counter matter. */
  lemma {:induction false} RoundsByTables(s: Hub, s1: Hub, s': Hub)
    requires RoundsSound(s1) && IdsUsed(s1) && RoundsGrow(s, s1)
    requires s'.faults == s1.faults && s'.pending == s1.pending && s'.nextId == s1.nextId
    ensures RoundsSound(s') && IdsUsed(s') && RoundsGrow(s, s')
  {
    hide RoundSound;
  }

  lemma {:induction false} FlagKeepsRounds(s: Hub, ref: FaultRef, flag: Flag, now: int)
    requires RoundsSound(s) && IdsUsed(s)
    ensures var s' := FlagFault(s, ref, flag, now); RoundsSound(s') && IdsUsed(s') && RoundsGrow(s, s')
  {
    hide Log;
  }

  lemma {:induction false} RetainKeepsRounds(s: Hub, limits: Limits, drops: seq<Drop>, now: int)
    requires RoundsSound(s) && IdsUsed(s) && ListsExpired(s, Cut(limits, now), drops)
    ensures var s' := Retain(s, limits, drops, now); RoundsSound(s') && IdsUsed(s') && RoundsGrow(s, s')
  {
    RetainTables(s, limits, drops, now);
    hide Retain, ListsExpired;
  }

  /** In every reachable state the rounds are sound. */
  lemma {:induction false} RoundsAlwaysSound(steps: seq<Step>)
    requires ValidRun(EMPTY_HUB, steps)
    ensures var s := Run(EMPTY_HUB, steps); RoundsSound(s) && IdsUsed(s)
  {
    if steps != [] {
      RoundsAlwaysSound(steps[..|steps| - 1]);
      StepKeepsRounds(Run(EMPTY_HUB, steps[..|steps| - 1]), steps[|steps| - 1]);
    }
  }

  /** From any sound state on, a row keeps its rounds for as long as it exists. */
  lemma {:induction false} IncidentNeverDecreases(s: Hub, steps: seq<Step>)
    requires RoundsSound(s) && IdsUsed(s) && ValidRun(s, steps)
    ensures var s' := Run(s, steps); RoundsSound(s') && IdsUsed(s') && RoundsGrow(s, s')
  {
    if steps != [] {
      IncidentNeverDecreases(s, steps[..|steps| - 1]);
      StepKeepsRounds(Run(s, steps[..|steps| - 1]), steps[|steps| - 1]);
    }
  }
}
