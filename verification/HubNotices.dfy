/**
 * Notifications: for every fault row the announced opens and resolves strictly alternate,
 * starting with an open, and the row's round number is the number of announced opens, plus one
 * exactly when the row was created already resolved.
 */
module HubNotices {
  import opened Basics
  import opened HubSpec
  import opened HubLinks
  import opened HubReplica

  predicate IsTurn(e: Entry, fid: nat) {
    e.notify.Some? && e.notify.value.faultId == Some(fid)
    && (e.notify.value.kind.IncidentOpen? || e.notify.value.kind.IncidentResolved?)
  }

  /** The opens and resolves announced for a fault, in order. */
  function Turns(h: seq<Entry>, fid: nat): seq<NotifyKind> {
    if h == [] then [] else
      var front, e := Turns(h[..|h| - 1], fid), h[|h| - 1];
      if IsTurn(e, fid) then front + [e.notify.value.kind] else front
  }

  function Opens(ks: seq<NotifyKind>): nat {
    if ks == [] then 0 else Opens(ks[..|ks| - 1]) + if ks[|ks| - 1].IncidentOpen? then 1 else 0
  }

  ghost predicate Alternate(ks: seq<NotifyKind>) {
    forall i :: 0 <= i < |ks| ==> ks[i] == if i % 2 == 0 then IncidentOpen else IncidentResolved
  }

  /** The state in which a fault's row first appeared in the log. */
  function Born(h: seq<Entry>, fid: nat): Option<FaultState> {
    if h == [] then None else
      var front, e := Born(h[..|h| - 1], fid), h[|h| - 1];
      if front.Some? then front
      else if e.payload.FaultChange? && e.payload.fault.id == fid then Some(e.payload.fault.state) else None
  }

  ghost predicate RowAnnounced(h: seq<Entry>, f: Fault) {
    var ks := Turns(h, f.id);
    && (f.state.IsOpen? <==> |ks| % 2 == 1)
    && Born(h, f.id).Some?
    && f.incident == Opens(ks) + if Born(h, f.id).value.IsResolved? then 1 else 0
  }

  ghost predicate NoticesSound(s: Hub) {
    var h := s.changes.history;
    && (forall fid :: Alternate(Turns(h, fid)))
    && (forall fid :: fid >= s.nextId ==> Turns(h, fid) == [] && Born(h, fid).None?)
    && (forall r <- s.faults :: RowAnnounced(h, s.faults[r]))
  }

  lemma TurnsOne(h: seq<Entry>, e: Entry, fid: nat)
    ensures Turns(h + [e], fid) == if IsTurn(e, fid) then Turns(h, fid) + [e.notify.value.kind] else Turns(h, fid)
    ensures Born(h + [e], fid) == if Born(h, fid).Some? then Born(h, fid)
                                  else if e.payload.FaultChange? && e.payload.fault.id == fid
                                  then Some(e.payload.fault.state) else None
  {
    assert (h + [e])[..|h|] == h;
  }

  lemma OpensOne(ks: seq<NotifyKind>, k: NotifyKind)
    ensures Opens(ks + [k]) == Opens(ks) + if k.IncidentOpen? then 1 else 0
  {
    assert (ks + [k])[..|ks|] == ks;
  }

  /** Each verdict announces exactly the change of state it makes. */
  ghost predicate VerdictAnnounced(s: Hub, ref: FaultRef, v: Verdict) {
    match v
    case Deferred(was) => was == FaultAt(s, ref)
    case Moved(f, kind) =>
      if ref !in s.faults then f.id == s.nextId && f.incident == 1
                               && kind == if f.state.IsOpen? then IncidentOpen else NewMessage
      else
        var g := s.faults[ref];
        && f.id == g.id
        && f.incident == g.incident + (if kind.IncidentOpen? then 1 else 0)
        && (kind.IncidentOpen? <==> g.state.IsResolved? && f.state.IsOpen?)
        && (kind.IncidentResolved? <==> g.state.IsOpen? && f.state.IsResolved?)
  }

  lemma {:induction false} JudgeAnnounces(s: Hub, ref: FaultRef, action: Action, ev: Event)
    ensures VerdictAnnounced(s, ref, VerdictOn(s, ref, action, ev))
  {
  }

  /** An entry that is no turn, and that creates no row not already known, changes nothing. */
  lemma {:induction false} QuietEntry(s: Hub, s': Hub, e: Entry)
    requires NoticesSound(s) && s'.changes.history == s.changes.history + [e] && s.nextId <= s'.nextId
    requires forall fid :: !IsTurn(e, fid)
    requires e.payload.FaultChange? ==> e.payload.fault.id < s'.nextId
    requires forall r <- s'.faults :: r in s.faults && s'.faults[r].id == s.faults[r].id
               && s'.faults[r].state == s.faults[r].state && s'.faults[r].incident == s.faults[r].incident
    ensures NoticesSound(s')
  {
    forall fid: nat
      ensures Turns(s'.changes.history, fid) == Turns(s.changes.history, fid)
      ensures Born(s.changes.history, fid).Some? ==> Born(s'.changes.history, fid) == Born(s.changes.history, fid)
      ensures fid >= s'.nextId ==> Born(s'.changes.history, fid).None?
    {
      TurnsOne(s.changes.history, e, fid);
    }
    forall r <- s'.faults ensures RowAnnounced(s'.changes.history, s'.faults[r]) {
      assert RowAnnounced(s.changes.history, s.faults[r]);
    }
  }

  /** The two change rows of a moved fault: the row, then the message that announces it. */
  ghost predicate MovedEntries(h: seq<Entry>, h': seq<Entry>, f: Fault, kind: NotifyKind) {
    && |h'| == |h| + 2 && h' == h + [h'[|h|]] + [h'[|h| + 1]]
    && h'[|h|].payload.FaultChange? && h'[|h|].payload.fault.id == f.id && h'[|h|].payload.fault.state == f.state
    && h'[|h|].notify.None?
    && h'[|h| + 1].payload.MessageChange?
    && h'[|h| + 1].notify.Some? && h'[|h| + 1].notify.value.kind == kind
    && h'[|h| + 1].notify.value.faultId == Some(f.id)
  }

  lemma {:induction false} MovedTurns(h: seq<Entry>, h': seq<Entry>, f: Fault, kind: NotifyKind, fid: nat)
    requires MovedEntries(h, h', f, kind)
    ensures Turns(h', fid) == if fid == f.id && (kind.IncidentOpen? || kind.IncidentResolved?)
                              then Turns(h, fid) + [kind] else Turns(h, fid)
    ensures Born(h', fid) == if Born(h, fid).Some? then Born(h, fid) else if fid == f.id then Some(f.state) else None
  {
    TurnsOne(h, h'[|h|], fid);
    TurnsOne(h + [h'[|h|]], h'[|h| + 1], fid);
  }

  lemma {:induction false} MovedOwnRow(s: Hub, h': seq<Entry>, ref: FaultRef, v: Verdict)
    requires NoticesSound(s) && VerdictAnnounced(s, ref, v) && v.Moved?
    requires MovedEntries(s.changes.history, h', v.row, v.kind)
    ensures RowAnnounced(h', v.row) && Alternate(Turns(h', v.row.id))
  {
    hide Turns, Opens, Born;
    var h, f := s.changes.history, v.row;
    MovedTurns(h, h', f, v.kind, f.id);
    OpensOne(Turns(h, f.id), v.kind);
    if ref in s.faults {
      assert RowAnnounced(h, s.faults[ref]);
    } else {
      assert Turns(h, f.id) == [] && Born(h, f.id).None?;
      OpensNone();
    }
    AlternateMore(Turns(h, f.id));
  }

  lemma OpensNone()
    ensures Opens([]) == 0
  {
  }

  lemma AlternateMore(ks: seq<NotifyKind>)
    requires Alternate(ks)
    ensures |ks| % 2 == 0 ==> Alternate(ks + [IncidentOpen])
    ensures |ks| % 2 == 1 ==> Alternate(ks + [IncidentResolved])
  {
  }

  lemma {:induction false} MovedKeepsNotices(s: Hub, s': Hub, ref: FaultRef, v: Verdict)
    requires NoticesSound(s) && IdsSound(s) && VerdictAnnounced(s, ref, v) && v.Moved?
    requires MovedEntries(s.changes.history, s'.changes.history, v.row, v.kind)
    requires s'.faults == s.faults[ref := StampFault(v.row, s.changes)]
    requires s'.nextId == s.nextId + if ref in s.faults then 1 else 2
    ensures NoticesSound(s')
  {
    hide MovedEntries, VerdictAnnounced;
    var h, h' := s.changes.history, s'.changes.history;
    MovedOwnRow(s, h', ref, v);
    assert v.row.id < s'.nextId && (forall r <- s.faults :: r != ref ==> s.faults[r].id != v.row.id) by {
      MovedRowIsOwn(s, ref, v);
    }
    forall fid: nat ensures Alternate(Turns(h', fid)) {
      MovedTurns(h, h', v.row, v.kind, fid);
    }
    forall fid: nat | fid >= s'.nextId ensures Turns(h', fid) == [] && Born(h', fid).None? {
      MovedTurns(h, h', v.row, v.kind, fid);
    }
    forall r <- s'.faults ensures RowAnnounced(h', s'.faults[r]) {
      if r != ref {
        MovedTurns(h, h', v.row, v.kind, s.faults[r].id);
        assert RowAnnounced(h, s.faults[r]);
      }
    }
  }

  lemma MovedRowIsOwn(s: Hub, ref: FaultRef, v: Verdict)
    requires IdsSound(s) && VerdictAnnounced(s, ref, v) && v.Moved?
    ensures v.row.id < s.nextId + if ref in s.faults then 1 else 2
    ensures forall r <- s.faults :: r != ref ==> s.faults[r].id != v.row.id
  {
  }

  lemma {:induction false} EffectKeepsNotices(s: Hub, ref: FaultRef, ev: Event, byHub: bool, late: bool, v: Verdict, now: int)
    requires NoticesSound(s) && IdsSound(s) && VerdictAnnounced(s, ref, v)
    ensures NoticesSound(Effect(s, ref, ev, byHub, late, v, now))
  {
    hide NoticesSound, IdsSound, VerdictAnnounced, Orphans, Adopt, ToMessageWire, MessageKind;
    var s' := Effect(s, ref, ev, byHub, late, v, now);
    var h, h' := s.changes.history, s'.changes.history;
    if v.Moved? {
      assert h' == h + [h'[|h|]] + [h'[|h| + 1]];
      assert MovedEntries(h, h', v.row, v.kind);
      MovedKeepsNotices(s, s', ref, v);
    } else {
      QuietEntry(s, s', h'[|h|]);
    }
  }

  lemma {:induction false} ApplyKeepsNotices(s: Hub, source: string, ev: Event, byHub: bool, late: bool, now: int)
    requires NoticesSound(s) && IdsSound(s)
    ensures NoticesSound(Apply(s, source, ev, byHub, late, now))
  {
    hide Effect, VerdictOn, NoticesSound, ToMessageWire, MessageKind;
    var s' := Apply(s, source, ev, byHub, late, now);
    match ev.topic
    case Standalone => QuietEntry(s, s', s'.changes.history[|s.changes.history|]);
    case OnFault(key, action) =>
      var ref := FaultRef(source, key);
      JudgeAnnounces(s, ref, action, ev);
      EffectKeepsNotices(s, ref, ev, byHub, late, VerdictOn(s, ref, action, ev), now);
  }

  lemma {:induction false} RemoveAllKeepsNotices(s: Hub, drops: seq<Drop>, now: int)
    requires NoticesSound(s)
    ensures NoticesSound(RemoveAll(s, drops, now))
  {
    hide NoticesSound;
    if drops != [] {
      var front, d := RemoveAll(s, drops[..|drops| - 1], now), drops[|drops| - 1];
      RemoveAllKeepsNotices(s, drops[..|drops| - 1], now);
      var s' := Remove(front, d, now);
      if s'.changes != front.changes {
        QuietEntry(front, s', s'.changes.history[|front.changes.history|]);
      }
    }
  }

  lemma OtherFieldsKeepNotices(s: Hub, s': Hub)
    requires NoticesSound(s) && s'.faults == s.faults && s'.changes.history == s.changes.history && s.nextId <= s'.nextId
    ensures NoticesSound(s')
  {
  }

  lemma {:induction false} StepKeepsNotices(s: Hub, step: Step)
    requires NoticesSound(s) && IdsSound(s)
    ensures NoticesSound(Next(s, step))
  {
    hide Apply, RemoveAll, NoticesSound, TrimChanges, ToFaultWire, ToMessageWire;
    var s' := Next(s, step);
    match step
    case Report(source, ev, now) =>
      var late := ev.seqNo <= LastSeq(s, source);
      ApplyKeepsNotices(s, source, ev, false, late, now);
      OtherFieldsKeepNotices(Apply(s, source, ev, false, late, now), s');
    case HubEvent(source, d, now) =>
      OtherFieldsKeepNotices(s, Ticked(s));
      ApplyKeepsNotices(Ticked(s), source, HubEventOf(s, d), true, false, now);
    case Flagging(ref, flag, now) => FlagKeepsNotices(s, ref, flag, now);
    case Reading(id, read, now) =>
      if s' != s { QuietEntry(s, s', s'.changes.history[|s.changes.history|]); }
    case Retention(limits, drops, now) =>
      var s1 := Purge(s, Cut(limits, now));
      OtherFieldsKeepNotices(s, s1);
      RemoveAllKeepsNotices(s1, drops, now);
      TrimKeepsHistory(RemoveAll(s1, drops, now).changes, limits, now);
      OtherFieldsKeepNotices(RemoveAll(s1, drops, now), s');
    case Other(kind, now) => QuietEntry(s, s', s'.changes.history[|s.changes.history|]);
  }

  lemma {:induction false} FlagKeepsNotices(s: Hub, ref: FaultRef, flag: Flag, now: int)
    requires NoticesSound(s) && IdsSound(s)
    ensures NoticesSound(FlagFault(s, ref, flag, now))
  {
    hide NoticesSound;
    var s' := FlagFault(s, ref, flag, now);
    if s' != s {
      QuietEntry(s, s', s'.changes.history[|s.changes.history|]);
    }
  }

  /** In every reachable state announced opens and resolves alternate and count the rounds. */
  lemma {:induction false} NoticesAlwaysSound(steps: seq<Step>)
    requires ValidRun(EMPTY_HUB, steps)
    ensures NoticesSound(Run(EMPTY_HUB, steps))
  {
    if steps != [] {
      hide Next, NoticesSound;
      NoticesAlwaysSound(steps[..|steps| - 1]);
      LinksAlwaysSound(steps[..|steps| - 1]);
      StepKeepsNotices(Run(EMPTY_HUB, steps[..|steps| - 1]), steps[|steps| - 1]);
    }
  }
}
