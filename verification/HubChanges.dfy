/**
 * The change log: seqs are dense from 1, retention only ever cuts a prefix of what was
 * committed, and a stream is told to resync exactly when a change it has not seen is gone.
 */
module HubChanges {
  import opened Basics
  import opened HubSpec

  /** The object inside a change carries the seq the change is stored under. */
  predicate Stamped(e: Entry) {
    && (e.payload.FaultChange? ==> e.payload.fault.changeSeq == e.seqNo)
    && (e.payload.MessageChange? ==> e.payload.message.changeSeq == e.seqNo)
  }

  /** `c'` is `c` with entries committed at `now` appended and numbered on. */
  ghost predicate Extends(c: Changes, c': Changes, now: int) {
    && |c.history| <= |c'.history| && c'.history[..|c.history|] == c.history
    && c'.rows == c.rows + c'.history[|c.history|..]
    && c'.last == c.last + |c'.history| - |c.history|
    && forall i :: |c.history| <= i < |c'.history| ==>
         c'.history[i].createdAt == now && c'.history[i].seqNo == c.last + 1 + i - |c.history|
         && Stamped(c'.history[i])
  }

  lemma LogExtends(c: Changes, p: Payload, notify: Option<Notify>, now: int)
    requires Stamped(Entry(c.last + 1, p, notify, now))
    ensures Extends(c, Log(c, p, notify, now), now)
  {
  }

  lemma ExtendsTransitive(a: Changes, b: Changes, c: Changes, now: int)
    requires Extends(a, b, now) && Extends(b, c, now)
    ensures Extends(a, c, now)
  {
    hide Stamped;
    SplitTwice(a.history, b.history, c.history);
    forall i | |a.history| <= i < |c.history|
      ensures c.history[i].createdAt == now && c.history[i].seqNo == a.last + 1 + i - |a.history| && Stamped(c.history[i])
    {
      if i < |b.history| {
        assert c.history[i] == b.history[i];
      }
    }
  }

  lemma SplitTwice(a: seq<Entry>, b: seq<Entry>, c: seq<Entry>)
    requires |a| <= |b| <= |c| && b[..|a|] == a && c[..|b|] == b
    ensures c[..|a|] == a && c[|a|..] == b[|a|..] + c[|b|..]
    ensures forall i :: 0 <= i < |b| ==> c[i] == b[i]
  {
    assert forall i :: 0 <= i < |b| ==> c[i] == c[..|b|][i];
  }

  lemma {:induction false} PostExtends(s: Hub, m: Message, kind: NotifyKind, muted: bool, now: int)
    ensures Extends(s.changes, Post(s, m, kind, muted, now).changes, now)
  {
    hide Extends;
    var row := StampMessage(m, s.changes);
    LogExtends(s.changes, MessageChange(ToMessageWire(s.nextId, row)), Some(Notify(kind, m.faultId, muted)), now);
  }

  lemma {:induction false} SettleExtends(s: Hub, ref: FaultRef, ev: Event, v: Verdict, now: int)
    ensures Extends(s.changes, Settle(s, ref, ev, v, now).changes, now)
  {
    if v.Moved? {
      LogExtends(s.changes, FaultChange(ToFaultWire(ref, StampFault(v.row, s.changes))), None, now);
    }
  }

  lemma {:induction false} ApplyExtends(s: Hub, source: string, ev: Event, byHub: bool, late: bool, now: int)
    ensures Extends(s.changes, Apply(s, source, ev, byHub, late, now).changes, now)
  {
    hide Extends, VerdictOn, MessageOf, Post, Settle;
    var s0 := Record(s, source, ev, byHub, late, now);
    match ev.topic
    case Standalone => PostExtends(s0, MessageOf(source, ev, byHub, late, now, None, None), NewMessage, false, now);
    case OnFault(key, action) =>
      var ref := FaultRef(source, key);
      var v := VerdictOn(s, ref, action, ev);
      var s1 := Settle(s0, ref, ev, v, now);
      SettleExtends(s0, ref, ev, v, now);
      match v {
        case Deferred(was) =>
          PostExtends(s1, MessageOf(source, ev, byHub, late, now, if was.Some? then Some(was.value.id) else None, None),
                      NewMessage, was.Some? && was.value.mutedAt.Some?, now);
        case Moved(f, kind) =>
          PostExtends(s1, MessageOf(source, ev, byHub, late, now, Some(f.id), Some(f.incident)), kind,
                      f.mutedAt.Some?, now);
      }
      ExtendsTransitive(s.changes, s1.changes, Apply(s, source, ev, byHub, late, now).changes, now);
  }

  lemma {:induction false} RemoveAllExtends(s: Hub, drops: seq<Drop>, now: int)
    ensures Extends(s.changes, RemoveAll(s, drops, now).changes, now)
  {
    if drops != [] {
      var front, d := RemoveAll(s, drops[..|drops| - 1], now), drops[|drops| - 1];
      RemoveAllExtends(s, drops[..|drops| - 1], now);
      var gone := if d.DropFault? && d.ref in front.faults then front.faults[d.ref].id else 0;
      LogExtends(front.changes, if d.DropMessage? then MessageGone(d.id) else FaultGone(gone), None, now);
      assert Extends(front.changes, Remove(front, d, now).changes, now);
      ExtendsTransitive(s.changes, front.changes, Remove(front, d, now).changes, now);
    }
  }

  /** Apart from the trimming at the end of a retention run, a write only appends. */
  function BeforeTrim(s: Hub, step: Step): Changes {
    match step
    case Retention(limits, drops, now) => RemoveAll(Purge(s, Cut(limits, now)), drops, now).changes
    case _ => Next(s, step).changes
  }

  lemma {:induction false} StepExtends(s: Hub, step: Step)
    ensures Extends(s.changes, BeforeTrim(s, step), step.now)
  {
    hide Apply, RemoveAll, Purge, Extends;
    assert Extends(s.changes, s.changes, step.now) by { ExtendsReflexive(s.changes, step.now); }
    match step
    case Report(source, ev, now) => ApplyExtends(s, source, ev, false, ev.seqNo <= LastSeq(s, source), now);
    case HubEvent(source, d, now) => ApplyExtends(Ticked(s), source, HubEventOf(s, d), true, false, now);
    case Flagging(ref, flag, now) =>
      if ref in s.faults {
        LogExtends(s.changes, FaultChange(ToFaultWire(ref, StampFault(SetFlag(s.faults[ref], flag, now), s.changes))), None, now);
      }
    case Reading(id, read, now) =>
      if id in s.messages {
        var m := s.messages[id].(readAt := if read then Some(now) else None);
        LogExtends(s.changes, MessageChange(ToMessageWire(id, StampMessage(m, s.changes))), None, now);
      }
    case Retention(limits, drops, now) =>
      assert Purge(s, Cut(limits, now)).changes == s.changes by { PurgeKeepsChanges(s, Cut(limits, now)); }
      RemoveAllExtends(Purge(s, Cut(limits, now)), drops, now);
    case Other(kind, now) => LogExtends(s.changes, OtherPayload(kind), None, now);
  }

  lemma ExtendsReflexive(c: Changes, now: int)
    ensures Extends(c, c, now)
  {
  }

  lemma PurgeKeepsChanges(s: Hub, cut: int)
    ensures Purge(s, cut).changes == s.changes
  {
  }

  // ---- what stays in the table ----

  ghost predicate Dense(c: Changes) {
    |c.history| == c.last
    && forall i :: 0 <= i < |c.history| ==> c.history[i].seqNo == i + 1 && Stamped(c.history[i])
  }

  function Trimmed(c: Changes): int { |c.history| - |c.rows| }

  /** The table holds a contiguous suffix of everything committed. */
  ghost predicate Suffix(c: Changes) { Trimmed(c) >= 0 && c.rows == c.history[Trimmed(c)..] }

  /** The same, and the suffix is not empty. */
  ghost predicate Tail(c: Changes) { Suffix(c) && (c.history != [] ==> c.rows != []) }

  /** Commit times never go back, and none is after `t`. */
  ghost predicate Timely(c: Changes, t: int) {
    && (forall i, j :: 0 <= i < j < |c.history| ==> c.history[i].createdAt <= c.history[j].createdAt)
    && (forall i :: 0 <= i < |c.history| ==> c.history[i].createdAt <= t)
  }

  lemma OldEntriesStay(c: Changes, c': Changes, now: int)
    requires Extends(c, c', now)
    ensures |c.history| <= |c'.history| && forall i :: 0 <= i < |c.history| ==> c'.history[i] == c.history[i]
  {
    hide Stamped;
    assert forall i :: 0 <= i < |c.history| ==> c'.history[i] == c'.history[..|c.history|][i];
  }

  lemma ExtendsKeepsSuffix(c: Changes, c': Changes, now: int)
    requires Extends(c, c', now) && Suffix(c)
    ensures Suffix(c')
  {
    hide Stamped;
    assert c'.history == c.history + c'.history[|c.history|..];
    assert c'.history[Trimmed(c)..] == c.history[Trimmed(c)..] + c'.history[|c.history|..];
  }

  lemma ExtendsKeepsTimely(c: Changes, c': Changes, t: int, now: int)
    requires Extends(c, c', now) && Timely(c, t) && t <= now
    ensures Timely(c', now)
  {
    hide Stamped;
    OldEntriesStay(c, c', now);
  }

  lemma {:induction false} ExtendsKeeps(c: Changes, c': Changes, t: int, now: int)
    requires Extends(c, c', now)
    ensures Dense(c) ==> Dense(c')
    ensures Suffix(c) ==> Suffix(c')
    ensures Tail(c) && Dense(c) ==> Tail(c')
    ensures Timely(c, t) && t <= now ==> Timely(c', now)
  {
    hide Stamped, Timely, Suffix;
    if Timely(c, t) && t <= now { ExtendsKeepsTimely(c, c', t, now); }
    if Suffix(c) { ExtendsKeepsSuffix(c, c', now); }
    OldEntriesStay(c, c', now);
  }

  ghost predicate RowsInOrder(rows: seq<Entry>) {
    forall i, j :: 0 <= i < j < |rows| ==> rows[i].createdAt <= rows[j].createdAt && rows[i].seqNo < rows[j].seqNo
  }

  /** Exactly the rows from index `k` on are kept. */
  ghost predicate KeptFrom(rows: seq<Entry>, k: nat, cutTime: int, cutSeq: int) {
    k <= |rows| && forall i :: 0 <= i < |rows| ==> (Keeps(rows[i], cutTime, cutSeq) <==> k <= i)
  }

  /** Over rows in seq and time order, the retention delete cuts a prefix. */
  lemma {:induction false} TrimCutsPrefix(rows: seq<Entry>, cutTime: int, cutSeq: int) returns (k: nat)
    requires RowsInOrder(rows)
    ensures KeptFrom(rows, k, cutTime, cutSeq) && Trim(rows, cutTime, cutSeq) == rows[k..]
  {
    if rows == [] {
      k := 0;
    } else {
      var front, e := rows[..|rows| - 1], rows[|rows| - 1];
      assert RowsInOrder(front);
      k := TrimCutsPrefix(front, cutTime, cutSeq);
      assert rows == front + [e];
      hide Keeps, RowsInOrder, KeptFrom;
      if Keeps(e, cutTime, cutSeq) {
        KeptWithLast(front, e, k, cutTime, cutSeq);
      } else {
        DroppedWithLast(front, e, k, cutTime, cutSeq);
        k := |rows|;
      }
    }
  }

  lemma KeptWithLast(front: seq<Entry>, e: Entry, k: nat, cutTime: int, cutSeq: int)
    requires KeptFrom(front, k, cutTime, cutSeq) && Keeps(e, cutTime, cutSeq)
    ensures KeptFrom(front + [e], k, cutTime, cutSeq) && front[k..] + [e] == (front + [e])[k..]
  {
    hide Keeps;
  }

  /** A row that goes takes all the rows before it along. */
  lemma DroppedWithLast(front: seq<Entry>, e: Entry, k: nat, cutTime: int, cutSeq: int)
    requires RowsInOrder(front + [e]) && KeptFrom(front, k, cutTime, cutSeq) && !Keeps(e, cutTime, cutSeq)
    ensures k == |front| && KeptFrom(front + [e], |front| + 1, cutTime, cutSeq)
  {
    hide Keeps;
    assert k < |front| ==> Keeps(front[k], cutTime, cutSeq);
    forall i | 0 <= i < |front| ensures !Keeps(front[i], cutTime, cutSeq) {
      assert (front + [e])[i] == front[i] && (front + [e])[|front|] == e;
      KeepsLater(front[i], e, cutTime, cutSeq);
    }
  }

  lemma KeepsLater(a: Entry, b: Entry, cutTime: int, cutSeq: int)
    requires a.createdAt <= b.createdAt && a.seqNo < b.seqNo
    ensures Keeps(a, cutTime, cutSeq) ==> Keeps(b, cutTime, cutSeq)
  {
  }

  /** The cut leaves the newest row in place, and so the table non-empty, exactly under this condition. */
  predicate KeepsNewest(c: Changes, limits: Limits, now: int) {
    c.rows == [] || limits.changesMinSeq >= 1
    || c.rows[|c.rows| - 1].createdAt >= now - limits.changesDays * DAY
  }

  lemma {:induction false} TrimKeepsSuffix(c: Changes, limits: Limits, now: int, t: int) returns (k: nat)
    requires Dense(c) && Suffix(c) && Timely(c, t) && c.rows != []
    ensures k <= |c.rows| && TrimChanges(c, limits, now) == c.(rows := c.rows[k..])
    ensures k < |c.rows| <==> KeepsNewest(c, limits, now)
  {
    var newest := c.rows[|c.rows| - 1];
    assert RowsInOrder(c.rows) by {
      assert forall i :: 0 <= i < |c.rows| ==> c.rows[i] == c.history[Trimmed(c) + i];
    }
    k := TrimCutsPrefix(c.rows, now - limits.changesDays * DAY, newest.seqNo - limits.changesMinSeq);
    assert k < |c.rows| <==> Keeps(newest, now - limits.changesDays * DAY, newest.seqNo - limits.changesMinSeq);
  }

  lemma {:induction false} TrimKeepsTail(c: Changes, limits: Limits, now: int, t: int)
    requires Dense(c) && Suffix(c) && Timely(c, t)
    ensures var c' := TrimChanges(c, limits, now);
      && Dense(c') && Suffix(c') && Timely(c', t) && c'.history == c.history && |c'.rows| <= |c.rows|
      && (Tail(c) ==> (Tail(c') <==> KeepsNewest(c, limits, now)))
  {
    if c.rows != [] {
      hide TrimChanges;
      var k := TrimKeepsSuffix(c, limits, now, t);
      assert c.rows[k..] == c.history[Trimmed(c) + k..];
    }
  }

  ghost predicate Clocked(steps: seq<Step>) {
    forall i, j :: 0 <= i < j < |steps| ==> steps[i].now <= steps[j].now
  }

  ghost predicate FloorSet(steps: seq<Step>) {
    forall st <- steps :: st.Retention? ==> st.limits.changesMinSeq >= 1
  }

  lemma StepChanges(s: Hub, step: Step)
    ensures Next(s, step).changes == if step.Retention? then TrimChanges(BeforeTrim(s, step), step.limits, step.now)
                                     else BeforeTrim(s, step)
  {
  }

  lemma {:induction false} SeqsAlwaysDense(steps: seq<Step>)
    ensures Dense(Run(EMPTY_HUB, steps).changes)
  {
    hide Next, BeforeTrim;
    if steps != [] {
      var s, step := Run(EMPTY_HUB, steps[..|steps| - 1]), steps[|steps| - 1];
      SeqsAlwaysDense(steps[..|steps| - 1]);
      StepExtends(s, step);
      StepChanges(s, step);
      ExtendsKeeps(s.changes, BeforeTrim(s, step), step.now, step.now);
    }
  }

  /** With a clock that does not go back the table stays a suffix, and with a minimum of one row not an empty one. */
  lemma {:induction false} StepKeepsTail(s: Hub, step: Step, t: int)
    requires Dense(s.changes) && Suffix(s.changes) && Timely(s.changes, t) && t <= step.now
    ensures var c := Next(s, step).changes;
      && Dense(c) && Suffix(c) && Timely(c, step.now)
      && (Tail(s.changes) && (step.Retention? ==> step.limits.changesMinSeq >= 1) ==> Tail(c))
  {
    hide Next, BeforeTrim, TrimChanges, Extends, Dense, Suffix, Tail, Timely;
    StepExtends(s, step);
    StepChanges(s, step);
    ExtendsKeeps(s.changes, BeforeTrim(s, step), t, step.now);
    if step.Retention? {
      TrimKeepsTail(BeforeTrim(s, step), step.limits, step.now, step.now);
    }
  }

  lemma LaterBound(c: Changes, t: int, t': int)
    requires Timely(c, t) && t <= t'
    ensures Timely(c, t')
  {
  }

  /** With a clock that does not go back and a retained minimum of at least one row. */
  lemma {:induction false} LogAlwaysTail(steps: seq<Step>, t: int)
    requires Clocked(steps) && FloorSet(steps) && forall st <- steps :: st.now <= t
    ensures var c := Run(EMPTY_HUB, steps).changes; Dense(c) && Tail(c) && Timely(c, t)
  {
    if steps != [] {
      hide Next, Dense, Suffix, Timely;
      var front, step := steps[..|steps| - 1], steps[|steps| - 1];
      LogAlwaysTail(front, step.now);
      StepKeepsTail(Run(EMPTY_HUB, front), step, step.now);
      LaterBound(Run(EMPTY_HUB, steps).changes, step.now, t);
    }
  }

  // ---- the window check of a stream ----

  predicate Resyncs(c: Changes, since: int) {
    c.rows != [] && since + 1 < c.rows[0].seqNo
  }

  /** On such a log a stream is refused exactly when a change after `since` has been trimmed. */
  lemma {:induction false} ResyncExactly(c: Changes, since: int)
    requires Dense(c) && Tail(c) && since >= 0
    ensures Resyncs(c, since) <==> exists i :: 0 <= i < Trimmed(c) && c.history[i].seqNo > since
  {
    if c.history != [] {
      assert c.rows[0] == c.history[Trimmed(c)];
      if Resyncs(c, since) {
        assert c.history[Trimmed(c) - 1].seqNo > since;
      }
    }
  }

  /** Once the table is emptied, no cursor is ever refused, whatever it misses. */
  lemma {:induction false} EmptiedLogNeverResyncs(c: Changes, limits: Limits, now: int, t: int, since: int)
    requires Dense(c) && Tail(c) && Timely(c, t) && c.rows != [] && !KeepsNewest(c, limits, now)
    ensures var c' := TrimChanges(c, limits, now);
      c'.rows == [] && !Resyncs(c', since) && Trimmed(c') == |c.history|
  {
    TrimKeepsTail(c, limits, now, t);
  }
}
