/**
 * The hub's tables as mutable state, written statement by statement the way the handlers write
 * them. Every method is proved to commit exactly the transition `HubSpec` defines.
 */
module HubStore {
  import opened Basics
  import opened HubSpec
  import opened HubRounds
  import opened HubOrder
  import opened HubIngest
  import opened HubReports
  import opened HubSync
  import HubChanges

  datatype IngestAnswer = TooMany | Answer(accepted: seq<nat>, duplicates: seq<nat>, rejected: seq<nat>, lastSeq: int)

  class Store {
    var faults: map<FaultRef, Fault>
    var pending: map<PendingKey, Pending>
    var messages: map<nat, Message>
    var events: map<EventKey, EventRow>
    var rows: seq<Entry>
    var changeSeq: nat
    var hubSeq: int
    var nextId: nat
    var lastEventSeq: map<string, int>
    ghost var history: seq<Entry>
    ghost var backfilled: map<nat, nat>
    ghost var applied: seq<Applied>

    ghost function Db(): Hub
      reads this
    {
      Hub(faults, pending, messages, events, Changes(rows, changeSeq, history), hubSeq, nextId, lastEventSeq,
          backfilled, applied)
    }

    constructor ()
      ensures Db() == EMPTY_HUB
    {
      faults, pending, messages, events := map[], map[], map[], map[];
      rows, changeSeq, hubSeq, nextId, lastEventSeq := [], 0, HUB_SEQ_BASE, 0, map[];
      history, backfilled, applied := [], map[], [];
    }

    /** Takes the next change seq and writes the row under it. */
    method InsertChange(p: Payload, notify: Option<Notify>, now: int)
      modifies this`rows, this`changeSeq, this`history
      ensures Changes(rows, changeSeq, history) == Log(old(Changes(rows, changeSeq, history)), p, notify, now)
    {
      changeSeq := changeSeq + 1;
      var entry := Entry(changeSeq, p, notify, now);
      rows := rows + [entry];
      history := history + [entry];
    }

    method WriteFault(ref: FaultRef, f: Fault, now: int)
      modifies this`rows, this`changeSeq, this`history, this`faults
      ensures Db() == PutFault(old(Db()), ref, f, now)
    {
      var row := f.(changeSeq := changeSeq + 1);
      InsertChange(FaultChange(ToFaultWire(ref, row)), None, now);
      faults := faults[ref := row];
    }

    method WriteMessage(id: nat, m: Message, notify: Option<Notify>, now: int)
      modifies this`rows, this`changeSeq, this`history, this`messages
      ensures Db() == PutMessage(old(Db()), id, m, notify, now)
    {
      var row := m.(changeSeq := changeSeq + 1);
      InsertChange(MessageChange(ToMessageWire(id, row)), notify, now);
      messages := messages[id := row];
    }

    /** The incident state machine on one key: the switch over action and row state. */
    method Transition(ref: FaultRef, action: Action, ev: Event) returns (v: Verdict)
      modifies this`pending, this`nextId
      ensures v == VerdictOn(old(Db()), ref, action, ev)
      ensures nextId == if v.Moved? && ref !in faults then old(nextId) + 1 else old(nextId)
      ensures v.Moved? ==> pending == old(pending)
      ensures v.Deferred? ==> var k := PendingKey(ref, ev.seqNo);
        pending == if k in old(pending) then old(pending) else old(pending)[k := Pending(ev.occurredAt, ev.title, ev.id)]
    {
      var f := if ref in faults then Some(faults[ref]) else None;
      if action.Resolve? {
        if f.Some? && f.value.state.IsOpen? && f.value.openedBySeq < ev.seqNo {
          var row := f.value;
          row := row.(state := IsResolved, resolvedAt := Some(ev.occurredAt));
          row := row.(resolvedBySeq := Some(ev.seqNo), resolvedBy := Some(ev.id));
          row := row.(lastEventAt := ev.occurredAt, eventCount := row.eventCount + 1);
          row := row.(title := ev.title, summary := ev.body);
          return Moved(row, IncidentResolved);
        }
        var k := PendingKey(ref, ev.seqNo);
        if k !in pending {
          pending := pending[k := Pending(ev.occurredAt, ev.title, ev.id)];
        }
        return Deferred(f);
      }
      var later := FindPending(pending, ref, ev.seqNo);
      if f.None? {
        var row := NewFault(nextId, ev);
        nextId := nextId + 1;
        if later.Some? {
          row := row.(state := IsResolved, resolvedAt := Some(later.value.1.occurredAt));
          row := row.(resolvedBySeq := Some(later.value.0), resolvedBy := Some(later.value.1.eventId));
          return Moved(row, NewMessage);
        }
        return Moved(row, IncidentOpen);
      }
      if f.value.state.IsOpen? {
        return Moved(Merge(f.value, ev), IncidentUpdate);
      }
      if later.Some? {
        return Moved(Merge(f.value, ev), NewMessage);
      }
      var row := f.value;
      row := row.(incident := row.incident + 1, state := IsOpen);
      row := row.(severity := ev.severity, title := ev.title, summary := ev.body);
      row := row.(openedAt := ev.occurredAt, openedBySeq := ev.seqNo, lastEventAt := ev.occurredAt);
      row := row.(resolvedAt := None, resolvedBySeq := None, resolvedBy := None);
      row := row.(eventCount := 1, readAt := None);
      return Moved(row, IncidentOpen);
    }

    method PostMessage(m: Message, kind: NotifyKind, muted: bool, now: int)
      modifies this
      ensures Db() == Post(old(Db()), m, kind, muted, now)
    {
      var id := nextId;
      nextId := nextId + 1;
      WriteMessage(id, m, Some(Notify(kind, m.faultId, muted)), now);
    }

    /** The state machine, the row, and the messages of an already closed round. */
    method SettleEvent(ref: FaultRef, action: Action, ev: Event, now: int) returns (v: Verdict)
      modifies this
      ensures v == VerdictOn(old(Db()), ref, action, ev) && Db() == Settle(old(Db()), ref, ev, v, now)
    {
      hide Judge, Orphans, Adopt, ToFaultWire, At;
      v := Transition(ref, action, ev);
      if v.Moved? {
        WriteFault(ref, v.row, now);
        var ids := Orphans(messages, ref, v.row);
        messages := Adopt(messages, ids, v.row);
        backfilled := backfilled + At(ids, changeSeq);
      }
    }

    /** The message of an event, in the round the verdict says. */
    method PostVerdict(source: string, ev: Event, byHub: bool, late: bool, v: Verdict, now: int)
      modifies this
      ensures Db() == Announce(old(Db()), source, ev, byHub, late, v, now)
    {
      hide Post, MessageOf;
      match v {
        case Deferred(was) =>
          PostMessage(MessageOf(source, ev, byHub, late, now, if was.Some? then Some(was.value.id) else None, None),
                      NewMessage, was.Some? && was.value.mutedAt.Some?, now);
        case Moved(f, kind) =>
          PostMessage(MessageOf(source, ev, byHub, late, now, Some(f.id), Some(f.incident)), kind, f.mutedAt.Some?, now);
      }
    }

    /** One event: its row, its fault, the back-filled messages, then its message. */
    method ApplyEvent(source: string, ev: Event, byHub: bool, late: bool, now: int)
      modifies this
      ensures Db() == Apply(old(Db()), source, ev, byHub, late, now)
    {
      hide VerdictOn, Settle, Post, MessageOf, Effect, Announce;
      ghost var s := Db();
      events := events[EventKey(source, ev.id) := EventRow(ev.seqNo, ev.topic, ev.occurredAt, now, late, byHub)];
      if ev.topic.Standalone? {
        PostMessage(MessageOf(source, ev, byHub, late, now, None, None), NewMessage, false, now);
        return;
      }
      var ref := FaultRef(source, ev.topic.key);
      var v := SettleEvent(ref, ev.topic.action, ev, now);
      assert v == VerdictOn(s, ref, ev.topic.action, ev) by { RecordKeepsVerdict(s, ref, ev, byHub, late, now); }
      PostVerdict(source, ev, byHub, late, v, now);
      EffectIsTheSum(s, ref, ev, byHub, late, v, now);
    }

    /** The hub's own event: the next hub seq and a fresh id. */
    method EmitHubEvent(source: string, d: Draft, now: int)
      modifies this
      ensures Db() == Emit(old(Db()), source, d, now)
    {
      hide Apply;
      hubSeq := hubSeq + 1;
      var id := nextId;
      nextId := nextId + 1;
      ApplyEvent(source, Event(Internal(id), hubSeq, d.kind, d.occurredAt, d.severity, d.topic, d.title, d.body),
                 true, false, now);
    }

    /** Any traffic closes an open heartbeat fault. */
    method TouchSourceSeen(source: string, title: string, body: string, now: int)
      modifies this
      ensures Db() == Run(old(Db()), TouchSteps(old(Db()), source, title, body, now))
      ensures var ref := FaultRef(source, "heartbeat");
        HubOwned(old(Db()), ref) ==> !(ref in faults && faults[ref].state.IsOpen?) && HubOwned(Db(), ref)
    {
      hide Apply, Emit, HubOwned;
      var ref := FaultRef(source, "heartbeat");
      ghost var s := Db();
      if ref in faults && faults[ref].state.IsOpen? {
        EmitHubEvent(source, HeartbeatBack(title, body, now), now);
        assert [HubEvent(source, HeartbeatBack(title, body, now), now)][..0] == [];
      }
      if HubOwned(s, ref) {
        TouchClosesHeartbeat(s, source, title, body, now);
      }
    }

    /** Reading or muting a fault; false when there is no such row. */
    method UpdateFaultFlags(ref: FaultRef, flag: Flag, now: int) returns (found: bool)
      modifies this
      ensures found == (ref in old(faults)) && Db() == FlagFault(old(Db()), ref, flag, now)
    {
      if ref !in faults { return false; }
      var f := faults[ref];
      match flag {
        case MarkRead =>
          if f.readAt.Some? { return true; }
          f := f.(readAt := Some(now));
        case Mute =>
          if f.mutedAt.Some? { return true; }
          f := f.(mutedAt := Some(now), mutedUntil := None);
        case Unmute =>
          if f.mutedAt.None? { return true; }
          f := f.(mutedAt := None, mutedUntil := None);
      }
      WriteFault(ref, f, now);
      return true;
    }

    method SetMessageRead(id: nat, read: bool, now: int) returns (found: bool)
      modifies this
      ensures found == (id in old(messages)) && Db() == MarkMessage(old(Db()), id, read, now)
    {
      if id !in messages { return false; }
      var m := messages[id];
      if read != m.readAt.Some? {
        m := m.(readAt := if read then Some(now) else None);
        WriteMessage(id, m, None, now);
      }
      return true;
    }

    /** One admitted event of a batch: late when its seq is not beyond the source's last. */
    method ApplyReportedEvent(source: string, ev: Event, now: int)
      modifies this
      ensures Db() == ApplyReported(old(Db()), source, ev, now)
    {
      hide Apply;
      var last := if source in lastEventSeq then lastEventSeq[source] else 0;
      ApplyEvent(source, ev, false, ev.seqNo <= last, now);
      if ev.seqNo > last { last := ev.seqNo; }
      lastEventSeq := lastEventSeq[source := last];
      applied := applied + [Applied(EventKey(source, ev.id), ev.occurredAt, now)];
    }

    /** Validation and deduplication over the request, in request order. */
    method Screen(source: string, raws: seq<RawEvent>, now: int)
      returns (news: seq<nat>, duplicates: seq<nat>, rejected: seq<nat>)
      ensures var t := Sift(events, source, raws, now); news == t.news && duplicates == t.duplicates && rejected == t.rejected
    {
      news, duplicates, rejected := [], [], [];
      var seen: set<EventId> := {};
      var i := 0;
      while i < |raws|
        invariant 0 <= i <= |raws|
        invariant Sift(events, source, raws[..i], now) == Triage(news, duplicates, rejected, seen)
      {
        hide Validate;
        assert raws[..i + 1][..i] == raws[..i];
        match Validate(raws[i], now) {
          case Rejected(_) => rejected := rejected + [i];
          case Valid(ev) =>
            if ev.id in seen {
              duplicates := duplicates + [i];
            } else if EventKey(source, ev.id) in events {
              duplicates := duplicates + [i];
            } else {
              seen := seen + {ev.id};
              news := news + [i];
            }
        }
        i := i + 1;
      }
      assert raws[..|raws|] == raws;
    }

    /** The batch transaction of `POST /ingest/events`. */
    method IngestEvents(source: string, raws: seq<RawEvent>, title: string, body: string, now: int)
      returns (answer: IngestAnswer, ghost order: seq<Event>)
      modifies this
      ensures |raws| > 100 ==> answer == TooMany && Db() == old(Db())
      ensures |raws| <= 100 ==>
        var s := Run(old(Db()), TouchSteps(old(Db()), source, title, body, now));
        var t := Sift(s.events, source, raws, now);
        && BatchOrder(s.events, source, raws, now, order)
        && Db() == ApplyBatch(s, source, order, now)
        && answer == Answer(t.news, t.duplicates, t.rejected, LastSeq(Db(), source))
      ensures |raws| == 1 ==> ReportCounts(old(Db()), Db(), source, raws[0], now)
    {
      hide Run, Sift, ApplyBatch, BatchOrder, TouchSteps, HubOwned, LastSeq, ReportCounts;
      order := [];
      if |raws| > 100 { return TooMany, order; }
      TouchSourceSeen(source, title, body, now);
      answer, order := TakeBatch(source, raws, now);
      if |raws| == 1 {
        assert raws == [raws[0]];
        OneReportCounts(old(Db()), source, raws[0], title, body, now, order);
      }
    }

    /** From the touched state on: screened, sorted, applied, and the source's own change row. */
    method TakeBatch(source: string, raws: seq<RawEvent>, now: int) returns (answer: IngestAnswer, ghost order: seq<Event>)
      modifies this
      ensures var t := Sift(old(events), source, raws, now);
        && BatchOrder(old(events), source, raws, now, order)
        && Db() == ApplyBatch(old(Db()), source, order, now)
        && answer == Answer(t.news, t.duplicates, t.rejected, LastSeq(Db(), source))
    {
      hide Run, Sift, Reports, Retain, ApplyReported, Emit, FlagFault, MarkMessage;
      ghost var s := Db();
      var news, duplicates, rejected := Screen(source, raws, now);
      SiftInOrder(s.events, source, raws, now);
      SiftExactly(s.events, source, raws, now);
      var items: seq<Event> := ReadItems(source, raws, news, now, s.events);
      var sorted := SortBySeq(items);
      order := sorted;
      ApplyInOrder(source, sorted, now);
      var last := if source in lastEventSeq then lastEventSeq[source] else 0;
      InsertChange(OtherPayload("source"), None, now);
      answer := Answer(news, duplicates, rejected, last);
    }

    method ApplyInOrder(source: string, order: seq<Event>, now: int)
      modifies this
      ensures Db() == Run(old(Db()), Reports(source, order, now))
    {
      hide ApplyReported;
      ghost var s := Db();
      var k := 0;
      while k < |order|
        invariant 0 <= k <= |order|
        invariant Db() == Run(s, Reports(source, order[..k], now))
      {
        ApplyReportedEvent(source, order[k], now);
        assert Reports(source, order[..k + 1], now)[..k] == Reports(source, order[..k], now);
        k := k + 1;
      }
      assert order[..|order|] == order;
    }

    method DeleteMessage(id: nat, now: int)
      modifies this`messages, this`rows, this`changeSeq, this`history
      ensures Db() == Remove(old(Db()), DropMessage(id), now)
    {
      InsertChange(MessageGone(id), None, now);
      messages := messages - {id};
    }

    /** Tombstones and deletes the listed messages, in whatever order the query returns them. */
    method RemoveMessages(ids: set<nat>, now: int) returns (ghost drops: seq<Drop>)
      requires ids <= messages.Keys
      modifies this`messages, this`rows, this`changeSeq, this`history
      ensures Db() == RemoveAll(old(Db()), drops, now)
      ensures NoRepeats(drops) && forall d :: d in drops <==> d.DropMessage? && d.id in ids
    {
      hide RemoveAll, Remove, NoRepeats;
      ghost var s := Db();
      drops := [];
      RemoveNone(s, now);
      NothingRepeats();
      var todo := ids;
      while todo != {}
        invariant todo <= ids
        invariant Db() == RemoveAll(s, drops, now)
        invariant NoRepeats(drops) && forall d :: d in drops <==> d.DropMessage? && d.id in ids - todo
        decreases |todo|
      {
        assert (forall x :: x !in todo) ==> todo == {};
        var id :| id in todo;
        DeleteMessage(id, now);
        RemoveAllSnoc(s, drops, DropMessage(id), now);
        NoRepeatsSnoc(drops, DropMessage(id));
        drops := drops + [DropMessage(id)];
        todo := todo - {id};
      }
    }

    method DeleteFault(ref: FaultRef, now: int)
      requires ref in faults
      modifies this`faults, this`rows, this`changeSeq, this`history
      ensures Db() == Remove(old(Db()), DropFault(ref), now)
    {
      InsertChange(FaultGone(faults[ref].id), None, now);
      faults := faults - {ref};
    }

    /** One expired fault: its messages, itself, and the resolves still pending for its key. */
    method RemoveFault(ref: FaultRef, now: int) returns (ghost drops: seq<Drop>)
      requires ref in faults
      modifies this`faults, this`pending, this`messages, this`rows, this`changeSeq, this`history
      ensures Db() == WithoutPendingOf(RemoveAll(old(Db()), drops, now), {ref})
      ensures NoRepeats(drops)
      ensures forall d :: d in drops <==> match d
                case DropMessage(id) => id in old(messages) && old(messages)[id].faultId == Some(old(faults)[ref].id)
                case DropFault(r) => r == ref
    {
      hide RemoveAll, Remove;
      ghost var s := Db();
      var fid := faults[ref].id;
      drops := RemoveMessages((set id <- messages | messages[id].faultId == Some(fid)), now);
      assert faults == s.faults;
      DeleteFault(ref, now);
      RemoveAllSnoc(s, drops, DropFault(ref), now);
      NoRepeatsSnoc(drops, DropFault(ref));
      drops := drops + [DropFault(ref)];
      assert Db() == RemoveAll(s, drops, now);
      pending := ExceptOf(pending, {ref});
      assert Db() == WithoutPendingOf(RemoveAll(s, drops, now), {ref});
    }

    /** Every expired fault, one after the other. */
    method RemoveFaults(refs: set<FaultRef>, now: int) returns (ghost drops: seq<Drop>)
      requires refs <= faults.Keys
      modifies this`faults, this`pending, this`messages, this`rows, this`changeSeq, this`history
      ensures Db() == WithoutPendingOf(RemoveAll(old(Db()), drops, now), refs)
      ensures NoRepeats(drops) && forall d :: d in drops <==> Dropped(old(Db()), refs, d)
    {
      hide RemoveAll, Dropped, NoRepeats;
      ghost var s := Db();
      drops := [];
      RemoveNone(s, now);
      NothingDropped(s);
      var todo := refs;
      assert refs - todo == {};
      while todo != {}
        invariant todo <= refs
        invariant Db() == WithoutPendingOf(RemoveAll(s, drops, now), refs - todo)
        invariant NoRepeats(drops) && forall d :: d in drops <==> Dropped(s, refs - todo, d)
        decreases |todo|
      {
        assert (forall x :: x !in todo) ==> todo == {};
        var r :| r in todo;
        RemoveAllTables(s, drops, now);
        assert r in faults by { NotYetDropped(s, refs - todo, r); }
        ghost var mid := Db();
        ghost var more := RemoveFault(r, now);
        DroppedOneMore(s, refs - todo, r, drops, more, mid);
        RemoveAllConcat(s, drops, more, now);
        WithoutPendingCommutes(RemoveAll(s, drops, now), refs - todo, more, r, now);
        assert refs - (todo - {r}) == refs - todo + {r};
        todo := todo - {r};
        drops := drops + more;
      }
      assert refs - {} == refs;
    }

    /** Everything past retention but the change log: events, resolves, closed faults, lone messages. */
    method RemoveExpired(cut: int, now: int) returns (ghost drops: seq<Drop>)
      modifies this
      ensures ListsExpired(old(Db()), cut, drops) && Db() == RemoveAll(Purge(old(Db()), cut), drops, now)
    {
      hide RemoveAll, ListsExpired, NoRepeats, Dropped, ReceivedSince, OccurredSince, ExceptOf, ClosedBefore, LoneBefore;
      ghost var before := Db();
      events := ReceivedSince(events, cut);
      pending := OccurredSince(pending, cut);
      ghost var s := Db();
      var expired := ClosedBefore(faults, cut);
      ClosedAreRows(faults, cut);
      drops := RemoveFaults(expired, now);
      RemoveAllTables(s, drops, now);
      ghost var left := messages;
      LoneAreRows(messages, cut);
      ghost var more := RemoveMessages(LoneBefore(messages, cut), now);
      ExpiredListed(s, cut, drops, left, more);
      SameRowsExpire(s, before, cut, drops + more);
      RemoveAllAnyPending(s, Purge(before, cut).pending, drops, now);
      RemoveAllConcat(Purge(before, cut), drops, more, now);
      drops := drops + more;
    }

    /** The retention transaction. */
    method RunRetention(limits: Limits, now: int) returns (ghost drops: seq<Drop>)
      modifies this
      ensures ListsExpired(old(Db()), Cut(limits, now), drops)
      ensures Db() == Retain(old(Db()), limits, drops, now)
    {
      hide RemoveAll, Trim, ListsExpired, Purge;
      drops := RemoveExpired(now - limits.messagesDays * DAY, now);
      if |rows| > 0 {
        rows := Trim(rows, now - limits.changesDays * DAY, rows[|rows| - 1].seqNo - limits.changesMinSeq);
      }
    }

    /** `GET /sync`: rows after the cursor, one more than the limit read to know whether more follow. */
    method HandleSync(since: int, limit: nat) returns (page: Page)
      requires limit >= 1
      ensures page == PageOf(rows, since, limit)
    {
      hide After;
      var items: seq<Entry> := [];
      var last := 0;
      AfterEnd(since);
      var i := 0;
      while i < |rows|
        invariant 0 <= i <= |rows| && |items| <= limit
        invariant After(rows, since) == items + After(rows[i..], since)
        invariant items != [] ==> last == items[|items| - 1].seqNo
      {
        AfterNext(rows, i, since);
        if rows[i].seqNo > since {
          if |items| >= limit {
            assert After(rows, since)[..limit] == items;
            return Page(items, last, true);
          }
          items := items + [rows[i]];
          last := rows[i].seqNo;
        }
        i := i + 1;
      }
      assert rows[i..] == [];
      assert After(rows, since) == items;
      var cursor := last;
      if |items| == 0 {
        var most := if |rows| == 0 then 0 else rows[|rows| - 1].seqNo;
        cursor := if most > since then most else since;
      }
      return Page(items, cursor, false);
    }

    /** The stream's window check. */
    method CursorExpired(since: int) returns (expired: bool)
      ensures expired == HubChanges.Resyncs(Changes(rows, changeSeq, history), since)
    {
      if |rows| == 0 { return false; }
      return since + 1 < rows[0].seqNo;
    }
  }

  /** The accepted events in request order. */
  method ReadItems(source: string, raws: seq<RawEvent>, news: seq<nat>, now: int, ghost known: map<EventKey, EventRow>)
    returns (items: seq<Event>)
    requires Increasing(news, |raws|)
    requires forall i: nat :: i in news <==> i < |raws| && FateOf(known, source, raws, i, now).Accepted?
    ensures DistinctIds(items) && forall ev :: ev in items <==> Accepts(known, source, raws, now, ev)
  {
    items := [];
    var k := 0;
    while k < |news|
      invariant 0 <= k <= |news| == |news|
      invariant |items| == k && forall j :: 0 <= j < k ==> ReadsAs(raws[news[j]], items[j])
      invariant DistinctIds(items)
    {
      assert news[k] in news;
      ValidExactly(raws[news[k]], now);
      var ev := Validate(raws[news[k]], now).ev;
      forall j | 0 <= j < k ensures items[j].id != ev.id {
        assert raws[news[j]] in raws[..news[k]] && news[j] in news;
        assert items[j].id == ev.id ==> ValidAs(raws[news[j]], now, ev.id);
      }
      items := items + [ev];
      k := k + 1;
    }
    forall ev ensures ev in items <==> Accepts(known, source, raws, now, ev) {
      if ev in items {
        var j :| 0 <= j < |items| && items[j] == ev;
        assert news[j] in news;
      }
      if Accepts(known, source, raws, now, ev) {
        var i :| 0 <= i < |raws| && ReadsAs(raws[i], ev) && FateOf(known, source, raws, i, now).Accepted?;
        assert i in news;
        var j :| 0 <= j < |news| && news[j] == i;
        SameReading(raws[i], items[j], ev);
      }
    }
  }

  /** One step of the sort: after everything with a seq that is not larger. */
  method InsertBySeq(order: seq<Event>, ev: Event) returns (more: seq<Event>)
    requires SortedBySeq(order)
    ensures SortedBySeq(more)
    ensures forall x :: x in more <==> x in order || x == ev
    ensures DistinctIds(order) && (forall x <- order :: x.id != ev.id) ==> DistinctIds(more)
  {
    var k := |order|;
    while k > 0 && order[k - 1].seqNo > ev.seqNo
      invariant 0 <= k <= |order|
      invariant forall j :: k <= j < |order| ==> order[j].seqNo > ev.seqNo
    {
      k := k - 1;
    }
    more := InsertedAt(order, k, ev);
    InsertedAtKeeps(order, k, ev);
  }

  lemma AfterNext(rows: seq<Entry>, i: nat, since: int)
    requires i < |rows|
    ensures After(rows[i..], since) == (if rows[i].seqNo > since then [rows[i]] else []) + After(rows[i + 1..], since)
  {
    assert rows[i..][1..] == rows[i + 1..];
  }

  lemma AfterEnd(since: int)
    ensures After([], since) == []
  {
  }

  lemma EffectIsTheSum(s: Hub, ref: FaultRef, ev: Event, byHub: bool, late: bool, v: Verdict, now: int)
    ensures Effect(s, ref, ev, byHub, late, v, now)
         == Announce(Settle(Record(s, ref.source, ev, byHub, late, now), ref, ev, v, now), ref.source, ev, byHub, late, v, now)
  {
    hide Settle, Record, Announce;
  }

  lemma NothingRepeats()
    ensures NoRepeats([])
  {
  }

  lemma NoRepeatsSnoc(drops: seq<Drop>, d: Drop)
    requires NoRepeats(drops) && d !in drops
    ensures NoRepeats(drops + [d]) && forall x :: x in drops + [d] <==> x in drops || x == d
  {
  }

  function InsertedAt(order: seq<Event>, k: nat, ev: Event): (more: seq<Event>)
    requires k <= |order|
    ensures |more| == |order| + 1
    ensures forall i :: 0 <= i < |more| ==> more[i] == if i < k then order[i] else if i == k then ev else order[i - 1]
  {
    order[..k] + [ev] + order[k..]
  }

  lemma InsertedAtKeeps(order: seq<Event>, k: nat, ev: Event)
    requires k <= |order|
    ensures forall x :: x in InsertedAt(order, k, ev) <==> x in order || x == ev
    ensures DistinctIds(order) && (forall x <- order :: x.id != ev.id) ==> DistinctIds(InsertedAt(order, k, ev))
  {
    if DistinctIds(order) && forall x <- order :: x.id != ev.id {
      InsertedAtDistinct(order, k, ev);
    }
    hide DistinctIds;
    assert order == order[..k] + order[k..];
  }

  lemma InsertedAtDistinct(order: seq<Event>, k: nat, ev: Event)
    requires k <= |order| && DistinctIds(order) && forall x <- order :: x.id != ev.id
    ensures DistinctIds(InsertedAt(order, k, ev))
  {
    assert forall i :: 0 <= i < |order| ==> order[i] in order;
  }

  /** The accepted events by seq. */
  method SortBySeq(items: seq<Event>) returns (order: seq<Event>)
    requires DistinctIds(items)
    ensures SortedBySeq(order) && DistinctIds(order)
    ensures forall ev :: ev in order <==> ev in items
  {
    order := [];
    var i := 0;
    while i < |items|
      invariant 0 <= i <= |items|
      invariant SortedBySeq(order) && DistinctIds(order)
      invariant forall ev :: ev in order <==> ev in items[..i]
    {
      order := InsertBySeq(order, items[i]);
      assert items[..i + 1] == items[..i] + [items[i]];
      i := i + 1;
    }
    assert items[..|items|] == items;
  }

  lemma RecordKeepsVerdict(s: Hub, ref: FaultRef, ev: Event, byHub: bool, late: bool, now: int)
    requires ev.topic.OnFault?
    ensures VerdictOn(Record(s, ref.source, ev, byHub, late, now), ref, ev.topic.action, ev)
         == VerdictOn(s, ref, ev.topic.action, ev)
  {
  }

  ghost predicate NoRepeats(drops: seq<Drop>) { forall i, j :: 0 <= i < j < |drops| ==> drops[i] != drops[j] }

  lemma RemoveAllSnoc(s: Hub, drops: seq<Drop>, d: Drop, now: int)
    ensures RemoveAll(s, drops + [d], now) == Remove(RemoveAll(s, drops, now), d, now)
  {
    assert (drops + [d])[..|drops|] == drops;
  }

  lemma RemoveNone(s: Hub, now: int)
    ensures RemoveAll(s, [], now) == s
  {
  }

  lemma {:induction false} RemoveAllConcat(s: Hub, a: seq<Drop>, b: seq<Drop>, now: int)
    ensures RemoveAll(s, a + b, now) == RemoveAll(RemoveAll(s, a, now), b, now)
  {
    if b == [] {
      assert a + b == a;
    } else {
      hide Remove;
      var front, d := b[..|b| - 1], b[|b| - 1];
      RemoveAllConcat(s, a, front, now);
      assert (a + b)[..|a + b| - 1] == a + front;
    }
  }

  /** Dropping rows neither reads nor writes the pending table. */
  lemma {:induction false} RemoveAllAnyPending(s: Hub, pending: map<PendingKey, Pending>, drops: seq<Drop>, now: int)
    ensures RemoveAll(s.(pending := pending), drops, now) == RemoveAll(s, drops, now).(pending := pending)
  {
    if drops != [] {
      RemoveAllAnyPending(s, pending, drops[..|drops| - 1], now);
    }
  }

  function WithoutPendingOf(s: Hub, refs: set<FaultRef>): Hub {
    s.(pending := ExceptOf(s.pending, refs))
  }

  lemma {:induction false} WithoutPendingCommutes(s: Hub, refs: set<FaultRef>, more: seq<Drop>, r: FaultRef, now: int)
    ensures WithoutPendingOf(RemoveAll(WithoutPendingOf(s, refs), more, now), {r})
         == WithoutPendingOf(RemoveAll(s, more, now), refs + {r})
  {
    hide RemoveAll;
    RemoveAllAnyPending(s, WithoutPendingOf(s, refs).pending, more, now);
    RemoveAllTables(s, more, now);
  }

  /** What the removal of the faults `refs` drops. */
  ghost predicate Dropped(s: Hub, refs: set<FaultRef>, d: Drop) {
    match d
    case DropFault(r) => r in refs
    case DropMessage(id) =>
      id in s.messages && s.messages[id].faultId.Some?
      && exists r <- refs :: r in s.faults && s.faults[r].id == s.messages[id].faultId.value
  }

  lemma NothingDropped(s: Hub)
    ensures NoRepeats([]) && forall d :: !Dropped(s, {}, d)
  {
  }

  lemma NotYetDropped(s: Hub, done: set<FaultRef>, r: FaultRef)
    ensures Dropped(s, done, DropFault(r)) <==> r in done
  {
  }

  lemma NoRepeatsConcat(a: seq<Drop>, b: seq<Drop>)
    requires NoRepeats(a) && NoRepeats(b) && forall d :: d in b ==> d !in a
    ensures NoRepeats(a + b)
  {
    forall i, j | 0 <= i < j < |a + b| ensures (a + b)[i] != (a + b)[j] {
      if i < |a| <= j { assert (a + b)[j] in b && (a + b)[i] in a; }
    }
  }

  /** Dropping one more fault adds its own drops, none of them repeated. */
  lemma {:induction false} DroppedOneMore(s: Hub, done: set<FaultRef>, r: FaultRef, drops: seq<Drop>, more: seq<Drop>, mid: Hub)
    requires r in s.faults && r !in done && NoRepeats(drops) && NoRepeats(more)
    requires forall d :: d in drops <==> Dropped(s, done, d)
    requires mid.messages == (map id <- s.messages | DropMessage(id) !in drops :: s.messages[id])
    requires forall d :: d in more <==> match d
               case DropMessage(id) => id in mid.messages && mid.messages[id].faultId == Some(s.faults[r].id)
               case DropFault(x) => x == r
    ensures NoRepeats(drops + more) && forall d :: d in drops + more <==> Dropped(s, done + {r}, d)
  {
    hide NoRepeats;
    forall d | d in more ensures d !in drops {
    }
    NoRepeatsConcat(drops, more);
    forall d ensures d in drops + more <==> Dropped(s, done + {r}, d) {
      if Dropped(s, done, d) && d.DropMessage? {
        var x :| x in done && x in s.faults && s.faults[x].id == s.messages[d.id].faultId.value;
        assert x in done + {r};
      }
    }
  }

  lemma SameRowsExpire(s: Hub, s': Hub, cut: int, drops: seq<Drop>)
    requires ListsExpired(s, cut, drops) && s.faults == s'.faults && s.messages == s'.messages
    ensures ListsExpired(s', cut, drops)
  {
    assert ExpiredMessages(s, cut) == ExpiredMessages(s', cut);
  }

  lemma NoRepeatsMeans(drops: seq<Drop>)
    requires NoRepeats(drops)
    ensures forall i, j | 0 <= i < j < |drops| :: drops[i] != drops[j]
  {
  }

  lemma ClosedAreRows(faults: map<FaultRef, Fault>, cut: int)
    ensures ClosedBefore(faults, cut) <= faults.Keys
  {
  }

  lemma LoneAreRows(messages: map<nat, Message>, cut: int)
    ensures LoneBefore(messages, cut) <= messages.Keys
  {
  }

  /** The two delete loops together list exactly what expired. */
  lemma {:induction false} ExpiredListed(s: Hub, cut: int, drops: seq<Drop>, left: map<nat, Message>, more: seq<Drop>)
    requires NoRepeats(drops) && forall d :: d in drops <==> Dropped(s, ExpiredFaults(s, cut), d)
    requires left == (map id <- s.messages | DropMessage(id) !in drops :: s.messages[id])
    requires NoRepeats(more) && forall d :: d in more <==> d.DropMessage? && d.id in LoneBefore(left, cut)
    ensures ListsExpired(s, cut, drops + more)
  {
    hide NoRepeats;
    forall d | d in more ensures d !in drops {
    }
    NoRepeatsConcat(drops, more);
    forall d ensures d in drops + more <==> match d
                                            case DropMessage(id) => id in ExpiredMessages(s, cut)
                                            case DropFault(ref) => ref in ExpiredFaults(s, cut)
    {
      if d.DropMessage? && d.id in s.messages && s.messages[d.id].faultId.Some? {
        assert Dropped(s, ExpiredFaults(s, cut), d) <==> s.messages[d.id].faultId.value in ExpiredIds(s, cut);
      }
    }
    NoRepeatsMeans(drops + more);
  }
}
