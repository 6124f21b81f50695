/**
 * One batch of reported events: validation, deduplication against the table and within the
 * batch, application in seq order. The verdict on each index is stated without the loop; the
 * order of the request does not matter; and over any run an event is applied at most once.
 */
module HubIngest {
  import opened Basics
  import opened HubSpec
  import opened HubOrder

  // ---- validation ----

  const BACKFILL_WINDOW: int := 90 * DAY

  /** A reported event as decoded; `occurredAt` is absent when the text is no timestamp. */
  datatype RawEvent = RawEvent(eventId: string, seqNo: int, kind: string, occurredAt: Option<int>, severity: string,
                               faultKey: Option<string>, action: Option<string>, title: string, body: Option<string>)

  datatype Reason = BadEventId | NoKind | BadTime | TooOld | BadSeverity | BadTitle | LongBody | BadAction
                  | NoAction | NoFaultKey

  datatype Checked = Rejected(reason: Reason) | Valid(ev: Event)

  predicate IdChar(c: char) {
    'A' <= c <= 'Z' || 'a' <= c <= 'z' || '0' <= c <= '9' || c in "._:-"
  }

  predicate IdText(s: string) { 1 <= |s| <= 128 && forall c <- s :: IdChar(c) }

  predicate Given(s: Option<string>) { s.Some? && s.value != "" }

  function ParseAction(s: string): Option<Action> {
    if s == "open" then Some(Open) else if s == "update" then Some(Update)
    else if s == "resolve" then Some(Resolve) else None
  }

  function Validate(raw: RawEvent, now: int): Checked {
    if !IdText(raw.eventId) then Rejected(BadEventId)
    else if raw.kind == "" then Rejected(NoKind)
    else if raw.occurredAt.None? then Rejected(BadTime)
    else if now - raw.occurredAt.value > BACKFILL_WINDOW then Rejected(TooOld)
    else if raw.severity !in {"info", "warning", "critical"} then Rejected(BadSeverity)
    else if raw.title == "" || |raw.title| > 200 then Rejected(BadTitle)
    else if raw.body.Some? && |raw.body.value| > 20000 then Rejected(LongBody)
    else if Given(raw.action) && ParseAction(raw.action.value).None? then Rejected(BadAction)
    else if Given(raw.faultKey) && !Given(raw.action) then Rejected(NoAction)
    else if !Given(raw.faultKey) && Given(raw.action) then Rejected(NoFaultKey)
    else
      var topic := if Given(raw.faultKey) then OnFault(raw.faultKey.value, ParseAction(raw.action.value).value)
                   else Standalone;
      Valid(Event(Reported(raw.eventId), raw.seqNo, raw.kind, raw.occurredAt.value, raw.severity, topic,
                  raw.title, raw.body))
  }

  /** What a report must say to be let in. */
  ghost predicate WellFormed(raw: RawEvent, now: int) {
    && 1 <= |raw.eventId| <= 128
    && (forall c <- raw.eventId :: 'A' <= c <= 'Z' || 'a' <= c <= 'z' || '0' <= c <= '9' || c in {'.', '_', ':', '-'})
    && raw.kind != "" && 1 <= |raw.title| <= 200 && raw.severity in {"info", "warning", "critical"}
    && raw.occurredAt.Some? && raw.occurredAt.value >= now - 90 * 86_400_000
    && (raw.body.Some? ==> |raw.body.value| <= 20000)
    && if raw.faultKey in {None, Some("")} then raw.action in {None, Some("")}
       else raw.action in {Some("open"), Some("update"), Some("resolve")}
  }

  /** What a report asks of its fault. */
  ghost predicate Asks(raw: RawEvent, action: Action) {
    raw.action == match action
                  case Open => Some("open")
                  case Update => Some("update")
                  case Resolve => Some("resolve")
  }

  /** The event a report becomes, field by field. */
  ghost predicate ReadsAs(raw: RawEvent, ev: Event) {
    && ev.id == Reported(raw.eventId) && ev.seqNo == raw.seqNo && Some(ev.occurredAt) == raw.occurredAt
    && ev.kind == raw.kind && ev.severity == raw.severity && ev.title == raw.title && ev.body == raw.body
    && if raw.faultKey in {None, Some("")} then ev.topic.Standalone?
       else ev.topic.OnFault? && raw.faultKey == Some(ev.topic.key) && Asks(raw, ev.topic.action)
  }

  /** A report is let in exactly when it is well formed, and as the event it reads as. */
  lemma {:induction false} ValidExactly(raw: RawEvent, now: int)
    ensures Validate(raw, now).Valid? <==> WellFormed(raw, now)
    ensures forall ev :: Validate(raw, now) == Valid(ev) <==> WellFormed(raw, now) && ReadsAs(raw, ev)
  {
    SameChars(raw.eventId);
    GivenMeans(raw.faultKey);
    GivenMeans(raw.action);
    ActionMeans(raw.action);
    if WellFormed(raw, now) {
      var checked := Validate(raw, now);
      assert checked.Valid? && ReadsAs(raw, checked.ev);
      forall ev | ReadsAs(raw, ev) ensures ev == checked.ev {
        assert ev.topic == checked.ev.topic;
      }
    }
  }

  lemma GivenMeans(s: Option<string>)
    ensures Given(s) <==> s !in {None, Some("")}
  {
    assert s.Some? ==> (s == Some("") <==> s.value == "");
  }

  lemma ActionMeans(s: Option<string>)
    ensures s.Some? ==> forall a :: ParseAction(s.value) == Some(a) <==> s == match a
                                                                             case Open => Some("open")
                                                                             case Update => Some("update")
                                                                             case Resolve => Some("resolve")
  {
    assert s.Some? ==> s == Some(s.value);
  }

  lemma SameReading(raw: RawEvent, a: Event, b: Event)
    requires ReadsAs(raw, a) && ReadsAs(raw, b)
    ensures a == b
  {
  }

  lemma SameChars(s: string)
    ensures IdText(s) <==> 1 <= |s| <= 128
                           && forall c <- s :: 'A' <= c <= 'Z' || 'a' <= c <= 'z' || '0' <= c <= '9' || c in {'.', '_', ':', '-'}
  {
    forall c | c in s ensures IdChar(c) <==> 'A' <= c <= 'Z' || 'a' <= c <= 'z' || '0' <= c <= '9' || c in {'.', '_', ':', '-'} {
    }
  }

  // ---- triage ----

  /** Indices of the request, in order; `seen` holds the ids let through so far. */
  datatype Triage = Triage(news: seq<nat>, duplicates: seq<nat>, rejected: seq<nat>, seen: set<EventId>)

  /** The loop over the request: reject, then drop what was seen in the batch or is in the table. */
  function Sift(known: map<EventKey, EventRow>, source: string, raws: seq<RawEvent>, now: int): Triage {
    if raws == [] then Triage([], [], [], {})
    else Place(known, source, Sift(known, source, raws[..|raws| - 1], now), Validate(raws[|raws| - 1], now), |raws| - 1)
  }

  function Place(known: map<EventKey, EventRow>, source: string, t: Triage, checked: Checked, i: nat): Triage {
    match checked
    case Rejected(_) => t.(rejected := t.rejected + [i])
    case Valid(ev) =>
      if ev.id in t.seen || EventKey(source, ev.id) in known then t.(duplicates := t.duplicates + [i])
      else t.(news := t.news + [i], seen := t.seen + {ev.id})
  }

  datatype Fate = Accepted | Duplicate | Refused

  ghost predicate ValidAs(raw: RawEvent, now: int, id: EventId) {
    WellFormed(raw, now) && id == Reported(raw.eventId)
  }

  ghost predicate AnyValidAs(raws: seq<RawEvent>, now: int, id: EventId) { exists raw <- raws :: ValidAs(raw, now, id) }

  /** What the contract says of an index, with no reference to the loop. */
  ghost function FateOf(known: map<EventKey, EventRow>, source: string, raws: seq<RawEvent>, i: nat, now: int): Fate
    requires i < |raws|
  {
    var id := Reported(raws[i].eventId);
    if !WellFormed(raws[i], now) then Refused
    else if EventKey(source, id) in known || AnyValidAs(raws[..i], now, id) then Duplicate else Accepted
  }

  lemma {:induction false} SeenExactly(known: map<EventKey, EventRow>, source: string, raws: seq<RawEvent>, now: int)
    ensures forall id :: id in Sift(known, source, raws, now).seen
                         <==> EventKey(source, id) !in known && AnyValidAs(raws, now, id)
  {
    if raws != [] {
      var front, raw := raws[..|raws| - 1], raws[|raws| - 1];
      SeenExactly(known, source, front, now);
      assert raws == front + [raw];
      ValidExactly(raw, now);
      hide Validate, WellFormed;
      forall id ensures AnyValidAs(raws, now, id) <==> AnyValidAs(front, now, id) || ValidAs(raw, now, id) {
        if ValidAs(raw, now, id) { assert raw in raws; }
      }
    }
  }

  /** Each index lands in exactly one of the three answers, the one the contract names. */
  lemma {:induction false} SiftExactly(known: map<EventKey, EventRow>, source: string, raws: seq<RawEvent>, now: int)
    ensures var t := Sift(known, source, raws, now);
      forall i: nat ::
        && (i in t.news <==> i < |raws| && FateOf(known, source, raws, i, now).Accepted?)
        && (i in t.duplicates <==> i < |raws| && FateOf(known, source, raws, i, now).Duplicate?)
        && (i in t.rejected <==> i < |raws| && FateOf(known, source, raws, i, now).Refused?)
  {
    if raws != [] {
      var n, front := |raws| - 1, raws[..|raws| - 1];
      SiftExactly(known, source, front, now);
      SeenExactly(known, source, front, now);
      ValidExactly(raws[n], now);
      hide Validate, WellFormed;
      forall i: nat | i < n ensures FateOf(known, source, raws, i, now) == FateOf(known, source, front, i, now) {
        assert raws[..i] == front[..i];
      }
    }
  }

  ghost predicate Increasing(xs: seq<nat>, bound: nat) {
    && (forall k :: 0 <= k < |xs| ==> xs[k] < bound)
    && (forall k, l :: 0 <= k < l < |xs| ==> xs[k] < xs[l])
  }

  lemma IncreasingSnoc(xs: seq<nat>, n: nat)
    requires Increasing(xs, n)
    ensures Increasing(xs, n + 1) && Increasing(xs + [n], n + 1)
  {
  }

  /** No index is answered twice: each list is in request order. */
  lemma {:induction false} SiftInOrder(known: map<EventKey, EventRow>, source: string, raws: seq<RawEvent>, now: int)
    ensures var t := Sift(known, source, raws, now);
      Increasing(t.news, |raws|) && Increasing(t.duplicates, |raws|) && Increasing(t.rejected, |raws|)
  {
    if raws != [] {
      hide Increasing;
      var n := |raws| - 1;
      SiftInOrder(known, source, raws[..n], now);
      var t := Sift(known, source, raws[..n], now);
      IncreasingSnoc(t.news, n);
      IncreasingSnoc(t.duplicates, n);
      IncreasingSnoc(t.rejected, n);
    }
  }

  // ---- the batch ----

  /** `ev` is the event read at an accepted index. */
  ghost predicate Accepts(known: map<EventKey, EventRow>, source: string, raws: seq<RawEvent>, now: int, ev: Event) {
    exists i :: 0 <= i < |raws| && ReadsAs(raws[i], ev) && FateOf(known, source, raws, i, now).Accepted?
  }

  ghost predicate SortedBySeq(order: seq<Event>) {
    forall i, j :: 0 <= i < j < |order| ==> order[i].seqNo <= order[j].seqNo
  }

  ghost predicate DistinctIds(order: seq<Event>) {
    forall i, j :: 0 <= i < j < |order| ==> order[i].id != order[j].id
  }

  /** The accepted events, each once, in seq order; ties may fall either way. */
  ghost predicate BatchOrder(known: map<EventKey, EventRow>, source: string, raws: seq<RawEvent>, now: int,
                             order: seq<Event>) {
    && SortedBySeq(order) && DistinctIds(order)
    && forall ev :: ev in order <==> Accepts(known, source, raws, now, ev)
  }

  lemma {:induction false} AcceptedEventsAreNew(known: map<EventKey, EventRow>, source: string, raws: seq<RawEvent>,
                                                now: int, ev: Event)
    requires Accepts(known, source, raws, now, ev)
    ensures ev.id.Reported? && EventKey(source, ev.id) !in known && now - ev.occurredAt <= BACKFILL_WINDOW
  {
  }

  /** The hub's own event when a silent source is heard again. */
  function HeartbeatBack(title: string, body: string, now: int): Draft {
    Draft("heartbeat_back", "info", OnFault("heartbeat", Resolve), title, Some(body), now)
  }

  /** Any traffic resolves an open heartbeat fault first. */
  function TouchSteps(s: Hub, source: string, title: string, body: string, now: int): seq<Step> {
    if PhaseAt(s, FaultRef(source, "heartbeat")).Up? then [HubEvent(source, HeartbeatBack(title, body, now), now)] else []
  }

  /** Where only the hub writes the heartbeat key, the round is down afterwards. */
  lemma {:induction false} TouchClosesHeartbeat(s: Hub, source: string, title: string, body: string, now: int)
    requires HubOwned(s, FaultRef(source, "heartbeat"))
    ensures var (s', ref) := (Run(s, TouchSteps(s, source, title, body, now)), FaultRef(source, "heartbeat"));
      !PhaseAt(s', ref).Up? && HubOwned(s', ref)
  {
    hide Emit, HubOwned;
    var ref := FaultRef(source, "heartbeat");
    if PhaseAt(s, ref).Up? {
      var step := HubEvent(source, HeartbeatBack(title, body, now), now);
      StepKeepsHubOwned(s, step, ref);
      assert [step][..0] == [];
    }
  }

  function Reports(source: string, order: seq<Event>, now: int): seq<Step> {
    seq(|order|, i requires 0 <= i < |order| => Report(source, order[i], now))
  }

  /** The transaction of one batch, from the touched state: the reports in order, then the source's change row. */
  function ApplyBatch(s: Hub, source: string, order: seq<Event>, now: int): Hub {
    Next(Run(s, Reports(source, order, now)), Other("source", now))
  }

  /** A batch is a valid run: each of its events is still unknown when its turn comes. */
  lemma {:induction false} BatchIsValidRun(s: Hub, source: string, order: seq<Event>, now: int)
    requires DistinctIds(order) && forall ev <- order :: ev.id.Reported? && EventKey(source, ev.id) !in s.events
    ensures var steps := Reports(source, order, now);
      && ValidRun(s, steps) && Run(s, steps).events.Keys == s.events.Keys + KeysOf(source, order)
  {
    hide Run, Next, DistinctIds, Reports, Enabled;
    BatchRecords(s, source, order, now);
    if order != [] {
      var front, ev := order[..|order| - 1], order[|order| - 1];
      assert order == front + [ev];
      DistinctFront(order);
      BatchIsValidRun(s, source, front, now);
      ReportsFront(source, order, now);
      BatchRecords(s, source, front, now);
      ReportEnabled(Run(s, Reports(source, front, now)), source, ev, now);
    } else {
      NoReports(source, now);
    }
  }

  lemma NoReports(source: string, now: int)
    ensures Reports(source, [], now) == []
  {
  }

  lemma ReportEnabled(s: Hub, source: string, ev: Event, now: int)
    requires ev.id.Reported? && EventKey(source, ev.id) !in s.events
    ensures Enabled(s, Report(source, ev, now))
  {
  }

  lemma DistinctFront(order: seq<Event>)
    requires DistinctIds(order) && order != []
    ensures var front := order[..|order| - 1]; DistinctIds(front) && forall x <- front :: x.id != order[|order| - 1].id
  {
  }

  lemma ReportsFront(source: string, order: seq<Event>, now: int)
    requires order != []
    ensures var steps := Reports(source, order, now);
      && |steps| == |order| && steps[..|steps| - 1] == Reports(source, order[..|order| - 1], now)
      && steps[|steps| - 1] == Report(source, order[|order| - 1], now)
  {
  }

  function KeysOf(source: string, order: seq<Event>): set<EventKey> { set ev <- order :: EventKey(source, ev.id) }

  lemma KeysOfMore(source: string, front: seq<Event>, ev: Event)
    ensures KeysOf(source, front + [ev]) == KeysOf(source, front) + {EventKey(source, ev.id)}
  {
  }

  lemma {:induction false} BatchRecords(s: Hub, source: string, order: seq<Event>, now: int)
    ensures Run(s, Reports(source, order, now)).events.Keys == s.events.Keys + KeysOf(source, order)
  {
    if order != [] {
      var front, ev := order[..|order| - 1], order[|order| - 1];
      var steps := Reports(source, order, now);
      ReportsFront(source, order, now);
      RunLast(s, steps);
      hide Next, Reports, KeysOf, Run;
      assert order == front + [ev];
      KeysOfMore(source, front, ev);
      BatchRecords(s, source, front, now);
      ReportRecords(Run(s, Reports(source, front, now)), source, ev, now);
    }
  }

  lemma RunLast(s: Hub, steps: seq<Step>)
    requires steps != []
    ensures Run(s, steps) == Next(Run(s, steps[..|steps| - 1]), steps[|steps| - 1])
  {
    hide Next;
  }

  lemma {:induction false} ReportRecords(s: Hub, source: string, ev: Event, now: int)
    ensures Next(s, Report(source, ev, now)).events.Keys == s.events.Keys + {EventKey(source, ev.id)}
  {
    hide Apply;
    ApplyKeepsCounters(s, source, ev, false, ev.seqNo <= LastSeq(s, source), now);
  }

  // ---- order of the request ----

  lemma {:induction false} StrictlySortedUnique(a: seq<Event>, b: seq<Event>)
    requires forall i, j :: 0 <= i < j < |a| ==> a[i].seqNo < a[j].seqNo
    requires forall i, j :: 0 <= i < j < |b| ==> b[i].seqNo < b[j].seqNo
    requires forall ev :: ev in a <==> ev in b
    ensures a == b
  {
    assert b != [] ==> b[0] in b;
    if a != [] {
      assert a[0] in b;
      assert b[0] in a;
      assert a[0] == b[0];
      assert forall ev :: ev in a[1..] <==> ev in a && ev != a[0];
      assert forall ev :: ev in b[1..] <==> ev in b && ev != b[0];
      StrictlySortedUnique(a[1..], b[1..]);
    }
  }

  ghost predicate DistinctRaws(raws: seq<RawEvent>) {
    forall i, j :: 0 <= i < j < |raws| ==> raws[i].eventId != raws[j].eventId && raws[i].seqNo != raws[j].seqNo
  }

  lemma {:induction false} AcceptsWhenDistinct(known: map<EventKey, EventRow>, source: string, raws: seq<RawEvent>,
                                               now: int, ev: Event)
    requires DistinctRaws(raws)
    ensures Accepts(known, source, raws, now, ev)
            <==> EventKey(source, ev.id) !in known && exists raw <- raws :: WellFormed(raw, now) && ReadsAs(raw, ev)
  {
    hide WellFormed;
    forall i | 0 <= i < |raws| && ReadsAs(raws[i], ev) ensures !AnyValidAs(raws[..i], now, ev.id) {
    }
    if EventKey(source, ev.id) !in known && exists raw <- raws :: WellFormed(raw, now) && ReadsAs(raw, ev) {
      var raw :| raw in raws && WellFormed(raw, now) && ReadsAs(raw, ev);
      var i :| 0 <= i < |raws| && raws[i] == raw;
      assert FateOf(known, source, raws, i, now).Accepted?;
    }
  }

  /** With distinct ids and seqs, a request in any order leaves exactly the same database. */
  lemma {:induction false} RequestOrderIrrelevant(s: Hub, source: string, raws: seq<RawEvent>, raws': seq<RawEvent>,
                                                  now: int, order: seq<Event>, order': seq<Event>)
    requires DistinctRaws(raws) && DistinctRaws(raws') && forall raw :: raw in raws <==> raw in raws'
    requires BatchOrder(s.events, source, raws, now, order) && BatchOrder(s.events, source, raws', now, order')
    ensures order == order' && ApplyBatch(s, source, order, now) == ApplyBatch(s, source, order', now)
  {
    forall ev ensures ev in order <==> ev in order' {
      AcceptsWhenDistinct(s.events, source, raws, now, ev);
      AcceptsWhenDistinct(s.events, source, raws', now, ev);
    }
    DistinctSeqs(s.events, source, raws, now, order);
    DistinctSeqs(s.events, source, raws', now, order');
    StrictlySortedUnique(order, order');
  }

  lemma {:induction false} DistinctSeqs(known: map<EventKey, EventRow>, source: string, raws: seq<RawEvent>, now: int,
                                        order: seq<Event>)
    requires DistinctRaws(raws) && BatchOrder(known, source, raws, now, order)
    ensures forall i, j :: 0 <= i < j < |order| ==> order[i].seqNo < order[j].seqNo
  {
    forall i, j | 0 <= i < j < |order| ensures order[i].seqNo != order[j].seqNo {
      assert order[i] in order && order[j] in order;
      var a :| 0 <= a < |raws| && ReadsAs(raws[a], order[i]) && FateOf(known, source, raws, a, now).Accepted?;
      var b :| 0 <= b < |raws| && ReadsAs(raws[b], order[j]) && FateOf(known, source, raws, b, now).Accepted?;
      assert a != b;
    }
  }
}
