/**
 * Clients of the change log: pages of any size, clients at any cursor while the log is trimmed
 * ahead of or behind them. A page never says that changes before it are gone, so a client is
 * right exactly when it has received the last change of every row, but for messages adopted since
 * theirs.
 */
module HubSync {
  import opened Basics
  import opened HubSpec
  import opened HubLinks
  import opened HubChanges
  import opened HubReplica

  datatype Client = Client(cache: Cache, cursor: int)

  datatype Page = Page(entries: seq<Entry>, cursor: int, hasMore: bool)

  const NEW_CLIENT: Client := Client(NO_CACHE, 0)

  function After(rows: seq<Entry>, since: int): seq<Entry> {
    if rows == [] then [] else if rows[0].seqNo > since then [rows[0]] + After(rows[1..], since) else After(rows[1..], since)
  }

  function MaxSeq(rows: seq<Entry>): int { if rows == [] then 0 else rows[|rows| - 1].seqNo }

  /** One answer of the sync endpoint, the table read atomically. */
  function PageOf(rows: seq<Entry>, since: int, limit: nat): Page
    requires limit >= 1
  {
    var rest := After(rows, since);
    if |rest| > limit then Page(rest[..limit], rest[limit - 1].seqNo, true)
    else if rest != [] then Page(rest, rest[|rest| - 1].seqNo, false)
    else Page([], if MaxSeq(rows) > since then MaxSeq(rows) else since, false)
  }

  function ApplyPage(c: Client, p: Page): Client {
    Client(Fold(c.cache, p.entries), p.cursor)
  }

  // ---- pages of a trimmed log ----

  /** The client has folded exactly the first `cursor` changes ever committed. */
  ghost predicate InStep(c: Changes, client: Client) {
    0 <= client.cursor <= |c.history| && client.cache == Fold(NO_CACHE, c.history[..client.cursor])
  }

  /** Nothing the client still needs has been trimmed; the stream's check, negated. */
  ghost predicate Reachable(c: Changes, client: Client) { Trimmed(c) <= client.cursor }

  /** How many changes lie before the first one a page after `since` can carry. */
  function NextDue(c: Changes, since: int): int { if since < Trimmed(c) then Trimmed(c) else since }

  lemma {:induction false} AfterOfTail(c: Changes, since: int, rows: seq<Entry>, from: nat)
    requires Dense(c) && from <= |c.history| && rows == c.history[from..] && from <= since <= |c.history|
    ensures After(rows, since) == c.history[since..]
    decreases |rows|
  {
    if rows != [] {
      if from < since {
        AfterOfTail(c, since, rows[1..], from + 1);
      } else {
        AfterAll(rows, since);
      }
    }
  }

  lemma {:induction false} AfterAll(rows: seq<Entry>, since: int)
    requires forall i :: 0 <= i < |rows| ==> rows[i].seqNo > since
    ensures After(rows, since) == rows
  {
    if rows != [] {
      AfterAll(rows[1..], since);
    }
  }

  lemma AfterOfSuffix(c: Changes, since: int)
    requires Dense(c) && Suffix(c) && 0 <= since <= |c.history|
    ensures After(c.rows, since) == c.history[NextDue(c, since)..]
  {
    if since < Trimmed(c) {
      AfterAll(c.rows, since);
    } else {
      AfterOfTail(c, since, c.rows, Trimmed(c));
    }
  }

  /** A page carries the changes next due, which need not be the next ones. */
  lemma {:induction false} PageOfSuffix(c: Changes, k: int, limit: nat)
    requires Dense(c) && Suffix(c) && 0 <= k <= |c.history| && limit >= 1
    ensures var (p, from) := (PageOf(c.rows, k, limit), NextDue(c, k));
      && from + |p.entries| <= |c.history| && p.entries == c.history[from..from + |p.entries|]
      && p.cursor == (if p.entries == [] then k else from + |p.entries|)
      && (p.hasMore <==> from + |p.entries| < |c.history|) && (p.hasMore ==> p.entries != [])
  {
    hide Stamped, After;
    AfterOfSuffix(c, k);
    var from := NextDue(c, k);
    var rest, p := c.history[from..], PageOf(c.rows, k, limit);
    if |rest| > limit {
      assert rest[..limit] == c.history[from..from + limit];
      assert rest[limit - 1] == c.history[from + limit - 1];
    } else if rest != [] {
      assert rest == c.history[from..|c.history|];
      assert rest[|rest| - 1] == c.history[|c.history| - 1];
    } else {
      assert c.rows != [] ==> MaxSeq(c.rows) == c.history[|c.history| - 1].seqNo;
    }
  }

  /** A page moves a client that is in step and not cut off to a later point of the log. */
  lemma {:induction false} PageKeepsInStep(c: Changes, client: Client, limit: nat)
    requires Dense(c) && Suffix(c) && InStep(c, client) && Reachable(c, client) && limit >= 1
    ensures var p := PageOf(c.rows, client.cursor, limit);
      var client' := ApplyPage(client, p);
      && InStep(c, client') && Reachable(c, client')
      && (p.hasMore ==> client.cursor < client'.cursor < |c.history|)
      && (!p.hasMore ==> client'.cursor == |c.history|)
  {
    hide PageOf, Fold, Dense;
    var k := client.cursor;
    PageOfSuffix(c, k, limit);
    var p := PageOf(c.rows, k, limit);
    FoldConcat(NO_CACHE, c.history[..k], p.entries);
    assert c.history[..k] + p.entries == c.history[..p.cursor];
  }

  /** Asking page after page until there is no more. */
  function SyncAll(c: Changes, client: Client, limit: nat): Client
    requires Dense(c) && Suffix(c) && 0 <= client.cursor <= |c.history| && limit >= 1
    decreases |c.history| - client.cursor
  {
    PageOfSuffix(c, client.cursor, limit);
    var p := PageOf(c.rows, client.cursor, limit);
    if p.hasMore then SyncAll(c, ApplyPage(client, p), limit) else ApplyPage(client, p)
  }

  /** From any cursor, and whatever has been trimmed: everything left after the cursor is folded, to the end. */
  lemma {:induction false} SyncAllReachesEnd(c: Changes, client: Client, limit: nat)
    requires Dense(c) && Suffix(c) && 0 <= client.cursor <= |c.history| && limit >= 1
    ensures var end := SyncAll(c, client, limit);
      && end.cache == Fold(client.cache, c.history[NextDue(c, client.cursor)..])
      && (Tail(c) ==> end.cursor == |c.history|)
    decreases |c.history| - client.cursor
  {
    hide Dense, PageOf, Fold;
    PageOfSuffix(c, client.cursor, limit);
    var p, from := PageOf(c.rows, client.cursor, limit), NextDue(c, client.cursor);
    if p.hasMore {
      SyncAllReachesEnd(c, ApplyPage(client, p), limit);
      FoldConcat(client.cache, p.entries, c.history[p.cursor..]);
      assert c.history[from..] == p.entries + c.history[p.cursor..];
    } else {
      assert c.history[from..] == p.entries;
    }
  }

  // ---- the last word on a row ----

  datatype Subject = FaultRow(id: nat) | MessageRow(id: nat)

  /** What the cache holds for a row, as the change that put it there. */
  function Holds(c: Cache, x: Subject): Option<Payload> {
    match x
    case FaultRow(id) => if id in c.faults then Some(FaultChange(c.faults[id])) else None
    case MessageRow(id) => if id in c.messages then Some(MessageChange(c.messages[id])) else None
  }

  predicate Mentions(p: Payload, x: Subject) {
    match p
    case FaultChange(f) => x == FaultRow(f.id)
    case FaultGone(id) => x == FaultRow(id)
    case MessageChange(m) => x == MessageRow(m.id)
    case MessageGone(id) => x == MessageRow(id)
    case OtherPayload(_) => false
  }

  /** The object a change carries; a tombstone carries none. */
  function Said(p: Payload): Option<Payload> { if p.FaultChange? || p.MessageChange? then Some(p) else None }

  function StampOf(p: Payload): int {
    if p.FaultChange? then p.fault.changeSeq else if p.MessageChange? then p.message.changeSeq else 0
  }

  ghost predicate LastWord(h: seq<Entry>, i: int, x: Subject) {
    0 <= i < |h| && Mentions(h[i].payload, x) && forall j :: i < j < |h| ==> !Mentions(h[j].payload, x)
  }

  /** The last change that mentions a row decides what a cache holds for it. */
  lemma {:induction false} LastWordDecides(h: seq<Entry>, i: int, x: Subject)
    requires LastWord(h, i, x)
    ensures Holds(Fold(NO_CACHE, h), x) == Said(h[i].payload)
  {
    if i < |h| - 1 {
      assert !Mentions(h[|h| - 1].payload, x);
      LastWordDecides(h[..|h| - 1], i, x);
    }
  }

  lemma {:induction false} FindLastWord(h: seq<Entry>, x: Subject) returns (i: int)
    ensures LastWord(h, i, x) || (i == -1 && Holds(Fold(NO_CACHE, h), x).None?
                                  && forall j :: 0 <= j < |h| ==> !Mentions(h[j].payload, x))
  {
    if h == [] {
      i := -1;
    } else if Mentions(h[|h| - 1].payload, x) {
      i := |h| - 1;
    } else {
      i := FindLastWord(h[..|h| - 1], x);
    }
  }

  // ---- what a client has received ----

  ghost predicate FromLog(c: Changes, r: seq<Entry>, cursor: int) {
    0 <= cursor <= |c.history| && forall i :: 0 <= i < |r| ==> 1 <= r[i].seqNo <= cursor && r[i] == c.history[r[i].seqNo - 1]
  }

  ghost predicate Ascend(r: seq<Entry>) { forall i, j :: 0 <= i < j < |r| ==> r[i].seqNo < r[j].seqNo }

  ghost predicate AllThatIsLeft(c: Changes, r: seq<Entry>, cursor: int) {
    forall i :: 0 <= i < |c.history| && Trimmed(c) <= i < cursor ==> c.history[i] in r
  }

  /** Changes of the log in their order, none beyond the cursor, and all of those not trimmed. */
  ghost predicate Heard(c: Changes, r: seq<Entry>, cursor: int) {
    FromLog(c, r, cursor) && Ascend(r) && AllThatIsLeft(c, r, cursor)
  }

  ghost predicate Saw(c: Changes, r: seq<Entry>, n: int) { 1 <= n <= |c.history| && c.history[n - 1] in r }

  /** The last the client heard of the row is an object, the last the hub said of it a tombstone. */
  ghost predicate LeftBehind(c: Changes, r: seq<Entry>, x: Subject) {
    exists i, n :: LastWord(r, i, x) && LastWord(c.history, n, x)
                   && Said(r[i].payload).Some? && Said(c.history[n].payload).None?
  }

  lemma {:induction false} LastWordSeen(c: Changes, r: seq<Entry>, cursor: int, x: Subject, n: int)
    requires Dense(c) && Heard(c, r, cursor) && LastWord(c.history, n, x) && c.history[n] in r
    ensures Holds(Fold(NO_CACHE, r), x) == Said(c.history[n].payload)
  {
    hide Stamped, Mentions, Fold;
    var j :| 0 <= j < |r| && r[j] == c.history[n];
    forall m | j < m < |r| ensures !Mentions(r[m].payload, x) {
      assert r[m] == c.history[r[m].seqNo - 1];
    }
    LastWordDecides(r, j, x);
  }

  /** A cache of what was received agrees with the whole log on a row exactly when it saw the last word on it. */
  lemma {:induction false} HeldExactly(c: Changes, r: seq<Entry>, cursor: int, x: Subject)
    requires Dense(c) && Heard(c, r, cursor) && Holds(Fold(NO_CACHE, c.history), x).Some?
    ensures var full, mine := Holds(Fold(NO_CACHE, c.history), x), Holds(Fold(NO_CACHE, r), x);
      if Saw(c, r, StampOf(full.value)) then mine == full
      else mine.None? || StampOf(mine.value) != StampOf(full.value)
    ensures 1 <= StampOf(Holds(Fold(NO_CACHE, c.history), x).value) <= |c.history|
  {
    hide Mentions, Fold;
    var n := FindLastWord(c.history, x);
    LastWordDecides(c.history, n, x);
    assert StampOf(c.history[n].payload) == n + 1;
    if c.history[n] in r {
      LastWordSeen(c, r, cursor, x, n);
    } else {
      var j := FindLastWord(r, x);
      if j != -1 {
        LastWordDecides(r, j, x);
        assert r[j] == c.history[r[j].seqNo - 1];
      }
    }
  }

  /** It holds a row the hub no longer has exactly when it was left behind. */
  lemma {:induction false} GoneExactly(c: Changes, r: seq<Entry>, cursor: int, x: Subject)
    requires Dense(c) && Heard(c, r, cursor) && Holds(Fold(NO_CACHE, c.history), x).None?
    ensures Holds(Fold(NO_CACHE, r), x).Some? <==> LeftBehind(c, r, x)
  {
    hide Mentions, Fold, Stamped;
    var n := FindLastWord(c.history, x);
    var j := FindLastWord(r, x);
    if n != -1 { LastWordDecides(c.history, n, x); }
    if j != -1 {
      LastWordDecides(r, j, x);
      assert r[j] == c.history[r[j].seqNo - 1];
    }
    if LeftBehind(c, r, x) {
      var i, m :| LastWord(r, i, x) && LastWord(c.history, m, x) && Said(r[i].payload).Some? && Said(c.history[m].payload).None?;
      LastWordDecides(r, i, x);
    }
  }

  lemma LeftBehindIsGone(c: Changes, r: seq<Entry>, x: Subject)
    requires LeftBehind(c, r, x)
    ensures Holds(Fold(NO_CACHE, c.history), x).None?
  {
    hide Mentions, Fold, Said;
    var i, m :| LastWord(r, i, x) && LastWord(c.history, m, x) && Said(r[i].payload).Some? && Said(c.history[m].payload).None?;
    LastWordDecides(c.history, m, x);
  }

  // ---- when the tables agree ----

  /** The last change of every fault row has been received, and no deleted one is left behind. */
  ghost predicate FaultsSeen(s: Hub, r: seq<Entry>) {
    && (forall ref <- s.faults :: Saw(s.changes, r, s.faults[ref].changeSeq))
    && (forall id: nat :: !LeftBehind(s.changes, r, FaultRow(id)))
  }

  ghost predicate MessagesSeen(s: Hub, r: seq<Entry>) {
    && (forall id <- s.messages :: Saw(s.changes, r, s.messages[id].changeSeq))
    && (forall id: nat :: !LeftBehind(s.changes, r, MessageRow(id)))
  }

  lemma {:induction false} FaultsAgreeExactly(s: Hub, r: seq<Entry>, cursor: int)
    requires Replicated(s) && Dense(s.changes) && Heard(s.changes, r, cursor)
    ensures FaultsAgree(s.faults, Fold(NO_CACHE, r).faults) <==> FaultsSeen(s, r)
  {
    hide Fold, Saw, LeftBehind, Heard, Dense;
    var full, mine := Replica(s).faults, Fold(NO_CACHE, r).faults;
    forall ref <- s.faults
      ensures var id := s.faults[ref].id;
        if Saw(s.changes, r, s.faults[ref].changeSeq) then id in mine && mine[id] == full[id]
        else id !in mine || mine[id].changeSeq != s.faults[ref].changeSeq
    {
      HeldExactly(s.changes, r, cursor, FaultRow(s.faults[ref].id));
    }
    forall id: nat ensures id !in full ==> (id in mine <==> LeftBehind(s.changes, r, FaultRow(id))) {
      if id !in full {
        GoneExactly(s.changes, r, cursor, FaultRow(id));
      }
    }
    forall id: nat ensures id in full ==> !LeftBehind(s.changes, r, FaultRow(id)) {
      if LeftBehind(s.changes, r, FaultRow(id)) {
        LeftBehindIsGone(s.changes, r, FaultRow(id));
      }
    }
  }

  /** The same for messages as they were last logged; the rows themselves, if none was adopted since. */
  lemma {:induction false} MessagesAgreeExactly(s: Hub, r: seq<Entry>, cursor: int)
    requires Replicated(s) && Dense(s.changes) && Heard(s.changes, r, cursor)
    ensures MessagesAgree(s.messages, s.backfilled, Fold(NO_CACHE, r).messages) <==> MessagesSeen(s, r)
    ensures MessagesEqual(s.messages, Fold(NO_CACHE, r).messages) <==> MessagesSeen(s, r) && UnloggedRows(s) == {}
  {
    hide Fold, Saw, LeftBehind, Heard, Dense, MessagesSeen;
    var full, mine := Replica(s).messages, Fold(NO_CACHE, r).messages;
    MessagesHeld(s, r, cursor);
    AgreeIffHeld(s, r, full, mine);
    EqualIffHeld(s, r, full, mine);
  }

  /** Each row is held as last logged or not at all under its last seq; others are held when left behind. */
  ghost predicate HeldRows(s: Hub, r: seq<Entry>, full: map<nat, MessageWire>, mine: map<nat, MessageWire>) {
    && (forall id <- s.messages :: id in full
          && if Saw(s.changes, r, s.messages[id].changeSeq) then id in mine && mine[id] == full[id]
             else id !in mine || mine[id].changeSeq != s.messages[id].changeSeq)
    && (forall id: nat :: id !in full ==> (id in mine <==> LeftBehind(s.changes, r, MessageRow(id))))
    && (forall id: nat :: id in full ==> !LeftBehind(s.changes, r, MessageRow(id)))
  }

  lemma {:induction false} MessagesHeld(s: Hub, r: seq<Entry>, cursor: int)
    requires Replicated(s) && Dense(s.changes) && Heard(s.changes, r, cursor)
    ensures HeldRows(s, r, Replica(s).messages, Fold(NO_CACHE, r).messages)
  {
    hide Fold, Saw, LeftBehind, Heard, Dense, FaultsAgree;
    var full, mine := Replica(s).messages, Fold(NO_CACHE, r).messages;
    forall id <- s.messages
      ensures if Saw(s.changes, r, s.messages[id].changeSeq) then id in mine && mine[id] == full[id]
              else id !in mine || mine[id].changeSeq != s.messages[id].changeSeq
    {
      HeldExactly(s.changes, r, cursor, MessageRow(id));
    }
    forall id: nat ensures id !in full ==> (id in mine <==> LeftBehind(s.changes, r, MessageRow(id))) {
      if id !in full {
        GoneExactly(s.changes, r, cursor, MessageRow(id));
      }
    }
    forall id: nat ensures id in full ==> !LeftBehind(s.changes, r, MessageRow(id)) {
      if LeftBehind(s.changes, r, MessageRow(id)) {
        LeftBehindIsGone(s.changes, r, MessageRow(id));
      }
    }
  }

  lemma AgreeIffHeld(s: Hub, r: seq<Entry>, full: map<nat, MessageWire>, mine: map<nat, MessageWire>)
    requires HeldRows(s, r, full, mine) && MessagesAgree(s.messages, s.backfilled, full)
    ensures MessagesAgree(s.messages, s.backfilled, mine) <==> MessagesSeen(s, r)
  {
    hide Saw, LeftBehind;
  }

  lemma EqualIffHeld(s: Hub, r: seq<Entry>, full: map<nat, MessageWire>, mine: map<nat, MessageWire>)
    requires HeldRows(s, r, full, mine) && MessagesAgree(s.messages, s.backfilled, full) && Dated(s)
    ensures MessagesEqual(s.messages, mine) <==> MessagesSeen(s, r) && UnloggedRows(s) == {}
  {
    hide Saw, LeftBehind;
    NoneUnlogged(s);
    if MessagesEqual(s.messages, mine) {
      forall id | id in s.messages ensures Saw(s.changes, r, s.messages[id].changeSeq) && !Unlogged(s.backfilled, id, s.messages[id]) {
        assert ShowsMessage(mine[id], id, s.messages[id]);
      }
    }
  }

  lemma NoneUnlogged(s: Hub)
    ensures UnloggedRows(s) == {} <==> forall id <- s.messages :: !Unlogged(s.backfilled, id, s.messages[id])
  {
    if UnloggedRows(s) == {} {
      forall id <- s.messages ensures !Unlogged(s.backfilled, id, s.messages[id]) {
        assert id !in UnloggedRows(s);
      }
    }
  }

  // ---- every interleaving of the hub and one client ----

  datatype Move = HubMove(step: Step) | SyncMove(limit: nat)

  /** `received` is a history variable: the changes the client has been sent. */
  datatype World = World(hub: Hub, client: Client, received: seq<Entry>)

  function Go(w: World, m: Move): World {
    match m
    case HubMove(step) => w.(hub := Next(w.hub, step))
    case SyncMove(limit) =>
      if limit >= 1 then
        var p := PageOf(w.hub.changes.rows, w.client.cursor, limit);
        w.(client := ApplyPage(w.client, p), received := w.received + p.entries)
      else w
  }

  function GoAll(moves: seq<Move>): World {
    if moves == [] then World(EMPTY_HUB, NEW_CLIENT, []) else Go(GoAll(moves[..|moves| - 1]), moves[|moves| - 1])
  }

  /** Enabled hub steps under a clock that does not go back; pages are fetched at any time. */
  ghost predicate ValidMoves(moves: seq<Move>, t: int) {
    moves != [] ==>
      var w, m := GoAll(moves[..|moves| - 1]), moves[|moves| - 1];
      match m
      case HubMove(step) => Enabled(w.hub, step) && step.now <= t && ValidMoves(moves[..|moves| - 1], step.now)
      case SyncMove(_) => ValidMoves(moves[..|moves| - 1], t)
  }

  ghost predicate LogSound(c: Changes, t: int) { Dense(c) && Suffix(c) && Timely(c, t) }

  ghost predicate ClientSound(c: Changes, w: World) {
    w.client.cache == Fold(NO_CACHE, w.received) && Heard(c, w.received, w.client.cursor)
  }

  lemma {:induction false} PageKeepsHeard(c: Changes, r: seq<Entry>, k: int, limit: nat)
    requires Dense(c) && Suffix(c) && Heard(c, r, k) && limit >= 1
    ensures var p := PageOf(c.rows, k, limit); Heard(c, r + p.entries, p.cursor)
  {
    hide PageOf, Ascend, AllThatIsLeft, Dense;
    PageOfSuffix(c, k, limit);
    var p, from := PageOf(c.rows, k, limit), NextDue(c, k);
    if p.entries == [] {
      assert r + p.entries == r;
    } else {
      SliceFromLog(c, r, k, from, p.cursor);
      SliceLeavesNothing(c, r, k, from, p.cursor);
    }
  }

  lemma {:induction false} SliceFromLog(c: Changes, r: seq<Entry>, k: int, from: int, to: int)
    requires Dense(c) && FromLog(c, r, k) && Ascend(r) && k <= from < to <= |c.history|
    ensures FromLog(c, r + c.history[from..to], to) && Ascend(r + c.history[from..to])
  {
    hide Stamped;
    assert forall i :: 0 <= i < to - from ==> c.history[from..to][i] == c.history[from + i];
  }

  lemma {:induction false} SliceLeavesNothing(c: Changes, r: seq<Entry>, k: int, from: int, to: int)
    requires AllThatIsLeft(c, r, k) && 0 <= from < to <= |c.history| && (k < from ==> from <= Trimmed(c))
    ensures AllThatIsLeft(c, r + c.history[from..to], to)
  {
    forall i | 0 <= i < |c.history| && Trimmed(c) <= i < to ensures c.history[i] in r + c.history[from..to] {
      if i >= from {
        assert c.history[from..to][i - from] == c.history[i];
      }
    }
  }

  lemma {:induction false} HubKeepsHeard(s: Hub, step: Step, r: seq<Entry>, cursor: int, t: int)
    requires LogSound(s.changes, t) && t <= step.now && Heard(s.changes, r, cursor)
    ensures Heard(Next(s, step).changes, r, cursor)
  {
    hide Next, BeforeTrim, Dense, Timely, Stamped, TrimChanges;
    var c, c', c'' := s.changes, BeforeTrim(s, step), Next(s, step).changes;
    StepExtends(s, step);
    StepChanges(s, step);
    OldEntriesStay(c, c', step.now);
    ExtendsKeeps(c, c', t, step.now);
    if step.Retention? {
      TrimKeepsTail(c', step.limits, step.now, step.now);
    }
    assert c''.history == c'.history && Trimmed(c'') >= Trimmed(c);
  }

  lemma {:induction false} WorldAlwaysSound(moves: seq<Move>, t: int)
    requires ValidMoves(moves, t)
    ensures var w := GoAll(moves);
      LinksSound(w.hub) && Replicated(w.hub) && LogSound(w.hub.changes, t) && ClientSound(w.hub.changes, w)
  {
    if moves != [] {
      hide Next, LinksSound, Replicated, Heard, Dense, Suffix, Tail, Timely, PageOf, Fold;
      var front, m := moves[..|moves| - 1], moves[|moves| - 1];
      var w := GoAll(front);
      match m {
        case HubMove(step) =>
          WorldAlwaysSound(front, step.now);
          StepKeepsLinks(w.hub, step);
          StepKeepsReplica(w.hub, step);
          HubKeepsHeard(w.hub, step, w.received, w.client.cursor, step.now);
          StepKeepsTail(w.hub, step, step.now);
          LaterBound(Next(w.hub, step).changes, step.now, t);
        case SyncMove(limit) =>
          WorldAlwaysSound(front, t);
          if limit >= 1 {
            PageKeepsHeard(w.hub.changes, w.received, w.client.cursor, limit);
            FoldConcat(NO_CACHE, w.received, PageOf(w.hub.changes.rows, w.client.cursor, limit).entries);
          }
      }
    }
  }

  /**
   * Over every interleaving of hub writes, retention and page fetches, and at every moment: the
   * client's faults are the hub's, and its messages the hub's as last logged, exactly when it has
   * received the last change of every row and was left behind on none; its messages are the hub's
   * exactly when besides no row was adopted since its last change. What it has not received up to
   * its cursor had been trimmed.
   */
  lemma {:induction false} ClientAgreesExactly(moves: seq<Move>, t: int)
    requires ValidMoves(moves, t)
    ensures var w := GoAll(moves);
      && (FaultsAgree(w.hub.faults, w.client.cache.faults) <==> FaultsSeen(w.hub, w.received))
      && (MessagesAgree(w.hub.messages, w.hub.backfilled, w.client.cache.messages) <==> MessagesSeen(w.hub, w.received))
      && (MessagesEqual(w.hub.messages, w.client.cache.messages)
          <==> MessagesSeen(w.hub, w.received) && UnloggedRows(w.hub) == {})
      && forall n :: 1 <= n <= w.client.cursor && !Saw(w.hub.changes, w.received, n) ==> n <= Trimmed(w.hub.changes)
  {
    WorldAlwaysSound(moves, t);
    hide GoAll, FaultsSeen, MessagesSeen, FaultsAgree, MessagesAgree, MessagesEqual, UnloggedRows, Replicated, Fold, Dense;
    var w := GoAll(moves);
    FaultsAgreeExactly(w.hub, w.received, w.client.cursor);
    MessagesAgreeExactly(w.hub, w.received, w.client.cursor);
  }

  /** Every fetch asked for changes that were all still there. */
  ghost predicate NeverCutOff(moves: seq<Move>) {
    moves != [] ==>
      var w, m := GoAll(moves[..|moves| - 1]), moves[|moves| - 1];
      NeverCutOff(moves[..|moves| - 1]) && (m.SyncMove? ==> Reachable(w.hub.changes, w.client))
  }

  /** The hub moving on leaves a client at the point of the log where it was. */
  lemma {:induction false} HubMovesOn(s: Hub, step: Step, client: Client)
    requires InStep(s.changes, client)
    ensures InStep(Next(s, step).changes, client)
  {
    hide Next, BeforeTrim;
    StepExtends(s, step);
    StepChanges(s, step);
    if step.Retention? {
      TrimKeepsHistory(BeforeTrim(s, step), step.limits, step.now);
    }
    var h, h' := s.changes.history, Next(s, step).changes.history;
    assert h'[..|h|] == h;
    assert h'[..client.cursor] == h'[..|h|][..client.cursor];
  }

  lemma {:induction false} NeverCutOffInStep(moves: seq<Move>, t: int)
    requires ValidMoves(moves, t) && NeverCutOff(moves)
    ensures InStep(GoAll(moves).hub.changes, GoAll(moves).client)
  {
    if moves != [] {
      hide Next, LinksSound, Replicated, ClientSound, InStep, Dense, Suffix, Timely, PageOf, Reachable;
      var front, m := moves[..|moves| - 1], moves[|moves| - 1];
      var w := GoAll(front);
      match m {
        case HubMove(step) =>
          NeverCutOffInStep(front, step.now);
          HubMovesOn(w.hub, step, w.client);
        case SyncMove(limit) =>
          NeverCutOffInStep(front, t);
          WorldAlwaysSound(front, t);
          if limit >= 1 {
            PageKeepsInStep(w.hub.changes, w.client, limit);
          }
      }
    }
  }

  /** A client that was never cut off holds the hub's tables whenever it has reached the end of the log. */
  lemma {:induction false} CaughtUpClientAgrees(moves: seq<Move>, t: int)
    requires ValidMoves(moves, t) && NeverCutOff(moves)
    ensures var w := GoAll(moves);
      w.client.cursor == |w.hub.changes.history| ==>
        FaultsAgree(w.hub.faults, w.client.cache.faults) && MessagesAgree(w.hub.messages, w.hub.backfilled, w.client.cache.messages)
  {
    WorldAlwaysSound(moves, t);
    NeverCutOffInStep(moves, t);
    var h := GoAll(moves).hub.changes.history;
    assert h[..|h|] == h;
  }

  // ---- a client that comes back at any cursor ----

  /** What a client in step at `k` will have received once it has paged to the end. */
  function Resumed(c: Changes, k: int): seq<Entry>
    requires Suffix(c) && 0 <= k <= |c.history|
  {
    c.history[..k] + c.history[NextDue(c, k)..]
  }

  /** A tombstone of the row is among `rows`. */
  ghost predicate Tombstoned(rows: seq<Entry>, x: Subject) {
    exists i :: 0 <= i < |rows| && Mentions(rows[i].payload, x) && Said(rows[i].payload).None?
  }

  lemma HeardFront(c: Changes, k: int)
    requires Dense(c) && 0 <= k <= |c.history|
    ensures Heard(c, c.history[..k], k)
  {
    hide Stamped;
    var r := c.history[..k];
    assert forall i :: 0 <= i < k ==> r[i] == c.history[i];
  }

  lemma ResumedHeard(c: Changes, k: int)
    requires Dense(c) && Suffix(c) && 0 <= k <= |c.history|
    ensures Heard(c, Resumed(c, k), if NextDue(c, k) < |c.history| then |c.history| else k)
  {
    hide Dense, FromLog, Ascend, AllThatIsLeft;
    HeardFront(c, k);
    var from, h := NextDue(c, k), c.history;
    if from < |h| {
      SliceFromLog(c, h[..k], k, from, |h|);
      SliceLeavesNothing(c, h[..k], k, from, |h|);
      assert h[from..|h|] == h[from..];
    } else {
      assert h[..k] + h[from..] == h[..k];
    }
  }

  lemma ResumedSaw(c: Changes, k: int, n: int)
    requires Dense(c) && Suffix(c) && 0 <= k <= |c.history| && 1 <= n <= |c.history|
    ensures Saw(c, Resumed(c, k), n) <==> !(k < n <= Trimmed(c))
  {
    hide Stamped;
    var from, h, r := NextDue(c, k), c.history, Resumed(c, k);
    if n <= k {
      assert r[n - 1] == h[n - 1];
    } else if from < n {
      assert r[k + n - 1 - from] == h[n - 1];
    } else {
      assert forall j :: 0 <= j < |r| ==> r[j] == if j < k then h[j] else h[from + j - k];
    }
  }

  lemma ResumedAt(c: Changes, k: int)
    requires Suffix(c) && 0 <= k <= |c.history|
    ensures var (h, r, from) := (c.history, Resumed(c, k), NextDue(c, k));
      && k <= from <= |h| && |r| == k + |h| - from && (k < from ==> from == Trimmed(c))
      && (forall m :: 0 <= m < k ==> r[m] == h[m]) && (forall m :: k <= m < |r| ==> r[m] == h[m + from - k])
      && (forall m :: from <= m < |h| ==> h[m] == r[m + k - from])
  {
  }

  /** The same last word in the part of the log the client had, and in what it has now. */
  lemma LastWordOfFront(c: Changes, k: int, x: Subject, i: int)
    requires Suffix(c) && 0 <= k <= |c.history| && i < k && LastWord(Resumed(c, k), i, x)
    ensures LastWord(c.history[..k], i, x) && c.history[..k][i] == Resumed(c, k)[i]
  {
    hide Mentions, Suffix, Resumed, NextDue;
    ResumedAt(c, k);
    assert forall m :: 0 <= m < k ==> c.history[..k][m] == Resumed(c, k)[m];
  }

  lemma ResumedLeaves(c: Changes, k: int, x: Subject, i: int, n: int)
    requires Suffix(c) && 0 <= k <= |c.history|
    requires LastWord(Resumed(c, k), i, x) && LastWord(c.history, n, x)
    requires Said(Resumed(c, k)[i].payload) != Said(c.history[n].payload)
    ensures i < k <= n < Trimmed(c)
  {
    hide Mentions, Said, Suffix, Resumed, NextDue;
    ResumedAt(c, k);
    var from, h, r := NextDue(c, k), c.history, Resumed(c, k);
    var at := if i < k then i else i + from - k;
    assert r[i] == h[at] && at <= n;
    assert n < k ==> n <= i;
  }

  lemma ResumedKeeps(c: Changes, k: int, x: Subject, i: int, n: int)
    requires Suffix(c) && 0 <= k <= |c.history|
    requires LastWord(c.history[..k], i, x) && LastWord(c.history, n, x) && n < Trimmed(c)
    requires Said(c.history[..k][i].payload) != Said(c.history[n].payload)
    ensures LastWord(Resumed(c, k), i, x) && c.history[..k][i] == Resumed(c, k)[i]
  {
    hide Mentions, Said, Suffix, Resumed;
    ResumedAt(c, k);
    var from, h, r := NextDue(c, k), c.history, Resumed(c, k);
    assert h[..k][i] == h[i] && i <= n;
    assert n < k ==> n <= i by {
      if n < k { assert h[..k][n] == h[n]; }
    }
    assert forall m :: i < m < k ==> h[..k][m] == r[m];
  }

  lemma TombstoneLeft(c: Changes, x: Subject, n: int)
    requires Suffix(c) && LastWord(c.history, n, x) && Said(c.history[n].payload).None?
    ensures Tombstoned(c.rows, x) <==> n >= Trimmed(c)
  {
    hide Mentions, Said;
    assert forall m :: 0 <= m < |c.rows| ==> c.rows[m] == c.history[Trimmed(c) + m];
    if n >= Trimmed(c) {
      assert c.rows[n - Trimmed(c)] == c.history[n];
    }
  }

  /** Coming back leaves a row behind exactly when the client held it, it is gone, and so is its tombstone. */
  lemma {:induction false} ResumedLeavesExactly(c: Changes, k: int, x: Subject)
    requires Dense(c) && Suffix(c) && 0 <= k <= |c.history|
    ensures LeftBehind(c, Resumed(c, k), x)
            <==> Holds(Fold(NO_CACHE, c.history[..k]), x).Some? && Holds(Fold(NO_CACHE, c.history), x).None? && !Tombstoned(c.rows, x)
  {
    hide Dense, Stamped, Mentions, Fold, Said, LastWord, Tombstoned, Suffix, Resumed, Holds;
    if LeftBehind(c, Resumed(c, k), x) {
      var i, n := LastWords(c, Resumed(c, k), x);
      ResumedLeaves(c, k, x, i, n);
      LastWordOfFront(c, k, x, i);
      LastWordDecides(c.history[..k], i, x);
      LastWordDecides(c.history, n, x);
      TombstoneLeft(c, x, n);
    } else if Holds(Fold(NO_CACHE, c.history[..k]), x).Some? && Holds(Fold(NO_CACHE, c.history), x).None? && !Tombstoned(c.rows, x) {
      var i := FindLastWord(c.history[..k], x);
      LastWordDecides(c.history[..k], i, x);
      var n := LaterLastWord(c.history, k, i, x);
      LastWordDecides(c.history, n, x);
      TombstoneLeft(c, x, n);
      ResumedKeeps(c, k, x, i, n);
      LeftBehindBy(c, Resumed(c, k), x, i, n);
    }
  }

  lemma LastWords(c: Changes, r: seq<Entry>, x: Subject) returns (i: int, n: int)
    requires LeftBehind(c, r, x)
    ensures LastWord(r, i, x) && LastWord(c.history, n, x) && Said(r[i].payload).Some? && Said(c.history[n].payload).None?
  {
    hide Mentions, Said;
    i, n :| LastWord(r, i, x) && LastWord(c.history, n, x) && Said(r[i].payload).Some? && Said(c.history[n].payload).None?;
  }

  lemma LeftBehindBy(c: Changes, r: seq<Entry>, x: Subject, i: int, n: int)
    requires LastWord(r, i, x) && LastWord(c.history, n, x) && Said(r[i].payload).Some? && Said(c.history[n].payload).None?
    ensures LeftBehind(c, r, x)
  {
    hide Mentions, Said;
  }

  lemma LaterLastWord(h: seq<Entry>, k: int, i: int, x: Subject) returns (n: int)
    requires 0 <= k <= |h| && LastWord(h[..k], i, x)
    ensures LastWord(h, n, x)
  {
    hide Mentions, Fold;
    n := FindLastWord(h, x);
    assert Mentions(h[i].payload, x);
  }

  ghost predicate FaultLives(s: Hub, id: nat) { exists ref <- s.faults :: s.faults[ref].id == id }

  /**
   * A client that was in step at any cursor and asks until there is no more: its faults are the
   * hub's exactly when no row's last change lies between the cursor and the first change left,
   * and no row it held has been deleted along with its tombstone.
   */
  lemma {:induction false} StaleClientExactly(s: Hub, client: Client, limit: nat)
    requires Replicated(s) && Dense(s.changes) && Suffix(s.changes) && InStep(s.changes, client) && limit >= 1
    ensures FaultsAgree(s.faults, SyncAll(s.changes, client, limit).cache.faults)
            <==> (forall r <- s.faults :: !(client.cursor < s.faults[r].changeSeq <= Trimmed(s.changes)))
                 && (forall id <- client.cache.faults :: FaultLives(s, id) || Tombstoned(s.changes.rows, FaultRow(id)))
  {
    hide Fold, Dense, Suffix, Resumed, SyncAll, LeftBehind, Saw, Tombstoned;
    var c, k := s.changes, client.cursor;
    ResumedFold(c, client, limit);
    FaultsAgreeExactly(s, Resumed(c, k), if NextDue(c, k) < |c.history| then |c.history| else k);
    forall r <- s.faults
      ensures Saw(c, Resumed(c, k), s.faults[r].changeSeq) <==> !(k < s.faults[r].changeSeq <= Trimmed(c))
    {
      StampInLog(c, FaultRow(s.faults[r].id));
      ResumedSaw(c, k, s.faults[r].changeSeq);
    }
    forall id: nat
      ensures LeftBehind(c, Resumed(c, k), FaultRow(id))
              <==> id in client.cache.faults && !FaultLives(s, id) && !Tombstoned(c.rows, FaultRow(id))
    {
      ResumedLeavesExactly(c, k, FaultRow(id));
      assert FaultLives(s, id) <==> id in Replica(s).faults;
    }
  }

  lemma {:induction false} StampInLog(c: Changes, x: Subject)
    requires Dense(c) && Holds(Fold(NO_CACHE, c.history), x).Some?
    ensures 1 <= StampOf(Holds(Fold(NO_CACHE, c.history), x).value) <= |c.history|
  {
    hide Mentions, Fold;
    var n := FindLastWord(c.history, x);
    LastWordDecides(c.history, n, x);
  }

  lemma {:induction false} ResumedFold(c: Changes, client: Client, limit: nat)
    requires Dense(c) && Suffix(c) && InStep(c, client) && limit >= 1
    ensures SyncAll(c, client, limit).cache == Fold(NO_CACHE, Resumed(c, client.cursor))
    ensures Heard(c, Resumed(c, client.cursor), if NextDue(c, client.cursor) < |c.history| then |c.history| else client.cursor)
  {
    hide Fold, Dense, Heard, SyncAll;
    SyncAllReachesEnd(c, client, limit);
    FoldConcat(NO_CACHE, c.history[..client.cursor], c.history[NextDue(c, client.cursor)..]);
    ResumedHeard(c, client.cursor);
  }

  /** The same for its messages as last logged; exactly the hub's if none was adopted since. */
  lemma {:induction false} StaleClientMessagesExactly(s: Hub, client: Client, limit: nat)
    requires Replicated(s) && Dense(s.changes) && Suffix(s.changes) && InStep(s.changes, client) && limit >= 1
    ensures MessagesAgree(s.messages, s.backfilled, SyncAll(s.changes, client, limit).cache.messages)
            <==> (forall id <- s.messages :: !(client.cursor < s.messages[id].changeSeq <= Trimmed(s.changes)))
                 && (forall id <- client.cache.messages :: id in s.messages || Tombstoned(s.changes.rows, MessageRow(id)))
    ensures var cached := SyncAll(s.changes, client, limit).cache.messages;
      MessagesEqual(s.messages, cached) <==> MessagesAgree(s.messages, s.backfilled, cached) && UnloggedRows(s) == {}
  {
    hide Fold, Dense, Suffix, Resumed, SyncAll, LeftBehind, Saw, Tombstoned, MessagesEqual, UnloggedRows;
    var c, k := s.changes, client.cursor;
    ResumedFold(c, client, limit);
    MessagesAgreeExactly(s, Resumed(c, k), if NextDue(c, k) < |c.history| then |c.history| else k);
    forall id <- s.messages
      ensures Saw(c, Resumed(c, k), s.messages[id].changeSeq) <==> !(k < s.messages[id].changeSeq <= Trimmed(c))
    {
      StampInLog(c, MessageRow(id));
      ResumedSaw(c, k, s.messages[id].changeSeq);
    }
    forall id: nat
      ensures LeftBehind(c, Resumed(c, k), MessageRow(id))
              <==> id in client.cache.messages && id !in s.messages && !Tombstoned(c.rows, MessageRow(id))
    {
      ResumedLeavesExactly(c, k, MessageRow(id));
    }
  }

  lemma StampsInLog(s: Hub)
    requires Replicated(s) && Dense(s.changes)
    ensures forall r <- s.faults :: 1 <= s.faults[r].changeSeq <= |s.changes.history|
    ensures forall id <- s.messages :: 1 <= s.messages[id].changeSeq <= |s.changes.history|
  {
    hide Fold, Dense;
    forall r <- s.faults ensures 1 <= s.faults[r].changeSeq <= |s.changes.history| {
      StampInLog(s.changes, FaultRow(s.faults[r].id));
    }
    forall id <- s.messages ensures 1 <= s.messages[id].changeSeq <= |s.changes.history| {
      StampInLog(s.changes, MessageRow(id));
    }
  }

  /** A new client has the hub's tables exactly when no row's last change has been trimmed. */
  lemma {:induction false} FreshClientExactly(s: Hub, limit: nat)
    requires Replicated(s) && Dense(s.changes) && Suffix(s.changes) && limit >= 1
    ensures FaultsAgree(s.faults, SyncAll(s.changes, NEW_CLIENT, limit).cache.faults)
            <==> forall r <- s.faults :: s.faults[r].changeSeq > Trimmed(s.changes)
    ensures MessagesAgree(s.messages, s.backfilled, SyncAll(s.changes, NEW_CLIENT, limit).cache.messages)
            <==> forall id <- s.messages :: s.messages[id].changeSeq > Trimmed(s.changes)
  {
    hide SyncAll, Dense, Suffix, Replicated, FaultsAgree, MessagesAgree, Tombstoned;
    StaleClientExactly(s, NEW_CLIENT, limit);
    StaleClientMessagesExactly(s, NEW_CLIENT, limit);
    StampsInLog(s);
  }
}
