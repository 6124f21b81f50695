/**
 * The two sliding windows. The login limiter compacts its array of hits in place and answers
 * with a Retry-After; the fault debouncer pops a deque. Both are proved equal to a function on
 * the remembered times, and that function is proved to bound every window of every run.
 * Times are integer milliseconds.
 */
module Limiters {

  // ---- in-place compaction ----

  /** The times after `cutoff`, in order. */
  function Fresh(hits: seq<int>, cutoff: int): (r: seq<int>)
    ensures |r| <= |hits| && forall t :: t in r ==> t in hits && t > cutoff
  {
    if hits == [] then [] else
      var front, t := Fresh(hits[..|hits| - 1], cutoff), hits[|hits| - 1];
      if t > cutoff then front + [t] else front
  }

  /** Overwrites the front of the array with the hits that are still fresh; `kept` is how many. */
  method Compact(a: array<int>, n: nat, cutoff: int) returns (kept: nat)
    requires n <= a.Length
    modifies a
    ensures kept <= n && a[..kept] == Fresh(old(a[..n]), cutoff)
    ensures forall i :: n <= i < a.Length ==> a[i] == old(a[i])
  {
    kept := 0;
    ghost var hits := a[..n];
    var i := 0;
    while i < n
      invariant 0 <= kept <= i <= n
      invariant a[..kept] == Fresh(hits[..i], cutoff)
      invariant forall j :: i <= j < a.Length ==> a[j] == old(a[j])
    {
      assert hits[..i + 1][..i] == hits[..i];
      var t := a[i];
      assert t == hits[i];
      if t > cutoff {
        a[kept] := t;
        kept := kept + 1;
      }
      i := i + 1;
    }
    assert hits[..n] == hits;
  }

  // ---- logins ----

  const LOGIN_WINDOW: int := 300_000
  const MAX_LOGINS: nat := 10

  datatype Verdict = Allowed | Denied(retrySeconds: int)

  /** Seconds until the oldest remembered hit expires, cut off to whole ones, and one more. */
  function RetryAfter(oldest: int, now: int): int { Truncated(oldest + LOGIN_WINDOW - now, 1000) + 1 }

  /** Division as int() does it, towards zero. */
  function Truncated(x: int, d: int): int
    requires d > 0
  {
    if x >= 0 then x / d else -(-x / d)
  }

  /** The hits a window of `w` remembers after one more attempt, with at most `max` let through. */
  function Remembers(hits: seq<int>, now: int, w: int, max: nat): seq<int> {
    var keep := Fresh(hits, now - w);
    if |keep| >= max then keep else keep + [now]
  }

  predicate Lets(hits: seq<int>, now: int, w: int, max: nat) { |Fresh(hits, now - w)| < max }

  function LoginVerdict(hits: seq<int>, now: int): Verdict {
    var keep := Fresh(hits, now - LOGIN_WINDOW);
    if |keep| >= MAX_LOGINS then Denied(RetryAfter(keep[0], now)) else Allowed
  }

  /** The hits of one key: a slice of an array that grows when it is full. */
  class LoginLimiter {
    var buffer: array<int>
    var count: nat

    ghost predicate Valid()
      reads this
    {
      count <= buffer.Length
    }

    ghost function Hits(): seq<int>
      requires Valid()
      reads this, buffer
    {
      buffer[..count]
    }

    constructor ()
      ensures Valid() && Hits() == [] && fresh(buffer)
    {
      buffer, count := new int[0], 0;
    }

    method Allow(now: int) returns (v: Verdict)
      requires Valid()
      modifies this, buffer
      ensures Valid() && Hits() == Remembers(old(Hits()), now, LOGIN_WINDOW, MAX_LOGINS) && v == LoginVerdict(old(Hits()), now)
      ensures buffer == old(buffer) || fresh(buffer)
    {
      var kept := Compact(buffer, count, now - LOGIN_WINDOW);
      count := kept;
      if count >= MAX_LOGINS {
        return Denied(RetryAfter(buffer[0], now));
      }
      Append(now);
      v := Allowed;
    }

    method Append(t: int)
      requires Valid()
      modifies this, buffer
      ensures Valid() && Hits() == old(Hits()) + [t] && (buffer == old(buffer) || fresh(buffer))
    {
      if count == buffer.Length {
        buffer := Grown(buffer, count);
      }
      buffer[count] := t;
      count := count + 1;
    }
  }

  method Grown(a: array<int>, n: nat) returns (more: array<int>)
    requires n <= a.Length
    ensures fresh(more) && more.Length == 2 * n + 1 && more[..n] == a[..n]
  {
    more := new int[2 * n + 1];
    var i := 0;
    while i < n
      invariant 0 <= i <= n && more[..i] == a[..i]
    {
      more[i] := a[i];
      i := i + 1;
    }
  }

  // ---- fault notifications ----

  const DEBOUNCE_WINDOW: int := 60_000
  const MAX_NOTICES: nat := 3

  /** Drops times from the front until one is inside the closed window. */
  function Popped(hits: seq<int>, now: int): (r: seq<int>)
    ensures |r| <= |hits| && forall t :: t in r ==> t in hits
  {
    if hits != [] && now - hits[0] > DEBOUNCE_WINDOW then Popped(hits[1..], now) else hits
  }

  function NoticeHits(hits: seq<int>, now: int): seq<int> {
    var q := Popped(hits, now);
    if |q| < MAX_NOTICES then q + [now] else q
  }

  predicate NoticeAllowed(hits: seq<int>, now: int) { |Popped(hits, now)| < MAX_NOTICES }

  class FaultDebounce {
    var hits: map<string, seq<int>>

    constructor ()
      ensures hits == map[]
    {
      hits := map[];
    }

    method Allow(faultId: string, t: int) returns (ok: bool)
      modifies this
      ensures var was := if faultId in old(hits) then old(hits)[faultId] else [];
        hits == old(hits)[faultId := NoticeHits(was, t)] && ok == NoticeAllowed(was, t)
    {
      var q := if faultId in hits then hits[faultId] else [];
      while q != [] && t - q[0] > DEBOUNCE_WINDOW
        invariant Popped(q, t) == Popped(if faultId in hits then hits[faultId] else [], t)
        decreases |q|
      {
        q := q[1..];
      }
      ok := |q| < MAX_NOTICES;
      if ok { q := q + [t]; }
      hits := hits[faultId := q];
    }

    method Reset(faultId: string)
      modifies this
      ensures hits == old(hits) - {faultId}
    {
      hits := hits - {faultId};
    }
  }

  // ---- every run ----

  ghost predicate Rising(ts: seq<int>) { forall i, j :: 0 <= i < j < |ts| ==> ts[i] <= ts[j] }

  ghost predicate UpTo(ts: seq<int>, to: int) { forall i :: 0 <= i < |ts| ==> ts[i] <= to }

  /** The hits remembered after the attempts at `times`, and those that were let through. */
  function Remembered(times: seq<int>, w: int, max: nat): seq<int> {
    if times == [] then [] else Remembers(Remembered(times[..|times| - 1], w, max), times[|times| - 1], w, max)
  }

  function LetThrough(times: seq<int>, w: int, max: nat): seq<int> {
    if times == [] then [] else
      var front, t := times[..|times| - 1], times[|times| - 1];
      if Lets(Remembered(front, w, max), t, w, max) then LetThrough(front, w, max) + [t] else LetThrough(front, w, max)
  }

  /** Allowed hits within (from, to]. */
  function InWindow(ts: seq<int>, from: int, to: int): (r: seq<int>)
    ensures |r| <= |ts|
  {
    if ts == [] then [] else
      var front, t := InWindow(ts[..|ts| - 1], from, to), ts[|ts| - 1];
      if from < t <= to then front + [t] else front
  }

  lemma {:induction false} FreshFresh(ts: seq<int>, a: int, b: int)
    requires a <= b
    ensures Fresh(Fresh(ts, a), b) == Fresh(ts, b)
  {
    if ts != [] {
      var front, t := ts[..|ts| - 1], ts[|ts| - 1];
      FreshFresh(front, a, b);
      if t > a {
        assert (Fresh(front, a) + [t])[..|Fresh(front, a)|] == Fresh(front, a);
      }
    }
  }

  lemma FreshMore(ts: seq<int>, t: int, cutoff: int)
    ensures Fresh(ts + [t], cutoff) == if t > cutoff then Fresh(ts, cutoff) + [t] else Fresh(ts, cutoff)
  {
    assert (ts + [t])[..|ts|] == ts;
  }

  /** What is remembered is exactly what was let through and is still fresh. */
  lemma {:induction false} RemembersAllowed(times: seq<int>, now: int, w: int, max: nat)
    requires Rising(times) && UpTo(times, now)
    ensures Fresh(Remembered(times, w, max), now - w) == Fresh(LetThrough(times, w, max), now - w)
  {
    if times != [] {
      hide Fresh, Remembers, Lets;
      var front, t := times[..|times| - 1], times[|times| - 1];
      RemembersAllowed(front, t, w, max);
      RemembersOneMore(Remembered(front, w, max), LetThrough(front, w, max), t, now, w, max);
    }
  }

  lemma {:induction false} RemembersOneMore(was: seq<int>, ok: seq<int>, t: int, now: int, w: int, max: nat)
    requires Fresh(was, t - w) == Fresh(ok, t - w) && t <= now
    ensures Fresh(Remembers(was, t, w, max), now - w) == Fresh(if Lets(was, t, w, max) then ok + [t] else ok, now - w)
  {
    hide Fresh;
    FreshFresh(was, t - w, now - w);
    FreshFresh(ok, t - w, now - w);
    FreshMore(Fresh(was, t - w), t, now - w);
    FreshMore(ok, t, now - w);
  }

  /** A window that ends at or after every hit holds just the fresh ones. */
  lemma {:induction false} WindowIsFresh(ts: seq<int>, from: int, to: int)
    requires UpTo(ts, to)
    ensures InWindow(ts, from, to) == Fresh(ts, from)
  {
    if ts != [] {
      WindowIsFresh(ts[..|ts| - 1], from, to);
    }
  }

  lemma {:induction false} WindowNarrows(ts: seq<int>, from: int, to: int, from': int, to': int)
    requires from' <= from && to <= to'
    ensures |InWindow(ts, from, to)| <= |InWindow(ts, from', to')|
  {
    if ts != [] {
      WindowNarrows(ts[..|ts| - 1], from, to, from', to');
    }
  }

  lemma {:induction false} AllowedUpTo(times: seq<int>, to: int, w: int, max: nat)
    requires UpTo(times, to)
    ensures UpTo(LetThrough(times, w, max), to)
  {
    if times != [] {
      AllowedUpTo(times[..|times| - 1], to, w, max);
    }
  }

  /** No window of length `w` ever sees more than `max` let through. */
  lemma {:induction false} WindowBounded(times: seq<int>, x: int, w: int, max: nat)
    requires Rising(times)
    ensures |InWindow(LetThrough(times, w, max), x, x + w)| <= max
  {
    if times != [] {
      hide Fresh, InWindow, Lets;
      var front, t := times[..|times| - 1], times[|times| - 1];
      WindowBounded(front, x, w, max);
      AllowedUpTo(front, t, w, max);
      RemembersAllowed(front, t, w, max);
      if Lets(Remembered(front, w, max), t, w, max) {
        OneMoreBounded(Remembered(front, w, max), LetThrough(front, w, max), t, x, w, max);
      }
    }
  }

  lemma {:induction false} OneMoreBounded(was: seq<int>, ok: seq<int>, t: int, x: int, w: int, max: nat)
    requires UpTo(ok, t) && Fresh(was, t - w) == Fresh(ok, t - w)
    requires |InWindow(ok, x, x + w)| <= max && Lets(was, t, w, max)
    ensures |InWindow(ok + [t], x, x + w)| <= max
  {
    hide Fresh, InWindow, UpTo;
    InWindowMore(ok, t, x, x + w);
    if x < t <= x + w {
      WindowIsFresh(ok, t - w, t);
      InWindowCapped(ok, x, x + w, t);
      WindowNarrows(ok, x, t, t - w, t);
    }
  }

  /** At most ten logins of a key are let through in any five minutes (x, x + 5 min]. */
  lemma {:induction false} LoginsBounded(times: seq<int>, x: int)
    requires Rising(times)
    ensures |InWindow(LoginsLet(times), x, x + 300_000)| <= 10
  {
    LoginsAreWindow(times);
    WindowBounded(times, x, LOGIN_WINDOW, MAX_LOGINS);
  }

  /** The logins that were let through, by the limiter's own answers. */
  function LoginsLet(times: seq<int>): seq<int> {
    if times == [] then [] else
      var front, t := times[..|times| - 1], times[|times| - 1];
      if LoginVerdict(HitsAfter(front), t).Allowed? then LoginsLet(front) + [t] else LoginsLet(front)
  }

  lemma {:induction false} LoginsAreWindow(times: seq<int>)
    ensures LoginsLet(times) == LetThrough(times, LOGIN_WINDOW, MAX_LOGINS)
  {
    if times != [] {
      LoginsAreWindow(times[..|times| - 1]);
    }
  }

  lemma InWindowMore(ts: seq<int>, t: int, from: int, to: int)
    ensures InWindow(ts + [t], from, to) == if from < t <= to then InWindow(ts, from, to) + [t] else InWindow(ts, from, to)
  {
    assert (ts + [t])[..|ts|] == ts;
  }

  lemma {:induction false} InWindowCapped(ts: seq<int>, from: int, to: int, cap: int)
    requires cap <= to && UpTo(ts, cap)
    ensures InWindow(ts, from, to) == InWindow(ts, from, cap)
  {
    if ts != [] {
      InWindowCapped(ts[..|ts| - 1], from, to, cap);
    }
  }

  lemma {:induction false} RememberedFew(times: seq<int>, w: int, max: nat)
    ensures |Remembered(times, w, max)| <= max
  {
    if times != [] {
      RememberedFew(times[..|times| - 1], w, max);
    }
  }

  function HitsAfter(times: seq<int>): seq<int> { Remembered(times, LOGIN_WINDOW, MAX_LOGINS) }

  /** After the attempts at `times`, every one of `more` is denied. */
  ghost predicate AllDenied(times: seq<int>, more: seq<int>) {
    more != [] ==>
      AllDenied(times, more[..|more| - 1]) && LoginVerdict(HitsAfter(times + more[..|more| - 1]), more[|more| - 1]).Denied?
  }

  lemma {:induction false} AllFresh(ts: seq<int>, cutoff: int)
    requires |Fresh(ts, cutoff)| >= |ts|
    ensures Fresh(ts, cutoff) == ts
  {
    if ts != [] {
      AllFresh(ts[..|ts| - 1], cutoff);
    }
  }

  /** A denial forgets nothing and records nothing. */
  lemma {:induction false} DenialKeepsHits(times: seq<int>, t: int)
    requires LoginVerdict(HitsAfter(times), t).Denied?
    ensures HitsAfter(times + [t]) == HitsAfter(times)
  {
    assert (times + [t])[..|times|] == times;
    RememberedFew(times, LOGIN_WINDOW, MAX_LOGINS);
    AllFresh(HitsAfter(times), t - LOGIN_WINDOW);
  }

  lemma {:induction false} DenialsKeepHits(times: seq<int>, more: seq<int>)
    requires AllDenied(times, more)
    ensures HitsAfter(times + more) == HitsAfter(times)
  {
    if more == [] {
      assert times + more == times;
    } else {
      var front, t := more[..|more| - 1], more[|more| - 1];
      hide HitsAfter, LoginVerdict;
      DenialsKeepHits(times, front);
      DenialKeepsHits(times + front, t);
      assert times + more == times + front + [t];
    }
  }

  /**
   * Once as long as Retry-After says has passed, an attempt is let through, however often the
   * key was tried and refused in between.
   */
  lemma {:induction false} RetryAfterSuffices(times: seq<int>, now: int, more: seq<int>, later: int)
    requires var v := LoginVerdict(HitsAfter(times), now); v.Denied? && later >= now + 1000 * v.retrySeconds
    requires AllDenied(times + [now], more)
    ensures LoginVerdict(HitsAfter(times), now).retrySeconds >= 1
    ensures LoginVerdict(HitsAfter(times + [now] + more), later).Allowed?
  {
    RememberedFew(times, LOGIN_WINDOW, MAX_LOGINS);
    DenialKeepsHits(times, now);
    DenialsKeepHits(times + [now], more);
    DeniedThenAllowed(HitsAfter(times), now, later);
  }

  /** And no sooner: up to a second before that, attempts are still refused. */
  lemma {:induction false} RetryAfterNeeded(times: seq<int>, now: int, more: seq<int>, earlier: int)
    requires Rising(times) && UpTo(times, now)
    requires var v := LoginVerdict(HitsAfter(times), now); v.Denied? && now <= earlier < now + 1000 * (v.retrySeconds - 1)
    requires AllDenied(times + [now], more)
    ensures LoginVerdict(HitsAfter(times + [now] + more), earlier).Denied?
  {
    RememberedFew(times, LOGIN_WINDOW, MAX_LOGINS);
    RememberedRising(times, now, LOGIN_WINDOW, MAX_LOGINS);
    DenialKeepsHits(times, now);
    DenialsKeepHits(times + [now], more);
    StillDenied(HitsAfter(times), now, earlier);
  }

  lemma {:induction false} StillDenied(was: seq<int>, now: int, earlier: int)
    requires |was| <= MAX_LOGINS && Rising(was) && LoginVerdict(was, now).Denied?
    requires now <= earlier < now + 1000 * (LoginVerdict(was, now).retrySeconds - 1)
    ensures LoginVerdict(was, earlier).Denied?
  {
    hide Fresh, RetryAfter;
    AllFresh(was, now - LOGIN_WINDOW);
    assert was != [] && was[0] in was;
    RetryShort(was[0], now);
    AllLater(was, earlier - LOGIN_WINDOW);
  }

  lemma RetryShort(oldest: int, now: int)
    requires now - LOGIN_WINDOW < oldest
    ensures now + 1000 * (RetryAfter(oldest, now) - 1) <= oldest + LOGIN_WINDOW
  {
  }

  lemma {:induction false} RememberedRising(times: seq<int>, to: int, w: int, max: nat)
    requires Rising(times) && UpTo(times, to)
    ensures Rising(Remembered(times, w, max)) && UpTo(Remembered(times, w, max), to)
  {
    if times != [] {
      hide Remembers;
      var front, t := times[..|times| - 1], times[|times| - 1];
      RememberedRising(front, t, w, max);
      RemembersRising(Remembered(front, w, max), t, w, max);
    }
  }

  lemma RemembersRising(was: seq<int>, t: int, w: int, max: nat)
    requires Rising(was) && UpTo(was, t)
    ensures Rising(Remembers(was, t, w, max)) && UpTo(Remembers(was, t, w, max), t)
  {
    hide Fresh;
    FreshRising(was, t - w, t);
  }

  /** An attempt is let through exactly when fewer than ten were in the five minutes up to it. */
  lemma {:induction false} LoginAllowedExactly(times: seq<int>, now: int)
    requires Rising(times) && UpTo(times, now)
    ensures LoginVerdict(HitsAfter(times), now).Allowed? <==> |InWindow(LoginsLet(times), now - 300_000, now)| < 10
  {
    hide Fresh, InWindow;
    LoginsAreWindow(times);
    RemembersAllowed(times, now, LOGIN_WINDOW, MAX_LOGINS);
    AllowedUpTo(times, now, LOGIN_WINDOW, MAX_LOGINS);
    WindowIsFresh(LoginsLet(times), now - LOGIN_WINDOW, now);
  }

  lemma {:induction false} DeniedThenAllowed(was: seq<int>, now: int, later: int)
    requires |was| <= MAX_LOGINS && LoginVerdict(was, now).Denied?
    requires later >= now + 1000 * LoginVerdict(was, now).retrySeconds
    ensures LoginVerdict(was, later).Allowed?
    ensures LoginVerdict(was, now).retrySeconds >= 1
  {
    hide Fresh, RetryAfter;
    AllFresh(was, now - LOGIN_WINDOW);
    assert was != [] && was[0] in was;
    RetryReaches(was[0], now);
    HeadExpires(was, later - LOGIN_WINDOW);
  }

  lemma RetryReaches(oldest: int, now: int)
    requires now - LOGIN_WINDOW < oldest
    ensures RetryAfter(oldest, now) >= 1 && now + 1000 * RetryAfter(oldest, now) > oldest + LOGIN_WINDOW
  {
  }

  lemma {:induction false} HeadExpires(ts: seq<int>, cutoff: int)
    requires ts != [] && ts[0] <= cutoff
    ensures |Fresh(ts, cutoff)| < |ts|
  {
    if |ts| > 1 {
      HeadExpires(ts[..|ts| - 1], cutoff);
    }
  }

  // ---- the debouncer is such a window ----

  lemma {:induction false} FreshFromFront(hits: seq<int>, cutoff: int)
    requires hits != []
    ensures Fresh(hits, cutoff) == (if hits[0] > cutoff then [hits[0]] else []) + Fresh(hits[1..], cutoff)
  {
    if |hits| > 1 {
      FreshFromFront(hits[..|hits| - 1], cutoff);
      assert hits[..|hits| - 1][1..] == hits[1..][..|hits| - 2];
    } else {
      assert hits[..0] == [] && hits[1..] == [];
    }
  }

  lemma {:induction false} AllLater(hits: seq<int>, cutoff: int)
    requires forall i :: 0 <= i < |hits| ==> hits[i] > cutoff
    ensures Fresh(hits, cutoff) == hits
  {
    if hits != [] {
      AllLater(hits[..|hits| - 1], cutoff);
    }
  }

  /** Popping from the front of a rising queue leaves exactly the hits in the closed window. */
  lemma {:induction false} PoppedIsFresh(hits: seq<int>, now: int)
    requires Rising(hits)
    ensures Popped(hits, now) == Fresh(hits, now - (DEBOUNCE_WINDOW + 1))
  {
    if hits != [] {
      if now - hits[0] > DEBOUNCE_WINDOW {
        FreshFromFront(hits, now - (DEBOUNCE_WINDOW + 1));
        PoppedIsFresh(hits[1..], now);
      } else {
        AllLater(hits, now - (DEBOUNCE_WINDOW + 1));
      }
    }
  }

  lemma {:induction false} FreshRising(ts: seq<int>, cutoff: int, to: int)
    requires Rising(ts) && UpTo(ts, to)
    ensures Rising(Fresh(ts, cutoff)) && UpTo(Fresh(ts, cutoff), to)
  {
    if ts != [] {
      FreshRising(ts[..|ts| - 1], cutoff, ts[|ts| - 1]);
    }
  }

  /** The hits of one fault after the notifications attempted at `times` since its last reset. */
  function Notified(times: seq<int>): seq<int> {
    if times == [] then [] else NoticeHits(Notified(times[..|times| - 1]), times[|times| - 1])
  }

  function NoticesLet(times: seq<int>): seq<int> {
    if times == [] then [] else
      var front, t := times[..|times| - 1], times[|times| - 1];
      if NoticeAllowed(Notified(front), t) then NoticesLet(front) + [t] else NoticesLet(front)
  }

  lemma {:induction false} DebouncerIsWindow(times: seq<int>, to: int)
    requires Rising(times) && UpTo(times, to)
    ensures Notified(times) == Remembered(times, DEBOUNCE_WINDOW + 1, MAX_NOTICES)
    ensures NoticesLet(times) == LetThrough(times, DEBOUNCE_WINDOW + 1, MAX_NOTICES)
    ensures Rising(Notified(times)) && UpTo(Notified(times), to)
  {
    if times != [] {
      hide NoticeHits, NoticeAllowed, Remembers, Lets;
      var front, t := times[..|times| - 1], times[|times| - 1];
      DebouncerIsWindow(front, t);
      NoticeStep(Notified(front), t);
    }
  }

  lemma {:induction false} NoticeStep(was: seq<int>, t: int)
    requires Rising(was) && UpTo(was, t)
    ensures NoticeHits(was, t) == Remembers(was, t, DEBOUNCE_WINDOW + 1, MAX_NOTICES)
    ensures NoticeAllowed(was, t) == Lets(was, t, DEBOUNCE_WINDOW + 1, MAX_NOTICES)
    ensures Rising(NoticeHits(was, t)) && UpTo(NoticeHits(was, t), t)
  {
    hide Fresh, Popped;
    PoppedIsFresh(was, t);
    FreshRising(was, t - (DEBOUNCE_WINDOW + 1), t);
  }

  /** At most three notifications of a fault in any closed minute between resets. */
  lemma {:induction false} NoticesBounded(times: seq<int>, x: int)
    requires Rising(times)
    ensures |InWindow(NoticesLet(times), x - 1, x + 60_000)| <= 3
  {
    if times != [] {
      DebouncerIsWindow(times, times[|times| - 1]);
    }
    WindowBounded(times, x - 1, DEBOUNCE_WINDOW + 1, MAX_NOTICES);
  }

  /** A notification goes out exactly when fewer than three did in the closed minute up to it. */
  lemma {:induction false} NoticeAllowedExactly(times: seq<int>, now: int)
    requires Rising(times) && UpTo(times, now)
    ensures NoticeAllowed(Notified(times), now) <==> |InWindow(NoticesLet(times), now - 60_000 - 1, now)| < 3
  {
    hide Fresh, InWindow, NoticeAllowed, NoticeHits;
    DebouncerIsWindow(times, now);
    NoticeStep(Notified(times), now);
    RemembersAllowed(times, now, DEBOUNCE_WINDOW + 1, MAX_NOTICES);
    AllowedUpTo(times, now, DEBOUNCE_WINDOW + 1, MAX_NOTICES);
    WindowIsFresh(NoticesLet(times), now - (DEBOUNCE_WINDOW + 1), now);
  }
}
