/**
 * Threshold rules. A timer per source, rule and target turns samples into at most one decision
 * each; the run lemmas tie the decisions to what the samples since the last pause really were,
 * and to the fault round they open and close. The timer does not know which round is up: when
 * that makes it wrong is stated exactly.
 */
module Rules {
  import opened Basics
  import opened HubSpec
  import opened HubRounds
  import opened HubOrder

  datatype Metric = Cpu | Mem | Disk | NetRx | NetTx

  datatype Op = Gt | Gte | Lt | Lte

  datatype Rule = Rule(id: string, metric: Metric, target: Option<string>, op: Op, value: Option<real>,
                       recoverValue: Option<real>, forSeconds: int, recoverForSeconds: int, severity: string)

  datatype DiskUse = DiskUse(mount: string, percent: Option<real>)

  datatype Sample = Sample(cpu: Option<real>, mem: Option<real>, disks: seq<DiskUse>,
                           netRx: Option<real>, netTx: Option<real>)

  datatype Gauge = Gauge(sel: string, v: real)

  // ---- what a rule reads from a sample ----

  function Single(v: Option<real>): seq<Gauge> { if v.Some? then [Gauge("-", v.value)] else [] }

  function SelOf(d: DiskUse): string { "mount=" + d.mount }

  predicate Selected(target: Option<string>, sel: string) {
    target.None? || target.value == "*" || target.value == sel
  }

  function DiskReadings(target: Option<string>, disks: seq<DiskUse>): seq<Gauge> {
    if disks == [] then [] else
      var front, d := DiskReadings(target, disks[..|disks| - 1]), disks[|disks| - 1];
      if d.percent.Some? && Selected(target, SelOf(d)) then front + [Gauge(SelOf(d), d.percent.value)] else front
  }

  function Extract(r: Rule, s: Sample): seq<Gauge> {
    match r.metric
    case Cpu => Single(s.cpu)
    case Mem => Single(s.mem)
    case Disk => DiskReadings(r.target, s.disks)
    case NetRx => Single(s.netRx)
    case NetTx => Single(s.netTx)
  }

  /** The sample itself reports the value: the rule's metric, and for a disk the mount its label selects. */
  ghost predicate Reports(r: Rule, s: Sample, x: Gauge) {
    match r.metric
    case Cpu => s.cpu == Some(x.v) && x.sel == "-"
    case Mem => s.mem == Some(x.v) && x.sel == "-"
    case NetRx => s.netRx == Some(x.v) && x.sel == "-"
    case NetTx => s.netTx == Some(x.v) && x.sel == "-"
    case Disk =>
      exists d <- s.disks :: d.percent == Some(x.v) && x.sel == "mount=" + d.mount && r.target in {None, Some("*"), Some(x.sel)}
  }

  /** Readings of disks are those of increasing positions, every disk that qualifies once. */
  ghost predicate DisksInOrder(target: Option<string>, disks: seq<DiskUse>, out: seq<Gauge>, at: seq<nat>) {
    && |at| == |out| && (forall i, j :: 0 <= i < j < |at| ==> at[i] < at[j])
    && (forall i :: 0 <= i < |at| ==> at[i] < |disks| && disks[at[i]].percent == Some(out[i].v) && out[i].sel == SelOf(disks[at[i]]))
    && (forall k :: 0 <= k < |disks| ==> (k in at <==> disks[k].percent.Some? && Selected(target, SelOf(disks[k]))))
  }

  lemma {:induction false} DisksReadInOrder(target: Option<string>, disks: seq<DiskUse>) returns (at: seq<nat>)
    ensures DisksInOrder(target, disks, DiskReadings(target, disks), at)
  {
    if disks == [] {
      at := [];
    } else {
      var n := |disks| - 1;
      at := DisksReadInOrder(target, disks[..n]);
      DisksOneMore(target, disks[..n], DiskReadings(target, disks[..n]), at, disks[n]);
      assert disks == disks[..n] + [disks[n]];
      if disks[n].percent.Some? && Selected(target, SelOf(disks[n])) {
        at := at + [n];
      }
    }
  }

  lemma {:induction false} DisksOneMore(target: Option<string>, front: seq<DiskUse>, out: seq<Gauge>, at: seq<nat>, d: DiskUse)
    requires DisksInOrder(target, front, out, at)
    ensures if d.percent.Some? && Selected(target, SelOf(d))
            then DisksInOrder(target, front + [d], out + [Gauge(SelOf(d), d.percent.value)], at + [|front|])
            else DisksInOrder(target, front + [d], out, at)
  {
    hide SelOf, Selected;
    var disks, more := front + [d], at + [|front|];
    assert forall k :: 0 <= k < |front| ==> disks[k] == front[k];
    assert forall k :: k in more <==> k in at || k == |front|;
    assert forall i :: 0 <= i < |at| ==> at[i] in at && at[i] < |front|;
  }

  /** What the rule reads is what the sample reports, and but for disks at most one value. */
  lemma {:induction false} ReadExactly(r: Rule, s: Sample)
    ensures forall x :: x in Extract(r, s) <==> Reports(r, s, x)
    ensures !r.metric.Disk? ==> |Extract(r, s)| <= 1
  {
    if r.metric.Disk? {
      forall x ensures x in DiskReadings(r.target, s.disks) <==> Reports(r, s, x) {
        hide DiskReadings, Selected;
        DiskReadExactly(r.target, s.disks, x);
        SelectedMeans(r.target, x.sel);
        assert forall d: DiskUse :: SelOf(d) == "mount=" + d.mount;
      }
    }
  }

  lemma SelectedMeans(target: Option<string>, sel: string)
    ensures Selected(target, sel) <==> target in {None, Some("*"), Some(sel)}
  {
    assert target.Some? ==> target == Some(target.value);
  }

  method ReadMetric(r: Rule, s: Sample) returns (out: seq<Gauge>)
    ensures out == Extract(r, s)
    ensures forall x :: x in out <==> Reports(r, s, x)
    ensures if r.metric.Disk? then exists at :: DisksInOrder(r.target, s.disks, out, at) else |out| <= 1
  {
    hide Reports, DisksInOrder;
    ReadExactly(r, s);
    match r.metric {
      case Cpu => out := Single(s.cpu);
      case Mem => out := Single(s.mem);
      case NetRx => out := Single(s.netRx);
      case NetTx => out := Single(s.netTx);
      case Disk =>
        out := ReadDisks(r, s.disks);
        ghost var at := DisksReadInOrder(r.target, s.disks);
    }
  }

  method ReadDisks(r: Rule, disks: seq<DiskUse>) returns (out: seq<Gauge>)
    ensures out == DiskReadings(r.target, disks)
  {
    out := [];
    var i := 0;
    while i < |disks|
      invariant 0 <= i <= |disks| && out == DiskReadings(r.target, disks[..i])
    {
      assert disks[..i + 1][..i] == disks[..i];
      var d := disks[i];
      if d.percent.Some? && (r.target.None? || r.target.value == "*" || r.target.value == "mount=" + d.mount) {
        out := out + [Gauge("mount=" + d.mount, d.percent.value)];
      }
      i := i + 1;
    }
    assert disks[..|disks|] == disks;
  }

  /** A disk is read exactly when it reports a percentage and the target selects its mount. */
  lemma {:induction false} DiskReadExactly(target: Option<string>, disks: seq<DiskUse>, x: Gauge)
    ensures x in DiskReadings(target, disks)
      <==> exists d <- disks :: d.percent == Some(x.v) && x.sel == SelOf(d) && Selected(target, SelOf(d))
  {
    if disks != [] {
      DiskReadExactly(target, disks[..|disks| - 1], x);
      var d := disks[|disks| - 1];
      assert disks == disks[..|disks| - 1] + [d];
      assert x in DiskReadings(target, disks) <==>
        x in DiskReadings(target, disks[..|disks| - 1])
        || (d.percent == Some(x.v) && x.sel == SelOf(d) && Selected(target, SelOf(d)));
    }
  }

  // ---- the timer ----

  predicate Violates(op: Op, v: real, limit: real) {
    match op
    case Gte => v >= limit
    case Lt => v < limit
    case Lte => v <= limit
    case Gt => v > limit
  }

  /** Strictly on the other side of the recovery limit. */
  predicate Recovers(op: Op, v: real, limit: real) {
    if op.Lt? || op.Lte? then v > limit else v < limit
  }

  function RecoverLimit(r: Rule): real
    requires r.value.Some?
  {
    if r.recoverValue.Some? then r.recoverValue.value else r.value.value
  }

  datatype Timer = Timer(breach: bool, breachSince: int, recovering: bool, recoverSince: int)

  const IDLE: Timer := Timer(false, 0, false, 0)

  datatype Decision = Quiet | Raise | Clear

  /** One sample of `v` at `at`, with the round open or not. */
  function Judged(r: Rule, t: Timer, open: bool, v: real, at: int): (Timer, Decision)
    requires r.value.Some?
  {
    if Violates(r.op, v, r.value.value) then
      var since := if t.breach then t.breachSince else at;
      (Timer(true, since, false, t.recoverSince), if at - since >= r.forSeconds * 1000 && !open then Raise else Quiet)
    else if !open then (t.(breach := false), Quiet)
    else if Recovers(r.op, v, RecoverLimit(r)) then
      var since := if t.recovering then t.recoverSince else at;
      if at - since >= r.recoverForSeconds * 1000 then (IDLE, Clear)
      else (t.(breach := false, recovering := true, recoverSince := since), Quiet)
    else (t.(breach := false, recovering := false), Quiet)
  }

  function FaultKeyOf(r: Rule, sel: string): string { "rule:" + r.id + ":" + sel }

  function MetricName(m: Metric): string {
    match m
    case Cpu => "cpu_percent"
    case Mem => "mem_percent"
    case Disk => "disk_percent"
    case NetRx => "net_rx_bps"
    case NetTx => "net_tx_bps"
  }

  function TitleOf(r: Rule, sel: string): string {
    if sel != "-" && sel != "" then MetricName(r.metric) + "(" + sel + ")" else MetricName(r.metric)
  }

  function DraftOf(r: Rule, sel: string, d: Decision, at: int): Draft
    requires !d.Quiet?
  {
    if d.Raise? then Draft("threshold", r.severity, OnFault(FaultKeyOf(r, sel), Open), TitleOf(r, sel), None, at)
    else Draft("threshold_recovered", "info", OnFault(FaultKeyOf(r, sel), Resolve), TitleOf(r, sel), None, at)
  }

  function Decided(s: Hub, source: string, r: Rule, sel: string, d: Decision, at: int, now: int): Hub {
    if d.Quiet? then s else Emit(s, source, DraftOf(r, sel, d, at), now)
  }

  datatype TimerKey = TimerKey(source: string, rule: string, sel: string)

  function TimerAt(states: map<TimerKey, Timer>, k: TimerKey): Timer { if k in states then states[k] else IDLE }

  /** One opening of a fault: its row and the number of the round. */
  datatype Round = Round(id: nat, incident: int)

  function RoundAt(s: Hub, ref: FaultRef): Option<Round> {
    if ref in s.faults && s.faults[ref].state.IsOpen? then Some(Round(s.faults[ref].id, s.faults[ref].incident)) else None
  }

  predicate UpAt(s: Hub, source: string, key: string) { RoundAt(s, FaultRef(source, key)).Some? }

  /** One reading: its timer, and the event it may emit. */
  function Evaluated(states: map<TimerKey, Timer>, s: Hub, source: string, r: Rule, x: Gauge, at: int, now: int)
    : (map<TimerKey, Timer>, Hub)
    requires r.value.Some?
  {
    var k := TimerKey(source, r.id, x.sel);
    var (t, d) := Judged(r, TimerAt(states, k), UpAt(s, source, FaultKeyOf(r, x.sel)), x.v, at);
    (states[k := t], Decided(s, source, r, x.sel, d, at, now))
  }

  function EvaluatedAll(states: map<TimerKey, Timer>, s: Hub, source: string, r: Rule, xs: seq<Gauge>, at: int, now: int)
    : (map<TimerKey, Timer>, Hub)
    requires r.value.Some?
  {
    if xs == [] then (states, s) else
      var (states1, s1) := EvaluatedAll(states, s, source, r, xs[..|xs| - 1], at, now);
      Evaluated(states1, s1, source, r, xs[|xs| - 1], at, now)
  }

  // ---- one key over time ----

  /** A present sample of the key, and the round that was up when it was judged. */
  datatype Obs = Obs(at: int, v: real, up: Option<Round>)

  /** Start of the longest all-true tail. */
  function StreakStart(flags: seq<bool>): (k: nat)
    ensures k <= |flags| && (forall i :: k <= i < |flags| ==> flags[i]) && (k > 0 ==> !flags[k - 1])
    ensures k == |flags| <==> flags == [] || !flags[|flags| - 1]
  {
    if flags == [] || !flags[|flags| - 1] then |flags| else StreakStart(flags[..|flags| - 1])
  }

  predicate Over(r: Rule, o: Obs)
    requires r.value.Some?
  {
    Violates(r.op, o.v, r.value.value)
  }

  /** A sample of recovery: a round is up and the value is on the other side of the limit. */
  predicate Good(r: Rule, o: Obs)
    requires r.value.Some?
  {
    o.up.Some? && !Over(r, o) && Recovers(r.op, o.v, RecoverLimit(r))
  }

  /** A sample that does not stop a recovery; while the round is down anything not in violation will do. */
  predicate Passes(r: Rule, o: Obs)
    requires r.value.Some?
  {
    Good(r, o) || (o.up.None? && !Over(r, o))
  }

  function Overs(r: Rule, seen: seq<Obs>): (flags: seq<bool>)
    requires r.value.Some?
    ensures |flags| == |seen|
  {
    seq(|seen|, i requires 0 <= i < |seen| => Over(r, seen[i]))
  }

  function Passing(r: Rule, seen: seq<Obs>): (flags: seq<bool>)
    requires r.value.Some?
    ensures |flags| == |seen|
  {
    seq(|seen|, i requires 0 <= i < |seen| => Passes(r, seen[i]))
  }

  /** Good samples of the round the last sample was judged in. */
  function GoodNow(r: Rule, seen: seq<Obs>): (flags: seq<bool>)
    requires r.value.Some?
    ensures |flags| == |seen|
  {
    seq(|seen|, i requires 0 <= i < |seen| => Good(r, seen[i]) && seen[i].up == seen[|seen| - 1].up)
  }

  function FirstGood(r: Rule, seen: seq<Obs>, from: nat): (k: nat)
    requires r.value.Some? && from <= |seen|
    ensures from <= k <= |seen| && (k < |seen| ==> Good(r, seen[k])) && forall i :: from <= i < k ==> !Good(r, seen[i])
    decreases |seen| - from
  {
    if from == |seen| || Good(r, seen[from]) then from else FirstGood(r, seen, from + 1)
  }

  /** Where the engine's timer starts: the first good sample since the last one that stops a recovery. */
  function TimerStart(r: Rule, seen: seq<Obs>): (k: nat)
    requires r.value.Some?
    ensures k <= |seen|
  {
    FirstGood(r, seen, StreakStart(Passing(r, seen)))
  }

  /** Where the recovery of the round now up starts: an unbroken streak of good samples of that round. */
  function RoundStart(r: Rule, seen: seq<Obs>): (k: nat)
    requires r.value.Some?
    ensures k <= |seen|
  {
    StreakStart(GoodNow(r, seen))
  }

  /** From the sample at `k` to the last one it is at least `seconds`. */
  predicate Lasted(seen: seq<Obs>, k: nat, seconds: int) {
    k < |seen| && seen[|seen| - 1].at - seen[k].at >= seconds * 1000
  }

  predicate ShouldRaise(r: Rule, seen: seq<Obs>)
    requires r.value.Some?
  {
    seen != [] && seen[|seen| - 1].up.None? && Lasted(seen, StreakStart(Overs(r, seen)), r.forSeconds)
  }

  /** The last sample is good and the round now up has recovered for long enough. */
  predicate ShouldClear(r: Rule, seen: seq<Obs>)
    requires r.value.Some?
  {
    Lasted(seen, RoundStart(r, seen), r.recoverForSeconds)
  }

  /** What the timer goes by instead. */
  predicate Clears(r: Rule, seen: seq<Obs>)
    requires r.value.Some?
  {
    seen != [] && Good(r, seen[|seen| - 1]) && Lasted(seen, TimerStart(r, seen), r.recoverForSeconds)
  }

  /** What each field of the timer is, in terms of the samples since the last pause or clearing. */
  ghost predicate Tracks(r: Rule, t: Timer, seen: seq<Obs>)
    requires r.value.Some?
  {
    var (over, start) := (StreakStart(Overs(r, seen)), TimerStart(r, seen));
    && (t.breach <==> over < |seen|) && (t.breach ==> t.breachSince == seen[over].at)
    && (t.recovering <==> start < |seen|) && (t.recovering ==> t.recoverSince == seen[start].at)
  }

  lemma {:induction false} StreakMore(flags: seq<bool>, flag: bool)
    ensures StreakStart(flags + [flag]) == if flag then StreakStart(flags) else |flags| + 1
  {
    assert (flags + [flag])[..|flags|] == flags;
  }

  lemma {:induction false} TimerStartMore(r: Rule, seen: seq<Obs>, o: Obs)
    requires r.value.Some?
    ensures TimerStart(r, seen + [o]) ==
            if !Passes(r, o) then |seen| + 1 else if TimerStart(r, seen) < |seen| then TimerStart(r, seen)
            else if Good(r, o) then |seen| else |seen| + 1
  {
    hide StreakStart, Good, Passes, FirstGood;
    assert Passing(r, seen + [o]) == Passing(r, seen) + [Passes(r, o)];
    StreakMore(Passing(r, seen), Passes(r, o));
    if Passes(r, o) {
      FirstGoodMore(r, seen, o, StreakStart(Passing(r, seen)));
    }
  }

  lemma {:induction false} FirstGoodMore(r: Rule, seen: seq<Obs>, o: Obs, from: nat)
    requires r.value.Some? && from <= |seen|
    ensures FirstGood(r, seen + [o], from) ==
            if FirstGood(r, seen, from) < |seen| then FirstGood(r, seen, from) else if Good(r, o) then |seen| else |seen| + 1
  {
    hide Good;
    var k, k' := FirstGood(r, seen, from), FirstGood(r, seen + [o], from);
    assert forall i :: 0 <= i < |seen| ==> (seen + [o])[i] == seen[i];
    assert (seen + [o])[|seen|] == o;
    if k < |seen| {
      assert Good(r, (seen + [o])[k]);
    }
  }

  /** Over any history: a decision is the one the samples determine, and the timer goes on tracking them. */
  lemma {:induction false} JudgedExactly(r: Rule, t: Timer, seen: seq<Obs>, up: Option<Round>, v: real, at: int)
    requires r.value.Some? && Tracks(r, t, seen)
    ensures var (t', d) := Judged(r, t, up.Some?, v, at);
      var seen' := seen + [Obs(at, v, up)];
      && (d.Raise? <==> ShouldRaise(r, seen')) && (d.Clear? <==> Clears(r, seen'))
      && Tracks(r, t', if d.Clear? then [] else seen')
  {
    hide StreakStart, TimerStart;
    var o := Obs(at, v, up);
    assert Overs(r, seen + [o]) == Overs(r, seen) + [Over(r, o)];
    StreakMore(Overs(r, seen), Over(r, o));
    TimerStartMore(r, seen, o);
    NothingTracked(r);
  }

  lemma NothingTracked(r: Rule)
    requires r.value.Some?
    ensures Tracks(r, IDLE, [])
  {
  }

  // ---- when the timer is right ----

  /** Since the timer started the round has not changed, and no sample was judged while it was down. */
  ghost predicate Steady(r: Rule, seen: seq<Obs>)
    requires r.value.Some? && seen != []
  {
    && (forall i :: TimerStart(r, seen) <= i < |seen| ==> seen[i].up.Some?)
    && (forall i :: TimerStart(r, seen) <= i < |seen| && seen[i].up.Some? ==> seen[i].up == seen[|seen| - 1].up)
  }

  /** The timer never starts later than the recovery of the round now up, and with it exactly when it was steady. */
  lemma {:induction false} StartsExactly(r: Rule, seen: seq<Obs>)
    requires r.value.Some? && seen != [] && Good(r, seen[|seen| - 1])
    ensures TimerStart(r, seen) <= RoundStart(r, seen) < |seen|
    ensures TimerStart(r, seen) == RoundStart(r, seen) <==> Steady(r, seen)
  {
    hide Over, StreakStart, FirstGood;
    var s, g, pass := TimerStart(r, seen), RoundStart(r, seen), StreakStart(Passing(r, seen));
    assert GoodNow(r, seen)[|seen| - 1];
    forall i | g <= i < |seen| ensures Good(r, seen[i]) && seen[i].up == seen[|seen| - 1].up {
      assert GoodNow(r, seen)[i];
    }
    assert forall i :: pass <= i < |seen| ==> Passing(r, seen)[i];
    assert pass <= g by {
      assert pass > 0 ==> !Passing(r, seen)[pass - 1];
      assert forall i :: g <= i < |seen| ==> Passing(r, seen)[i];
    }
    assert s <= g by { assert Good(r, seen[g]); }
    if Steady(r, seen) {
      assert g > 0 ==> !GoodNow(r, seen)[g - 1];
      forall i | s <= i < |seen| ensures GoodNow(r, seen)[i] {
        assert Passing(r, seen)[i] && seen[i].up == seen[|seen| - 1].up;
      }
    }
  }

  /** Sample times that do not go back. */
  ghost predicate Ordered(seen: seq<Obs>) { forall i, j :: 0 <= i < j < |seen| ==> seen[i].at <= seen[j].at }

  /**
   * A clearing is only ever too early, never missed; and it is too early exactly when the delay
   * lies between the recovery of the round now up and the longer time on the timer.
   */
  lemma {:induction false} ClearRightExactly(r: Rule, seen: seq<Obs>)
    requires r.value.Some? && seen != [] && Ordered(seen)
    ensures ShouldClear(r, seen) ==> Clears(r, seen)
    ensures Clears(r, seen) && !ShouldClear(r, seen)
            <==> Good(r, seen[|seen| - 1])
                 && seen[|seen| - 1].at - seen[RoundStart(r, seen)].at < r.recoverForSeconds * 1000
                    <= seen[|seen| - 1].at - seen[TimerStart(r, seen)].at
    ensures Steady(r, seen) ==> (Clears(r, seen) <==> ShouldClear(r, seen))
  {
    hide TimerStart, RoundStart, Good, Steady;
    if Good(r, seen[|seen| - 1]) {
      StartsExactly(r, seen);
    } else {
      NotGoodNotCalled(r, seen);
    }
  }

  lemma {:induction false} NotGoodNotCalled(r: Rule, seen: seq<Obs>)
    requires r.value.Some? && seen != [] && !Good(r, seen[|seen| - 1])
    ensures RoundStart(r, seen) == |seen|
  {
    hide Good;
    assert !GoodNow(r, seen)[|seen| - 1];
  }

  /** With a delay of `seconds`, these samples are cleared exactly when they should be. */
  ghost predicate RightFor(r: Rule, seen: seq<Obs>, seconds: int)
    requires r.value.Some?
  {
    var r' := r.(recoverForSeconds := seconds);
    Clears(r', seen) <==> ShouldClear(r', seen)
  }

  lemma {:induction false} StartsIgnoreDelay(r: Rule, seen: seq<Obs>, seconds: int)
    requires r.value.Some?
    ensures var r' := r.(recoverForSeconds := seconds);
      && TimerStart(r', seen) == TimerStart(r, seen) && RoundStart(r', seen) == RoundStart(r, seen)
      && forall o :: Good(r', o) <==> Good(r, o)
  {
    var r' := r.(recoverForSeconds := seconds);
    assert Passing(r', seen) == Passing(r, seen) && GoodNow(r', seen) == GoodNow(r, seen);
    hide FirstGood;
  }

  /** For samples at least a second apart the timer is right at every delay exactly when it was steady. */
  lemma {:induction false} RightForEveryDelay(r: Rule, seen: seq<Obs>)
    requires r.value.Some? && seen != [] && Good(r, seen[|seen| - 1])
    requires forall i, j :: 0 <= i < j < |seen| ==> seen[j].at - seen[i].at >= 1000
    ensures (forall seconds :: RightFor(r, seen, seconds)) <==> Steady(r, seen)
  {
    hide TimerStart, RoundStart, Good, Steady;
    StartsExactly(r, seen);
    forall seconds ensures Steady(r, seen) ==> RightFor(r, seen, seconds) {
      StartsIgnoreDelay(r, seen, seconds);
    }
    if forall seconds :: RightFor(r, seen, seconds) {
      var seconds := (seen[|seen| - 1].at - seen[TimerStart(r, seen)].at) / 1000;
      assert RightFor(r, seen, seconds);
      StartsIgnoreDelay(r, seen, seconds);
    }
  }

  /** A round that replaced another since the timer started can have recovered for long enough itself. */
  lemma {:induction false} ChangedRoundStillCalledFor(r: Rule, v: real, one: Round, two: Round)
    requires r.value.Some? && r.recoverForSeconds > 0 && one != two
    requires !Violates(r.op, v, r.value.value) && Recovers(r.op, v, RecoverLimit(r))
    ensures var seen := [Obs(0, v, Some(one)), Obs(1, v, Some(two)), Obs(1 + r.recoverForSeconds * 1000, v, Some(two))];
      Clears(r, seen) && ShouldClear(r, seen) && !Steady(r, seen)
  {
    var seen := [Obs(0, v, Some(one)), Obs(1, v, Some(two)), Obs(1 + r.recoverForSeconds * 1000, v, Some(two))];
    assert Passing(r, seen) == [true, true, true] && GoodNow(r, seen) == [false, true, true];
    hide Good, Passes;
    assert Good(r, seen[0]);
  }

  // ---- the key in the running hub ----

  /** `told` are the actions the engine has emitted for the key, `seen` the samples since the last pause or clearing. */
  datatype Watch = Watch(hub: Hub, timer: Timer, seen: seq<Obs>, told: seq<Action>)

  datatype Move = Observe(v: real, at: int, now: int) | Pause | HubMove(step: Step)

  const NOT_SEEN: Watch := Watch(EMPTY_HUB, IDLE, [], [])

  function RefOf(source: string, r: Rule, sel: string): FaultRef { FaultRef(source, FaultKeyOf(r, sel)) }

  /** The samples of `w` with one more, judged in the round the hub now has. */
  function SeenWith(w: Watch, source: string, r: Rule, sel: string, v: real, at: int): seq<Obs> {
    w.seen + [Obs(at, v, RoundAt(w.hub, RefOf(source, r, sel)))]
  }

  function Go(w: Watch, source: string, r: Rule, sel: string, m: Move): Watch
    requires r.value.Some?
  {
    match m
    case Pause => w.(timer := IDLE, seen := [])
    case HubMove(step) => w.(hub := Next(w.hub, step))
    case Observe(v, at, now) =>
      var (t, d) := Judged(r, w.timer, UpAt(w.hub, source, FaultKeyOf(r, sel)), v, at);
      Watch(Decided(w.hub, source, r, sel, d, at, now), t, if d.Clear? then [] else SeenWith(w, source, r, sel, v, at),
            if d.Raise? then w.told + [Open] else if d.Clear? then w.told + [Resolve] else w.told)
  }

  function GoAll(source: string, r: Rule, sel: string, moves: seq<Move>): Watch
    requires r.value.Some?
  {
    if moves == [] then NOT_SEEN
    else Go(GoAll(source, r, sel, moves[..|moves| - 1]), source, r, sel, moves[|moves| - 1])
  }

  lemma {:induction false} ToldApart(told: seq<Action>)
    ensures told != told + [Open] && told != told + [Resolve] && told + [Open] != told + [Resolve]
  {
    assert |told| < |told + [Open]| && |told| < |told + [Resolve]|;
    assert (told + [Open])[|told|] != (told + [Resolve])[|told|];
  }

  /** What the engine does on one sample, in terms of the samples alone. */
  ghost predicate ActsOn(w: Watch, w': Watch, r: Rule, seen: seq<Obs>)
    requires r.value.Some?
  {
    && (w'.told == w.told + [Open] <==> ShouldRaise(r, seen))
    && (w'.told == w.told + [Resolve] <==> Clears(r, seen))
    && (!ShouldRaise(r, seen) && !Clears(r, seen) ==> w'.told == w.told && w'.hub == w.hub)
    && w'.seen == (if Clears(r, seen) then [] else seen)
  }

  lemma {:induction false} ObserveActs(w: Watch, source: string, r: Rule, sel: string, v: real, at: int, now: int)
    requires r.value.Some? && Tracks(r, w.timer, w.seen)
    ensures var w' := Go(w, source, r, sel, Observe(v, at, now));
      ActsOn(w, w', r, SeenWith(w, source, r, sel, v, at)) && Tracks(r, w'.timer, w'.seen)
  {
    hide Tracks, Judged, ShouldRaise, Clears, Emit, FaultKeyOf;
    var up, w' := RoundAt(w.hub, RefOf(source, r, sel)), Go(w, source, r, sel, Observe(v, at, now));
    JudgedExactly(r, w.timer, w.seen, up, v, at);
    ToldApart(w.told);
    var (t, d) := Judged(r, w.timer, up.Some?, v, at);
    assert w'.timer == t && w'.told == if d.Raise? then w.told + [Open] else if d.Clear? then w.told + [Resolve] else w.told;
    assert d.Quiet? ==> w'.hub == w.hub;
  }

  /** In every run, whoever else writes the key: the timer's fields are what the samples say. */
  lemma {:induction false} AlwaysTracks(source: string, r: Rule, sel: string, moves: seq<Move>)
    requires r.value.Some?
    ensures Tracks(r, GoAll(source, r, sel, moves).timer, GoAll(source, r, sel, moves).seen)
  {
    NothingTracked(r);
    if moves != [] {
      hide Next, Judged, Tracks, Decided;
      var front, m := moves[..|moves| - 1], moves[|moves| - 1];
      AlwaysTracks(source, r, sel, front);
      if m.Observe? {
        ObserveActs(GoAll(source, r, sel, front), source, r, sel, m.v, m.at, m.now);
      }
    }
  }

  /**
   * In every run, whoever else writes the key: the engine opens exactly when the round is down and
   * the violating streak has lasted, and resolves exactly when the timer says so; it resolves too
   * early exactly when the delay lies between the recovery of the round now up and the time on the
   * timer, and never while the timer has been steady.
   */
  lemma {:induction false} EngineActsExactly(source: string, r: Rule, sel: string, moves: seq<Move>,
                                             v: real, at: int, now: int)
    requires r.value.Some?
    ensures var w := GoAll(source, r, sel, moves);
      var (w', seen) := (Go(w, source, r, sel, Observe(v, at, now)), SeenWith(w, source, r, sel, v, at));
      && ActsOn(w, w', r, seen)
      && (Ordered(seen) ==>
            && (ShouldClear(r, seen) ==> w'.told == w.told + [Resolve])
            && (w'.told == w.told + [Resolve] && !ShouldClear(r, seen)
                <==> Good(r, seen[|seen| - 1])
                     && at - seen[RoundStart(r, seen)].at < r.recoverForSeconds * 1000 <= at - seen[TimerStart(r, seen)].at)
            && (Steady(r, seen) ==> (w'.told == w.told + [Resolve] <==> ShouldClear(r, seen))))
  {
    AlwaysTracks(source, r, sel, moves);
    hide Next, Judged, Tracks, Decided, GoAll, ShouldClear, ShouldRaise, Clears, Go, Good, Ordered, Steady, RoundStart, TimerStart;
    var w := GoAll(source, r, sel, moves);
    ObserveActs(w, source, r, sel, v, at, now);
    if Ordered(SeenWith(w, source, r, sel, v, at)) {
      ClearRightExactly(r, SeenWith(w, source, r, sel, v, at));
    }
  }

  lemma GoSnoc(source: string, r: Rule, sel: string, moves: seq<Move>, m: Move)
    requires r.value.Some?
    ensures GoAll(source, r, sel, moves + [m]) == Go(GoAll(source, r, sel, moves), source, r, sel, m)
  {
    assert (moves + [m])[..|moves|] == moves;
  }

  /** Every step of the hub in the run is one it can take. */
  ghost predicate EnabledRun(source: string, r: Rule, sel: string, moves: seq<Move>)
    requires r.value.Some?
  {
    moves != [] ==>
      var front, m := moves[..|moves| - 1], moves[|moves| - 1];
      EnabledRun(source, r, sel, front) && (m.HubMove? ==> Enabled(GoAll(source, r, sel, front).hub, m.step))
  }

  lemma EnabledSnoc(source: string, r: Rule, sel: string, moves: seq<Move>, m: Move)
    requires r.value.Some? && EnabledRun(source, r, sel, moves)
    requires m.HubMove? ==> Enabled(GoAll(source, r, sel, moves).hub, m.step)
    ensures EnabledRun(source, r, sel, moves + [m])
  {
    hide GoAll, Enabled;
    assert (moves + [m])[..|moves|] == moves;
  }

  function SourceEvent(key: string, id: string, seqNo: int, action: Action): Event {
    Event(Reported(id), seqNo, "custom", 0, "warning", OnFault(key, action), "t", None)
  }

  /** The source's reports on the rule's key: opened, and later closed and opened again. */
  function Reopening(r: Rule, id: string, seqNo: int, action: Action, now: int): Step {
    Report("src", SourceEvent(FaultKeyOf(r, "-"), id, seqNo, action), now)
  }

  function ReopeningMoves(r: Rule, v: real): seq<Move> {
    [HubMove(Reopening(r, "a", 1, Open, 0)), Observe(v, 0, 0),
     HubMove(Reopening(r, "b", 2, Resolve, 1)), HubMove(Reopening(r, "c", 3, Open, 1))]
  }

  /**
   * The source closes and reopens the round between two good samples: the engine resolves the
   * second round on its first sample, for any rule with a recovery delay.
   */
  lemma {:induction false} ReopenedRoundClearedEarly(r: Rule, v: real, at: int)
    requires r.value.Some? && at == r.recoverForSeconds * 1000 > 0
    requires !Violates(r.op, v, r.value.value) && Recovers(r.op, v, RecoverLimit(r))
    ensures var w := GoAll("src", r, "-", ReopeningMoves(r, v));
      var seen := SeenWith(w, "src", r, "-", v, at);
      && EnabledRun("src", r, "-", ReopeningMoves(r, v))
      && w.told == [] && Go(w, "src", r, "-", Observe(v, at, at)).told == [Resolve]
      && !ShouldClear(r, seen) && Ordered(seen) && !Steady(r, seen)
  {
    hide Reopening, Reopens, ReopensEnabled, Go, GoAll, Tracks, Violates, Recovers, ShouldClear, ShouldRaise, Clears,
         Steady, Ordered, EnabledRun;
    var one, two := OpenedTwice(r);
    OpenedTwiceEnabled(r);
    ReopeningRun(r, v, one, two);
    var w := GoAll("src", r, "-", ReopeningMoves(r, v));
    AlwaysTracks("src", r, "-", ReopeningMoves(r, v));
    ObserveActs(w, "src", r, "-", v, at, at);
    ChangedRoundTooEarly(r, v, at, one, two);
    assert SeenWith(w, "src", r, "-", v, at) == [Obs(0, v, Some(one)), Obs(at, v, Some(two))];
  }

  /** One round is up after the first report, the other after all three. */
  ghost predicate Reopens(r: Rule, one: Round, two: Round) {
    var ref := RefOf("src", r, "-");
    var s := Next(EMPTY_HUB, Reopening(r, "a", 1, Open, 0));
    && one != two && RoundAt(s, ref) == Some(one)
    && RoundAt(Next(Next(s, Reopening(r, "b", 2, Resolve, 1)), Reopening(r, "c", 3, Open, 1)), ref) == Some(two)
  }

  lemma {:induction false} ReopeningRun(r: Rule, v: real, one: Round, two: Round)
    requires r.value.Some? && r.recoverForSeconds > 0 && Reopens(r, one, two) && ReopensEnabled(r)
    requires !Violates(r.op, v, r.value.value) && Recovers(r.op, v, RecoverLimit(r))
    ensures var w := GoAll("src", r, "-", ReopeningMoves(r, v));
      w.seen == [Obs(0, v, Some(one))] && w.told == [] && RoundAt(w.hub, RefOf("src", r, "-")) == Some(two)
      && EnabledRun("src", r, "-", ReopeningMoves(r, v))
  {
    hide Next, Enabled, Reopening, RoundAt, Go, GoAll, Violates, Recovers, FaultKeyOf;
    var (s1, s2, s3) := (Reopening(r, "a", 1, Open, 0), Reopening(r, "b", 2, Resolve, 1), Reopening(r, "c", 3, Open, 1));
    GoAllFour("src", r, "-", HubMove(s1), Observe(v, 0, 0), HubMove(s2), HubMove(s3));
    HubMoves(NOT_SEEN, "src", r, "-", s1);
    var w1 := NOT_SEEN.(hub := Next(EMPTY_HUB, s1));
    FirstGoodSample(w1, "src", r, "-", v, one);
    var w2 := Go(w1, "src", r, "-", Observe(v, 0, 0));
    HubMoves(w2, "src", r, "-", s2);
    HubMoves(w2.(hub := Next(w2.hub, s2)), "src", r, "-", s3);
    EnabledFour("src", r, "-", HubMove(s1), Observe(v, 0, 0), HubMove(s2), HubMove(s3));
  }

  lemma EnabledFour(source: string, r: Rule, sel: string, m1: Move, m2: Move, m3: Move, m4: Move)
    requires r.value.Some? && m1.HubMove? && !m2.HubMove? && m3.HubMove? && m4.HubMove?
    requires var w1 := Go(NOT_SEEN, source, r, sel, m1);
      var w2 := Go(w1, source, r, sel, m2);
      && Enabled(NOT_SEEN.hub, m1.step) && Enabled(w2.hub, m3.step)
      && Enabled(Go(w2, source, r, sel, m3).hub, m4.step)
    ensures EnabledRun(source, r, sel, [m1, m2, m3, m4])
  {
    hide Go, Enabled;
    assert EnabledRun(source, r, sel, []) && GoAll(source, r, sel, []) == NOT_SEEN;
    hide EnabledRun, GoAll;
    assert [m1] == [] + [m1] && [m1, m2] == [m1] + [m2] && [m1, m2, m3] == [m1, m2] + [m3]
           && [m1, m2, m3, m4] == [m1, m2, m3] + [m4];
    GoSnoc(source, r, sel, [], m1);
    GoSnoc(source, r, sel, [m1], m2);
    GoSnoc(source, r, sel, [m1, m2], m3);
    EnabledSnoc(source, r, sel, [], m1);
    EnabledSnoc(source, r, sel, [m1], m2);
    EnabledSnoc(source, r, sel, [m1, m2], m3);
    EnabledSnoc(source, r, sel, [m1, m2, m3], m4);
  }

  ghost predicate ReopensEnabled(r: Rule) {
    var (s1, s2, s3) := (Reopening(r, "a", 1, Open, 0), Reopening(r, "b", 2, Resolve, 1), Reopening(r, "c", 3, Open, 1));
    var s := Next(EMPTY_HUB, s1);
    Enabled(EMPTY_HUB, s1) && Enabled(s, s2) && Enabled(Next(s, s2), s3)
  }

  lemma OpenedTwiceEnabled(r: Rule)
    ensures ReopensEnabled(r)
  {
    hide Apply, FaultKeyOf;
    var s1, s2 := Reopening(r, "a", 1, Open, 0), Reopening(r, "b", 2, Resolve, 1);
    var s := Next(EMPTY_HUB, s1);
    ApplyKeepsCounters(EMPTY_HUB, "src", s1.ev, false, s1.ev.seqNo <= LastSeq(EMPTY_HUB, "src"), 0);
    ApplyKeepsCounters(s, "src", s2.ev, false, s2.ev.seqNo <= LastSeq(s, "src"), 1);
  }

  lemma GoAllFour(source: string, r: Rule, sel: string, m1: Move, m2: Move, m3: Move, m4: Move)
    requires r.value.Some?
    ensures GoAll(source, r, sel, [m1, m2, m3, m4])
            == Go(Go(Go(Go(NOT_SEEN, source, r, sel, m1), source, r, sel, m2), source, r, sel, m3), source, r, sel, m4)
  {
    hide Go;
    assert [m1] == [] + [m1] && [m1, m2] == [m1] + [m2] && [m1, m2, m3] == [m1, m2] + [m3]
           && [m1, m2, m3, m4] == [m1, m2, m3] + [m4];
    GoSnoc(source, r, sel, [], m1);
    GoSnoc(source, r, sel, [m1], m2);
    GoSnoc(source, r, sel, [m1, m2], m3);
    GoSnoc(source, r, sel, [m1, m2, m3], m4);
  }

  lemma HubMoves(w: Watch, source: string, r: Rule, sel: string, step: Step)
    requires r.value.Some?
    ensures Go(w, source, r, sel, HubMove(step)) == w.(hub := Next(w.hub, step))
  {
  }

  lemma FirstGoodSample(w: Watch, source: string, r: Rule, sel: string, v: real, up: Round)
    requires r.value.Some? && r.recoverForSeconds > 0 && w.timer == IDLE && w.seen == []
    requires !Violates(r.op, v, r.value.value) && Recovers(r.op, v, RecoverLimit(r))
    requires RoundAt(w.hub, RefOf(source, r, sel)) == Some(up)
    ensures Go(w, source, r, sel, Observe(v, 0, 0)) == w.(timer := Timer(false, 0, true, 0), seen := [Obs(0, v, Some(up))])
  {
    hide Emit;
  }

  lemma {:induction false} OpenedTwice(r: Rule) returns (one: Round, two: Round)
    ensures one != two && Reopens(r, one, two)
  {
    var ref := RefOf("src", r, "-");
    var e1, e2, e3 := Reopening(r, "a", 1, Open, 0), Reopening(r, "b", 2, Resolve, 1), Reopening(r, "c", 3, Open, 1);
    var s1 := Next(EMPTY_HUB, e1);
    var s2 := Next(s1, e2);
    var s3 := Next(s2, e3);
    hide Apply, FaultKeyOf;
    assert LastSeq(EMPTY_HUB, "src") == 0 && PhaseAt(EMPTY_HUB, ref) == Absent;
    ReportAdvances(EMPTY_HUB, e1, ref, 0);
    ReportAdvances(s1, e2, ref, 1);
    ReportAdvances(s2, e3, ref, 2);
    assert PhaseAt(s1, ref) == Up(1) && PhaseAt(s2, ref) == Down(1) && PhaseAt(s3, ref) == Up(2);
    one, two := RoundAt(s1, ref).value, RoundAt(s3, ref).value;
  }

  lemma {:induction false} ReportAdvances(s: Hub, step: Step, ref: FaultRef, bound: int)
    requires step.Report? && WritesKey(step.source, step.ev.topic, ref) && bound < step.ev.seqNo && Behind(s, ref, bound)
    ensures var s' := Next(s, step);
      PhaseAt(s', ref) == Advance(PhaseAt(s, ref), Told(step.ev.topic.action)) && Behind(s', ref, step.ev.seqNo)
  {
    hide Apply;
    NewerEventAdvances(s, step.source, step.ev, false, step.ev.seqNo <= LastSeq(s, step.source), step.now, bound);
  }

  lemma {:induction false} ChangedRoundTooEarly(r: Rule, v: real, at: int, one: Round, two: Round)
    requires r.value.Some? && at == r.recoverForSeconds * 1000 > 0 && one != two
    requires !Violates(r.op, v, r.value.value) && Recovers(r.op, v, RecoverLimit(r))
    ensures var seen := [Obs(0, v, Some(one)), Obs(at, v, Some(two))];
      Clears(r, seen) && !ShouldClear(r, seen) && Ordered(seen) && !Steady(r, seen)
  {
    var seen := [Obs(0, v, Some(one)), Obs(at, v, Some(two))];
    assert Passing(r, seen) == [true, true] && GoodNow(r, seen) == [false, true];
    hide Good, Passes;
    assert Good(r, seen[0]);
  }

  // ---- keys only the engine writes ----

  /** Other writers leave the key to the engine. */
  ghost predicate Allowed(w: Watch, ref: FaultRef, m: Move) {
    m.HubMove? ==>
      && Enabled(w.hub, m.step)
      && (m.step.Report? ==> !WritesKey(m.step.source, m.step.ev.topic, ref))
      && (m.step.HubEvent? ==> !WritesKey(m.step.source, m.step.draft.topic, ref))
  }

  ghost predicate AllowedRun(source: string, r: Rule, sel: string, moves: seq<Move>)
    requires r.value.Some?
  {
    moves == [] ||
    (AllowedRun(source, r, sel, moves[..|moves| - 1])
     && Allowed(GoAll(source, r, sel, moves[..|moves| - 1]), RefOf(source, r, sel), moves[|moves| - 1]))
  }

  /** Opens and resolves take turns, an open first. */
  ghost predicate Alternating(told: seq<Action>) {
    forall i :: 0 <= i < |told| ==> told[i] == if i % 2 == 0 then Open else Resolve
  }

  /** Once a sample was judged in a round, that round has been up ever since; `up` is the round now. */
  ghost predicate OneRound(seen: seq<Obs>, up: Option<Round>) {
    && (forall i :: 0 <= i < |seen| && seen[i].up.Some? ==> seen[i].up == up)
    && (forall i, j :: 0 <= i < j < |seen| && seen[i].up.Some? ==> seen[j].up.Some?)
  }

  ghost predicate Watched(w: Watch, source: string, r: Rule, sel: string)
    requires r.value.Some?
  {
    var ref := RefOf(source, r, sel);
    && HubOwned(w.hub, ref) && Tracks(r, w.timer, w.seen) && OneRound(w.seen, RoundAt(w.hub, ref))
    && Alternating(w.told) && (RoundAt(w.hub, ref).Some? <==> |w.told| % 2 == 1)
  }

  /** What other parts of the hub do never opens, closes or replaces the round. */
  lemma {:induction false} OthersKeepRound(s: Hub, step: Step, ref: FaultRef)
    requires Enabled(s, step) && HubOwned(s, ref)
    requires step.Report? ==> !WritesKey(step.source, step.ev.topic, ref)
    requires step.HubEvent? ==> !WritesKey(step.source, step.draft.topic, ref)
    ensures HubOwned(Next(s, step), ref) && RoundAt(Next(s, step), ref) == RoundAt(s, ref)
  {
    StepKeepsHubOwned(s, step, ref);
    hide Apply, Retain, FlagFault, HubOwned;
    match step
    case Report(source, ev, now) => OtherKeyUntouched(s, source, ev, false, ev.seqNo <= LastSeq(s, source), now, ref);
    case HubEvent(source, d, now) => OtherKeyUntouched(Ticked(s), source, HubEventOf(s, d), true, false, now, ref);
    case Retention(limits, drops, now) => RetainTables(s, limits, drops, now);
    case Flagging(other, flag, now) => FlagTables(s, other, flag, now);
    case _ =>
  }

  /** A decision takes effect: an open round is up afterwards, a resolve really closes it. */
  lemma {:induction false} DecisionTakesEffect(s: Hub, source: string, r: Rule, sel: string, d: Decision, at: int, now: int)
    requires HubOwned(s, RefOf(source, r, sel))
    ensures var (s', ref) := (Decided(s, source, r, sel, d, at, now), RefOf(source, r, sel));
      && HubOwned(s', ref)
      && (d.Raise? ==> RoundAt(s', ref).Some?) && (d.Clear? ==> RoundAt(s', ref).None?) && (d.Quiet? ==> s' == s)
  {
    if !d.Quiet? {
      DraftWrites(source, r, sel, d, at);
      hide Emit, HubOwned, DraftOf, FaultKeyOf;
      StepKeepsHubOwned(s, HubEvent(source, DraftOf(r, sel, d, at), now), RefOf(source, r, sel));
      PhaseRound(s, RefOf(source, r, sel));
      PhaseRound(Decided(s, source, r, sel, d, at, now), RefOf(source, r, sel));
    }
  }

  lemma DraftWrites(source: string, r: Rule, sel: string, d: Decision, at: int)
    requires !d.Quiet?
    ensures WritesKey(source, DraftOf(r, sel, d, at).topic, RefOf(source, r, sel))
    ensures DraftOf(r, sel, d, at).topic.action == if d.Raise? then Open else Resolve
  {
  }

  lemma PhaseRound(s: Hub, ref: FaultRef)
    ensures PhaseAt(s, ref).Up? <==> RoundAt(s, ref).Some?
  {
  }

  lemma {:induction false} OneRoundSteady(r: Rule, seen: seq<Obs>, up: Option<Round>, v: real, at: int)
    requires r.value.Some? && OneRound(seen, up)
    ensures var seen' := seen + [Obs(at, v, up)]; Clears(r, seen') <==> ShouldClear(r, seen')
    ensures OneRound(seen + [Obs(at, v, up)], up)
  {
    hide Over, FirstGood, RoundStart;
    var seen' := seen + [Obs(at, v, up)];
    if Good(r, seen'[|seen|]) {
      StartsExactly(r, seen');
      var start := TimerStart(r, seen');
      assert Good(r, seen'[start]);
    } else {
      NotGoodNotCalled(r, seen');
    }
  }

  ghost predicate ObservedRight(w: Watch, source: string, r: Rule, sel: string, v: real, at: int, now: int)
    requires r.value.Some?
  {
    var ref := RefOf(source, r, sel);
    var (w', seen') := (Go(w, source, r, sel, Observe(v, at, now)), SeenWith(w, source, r, sel, v, at));
    && (w'.told == w.told + [Open] <==> ShouldRaise(r, seen'))
    && (w'.told == w.told + [Resolve] <==> ShouldClear(r, seen'))
    && (ShouldRaise(r, seen') ==> RoundAt(w.hub, ref).None? && RoundAt(w'.hub, ref).Some?)
    && (ShouldClear(r, seen') ==> RoundAt(w.hub, ref).Some? && RoundAt(w'.hub, ref).None?)
    && (!ShouldRaise(r, seen') && !ShouldClear(r, seen') ==> w'.hub == w.hub && w'.told == w.told)
  }

  /** One sample of the key: the decision is exactly the one called for, and it takes effect. */
  lemma {:induction false} ObserveExactly(w: Watch, source: string, r: Rule, sel: string, v: real, at: int, now: int)
    requires r.value.Some? && Watched(w, source, r, sel)
    ensures ObservedRight(w, source, r, sel, v, at, now) && Watched(Go(w, source, r, sel, Observe(v, at, now)), source, r, sel)
  {
    hide HubOwned, Tracks, Judged, Decided, ShouldRaise, Clears, ShouldClear, Alternating, OneRound, RoundAt, RefOf;
    var ref := RefOf(source, r, sel);
    var seen' := SeenWith(w, source, r, sel, v, at);
    ObserveActs(w, source, r, sel, v, at, now);
    OneRoundSteady(r, w.seen, RoundAt(w.hub, ref), v, at);
    var d := DecisionMade(w, source, r, sel, v, at, now);
    DecisionTakesEffect(w.hub, source, r, sel, d, at, now);
    DecisionFits(r, seen');
    AlternatesOn(w.told);
    ToldApart(w.told);
    FreshRound(w.seen, v, at, RoundAt(w.hub, ref), RoundAt(Decided(w.hub, source, r, sel, d, at, now), ref));
  }

  lemma {:induction false} DecisionMade(w: Watch, source: string, r: Rule, sel: string, v: real, at: int, now: int)
    returns (d: Decision)
    requires r.value.Some?
    ensures var w' := Go(w, source, r, sel, Observe(v, at, now));
      && w'.hub == Decided(w.hub, source, r, sel, d, at, now)
      && w'.told == if d.Raise? then w.told + [Open] else if d.Clear? then w.told + [Resolve] else w.told
  {
    hide Decided;
    d := Judged(r, w.timer, UpAt(w.hub, source, FaultKeyOf(r, sel)), v, at).1;
  }

  lemma {:induction false} FreshRound(seen: seq<Obs>, v: real, at: int, up: Option<Round>, up': Option<Round>)
    requires OneRound(seen, up)
    ensures OneRound([], up') && (up.None? ==> OneRound(seen + [Obs(at, v, up)], up'))
  {
  }

  lemma {:induction false} AlternatesOn(told: seq<Action>)
    requires Alternating(told)
    ensures |told| % 2 == 0 ==> Alternating(told + [Open])
    ensures |told| % 2 == 1 ==> Alternating(told + [Resolve])
  {
  }

  /** An open is only ever called for while the round is down, a resolve while it is up. */
  lemma {:induction false} DecisionFits(r: Rule, seen: seq<Obs>)
    requires r.value.Some? && seen != []
    ensures ShouldRaise(r, seen) ==> seen[|seen| - 1].up.None?
    ensures Clears(r, seen) ==> seen[|seen| - 1].up.Some?
  {
  }

  lemma {:induction false} MoveKeepsWatched(w: Watch, source: string, r: Rule, sel: string, m: Move)
    requires r.value.Some? && Watched(w, source, r, sel) && Allowed(w, RefOf(source, r, sel), m)
    ensures Watched(Go(w, source, r, sel, m), source, r, sel)
  {
    hide HubOwned, Tracks, Judged, Decided, Next, RefOf, RoundAt;
    match m
    case Pause => NothingTracked(r);
    case HubMove(step) => OthersKeepRound(w.hub, step, RefOf(source, r, sel));
    case Observe(v, at, now) => ObserveExactly(w, source, r, sel, v, at, now);
  }

  lemma {:induction false} AlwaysWatched(source: string, r: Rule, sel: string, moves: seq<Move>)
    requires r.value.Some? && AllowedRun(source, r, sel, moves)
    ensures Watched(GoAll(source, r, sel, moves), source, r, sel)
  {
    if moves == [] {
      NothingTracked(r);
    } else {
      hide Go, Watched, Allowed;
      var front := moves[..|moves| - 1];
      AlwaysWatched(source, r, sel, front);
      MoveKeepsWatched(GoAll(source, r, sel, front), source, r, sel, moves[|moves| - 1]);
    }
  }

  /**
   * In every run of the hub in which only the engine writes the key: it emits an open or a
   * resolve exactly when the samples since the last pause or clearing call for one, the two
   * alternate, and each takes effect on the fault row.
   */
  lemma {:induction false} EngineDecidesExactly(source: string, r: Rule, sel: string, moves: seq<Move>,
                                                v: real, at: int, now: int)
    requires r.value.Some? && AllowedRun(source, r, sel, moves)
    ensures var w := GoAll(source, r, sel, moves);
      && ObservedRight(w, source, r, sel, v, at, now)
      && Alternating(Go(w, source, r, sel, Observe(v, at, now)).told)
  {
    AlwaysWatched(source, r, sel, moves);
    hide GoAll, AllowedRun, ObservedRight, Go, HubOwned, Tracks, RefOf, RoundAt;
    ObserveExactly(GoAll(source, r, sel, moves), source, r, sel, v, at, now);
  }
}
