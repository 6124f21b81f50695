/** The rule engine as the hub runs it: timers in memory, events emitted inside the transaction. */
module RuleEngine {
  import opened HubSpec
  import opened HubStore
  import opened Rules
  import opened RuleReadings

  class RuleEngine {
    var states: map<TimerKey, Timer>

    constructor ()
      ensures states == map[]
    {
      states := map[];
    }

    /** Every reading the rule takes from the sample, one after the other. */
    method EvalThreshold(db: Store, source: string, r: Rule, s: Sample, at: int, now: int)
      modifies this, db
      ensures r.value.None? ==> states == old(states) && db.Db() == old(db.Db())
      ensures r.value.Some? ==>
        && (states, db.Db()) == EvaluatedAll(old(states), old(db.Db()), source, r, Extract(r, s), at, now)
        && SampleDecides(old(states), old(db.Db()), states, db.Db(), source, r, s, at)
    {
      if r.value.None? {
        return;
      }
      hide EvaluatedAll, Extract, SampleDecides, Reports, DisksInOrder;
      SampleExactly(states, db.Db(), source, r, s, at, now);
      var xs := ReadMetric(r, s);
      EvalReadings(db, source, r, xs, at, now);
    }

    method EvalReadings(db: Store, source: string, r: Rule, xs: seq<Gauge>, at: int, now: int)
      requires r.value.Some?
      modifies this, db
      ensures (states, db.Db()) == EvaluatedAll(old(states), old(db.Db()), source, r, xs, at, now)
    {
      hide Evaluated;
      var i := 0;
      while i < |xs|
        invariant 0 <= i <= |xs|
        invariant (states, db.Db()) == EvaluatedAll(old(states), old(db.Db()), source, r, xs[..i], at, now)
      {
        assert xs[..i + 1][..i] == xs[..i];
        EvalGauge(db, source, r, xs[i], at, now);
        i := i + 1;
      }
      assert xs[..|xs|] == xs;
    }

    method EvalGauge(db: Store, source: string, r: Rule, x: Gauge, at: int, now: int)
      requires r.value.Some?
      modifies this, db
      ensures (states, db.Db()) == Evaluated(old(states), old(db.Db()), source, r, x, at, now)
    {
      hide Emit;
      var k := TimerKey(source, r.id, x.sel);
      var fk := FaultKeyOf(r, x.sel);
      var t := if k in states then states[k] else IDLE;
      var open := IsFaultOpen(db, source, fk);
      if Violates(r.op, x.v, r.value.value) {
        if !t.breach { t := t.(breach := true, breachSince := at); }
        t := t.(recovering := false);
        if at - t.breachSince >= r.forSeconds * 1000 && !open {
          db.EmitHubEvent(source, DraftOf(r, x.sel, Raise, at), now);
        }
      } else {
        t := t.(breach := false);
        if open {
          var recoverLimit := if r.recoverValue.Some? then r.recoverValue.value else r.value.value;
          if Recovers(r.op, x.v, recoverLimit) {
            if !t.recovering { t := t.(recovering := true, recoverSince := at); }
            if at - t.recoverSince >= r.recoverForSeconds * 1000 {
              db.EmitHubEvent(source, DraftOf(r, x.sel, Clear, at), now);
              t := IDLE;
            }
          } else {
            t := t.(recovering := false);
          }
        }
      }
      states := states[k := t];
    }

    method IsFaultOpen(db: Store, source: string, key: string) returns (open: bool)
      ensures open == UpAt(db.Db(), source, key)
    {
      var ref := FaultRef(source, key);
      open := ref in db.faults && db.faults[ref].state.IsOpen?;
    }

    /** A source that went silent starts its timers anew. */
    method PauseSource(source: string)
      modifies this
      ensures states == map k <- old(states) | k.source != source :: old(states)[k]
    {
      states := map k <- states | k.source != source :: states[k];
    }
  }
}
