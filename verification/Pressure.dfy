/** CPU and RAM alerts: per-server thresholds, the sustained-for check and the
    hysteresis that keeps them from flapping. */
module Pressure {
  import opened Base
  import opened Samples
  import opened Alerts

  const SUSTAINED := 10 * SECOND

  const CPU_HIGH := 85.0
  const MEM_HIGH := 90.0
  const DISK_HIGH := 90.0
  const CPU_CLEAR := 75.0
  const MEM_CLEAR := 82.0
  const DISK_CLEAR := 85.0

  /** A server's own firing levels; one that is not positive means the global one. */
  datatype Overrides = Overrides(cpuHigh: real, memHigh: real, diskHigh: real)

  datatype Levels = Levels(high: real, clear: real)

  /** One metric's levels: an override drags a clear level that is not below it
      five points under itself, but not below zero. */
  function Effective(high: real, clear: real, over: real): (l: Levels)
    requires 0.0 <= clear < high
    ensures 0.0 <= l.clear < l.high
    ensures l.high == if over > 0.0 then over else high
    ensures l.clear <= clear
    ensures over <= 0.0 || over > clear ==> l.clear == clear
    ensures 5.0 <= over <= clear ==> l.high - l.clear == 5.0
    ensures 0.0 < over < 5.0 && over <= clear ==> l.clear == 0.0
  {
    var h := if over > 0.0 then over else high;
    var c := if over > 0.0 && clear >= over then over - 5.0 else clear;
    Levels(h, if c < 0.0 then 0.0 else c)
  }

  /** The five points between firing and clearing that an override is documented to get are there
      exactly unless it is under five, or less than five above the metric's own clear level. */
  lemma FivePoints(high: real, clear: real, over: real)
    requires 5.0 <= clear && clear + 5.0 <= high
    ensures var l := Effective(high, clear, over);
      l.high - l.clear >= 5.0 <==> !(0.0 < over < 5.0) && !(clear < over < clear + 5.0)
  {
  }

  /** A server's levels for CPU, RAM and disk, each strictly below its firing level. */
  function EffectiveThresholds(over: Option<Overrides>): (r: (Levels, Levels, Levels))
    ensures r.0.clear < r.0.high && r.1.clear < r.1.high && r.2.clear < r.2.high
    ensures over.None? ==> r == (Levels(85.0, 75.0), Levels(90.0, 82.0), Levels(90.0, 85.0))
    ensures over.Some? ==>
      && r.0.high == (if over.value.cpuHigh > 0.0 then over.value.cpuHigh else 85.0)
      && r.1.high == (if over.value.memHigh > 0.0 then over.value.memHigh else 90.0)
      && r.2.high == (if over.value.diskHigh > 0.0 then over.value.diskHigh else 90.0)
      && r.0.clear <= 75.0 && r.1.clear <= 82.0 && r.2.clear <= 85.0
  {
    (Effective(CPU_HIGH, CPU_CLEAR, if over.Some? then over.value.cpuHigh else 0.0),
     Effective(MEM_HIGH, MEM_CLEAR, if over.Some? then over.value.memHigh else 0.0),
     Effective(DISK_HIGH, DISK_CLEAR, if over.Some? then over.value.diskHigh else 0.0))
  }

  datatype Metric = Cpu | Mem

  function EffectiveFor(m: Metric, over: Option<Overrides>): (l: Levels)
    ensures l.clear < l.high
    ensures over.None? ==> l.high == if m == Cpu then 85.0 else 90.0
  {
    if m == Cpu then EffectiveThresholds(over).0 else EffectiveThresholds(over).1
  }

  // ------------------------------------------------------------- one metric

  /** One server's metric: when it went over, and whether its alert is up. */
  datatype Gauge = Gauge(since: Option<Time>, active: bool)

  datatype Reading = Reading(now: Time, value: real, levels: Levels)

  predicate Over(r: Reading) { r.value >= r.levels.high }

  function SinceAfter(g: Gauge, r: Reading): Option<Time> {
    if !Over(r) then None else if g.since.None? then Some(r.now) else g.since
  }

  predicate Sustained(g: Gauge, r: Reading) {
    Over(r) && g.since.Some? && r.now - g.since.value >= SUSTAINED
  }

  function Observe(g: Gauge, r: Reading): Gauge {
    Gauge(SinceAfter(g, r),
          if Sustained(g, r) then true else if r.value < r.levels.clear then false else g.active)
  }

  /** The reading raises an alert. */
  predicate Raises(g: Gauge, r: Reading) { Sustained(g, r) && !g.active }

  // -------------------------------------------------------------- the engine

  function ConditionOf(vps: string, m: Metric): Condition {
    Condition(vps, if m == Cpu then CpuHigh else MemHigh, "")
  }

  class PressureWatch {
    var engine: Engine
    var since: map<(string, Metric), Time>

    constructor (e: Engine)
      ensures engine == e && since == map[]
    {
      engine, since := e, map[];
    }

    function GaugeOf(vps: string, m: Metric): Gauge
      reads this
    {
      Gauge(if (vps, m) in since then Some(since[(vps, m)]) else None, ConditionOf(vps, m) in engine.active)
    }

    method CheckSustained(vps: string, m: Metric, over: bool, now: Time) returns (held: bool)
      modifies this`since
      ensures held == (over && (vps, m) in old(since) && now - old(since)[(vps, m)] >= SUSTAINED)
      ensures since == if !over then old(since) - {(vps, m)}
                       else if (vps, m) in old(since) then old(since) else old(since)[(vps, m) := now]
    {
      if !over {
        since := since - {(vps, m)};
        return false;
      }
      if (vps, m) !in since {
        since := since[(vps, m) := now];
        return false;
      }
      return now - since[(vps, m)] >= SUSTAINED;
    }

    /** The part of `EvaluateSnapshot` for one metric: that gauge observes the
        reading, every other flag and clock is left alone, and the index keeps
        agreeing with the store. */
    method EvaluateMetric(vps: string, m: Metric, over: Option<Overrides>, value: real, now: Time)
      modifies this
      ensures GaugeOf(vps, m) == Observe(old(GaugeOf(vps, m)), Reading(now, value, EffectiveFor(m, over)))
      ensures forall v, n :: (v, n) != (vps, m) ==> GaugeOf(v, n) == old(GaugeOf(v, n))
      ensures engine.active - {ConditionOf(vps, m)} == old(engine).active - {ConditionOf(vps, m)}
      ensures ConditionOf(vps, m) in engine.active && ConditionOf(vps, m) !in old(engine).active ==>
        engine.rows != [] && var a := engine.rows[|engine.rows| - 1];
        a.about == Condition(vps, if m == Cpu then CpuHigh else MemHigh, "") && a.severity == Warning && !a.resolved
      ensures old(Agrees(engine)) ==> Agrees(engine)
    {
      var levels := EffectiveFor(m, over);
      var c := ConditionOf(vps, m);
      StepAgreesIf(engine, c);
      var held := CheckSustained(vps, m, value >= levels.high, now);
      if held {
        FireAdds(engine, c, Warning);
        engine := Fire(engine, c, Warning);
      } else if value < levels.clear {
        engine := Clear(engine, c);
      }
    }
  }

  lemma StepAgreesIf(e: Engine, c: Condition)
    ensures Agrees(e) ==> Agrees(Fire(e, c, Warning)) && Agrees(Clear(e, c))
  {
    if Agrees(e) {
      StepAgrees(e, Fired(c, Warning));
      StepAgrees(e, Cleared(c));
    }
  }

  // ------------------------------------------------------------------- runs

  ghost predicate ObservedAt(gs: seq<Gauge>, rs: seq<Reading>, i: nat)
    requires i < |rs| && |gs| == |rs| + 1
  {
    gs[i + 1] == Observe(gs[i], rs[i])
  }

  /** A gauge from start-up on: nothing has been over yet, the alert may already be up. */
  ghost predicate Run(gs: seq<Gauge>, rs: seq<Reading>) {
    && |gs| == |rs| + 1 && gs[0].since.None?
    && forall i :: 0 <= i < |rs| ==> ObservedAt(gs, rs, i)
  }

  /** The clock started at the first of an unbroken run of readings over the level. */
  lemma {:induction false} ClockStart(gs: seq<Gauge>, rs: seq<Reading>, n: nat) returns (j: nat)
    requires Run(gs, rs) && n <= |rs| && gs[n].since.Some?
    ensures j < n && rs[j].now == gs[n].since.value
    ensures forall k :: j <= k < n ==> Over(rs[k])
    ensures j > 0 ==> !Over(rs[j - 1])
  {
    assert n > 0;
    assert ObservedAt(gs, rs, n - 1);
    if gs[n - 1].since.Some? {
      j := ClockStart(gs, rs, n - 1);
    } else {
      j := n - 1;
      if j > 0 {
        assert ObservedAt(gs, rs, j - 1);
      }
    }
  }

  /** Every alert comes at the end of an unbroken run of readings at or above the
      firing level that spans the sustained time. */
  lemma AlertNeedsSustained(gs: seq<Gauge>, rs: seq<Reading>, i: nat) returns (j: nat)
    requires Run(gs, rs) && i < |rs| && Raises(gs[i], rs[i])
    ensures j < i && rs[i].now - rs[j].now >= SUSTAINED
    ensures forall k :: j <= k <= i ==> Over(rs[k])
  {
    j := ClockStart(gs, rs, i);
  }

  ghost predicate AllOver(rs: seq<Reading>, j: nat, n: nat) {
    forall k :: j <= k < n && k < |rs| ==> Over(rs[k])
  }

  lemma {:induction false} ClockRuns(gs: seq<Gauge>, rs: seq<Reading>, j: nat, n: nat)
    requires Run(gs, rs) && j < n <= |rs| && AllOver(rs, j, n) && (j == 0 || !Over(rs[j - 1]))
    ensures gs[n].since == Some(rs[j].now)
    decreases n
  {
    assert ObservedAt(gs, rs, n - 1);
    if j < n - 1 {
      ClockRuns(gs, rs, j, n - 1);
    } else if j > 0 {
      assert ObservedAt(gs, rs, j - 1);
    }
  }

  /** When a reading is sustained: exactly if the first of the unbroken run of readings over the level
      that it ends is long enough ago. The alert is then up, raised now unless it was up before. */
  lemma SustainedExactly(gs: seq<Gauge>, rs: seq<Reading>, j: nat, i: nat)
    requires Run(gs, rs) && j <= i < |rs| && AllOver(rs, j, i + 1) && (j == 0 || !Over(rs[j - 1]))
    ensures Sustained(gs[i], rs[i]) <==> j < i && rs[i].now - rs[j].now >= SUSTAINED
    ensures Sustained(gs[i], rs[i]) ==> gs[i + 1].active
    ensures Raises(gs[i], rs[i]) <==> j < i && rs[i].now - rs[j].now >= SUSTAINED && !gs[i].active
  {
    assert ObservedAt(gs, rs, i);
    if j < i {
      ClockRuns(gs, rs, j, i);
    } else if j > 0 {
      assert ObservedAt(gs, rs, j - 1);
    }
  }

  /** When the alert is up after a reading: exactly if the reading is sustained, or it was up and the
      reading is not below the clear level. So it goes down at the first reading below that level. */
  lemma UpExactly(gs: seq<Gauge>, rs: seq<Reading>, i: nat)
    requires Run(gs, rs) && i < |rs| && rs[i].levels.clear < rs[i].levels.high
    ensures gs[i + 1].active <==> Sustained(gs[i], rs[i]) || (gs[i].active && rs[i].value >= rs[i].levels.clear)
    ensures rs[i].value < rs[i].levels.clear ==> !gs[i + 1].active
  {
    assert ObservedAt(gs, rs, i);
  }

  /** Two alerts of one gauge have a reading below the clear level between them. */
  lemma {:induction false} NoFlapping(gs: seq<Gauge>, rs: seq<Reading>, i: nat, j: nat) returns (k: nat)
    requires Run(gs, rs) && i < j < |rs| && gs[i + 1].active && !gs[j].active
    ensures i < k < j && rs[k].value < rs[k].levels.clear
    decreases j
  {
    assert ObservedAt(gs, rs, j - 1);
    if gs[j - 1].active {
      k := j - 1;
    } else {
      k := NoFlapping(gs, rs, i, j - 1);
    }
  }

  lemma AlertsAreSeparated(gs: seq<Gauge>, rs: seq<Reading>, i: nat, j: nat) returns (k: nat)
    requires Run(gs, rs) && i < j < |rs| && Raises(gs[i], rs[i]) && Raises(gs[j], rs[j])
    ensures i < k < j && rs[k].value < rs[k].levels.clear
  {
    assert ObservedAt(gs, rs, i);
    k := NoFlapping(gs, rs, i, j);
  }
}
