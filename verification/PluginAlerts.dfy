/**
 * Alerts on plugin metrics: two levels with a key each, one sustained-for clock for both, five per
 * cent of hysteresis, and metrics that vanish.
 */
module PluginAlerts {
  import opened Base
  import opened Samples
  import opened Alerts
  import Pressure

  datatype Level = Warn | Crit

  /** A metric's levels as its plugin declares them; one that is not positive is no level. */
  datatype Def = Def(warn: real, crit: real)

  /** A value with the levels it is held against; `warn` may be the server's own. */
  datatype Reading = Reading(now: Time, value: real, warn: real, crit: real)

  function ReadingOf(d: Def, over: real, value: real, now: Time): Reading {
    Reading(now, value, if over > 0.0 then over else d.warn, d.crit)
  }

  function LevelAt(r: Reading): Option<Level> {
    if r.crit > 0.0 && r.value >= r.crit then Some(Crit)
    else if r.warn > 0.0 && r.value >= r.warn then Some(Warn)
    else None
  }

  function Lowest(r: Reading): real {
    if r.warn <= 0.0 then r.crit else r.warn
  }

  predicate Clearing(r: Reading) {
    LevelAt(r).None? && r.value < Lowest(r) * 0.95
  }

  // ----------------------------------------------------------------- hysteresis

  function Probe(value: real, warn: real, crit: real): Reading {
    Reading(0, value, warn, crit)
  }

  /** Whatever clears lies five per cent under every level that fires. */
  ghost predicate FivePerCent(warn: real, crit: real) {
    forall v {:trigger Probe(v, warn, crit)} :: Clearing(Probe(v, warn, crit)) ==>
      (warn > 0.0 ==> v < warn * 0.95) && (crit > 0.0 ==> v < crit * 0.95)
  }

  /** The five per cent are there exactly unless the critical level lies below the warning one. */
  lemma HysteresisExactly(warn: real, crit: real)
    ensures FivePerCent(warn, crit) <==> !(0.0 < crit < warn)
  {
    if 0.0 < crit < warn {
      assert Clearing(Probe(crit * 0.95, warn, crit));
    }
  }

  /** Nothing is left of them: any reading below the critical level clears its alert. */
  ghost predicate ClearsAtOnce(warn: real, crit: real) {
    forall v {:trigger Probe(v, warn, crit)} :: v < crit ==> Clearing(Probe(v, warn, crit))
  }

  lemma NoHysteresisExactly(warn: real, crit: real)
    requires crit > 0.0
    ensures ClearsAtOnce(warn, crit) <==> 0.0 < warn && crit <= warn * 0.95
  {
    var v := Lowest(Probe(0.0, warn, crit)) * 0.95;
    if v < crit {
      assert !Clearing(Probe(v, warn, crit));
    }
  }

  // ----------------------------------------------------------------- one metric

  /** One metric of a server: since when it has been over some level, and which of its alerts are up. */
  datatype Gauge = Gauge(since: Option<Time>, up: set<Level>)

  predicate Over(r: Reading) {
    LevelAt(r).Some?
  }

  predicate Sustained(g: Gauge, r: Reading) {
    Over(r) && g.since.Some? && r.now - g.since.value >= Pressure.SUSTAINED
  }

  function Observe(g: Gauge, r: Reading): Gauge {
    Gauge(if !Over(r) then None else if g.since.None? then Some(r.now) else g.since,
          if Sustained(g, r) then {LevelAt(r).value} else if Clearing(r) then {} else g.up)
  }

  /** A metric that is no longer reported loses its alerts, but its clock is not stopped. */
  function Vanish(g: Gauge): Gauge {
    g.(up := {})
  }

  datatype Event = Seen(r: Reading) | Gone

  function Step(g: Gauge, e: Event): Gauge {
    match e
    case Seen(r) => Observe(g, r)
    case Gone => Vanish(g)
  }

  predicate Raises(g: Gauge, e: Event) {
    e.Seen? && Sustained(g, e.r) && LevelAt(e.r).value !in g.up
  }

  ghost predicate StepAt(gs: seq<Gauge>, es: seq<Event>, i: nat)
    requires i < |es| && |gs| == |es| + 1
  {
    gs[i + 1] == Step(gs[i], es[i])
  }

  ghost predicate Run(gs: seq<Gauge>, es: seq<Event>) {
    |gs| == |es| + 1 && gs[0].since.None? && forall i :: 0 <= i < |es| ==> StepAt(gs, es, i)
  }

  /** Never both levels at once, if not at the start. */
  lemma {:induction false} OneLevel(gs: seq<Gauge>, es: seq<Event>, n: nat)
    requires Run(gs, es) && n <= |es| && !(gs[0].up == {Warn, Crit})
    ensures !(gs[n].up == {Warn, Crit})
  {
    if n > 0 {
      OneLevel(gs, es, n - 1);
      assert StepAt(gs, es, n - 1);
    }
  }

  predicate OverAt(es: seq<Event>, i: nat) {
    i < |es| && es[i].Seen? && Over(es[i].r)
  }

  predicate UnderAt(es: seq<Event>, i: nat) {
    i < |es| && es[i].Seen? && !Over(es[i].r)
  }

  /** Step j is the first over a level since the metric was last seen under both. */
  ghost predicate StartsAt(es: seq<Event>, j: nat, n: nat) {
    && j < n && OverAt(es, j)
    && (forall k: nat :: j <= k < n ==> !UnderAt(es, k))
    && exists m: nat :: QuietSince(es, m, j)
  }

  /** From the start, or from a step under both levels, up to step j the metric was not over one. */
  ghost predicate QuietSince(es: seq<Event>, m: nat, j: nat) {
    m <= j && (m == 0 || UnderAt(es, m - 1)) && forall k: nat :: m <= k < j ==> !OverAt(es, k)
  }

  /** From the first step over a level the clock runs, through gaps in which the metric is gone, until
      the metric is seen under both. */
  lemma {:induction false} ClockRuns(gs: seq<Gauge>, es: seq<Event>, j: nat, n: nat)
    requires Run(gs, es) && j < n <= |es| && OverAt(es, j) && gs[j].since.None?
    requires forall k: nat :: j <= k < n ==> !UnderAt(es, k)
    ensures gs[n].since == Some(es[j].r.now)
    decreases n
  {
    assert StepAt(gs, es, n - 1);
    if j < n - 1 {
      ClockRuns(gs, es, j, n - 1);
      assert !UnderAt(es, n - 1);
    }
  }

  lemma {:induction false} ClockStopped(gs: seq<Gauge>, es: seq<Event>, m: nat, j: nat)
    requires Run(gs, es) && j <= |es| && QuietSince(es, m, j)
    ensures gs[j].since.None?
    decreases j
  {
    if m < j {
      ClockStopped(gs, es, m, j - 1);
      assert StepAt(gs, es, j - 1);
      assert !OverAt(es, j - 1);
    } else if m > 0 {
      assert StepAt(gs, es, m - 1);
    }
  }

  /** When a reading over a level is sustained: exactly if the first one since the metric was last seen
      under both levels is long enough ago, wherever the metric was in between. */
  lemma SustainedExactly(gs: seq<Gauge>, es: seq<Event>, j: nat, i: nat)
    requires Run(gs, es) && i < |es| && OverAt(es, i) && StartsAt(es, j, i + 1)
    ensures Sustained(gs[i], es[i].r) <==> j < i && es[i].r.now - es[j].r.now >= Pressure.SUSTAINED
  {
    var m: nat :| QuietSince(es, m, j);
    ClockStopped(gs, es, m, j);
    if j < i {
      ClockRuns(gs, es, j, i);
    }
  }

  /** Which alerts are up after a step: of a sustained reading exactly the critical one if it is at or
      over that level, else exactly the warning one; none after a clearing reading or once the metric is
      gone; and otherwise those that were. */
  lemma UpExactly(g: Gauge, e: Event)
    ensures e.Gone? ==> Step(g, e).up == {}
    ensures e.Seen? && Sustained(g, e.r) ==> Step(g, e).up == if 0.0 < e.r.crit <= e.r.value then {Crit} else {Warn}
    ensures e.Seen? && !Sustained(g, e.r) ==>
      Step(g, e).up ==
        if (e.r.crit <= 0.0 || e.r.value < e.r.crit) && (e.r.warn <= 0.0 || e.r.value < e.r.warn)
           && e.r.value < (if e.r.warn > 0.0 then e.r.warn else e.r.crit) * 0.95 then {} else g.up
    ensures e.Seen? ==> (Over(e.r) <==> 0.0 < e.r.crit <= e.r.value || 0.0 < e.r.warn <= e.r.value)
  {
  }

  /** A server's own level replaces the warning one, if it is positive, and never the critical one. */
  lemma OverrideIsWarn(d: Def, over: real, value: real, now: Time)
    ensures var r := ReadingOf(d, over, value, now);
      r.warn == (if over > 0.0 then over else d.warn) && r.crit == d.crit && r.value == value && r.now == now
  {
  }

  predicate EndsAt(es: seq<Event>, k: nat) {
    k < |es| && (es[k].Gone? || Clearing(es[k].r))
  }

  /** An alert that was up and is not any more was ended by a clearing reading or by the metric going. */
  lemma {:induction false} NoFlapping(gs: seq<Gauge>, es: seq<Event>, i: nat, j: nat) returns (k: nat)
    requires Run(gs, es) && i < j < |es| && gs[i + 1].up != {} && gs[j].up == {}
    ensures i < k < j && EndsAt(es, k)
    decreases j
  {
    assert StepAt(gs, es, j - 1);
    if gs[j - 1].up != {} {
      k := j - 1;
    } else {
      k := NoFlapping(gs, es, i, j - 1);
    }
  }

  // ------------------------------------------------------------- what goes wrong

  lemma Extend(gs: seq<Gauge>, es: seq<Event>, e: Event) returns (gs': seq<Gauge>, es': seq<Event>)
    requires Run(gs, es)
    ensures Run(gs', es') && es' == es + [e] && gs' == gs + [Step(gs[|es|], e)]
  {
    gs', es' := gs + [Step(gs[|es|], e)], es + [e];
    forall i | 0 <= i < |es'| ensures StepAt(gs', es', i) {
      if i < |es| {
        assert StepAt(gs, es, i);
      }
    }
  }

  /** With the critical level that far below the warning one, an alert raised at it is cleared by any
      reading below it, however close, and raised again ten seconds later. */
  lemma Flaps(warn: real, crit: real, below: real) returns (gs: seq<Gauge>, es: seq<Event>)
    requires 0.0 < crit <= warn * 0.95 && below < crit
    ensures Run(gs, es) && |es| == 5 && es[2].Seen? && es[2].r.value == below
    ensures Raises(gs[1], es[1]) && gs[3].up == {} && Raises(gs[4], es[4])
  {
    var s := Pressure.SUSTAINED;
    gs, es := [Gauge(None, {})], [];
    gs, es := Extend(gs, es, Seen(Reading(0, crit, warn, crit)));
    gs, es := Extend(gs, es, Seen(Reading(s, crit, warn, crit)));
    assert gs[2] == Gauge(Some(0), {Crit});
    gs, es := Extend(gs, es, Seen(Reading(s + 1, below, warn, crit)));
    assert gs[3] == Gauge(None, {});
    gs, es := Extend(gs, es, Seen(Reading(s + 2, crit, warn, crit)));
    gs, es := Extend(gs, es, Seen(Reading(s + s + 2, crit, warn, crit)));
  }

  /** A metric that was over for an instant, went, and comes back over a level is reported at once. */
  lemma BackAfterGap(warn: real, gap: Time) returns (gs: seq<Gauge>, es: seq<Event>)
    requires warn > 0.0 && gap >= Pressure.SUSTAINED
    ensures Run(gs, es) && |es| == 3 && es[1].Gone? && Raises(gs[2], es[2])
    ensures es[0].Seen? && es[2].Seen? && es[2].r.now == es[0].r.now + gap
  {
    gs, es := [Gauge(None, {})], [];
    gs, es := Extend(gs, es, Seen(Reading(0, warn, warn, 0.0)));
    gs, es := Extend(gs, es, Gone);
    gs, es := Extend(gs, es, Seen(Reading(gap, warn, warn, 0.0)));
  }

  // ------------------------------------------------------------- definitions

  /** A declared name ending in a star stands for every name it is a prefix of. */
  predicate Matches(name: string, k: string) {
    k != "" && k[|k| - 1] == '*' && k[..|k| - 1] <= name
  }

  ghost predicate Longest(defs: map<string, Def>, name: string, k: string) {
    k in defs && Matches(name, k) && forall j :: j in defs && Matches(name, j) ==> |j| <= |k|
  }

  /** The definition of a metric: its own, or that of the longest wildcard that matches. */
  ghost function Lookup(defs: map<string, Def>, name: string): Option<Def> {
    if name in defs then Some(defs[name])
    else if exists k :: Longest(defs, name, k) then
      var k :| Longest(defs, name, k);
      Some(defs[k])
    else None
  }

  lemma LongestIsOne(defs: map<string, Def>, name: string, j: string, k: string)
    requires Longest(defs, name, j) && Longest(defs, name, k)
    ensures j == k
  {
    var n := |k| - 1;
    assert |j| == |k|;
    assert j == j[..n] + [j[n]] && k == k[..n] + [k[n]];
  }

  method LookupMetric(defs: map<string, Def>, name: string) returns (r: Option<Def>)
    ensures r == Lookup(defs, name)
  {
    if name in defs {
      return Some(defs[name]);
    }
    var best := "";
    var todo := defs.Keys;
    while todo != {}
      invariant todo <= defs.Keys
      invariant best != "" ==> best in defs && Matches(name, best)
      invariant forall j :: j in defs && j !in todo && Matches(name, j) ==> |j| <= |best|
      decreases |todo|
    {
      var k :| k in todo;
      if Matches(name, k) && |k| > |best| {
        best := k;
      }
      todo := todo - {k};
    }
    if best == "" {
      return None;
    }
    assert Longest(defs, name, best);
    forall k | Longest(defs, name, k) ensures k == best {
      LongestIsOne(defs, name, k, best);
    }
    r := Some(defs[best]);
  }

  // --------------------------------------------------------------- the engine

  function LevelName(l: Level): string {
    if l == Warn then "warn" else "crit"
  }

  function Key(vps: string, metric: string, l: Level): Condition {
    Condition(vps, PluginMetric, metric + "|" + LevelName(l))
  }

  /** What stands before the last bar of a key; every plugin key has one. */
  function Stem(s: string): string {
    if s == "" then "" else if s[|s| - 1] == '|' then s[..|s| - 1] else Stem(s[..|s| - 1])
  }

  lemma {:induction false} StemOf(metric: string, rest: string)
    requires '|' !in rest
    ensures Stem(metric + "|" + rest) == metric
  {
    var s := metric + "|" + rest;
    if rest == "" {
      assert s == metric + "|";
      assert s[..|s| - 1] == metric;
    } else {
      var init := rest[..|rest| - 1];
      assert s[|s| - 1] == rest[|rest| - 1];
      assert rest[|rest| - 1] in rest;
      assert s[..|s| - 1] == metric + "|" + init;
      StemOf(metric, init);
    }
  }

  lemma KeyStem(vps: string, metric: string, l: Level)
    ensures Stem(Key(vps, metric, l).key) == metric
  {
    StemOf(metric, LevelName(l));
  }

  lemma KeysAreUnique(vps: string, m: string, l: Level, vps': string, m': string, l': Level)
    ensures Key(vps, m, l) == Key(vps', m', l') ==> vps == vps' && m == m' && l == l'
  {
    KeyStem(vps, m, l);
    KeyStem(vps', m', l');
    var s, s' := m + "|" + LevelName(l), m' + "|" + LevelName(l');
    if s == s' {
      assert s[|s| - 1] == LevelName(l)[3] && s'[|s'| - 1] == LevelName(l')[3];
    }
  }

  /** The alerts of a metric that are up. */
  function UpIn(active: set<Condition>, vps: string, metric: string): set<Level> {
    set l | l in {Warn, Crit} && Key(vps, metric, l) in active
  }

  function Other(l: Level): Level {
    if l == Warn then Crit else Warn
  }

  /** Raising one level and clearing the other. */
  function Report(e: Engine, vps: string, metric: string, l: Level): Engine {
    Fire(Clear(e, Key(vps, metric, Other(l))), Key(vps, metric, l), if l == Crit then Critical else Warning)
  }

  function ClearBoth(e: Engine, vps: string, metric: string): Engine {
    Clear(Clear(e, Key(vps, metric, Warn)), Key(vps, metric, Crit))
  }

  /** Flags other than those of one metric are the same in both. */
  ghost predicate OnlyTouches(before: set<Condition>, after: set<Condition>, vps: string, metric: string) {
    forall c :: c != Key(vps, metric, Warn) && c != Key(vps, metric, Crit) ==> (c in before <==> c in after)
  }

  lemma OthersUp(before: set<Condition>, after: set<Condition>, vps: string, metric: string, v: string, m: string)
    requires OnlyTouches(before, after, vps, metric) && (v, m) != (vps, metric)
    ensures UpIn(after, v, m) == UpIn(before, v, m)
  {
    forall l ensures Key(v, m, l) in after <==> Key(v, m, l) in before {
      KeysAreUnique(v, m, l, vps, metric, Warn);
      KeysAreUnique(v, m, l, vps, metric, Crit);
    }
  }

  lemma Reported(e: Engine, vps: string, metric: string, l: Level)
    ensures UpIn(Report(e, vps, metric, l).active, vps, metric) == {l}
    ensures OnlyTouches(e.active, Report(e, vps, metric, l).active, vps, metric)
    ensures Agrees(e) ==> Agrees(Report(e, vps, metric, l))
  {
    KeysAreUnique(vps, metric, Warn, vps, metric, Crit);
    if Agrees(e) {
      StepAgrees(e, Cleared(Key(vps, metric, Other(l))));
      StepAgrees(Clear(e, Key(vps, metric, Other(l))),
                 Fired(Key(vps, metric, l), if l == Crit then Critical else Warning));
    }
  }

  /** A newly reported level is a new row at the end, critical exactly for the critical level. */
  lemma ReportedRow(e: Engine, vps: string, metric: string, l: Level)
    requires Key(vps, metric, l) !in e.active
    ensures var rows := Report(e, vps, metric, l).rows;
      rows != [] && var a := rows[|rows| - 1];
      a.about == Key(vps, metric, l) && !a.resolved && (a.severity == Critical <==> l == Crit)
  {
  }

  lemma BothCleared(e: Engine, vps: string, metric: string)
    ensures UpIn(ClearBoth(e, vps, metric).active, vps, metric) == {}
    ensures OnlyTouches(e.active, ClearBoth(e, vps, metric).active, vps, metric)
    ensures Agrees(e) ==> Agrees(ClearBoth(e, vps, metric))
  {
    if Agrees(e) {
      StepAgrees(e, Cleared(Key(vps, metric, Warn)));
      StepAgrees(Clear(e, Key(vps, metric, Warn)), Cleared(Key(vps, metric, Crit)));
    }
  }

  /** A plugin flag of the server whose metric is not among those reported. */
  predicate Vanished(c: Condition, vps: string, present: set<string>) {
    c.vps == vps && c.kind == PluginMetric && Stem(c.key) !in present
  }

  class PluginWatch {
    var engine: Engine
    var since: map<(string, string), Time>

    constructor (e: Engine)
      ensures engine == e && since == map[]
    {
      engine, since := e, map[];
    }

    function GaugeOf(vps: string, metric: string): Gauge
      reads this
    {
      Gauge(if (vps, metric) in since then Some(since[(vps, metric)]) else None, UpIn(engine.active, vps, metric))
    }

    method CheckSustained(vps: string, metric: string, over: bool, now: Time) returns (held: bool)
      modifies this`since
      ensures held == (over && (vps, metric) in old(since) && now - old(since)[(vps, metric)] >= Pressure.SUSTAINED)
      ensures since == if !over then old(since) - {(vps, metric)}
                       else if (vps, metric) in old(since) then old(since) else old(since)[(vps, metric) := now]
    {
      if !over {
        since := since - {(vps, metric)};
        return false;
      }
      if (vps, metric) !in since {
        since := since[(vps, metric) := now];
        return false;
      }
      return now - since[(vps, metric)] >= Pressure.SUSTAINED;
    }

    /** One value: its gauge observes the reading, and nothing else changes. */
    method EvaluateValue(vps: string, metric: string, r: Reading)
      modifies this
      ensures GaugeOf(vps, metric) == Observe(old(GaugeOf(vps, metric)), r)
      ensures OnlyTouches(old(engine).active, engine.active, vps, metric)
      ensures forall k :: k != (vps, metric) ==>
        (k in since <==> k in old(since)) && (k in since ==> since[k] == old(since)[k])
      ensures old(Agrees(engine)) ==> Agrees(engine)
    {
      var level := LevelAt(r);
      var held := CheckSustained(vps, metric, level.Some?, r.now);
      if held {
        Reported(engine, vps, metric, level.value);
        engine := Report(engine, vps, metric, level.value);
      } else if level.None? && r.value < Lowest(r) * 0.95 {
        BothCleared(engine, vps, metric);
        engine := ClearBoth(engine, vps, metric);
      }
    }

    /** The second loop: metrics no longer reported lose their alerts. */
    method DropVanished(vps: string, present: set<string>)
      modifies this`engine
      ensures engine.active == set c | c in old(engine).active && !Vanished(c, vps, present)
      ensures old(Agrees(engine)) ==> Agrees(engine)
    {
      var todo := engine.active;
      while todo != {}
        invariant todo <= engine.active <= old(engine).active
        invariant forall c :: c in old(engine).active && c !in engine.active ==> Vanished(c, vps, present)
        invariant forall c :: c in engine.active && c !in todo ==> !Vanished(c, vps, present)
        invariant old(Agrees(engine)) ==> Agrees(engine)
        decreases |todo|
      {
        var c :| c in todo;
        todo := todo - {c};
        if Vanished(c, vps, present) {
          if Agrees(engine) {
            StepAgrees(engine, Cleared(c));
          }
          engine := Clear(engine, c);
        }
      }
    }
  }

  lemma VanishedUp(before: set<Condition>, after: set<Condition>, vps: string, present: set<string>,
                   v: string, metric: string)
    requires after == set c | c in before && !Vanished(c, vps, present)
    ensures UpIn(after, v, metric) == if v == vps && metric !in present then {} else UpIn(before, v, metric)
  {
    KeyStem(v, metric, Warn);
    KeyStem(v, metric, Crit);
  }

  /** What a snapshot does to one metric of its server. */
  ghost function Evaluated(g: Gauge, metric: string, values: map<string, real>, defs: map<string, Def>,
                           over: map<string, real>, now: Time): Gauge {
    if metric !in values then Vanish(g)
    else
      match Lookup(defs, metric)
      case None => g
      case Some(d) => Observe(g, ReadingOf(d, if metric in over then over[metric] else 0.0, values[metric], now))
  }

  /** `evaluatePlugins`: every metric of the server goes through its own step, in whatever order the map
      yields them, and no other server's is touched. */
  method EvaluatePlugins(w: PluginWatch, vps: string, values: map<string, real>, defs: map<string, Def>,
                         over: map<string, real>, now: Time)
    modifies w
    ensures forall m :: w.GaugeOf(vps, m) == Evaluated(old(w.GaugeOf(vps, m)), m, values, defs, over, now)
    ensures forall v, m :: v != vps ==> w.GaugeOf(v, m) == old(w.GaugeOf(v, m))
    ensures old(Agrees(w.engine)) ==> Agrees(w.engine)
  {
    EvaluateValues(w, vps, values, defs, over, now);
    ghost var between := w.engine.active;
    w.DropVanished(vps, values.Keys);
    forall v, m ensures UpIn(w.engine.active, v, m) ==
      if v == vps && m !in values then {} else UpIn(between, v, m)
    {
      VanishedUp(between, w.engine.active, vps, values.Keys, v, m);
    }
  }

  /** The first loop. */
  method EvaluateValues(w: PluginWatch, vps: string, values: map<string, real>, defs: map<string, Def>,
                        over: map<string, real>, now: Time)
    modifies w
    ensures forall m :: m in values ==>
      w.GaugeOf(vps, m) == Evaluated(old(w.GaugeOf(vps, m)), m, values, defs, over, now)
    ensures forall v, m :: v != vps || m !in values ==> w.GaugeOf(v, m) == old(w.GaugeOf(v, m))
    ensures old(Agrees(w.engine)) ==> Agrees(w.engine)
  {
    var todo := values.Keys;
    while todo != {}
      invariant todo <= values.Keys
      invariant forall m :: m in values && m !in todo ==>
        w.GaugeOf(vps, m) == Evaluated(old(w.GaugeOf(vps, m)), m, values, defs, over, now)
      invariant forall v, m :: v != vps || m !in values || m in todo ==> w.GaugeOf(v, m) == old(w.GaugeOf(v, m))
      invariant old(Agrees(w.engine)) ==> Agrees(w.engine)
      decreases |todo|
    {
      var m :| m in todo;
      todo := todo - {m};
      EvaluateOne(w, vps, m, values, defs, over, now);
    }
  }

  method EvaluateOne(w: PluginWatch, vps: string, metric: string, values: map<string, real>, defs: map<string, Def>,
                     over: map<string, real>, now: Time)
    requires metric in values
    modifies w
    ensures w.GaugeOf(vps, metric) == Evaluated(old(w.GaugeOf(vps, metric)), metric, values, defs, over, now)
    ensures forall v, m :: (v, m) != (vps, metric) ==> w.GaugeOf(v, m) == old(w.GaugeOf(v, m))
    ensures old(Agrees(w.engine)) ==> Agrees(w.engine)
  {
    var d := LookupMetric(defs, metric);
    if d.None? {
      return;
    }
    ghost var before := w.engine.active;
    w.EvaluateValue(vps, metric, ReadingOf(d.value, if metric in over then over[metric] else 0.0, values[metric], now));
    forall v, m | (v, m) != (vps, metric) ensures UpIn(w.engine.active, v, m) == UpIn(before, v, m) {
      OthersUp(before, w.engine.active, vps, metric, v, m);
    }
  }
}
