/** When the panel itself was running, and the stretches it was not. */
module UptimeLog {
  import opened Base
  import opened Samples

  const GAP_AFTER := 3 * MINUTE

  datatype Interval = Interval(from: Time, to: Time)

  function FromOf(r: Interval): Time { r.from }

  predicate WellFormed(runs: seq<Interval>) {
    forall i :: 0 <= i < |runs| ==> runs[i].from <= runs[i].to
  }

  predicate Clear(r: Interval, g: Interval) { r.to <= g.from || g.to <= r.from }

  ghost predicate Free(runs: seq<Interval>, g: Interval) {
    forall r {:trigger Clear(r, g)} :: r in runs ==> Clear(r, g)
  }

  ghost predicate SomeStart(runs: seq<Interval>, t: Time) { exists r :: r in runs && r.from == t }

  ghost predicate SomeEnd(runs: seq<Interval>, t: Time) { exists r :: r in runs && r.to == t }

  /** g is a maximal stretch of the window free of runs: no run reaches into it,
      and at each end there is a run or the edge of the window. */
  ghost predicate Gap(runs: seq<Interval>, from: Time, to: Time, g: Interval) {
    && from <= g.from < g.to <= to
    && Free(runs, g)
    && (g.from == from || SomeEnd(runs, g.from))
    && (g.to == to || SomeStart(runs, g.to))
  }

  predicate Long(g: Interval) { g.to - g.from > GAP_AFTER }

  ghost predicate Ordered(down: seq<Interval>) {
    forall i, j :: 0 <= i < j < |down| ==> down[i].to <= down[j].from
  }

  // ---------------------------------------------------------------- merging

  ghost predicate Covered(merged: seq<Interval>, r: Interval) {
    exists m :: m in merged && m.from <= r.from && r.to <= m.to
  }

  /** Inside m the runs leave no long stretch free. */
  ghost predicate ShortInside(runs: seq<Interval>, m: Interval) {
    forall g: Interval {:trigger Free(runs, g)} :: m.from <= g.from < g.to <= m.to && Free(runs, g) ==> !Long(g)
  }

  /** m is some runs joined: it starts and ends with one and has no long gap inside. */
  ghost predicate JoinOf(runs: seq<Interval>, m: Interval) {
    m.from <= m.to && SomeStart(runs, m.from) && SomeEnd(runs, m.to) && ShortInside(runs, m)
  }

  ghost predicate Apart(merged: seq<Interval>) {
    forall i, j :: 0 <= i < j < |merged| ==> merged[j].from - merged[i].to > GAP_AFTER
  }

  /** The runs with every gap up to the tolerance closed. */
  ghost predicate Merged(runs: seq<Interval>, merged: seq<Interval>) {
    Apart(merged) && AllCovered(runs, merged) && AllJoins(runs, merged)
  }

  ghost predicate AllCovered(runs: seq<Interval>, merged: seq<Interval>) {
    forall r {:trigger Covered(merged, r)} :: r in runs ==> Covered(merged, r)
  }

  ghost predicate AllJoins(runs: seq<Interval>, merged: seq<Interval>) {
    forall m {:trigger JoinOf(runs, m)} :: m in merged ==> JoinOf(runs, m)
  }

  /** Closing the short gaps moves none of the long ones. */
  lemma LongGapsSurvive(runs: seq<Interval>, merged: seq<Interval>, from: Time, to: Time, g: Interval)
    requires WellFormed(runs) && Merged(runs, merged) && Long(g)
    ensures Gap(runs, from, to, g) <==> Gap(merged, from, to, g)
  {
    if Gap(runs, from, to, g) {
      forall m | m in merged ensures Clear(m, g) {
        assert JoinOf(runs, m);
        ClearOfJoin(runs, m, g);
      }
      assert Free(merged, g);
      EndsOfMerged(runs, merged, g);
    }
    if Gap(merged, from, to, g) {
      forall r | r in runs ensures Clear(r, g) {
        assert Covered(merged, r);
        var m :| m in merged && m.from <= r.from && r.to <= m.to;
        assert Clear(m, g);
      }
      EndsOfRuns(runs, merged, g);
    }
  }

  lemma ClearOfJoin(runs: seq<Interval>, m: Interval, g: Interval)
    requires WellFormed(runs) && JoinOf(runs, m) && Free(runs, g) && Long(g)
    ensures Clear(m, g)
  {
    var x :| x in runs && x.from == m.from;
    var y :| y in runs && y.to == m.to;
    assert Clear(x, g) && Clear(y, g);
    assert x.from <= x.to && y.from <= y.to;
  }

  lemma EndsOfMerged(runs: seq<Interval>, merged: seq<Interval>, g: Interval)
    requires WellFormed(runs) && Merged(runs, merged) && g.from < g.to && Free(merged, g)
    ensures SomeEnd(runs, g.from) ==> SomeEnd(merged, g.from)
    ensures SomeStart(runs, g.to) ==> SomeStart(merged, g.to)
  {
    if SomeEnd(runs, g.from) {
      var r :| r in runs && r.to == g.from;
      assert r.from <= r.to && Covered(merged, r);
      var m :| m in merged && m.from <= r.from && r.to <= m.to;
      assert Clear(m, g);
      assert m.to == g.from;
    }
    if SomeStart(runs, g.to) {
      var r :| r in runs && r.from == g.to;
      assert r.from <= r.to && Covered(merged, r);
      var m :| m in merged && m.from <= r.from && r.to <= m.to;
      assert Clear(m, g);
      assert m.from == g.to;
    }
  }

  lemma EndsOfRuns(runs: seq<Interval>, merged: seq<Interval>, g: Interval)
    requires Merged(runs, merged)
    ensures SomeEnd(merged, g.from) ==> SomeEnd(runs, g.from)
    ensures SomeStart(merged, g.to) ==> SomeStart(runs, g.to)
  {
    if SomeEnd(merged, g.from) {
      var m :| m in merged && m.to == g.from;
      assert JoinOf(runs, m);
    }
    if SomeStart(merged, g.to) {
      var m :| m in merged && m.from == g.to;
      assert JoinOf(runs, m);
    }
  }

  lemma FreeOfFewer(runs: seq<Interval>, r: Interval, g: Interval)
    requires Free(runs + [r], g)
    ensures Free(runs, g) && Clear(r, g)
  {
    forall x | x in runs ensures Clear(x, g) { assert x in runs + [r]; }
    assert r in runs + [r];
  }

  lemma MoreRuns(runs: seq<Interval>, r: Interval, t: Time)
    ensures SomeStart(runs + [r], t) <==> SomeStart(runs, t) || r.from == t
    ensures SomeEnd(runs + [r], t) <==> SomeEnd(runs, t) || r.to == t
  {
    assert r in runs + [r];
    if SomeStart(runs, t) { var x :| x in runs && x.from == t; assert x in runs + [r]; }
    if SomeEnd(runs, t) { var x :| x in runs && x.to == t; assert x in runs + [r]; }
  }

  lemma StillJoin(runs: seq<Interval>, m: Interval, r: Interval)
    requires JoinOf(runs, m)
    ensures JoinOf(runs + [r], m)
  {
    MoreRuns(runs, r, m.from);
    MoreRuns(runs, r, m.to);
    forall g: Interval | m.from <= g.from < g.to <= m.to && Free(runs + [r], g) ensures !Long(g) {
      FreeOfFewer(runs, r, g);
    }
  }

  lemma NewJoin(runs: seq<Interval>, r: Interval)
    requires r.from <= r.to
    ensures JoinOf(runs + [r], r)
  {
    MoreRuns(runs, r, r.from);
    MoreRuns(runs, r, r.to);
    forall g: Interval | r.from <= g.from < g.to <= r.to ensures !Free(runs + [r], g) {
      if Free(runs + [r], g) {
        FreeOfFewer(runs, r, g);
        assert false;
      }
    }
  }

  function Extended(m: Interval, r: Interval): Interval {
    if r.to > m.to then m.(to := r.to) else m
  }

  lemma LongerJoin(runs: seq<Interval>, m: Interval, r: Interval)
    requires WellFormed(runs) && r.from <= r.to && JoinOf(runs, m) && r.from - m.to <= GAP_AFTER
    ensures JoinOf(runs + [r], Extended(m, r))
  {
    var e := Extended(m, r);
    MoreRuns(runs, r, e.from);
    MoreRuns(runs, r, e.to);
    forall g: Interval | e.from <= g.from < g.to <= e.to && Free(runs + [r], g) ensures !Long(g) {
      FreeOfFewer(runs, r, g);
      var y :| y in runs && y.to == m.to;
      assert Clear(y, g) && y.from <= y.to;
    }
  }

  /** A run that starts within the tolerance of the last one is joined to it. */
  lemma MergeInto(runs: seq<Interval>, merged: seq<Interval>, r: Interval)
    requires WellFormed(runs) && r.from <= r.to && Merged(runs, merged) && merged != []
    requires forall x :: x in runs ==> x.from <= r.from
    requires r.from - merged[|merged| - 1].to <= GAP_AFTER
    ensures Merged(runs + [r], merged[..|merged| - 1] + [Extended(merged[|merged| - 1], r)])
  {
    var n := |merged| - 1;
    var last := merged[n];
    var e := Extended(last, r);
    var out := merged[..n] + [e];
    assert last in merged && JoinOf(runs, last);
    forall m | m in out ensures JoinOf(runs + [r], m) {
      if m == e {
        LongerJoin(runs, last, r);
      } else {
        assert m in merged && JoinOf(runs, m);
        StillJoin(runs, m, r);
      }
    }
    forall x | x in runs + [r] ensures Covered(out, x) {
      assert last.from <= r.from by {
        var y :| y in runs && y.from == last.from;
      }
      if x in runs {
        assert Covered(merged, x);
      }
      CoveredAfter(merged, r, x);
    }
  }

  lemma CoveredAfter(merged: seq<Interval>, r: Interval, x: Interval)
    requires merged != [] && merged[|merged| - 1].from <= r.from
    requires x == r || Covered(merged, x)
    ensures Covered(merged[..|merged| - 1] + [Extended(merged[|merged| - 1], r)], x)
  {
    var n := |merged| - 1;
    var out := merged[..n] + [Extended(merged[n], r)];
    assert out[n] in out;
    if x != r {
      var m :| m in merged && m.from <= x.from && x.to <= m.to;
      var i :| 0 <= i < |merged| && merged[i] == m;
      assert out[i] in out;
    }
  }

  lemma ApartPlus(merged: seq<Interval>, r: Interval)
    requires Apart(merged)
    requires merged != [] ==>
      merged[|merged| - 1].from <= merged[|merged| - 1].to && r.from - merged[|merged| - 1].to > GAP_AFTER
    ensures Apart(merged + [r])
  {
    var out, l := merged + [r], |merged| - 1;
    forall i | 0 <= i < |merged| ensures r.from - merged[i].to > GAP_AFTER {
      if i < l {
        assert merged[l].from - merged[i].to > GAP_AFTER;
      }
    }
    forall i, j | 0 <= i < j < |out| ensures out[j].from - out[i].to > GAP_AFTER {
      if j < |merged| {
        assert out[j] == merged[j] && out[i] == merged[i];
      } else {
        assert out[j] == r && out[i] == merged[i];
      }
    }
  }

  lemma CoveredPlus(merged: seq<Interval>, r: Interval, x: Interval)
    requires Covered(merged, x) || x == r
    ensures Covered(merged + [r], x)
  {
    var out := merged + [r];
    if x == r {
      assert out[|merged|] == r && r in out;
    } else {
      var m :| m in merged && m.from <= x.from && x.to <= m.to;
      assert m in out;
    }
  }

  lemma JoinsPlus(runs: seq<Interval>, merged: seq<Interval>, r: Interval, m: Interval)
    requires r.from <= r.to && AllJoins(runs, merged) && m in merged + [r]
    ensures JoinOf(runs + [r], m)
  {
    if m in merged {
      assert JoinOf(runs, m);
      StillJoin(runs, m, r);
    } else {
      NewJoin(runs, r);
    }
  }

  /** A run that starts later than the tolerance after the last one stands by itself. */
  lemma MergeApart(runs: seq<Interval>, merged: seq<Interval>, r: Interval)
    requires r.from <= r.to && Merged(runs, merged)
    requires merged != [] ==> r.from - merged[|merged| - 1].to > GAP_AFTER
    ensures Merged(runs + [r], merged + [r])
  {
    if merged != [] {
      assert JoinOf(runs, merged[|merged| - 1]);
    }
    ApartPlus(merged, r);
    forall m | m in merged + [r] ensures JoinOf(runs + [r], m) {
      JoinsPlus(runs, merged, r, m);
    }
    forall x | x in runs + [r] ensures Covered(merged + [r], x) {
      assert x in runs || x == r;
      assert x in runs ==> Covered(merged, x);
      CoveredPlus(merged, r, x);
    }
  }

  method MergeRuns(all: seq<Interval>) returns (merged: seq<Interval>)
    requires WellFormed(all) && SortedBy(all, FromOf)
    ensures Merged(all, merged)
  {
    merged := [];
    for i := 0 to |all|
      invariant Merged(all[..i], merged)
    {
      var r := all[i];
      var n := |merged|;
      assert all[..i + 1] == all[..i] + [r];
      SortedPrefix(all, i);
      if n > 0 && r.from - merged[n - 1].to <= GAP_AFTER {
        MergeInto(all[..i], merged, r);
        if r.to > merged[n - 1].to {
          merged := merged[..n - 1] + [merged[n - 1].(to := r.to)];
        } else {
          assert merged == merged[..n - 1] + [merged[n - 1]];
        }
        continue;
      }
      MergeApart(all[..i], merged, r);
      merged := merged + [r];
    }
    assert all[..|all|] == all;
  }

  lemma SortedPrefix(all: seq<Interval>, i: nat)
    requires WellFormed(all) && SortedBy(all, FromOf) && i < |all|
    ensures WellFormed(all[..i]) && forall x :: x in all[..i] ==> x.from <= all[i].from
  {
    forall x | x in all[..i] ensures x.from <= all[i].from {
      var k :| 0 <= k < i && all[k] == x;
      assert FromOf(all[k]) <= FromOf(all[i]);
    }
  }

  // ---------------------------------------------------------------- sweeping

  /** The cursor after the first i merged runs: where the last of them ended, or
      the start of the window. */
  ghost predicate CursorAt(merged: seq<Interval>, i: nat, from: Time, cursor: Time)
    requires i <= |merged|
  {
    && from <= cursor
    && (forall j :: 0 <= j < i ==> merged[j].to <= cursor)
    && (cursor == from || exists j :: 0 <= j < i && merged[j].to == cursor)
  }

  /** g ends where one of the first i merged runs starts. */
  ghost predicate ClosedBy(merged: seq<Interval>, i: nat, g: Interval)
    requires i <= |merged|
  {
    exists j :: 0 <= j < i && merged[j].from == g.to
  }

  lemma GapStart(merged: seq<Interval>, i: nat, from: Time, to: Time, cursor: Time, g: Interval)
    requires i <= |merged| && Apart(merged) && WellFormed(merged) && CursorAt(merged, i, from, cursor)
    requires Gap(merged, from, to, g)
    requires forall j :: 0 <= j < i ==> merged[j].from < g.to
    requires forall j :: i <= j < |merged| ==> g.to <= merged[j].from
    ensures g.from == cursor
  {
    forall j | 0 <= j < i ensures merged[j].to <= g.from {
      assert merged[j] in merged && Clear(merged[j], g);
    }
    if g.from != from {
      var r :| r in merged && r.to == g.from;
      var k :| 0 <= k < |merged| && merged[k] == r;
      assert merged[k].from <= merged[k].to;
    }
  }

  lemma CursorGap(merged: seq<Interval>, i: nat, from: Time, to: Time, cursor: Time, end: Time)
    requires i <= |merged| && CursorAt(merged, i, from, cursor)
    requires cursor < end <= to && (end == to || SomeStart(merged, end))
    requires forall j :: i <= j < |merged| ==> end <= merged[j].from
    ensures Gap(merged, from, to, Interval(cursor, end))
  {
    var g := Interval(cursor, end);
    forall r | r in merged ensures Clear(r, g) {
      var j :| 0 <= j < |merged| && merged[j] == r;
    }
    if cursor != from {
      var j :| 0 <= j < i && merged[j].to == cursor;
      assert merged[j] in merged;
    }
  }

  /** Sweeping past one merged run finds the gap it closes, if that is long. */
  lemma SweepOne(merged: seq<Interval>, i: nat, from: Time, to: Time, cursor: Time, g: Interval)
    requires i < |merged| && Apart(merged) && WellFormed(merged) && CursorAt(merged, i, from, cursor)
    requires merged[i].to < from || merged[i].from <= to
    ensures Gap(merged, from, to, g) && Long(g) && g.to == merged[i].from <==>
            merged[i].to >= from && merged[i].from - cursor > GAP_AFTER && g == Interval(cursor, merged[i].from)
  {
    var r := merged[i];
    assert r in merged && SomeStart(merged, r.from) && r.from <= r.to;
    forall j | 0 <= j < i ensures merged[j].from < r.from {
      assert merged[j].from <= merged[j].to;
    }
    forall j | i <= j < |merged| ensures r.from <= merged[j].from {}
    if Gap(merged, from, to, g) && g.to == r.from {
      GapStart(merged, i, from, to, cursor, g);
    }
    if r.to >= from && r.from - cursor > GAP_AFTER {
      CursorGap(merged, i, from, to, cursor, r.from);
    }
  }

  lemma OnlyWindowCloses(merged: seq<Interval>, i: nat, to: Time, g: Interval)
    requires i <= |merged| && forall j :: i <= j < |merged| ==> merged[j].from > to
    requires g.to <= to && !ClosedBy(merged, i, g)
    ensures !SomeStart(merged, g.to)
  {
    forall r | r in merged ensures r.from != g.to {
      var k :| 0 <= k < |merged| && merged[k] == r;
    }
  }

  /** Past the last run that matters, only the end of the window can close a gap. */
  lemma SweepEnd(merged: seq<Interval>, i: nat, from: Time, to: Time, cursor: Time, g: Interval)
    requires i <= |merged| && Apart(merged) && WellFormed(merged) && CursorAt(merged, i, from, cursor)
    requires forall j :: i <= j < |merged| ==> merged[j].from > to
    requires forall j :: 0 <= j < i ==> merged[j].to < from || merged[j].from <= to
    ensures Gap(merged, from, to, g) && Long(g) && !ClosedBy(merged, i, g) <==>
            to - cursor > GAP_AFTER && g == Interval(cursor, to)
  {
    if Gap(merged, from, to, g) && !ClosedBy(merged, i, g) {
      OnlyWindowCloses(merged, i, to, g);
      forall j | 0 <= j < i ensures merged[j].from < g.to {
        assert merged[j].from != g.to;
        assert merged[j].from <= merged[j].to;
      }
      GapStart(merged, i, from, to, cursor, g);
    }
    if to - cursor > GAP_AFTER {
      CursorGap(merged, i, from, to, cursor, to);
      assert !ClosedBy(merged, i, Interval(cursor, to)) by {
        forall j | 0 <= j < i ensures merged[j].from != to {
          assert merged[j].from <= merged[j].to;
        }
      }
    }
  }

  ghost predicate Found(merged: seq<Interval>, i: nat, from: Time, to: Time, down: seq<Interval>)
    requires i <= |merged|
  {
    && Ordered(down)
    && forall g :: g in down <==> Gap(merged, from, to, g) && Long(g) && ClosedBy(merged, i, g)
  }

  lemma FoundNext(merged: seq<Interval>, i: nat, from: Time, to: Time, cursor: Time, down: seq<Interval>)
    requires i < |merged| && Apart(merged) && WellFormed(merged) && CursorAt(merged, i, from, cursor)
    requires merged[i].to < from || merged[i].from <= to
    requires Found(merged, i, from, to, down) && forall k :: 0 <= k < |down| ==> down[k].to <= cursor
    ensures Found(merged, i + 1, from, to,
                  if merged[i].to >= from && merged[i].from - cursor > GAP_AFTER
                  then down + [Interval(cursor, merged[i].from)] else down)
  {
    var next := if merged[i].to >= from && merged[i].from - cursor > GAP_AFTER
                then down + [Interval(cursor, merged[i].from)] else down;
    forall g: Interval
      ensures g in next <==> Gap(merged, from, to, g) && Long(g) && ClosedBy(merged, i + 1, g)
    {
      SweepOne(merged, i, from, to, cursor, g);
      assert ClosedBy(merged, i + 1, g) <==> ClosedBy(merged, i, g) || merged[i].from == g.to;
    }
  }

  method Sweep(merged: seq<Interval>, from: Time, to: Time) returns (down: seq<Interval>)
    requires Apart(merged) && WellFormed(merged)
    ensures Ordered(down)
    ensures forall g :: g in down <==> Gap(merged, from, to, g) && Long(g)
  {
    down := [];
    var cursor := from;
    var i := 0;
    while i < |merged|
      invariant 0 <= i <= |merged| && CursorAt(merged, i, from, cursor)
      invariant Found(merged, i, from, to, down) && forall k :: 0 <= k < |down| ==> down[k].to <= cursor
      invariant forall j :: 0 <= j < i ==> merged[j].to < from || merged[j].from <= to
    {
      var r := merged[i];
      if r.to < from {
        FoundNext(merged, i, from, to, cursor, down);
        i := i + 1;
        continue;
      }
      if r.from > to {
        break;
      }
      FoundNext(merged, i, from, to, cursor, down);
      i := i + 1;
      if r.from > cursor && r.from - cursor > GAP_AFTER {
        down := down + [Interval(cursor, r.from)];
      }
      if r.to > cursor {
        cursor := r.to;
      }
      assert r.from <= r.to && merged[i - 1] == r;
    }
    forall g: Interval
      ensures Gap(merged, from, to, g) && Long(g) && !ClosedBy(merged, i, g) <==>
              to - cursor > GAP_AFTER && g == Interval(cursor, to)
    {
      assert forall j :: i <= j < |merged| ==> merged[j].from > to;
      SweepEnd(merged, i, from, to, cursor, g);
    }
    if to - cursor > GAP_AFTER {
      down := down + [Interval(cursor, to)];
    }
  }

  /** The runs on record, and the one going on now. */
  class Log {
    var runs: seq<Interval>
    var current: Interval

    constructor (recorded: seq<Interval>, now: Time)
      ensures runs == recorded && current == Interval(now, now)
    {
      runs, current := recorded, Interval(now, now);
    }

    /** A heartbeat extends the current run. */
    method Heartbeat(now: Time)
      modifies this`current
      ensures current == Interval(old(current).from, now)
      ensures WellFormed(runs) ==> (WellFormed(runs + [current]) <==> old(current).from <= now)
    {
      current := current.(to := now);
      assert (runs + [current])[|runs|] == current;
      assert forall i :: 0 <= i < |runs| ==> (runs + [current])[i] == runs[i];
    }

    /** The stretches of a window in which the panel was not running: in order,
        disjoint, and exactly the maximal run-free ones longer than the tolerance. */
    method DownFrom(from: Time, to: Time) returns (down: seq<Interval>)
      requires WellFormed(runs + [current])
      ensures Ordered(down)
      ensures forall g :: g in down <==> Gap(runs + [current], from, to, g) && Long(g)
    {
      var all := SortSlice(runs + [current], FromOf);
      SameElements(all, runs + [current]);
      SortedWellFormed(all, runs + [current]);
      var merged := MergeRuns(all);
      MergedWellFormed(all, merged);
      down := Sweep(merged, from, to);
      forall g: Interval | Long(g)
        ensures Gap(merged, from, to, g) <==> Gap(runs + [current], from, to, g)
      {
        LongGapsSurvive(all, merged, from, to, g);
        SameGaps(all, runs + [current], from, to, g);
      }
    }
  }

  lemma SortedWellFormed(all: seq<Interval>, runs: seq<Interval>)
    requires WellFormed(runs) && forall x :: x in all <==> x in runs
    ensures WellFormed(all)
  {
    forall i | 0 <= i < |all| ensures all[i].from <= all[i].to {
      assert all[i] in runs;
    }
  }

  lemma MergedWellFormed(runs: seq<Interval>, merged: seq<Interval>)
    requires Merged(runs, merged)
    ensures WellFormed(merged)
  {
    forall i | 0 <= i < |merged| ensures merged[i].from <= merged[i].to {
      assert JoinOf(runs, merged[i]);
    }
  }

  lemma SameGaps(a: seq<Interval>, b: seq<Interval>, from: Time, to: Time, g: Interval)
    requires forall x :: x in a <==> x in b
    ensures Gap(a, from, to, g) <==> Gap(b, from, to, g)
  {
  }
}
