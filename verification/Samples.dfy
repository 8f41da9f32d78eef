/** The metric sample both sides exchange, and the clock it is stamped with. */
module Samples {
  import opened Base

  /** Nanoseconds since the Unix epoch; Go's zero time is the year 1. */
  type Time = int

  const SECOND := 1_000_000_000
  const MINUTE := 60 * SECOND
  const HOUR := 60 * MINUTE
  const DAY := 24 * HOUR
  const ZERO_TIME: Time := -62_135_596_800 * SECOND

  datatype Sample = Sample(at: Time, cpu: real, mem: real, mounts: map<string, real>)

  /** `Time.Unix`: whole seconds, rounded down. */
  function Unix(t: Time): int { t / SECOND }

  /** `t.Unix() / 60`: Go's division drops the fraction toward zero, so the
      minute just before 1970 and the first one after it share key 0. */
  function Minute(t: Time): int {
    var s := Unix(t);
    if s >= 0 then s / 60 else -((-s) / 60)
  }

  function Stamp(s: Sample): Time { s.at }

  function Minutes(s: seq<Sample>): set<int> {
    set x | x in s :: Minute(x.at)
  }

  ghost predicate DistinctMinutes(s: seq<Sample>) {
    forall i, j :: 0 <= i < j < |s| ==> Minute(s[i].at) != Minute(s[j].at)
  }

  lemma MinutesConcat(a: seq<Sample>, b: seq<Sample>)
    ensures Minutes(a + b) == Minutes(a) + Minutes(b)
  {
    forall x: Sample ensures x in a + b <==> x in a || x in b {}
  }

  /** Pairwise distinct minutes is a matter of counting, hence independent of order. */
  lemma {:induction false} DistinctIsCounting(s: seq<Sample>)
    ensures |Minutes(s)| <= |s|
    ensures DistinctMinutes(s) <==> |Minutes(s)| == |s|
  {
    if s != [] {
      var n := |s| - 1;
      DistinctIsCounting(s[..n]);
      LastMinute(s);
    }
  }

  lemma LastMinute(s: seq<Sample>)
    requires s != []
    ensures var init, k := s[..|s| - 1], Minute(s[|s| - 1].at);
            && Minutes(s) == Minutes(init) + {k}
            && (DistinctMinutes(s) <==> DistinctMinutes(init) && k !in Minutes(init))
  {
    var n := |s| - 1;
    var init, x := s[..n], s[n];
    assert s == init + [x];
    MinutesConcat(init, [x]);
    assert Minutes([x]) == {Minute(x.at)};
    if Minute(x.at) in Minutes(init) {
      var y :| y in init && Minute(y.at) == Minute(x.at);
      var i :| 0 <= i < n && init[i] == y;
      assert s[i] == y && s[n] == x;
    } else {
      forall i | 0 <= i < n ensures Minute(s[i].at) != Minute(x.at) {
        assert s[i] in init;
      }
    }
  }

  ghost predicate InOrder(s: seq<Sample>) {
    forall i, j :: 0 <= i < j < |s| ==> s[i].at <= s[j].at
  }

  /** Sorted by time stamp and in order are the same. */
  lemma StampOrder(s: seq<Sample>)
    ensures SortedBy(s, Stamp) <==> InOrder(s)
  {
    forall i | 0 <= i < |s| ensures Stamp(s[i]) == s[i].at {
    }
  }

  lemma OrderedParts(a: seq<Sample>, b: seq<Sample>)
    requires InOrder(a + b)
    ensures InOrder(a) && InOrder(b)
    ensures forall x, y :: x in a && y in b ==> x.at <= y.at
  {
    var s := a + b;
    assert forall i :: 0 <= i < |a| ==> s[i] == a[i];
    assert forall j :: 0 <= j < |b| ==> s[|a| + j] == b[j];
  }

  /** A minute or more apart means different keys, except across the epoch. */
  lemma MinuteApart(a: Time, b: Time)
    requires b - a >= MINUTE
    ensures Minute(a) == Minute(b) <==> -60 < Unix(a) < 0 <= Unix(b) < 60
  {
    assert Unix(b) >= Unix(a) + 60;
  }

  /** The samples after a cutoff, in the order they had. */
  function Since(s: seq<Sample>, cutoff: Time): seq<Sample> {
    if s == [] then []
    else
      var r := Since(s[..|s| - 1], cutoff);
      if s[|s| - 1].at > cutoff then r + [s[|s| - 1]] else r
  }

  lemma {:induction false} SinceFilters(s: seq<Sample>, cutoff: Time)
    ensures forall x :: x in Since(s, cutoff) <==> x in s && x.at > cutoff
    ensures |Since(s, cutoff)| <= |s|
  {
    if s != [] {
      var init, x := s[..|s| - 1], s[|s| - 1];
      assert s == init + [x];
      SinceFilters(init, cutoff);
    }
  }

  lemma {:induction false} SinceOrdered(s: seq<Sample>, cutoff: Time)
    requires InOrder(s)
    ensures InOrder(Since(s, cutoff))
  {
    if s != [] {
      var init, x := s[..|s| - 1], s[|s| - 1];
      SinceOrdered(init, cutoff);
      SinceFilters(init, cutoff);
      forall y | y in init ensures y.at <= x.at {
      }
    }
  }
}
