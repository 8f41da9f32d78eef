/** "Full in about four days": a least-squares line through the readings since
    the last cleanup, in exact arithmetic. */
module DiskForecast {
  import opened Base
  import opened Samples

  const WINDOW := 72 * HOUR
  const MIN_SPAN := 12 * HOUR
  const MIN_SAMPLES := 60
  const MIN_RISE := 0.5
  const CLEANUP_DROP := 2.0
  const HORIZON := 30 * 24 * HOUR
  /** The largest `time.Duration`. */
  const MAX_DURATION := 0x7fff_ffff_ffff_ffff

  datatype Point = Point(at: Time, p: real)

  // --------------------------------------------------------------- the sums

  /** The five running sums of the fit. */
  datatype Fit = Fit(n: real, sx: real, sy: real, sxx: real, sxy: real)

  function Add(f: Fit, x: real, y: real): Fit {
    Fit(f.n + 1.0, f.sx + x, f.sy + y, f.sxx + x * x, f.sxy + x * y)
  }

  function FitOf(xs: seq<real>, ys: seq<real>): Fit
    requires |xs| == |ys|
  {
    if xs == [] then Fit(0.0, 0.0, 0.0, 0.0, 0.0)
    else Add(FitOf(xs[..|xs| - 1], ys[..|ys| - 1]), xs[|xs| - 1], ys[|ys| - 1])
  }

  /** Numerator and denominator of the least-squares slope. */
  function Num(f: Fit): real { f.n * f.sxy - f.sx * f.sy }

  function Den(f: Fit): real { f.n * f.sxx - f.sx * f.sx }

  /** Σ (x − xᵢ)(y − yᵢ) over the points summed so far. */
  function CrossXY(f: Fit, x: real, y: real): real {
    f.n * (x * y) - x * f.sy - f.sx * y + f.sxy
  }

  /** Σ (x − xᵢ)² over the points summed so far. */
  function CrossXX(f: Fit, x: real): real {
    f.n * (x * x) - x * f.sx - f.sx * x + f.sxx
  }

  lemma Product(a: real, b: real, c: real, d: real)
    ensures (a + b) * (c + d) == a * c + a * d + b * c + b * d
  {
  }

  /** One more point adds its cross terms. */
  lemma NumAdd(f: Fit, x: real, y: real)
    ensures Num(Add(f, x, y)) == Num(f) + CrossXY(f, x, y)
  {
    Product(f.n, 1.0, f.sxy, x * y);
    Product(f.sx, x, f.sy, y);
  }

  lemma DenAdd(f: Fit, x: real, y: real)
    ensures Den(Add(f, x, y)) == Den(f) + CrossXX(f, x)
  {
    Product(f.n, 1.0, f.sxx, x * x);
    Product(f.sx, x, f.sx, x);
  }

  lemma CrossXYAdd(f: Fit, u: real, v: real, x: real, y: real)
    ensures CrossXY(Add(f, u, v), x, y) == CrossXY(f, x, y) + (x - u) * (y - v)
  {
    Product(f.n, 1.0, x * y, 0.0);
    Product(x, 0.0, f.sy, v);
    Product(f.sx, u, y, 0.0);
    Product(x, -u, y, -v);
  }

  lemma CrossXXAdd(f: Fit, u: real, v: real, x: real, q: real)
    requires q == (x - u) * (x - u)
    ensures CrossXX(Add(f, u, v), x) == CrossXX(f, x) + q
  {
    Product(f.n, 1.0, x * x, 0.0);
    Product(x, 0.0, f.sx, u);
    Product(f.sx, u, x, 0.0);
    Product(x, -u, x, -u);
  }

  // --------------------------------------------------- the two inequalities

  ghost predicate Rising(xs: seq<real>) {
    forall i, j :: 0 <= i < j < |xs| ==> xs[i] <= xs[j]
  }

  ghost predicate NeverRising(ys: seq<real>) {
    forall i, j :: 0 <= i < j < |ys| ==> ys[i] >= ys[j]
  }

  lemma Square(x: real, u: real) returns (q: real)
    ensures q == (x - u) * (x - u) && NonNegative(q) && (u != x ==> AboveZero(q))
  {
    q := (x - u) * (x - u);
    if x > u {
      Positive(x - u, x - u, q);
    } else if x < u {
      Positive(u - x, u - x, q);
    }
  }

  lemma Positive(a: real, b: real, q: real)
    requires a > 0.0 && b > 0.0 && q == a * b
    ensures AboveZero(q)
  {
  }

  lemma Opposed(a: real, b: real)
    requires a >= 0.0 >= b
    ensures a * b <= 0.0
  {
  }

  predicate NonNegative(r: real) { r >= 0.0 }

  predicate AboveZero(r: real) { r > 0.0 }

  predicate NotPositive(r: real) { r <= 0.0 }

  lemma CrossXXGrows(f: Fit, u: real, v: real, x: real)
    requires NonNegative(CrossXX(f, x))
    ensures NonNegative(CrossXX(Add(f, u, v), x))
    ensures AboveZero(CrossXX(f, x)) || u != x ==> AboveZero(CrossXX(Add(f, u, v), x))
  {
    var q := Square(x, u);
    CrossXXAdd(f, u, v, x, q);
  }

  lemma {:induction false} CrossXXSign(xs: seq<real>, ys: seq<real>, x: real)
    requires |xs| == |ys|
    ensures NonNegative(CrossXX(FitOf(xs, ys), x))
    ensures xs != [] && xs[0] != x ==> AboveZero(CrossXX(FitOf(xs, ys), x))
  {
    if xs != [] {
      var n := |xs| - 1;
      CrossXXSign(xs[..n], ys[..n], x);
      CrossXXGrows(FitOf(xs[..n], ys[..n]), xs[n], ys[n], x);
      assert n > 0 ==> xs[..n][0] == xs[0];
    }
  }

  lemma DenGrows(f: Fit, x: real, y: real)
    requires NonNegative(Den(f)) && NonNegative(CrossXX(f, x))
    ensures NonNegative(Den(Add(f, x, y)))
    ensures AboveZero(CrossXX(f, x)) ==> AboveZero(Den(Add(f, x, y)))
  {
    DenAdd(f, x, y);
  }

  /** Cauchy–Schwarz against the constant vector: nΣx² ≥ (Σx)², strictly once
      the first and the last x differ. */
  lemma {:induction false} DenSign(xs: seq<real>, ys: seq<real>)
    requires |xs| == |ys|
    ensures NonNegative(Den(FitOf(xs, ys)))
    ensures xs != [] && xs[0] != xs[|xs| - 1] ==> AboveZero(Den(FitOf(xs, ys)))
  {
    if xs != [] {
      var n := |xs| - 1;
      DenSign(xs[..n], ys[..n]);
      CrossXXSign(xs[..n], ys[..n], xs[n]);
      DenGrows(FitOf(xs[..n], ys[..n]), xs[n], ys[n]);
      assert n > 0 ==> xs[..n][0] == xs[0];
    }
  }

  lemma CrossXYFalls(f: Fit, u: real, v: real, x: real, y: real)
    requires NotPositive(CrossXY(f, x, y)) && u <= x && v >= y
    ensures NotPositive(CrossXY(Add(f, u, v), x, y))
  {
    CrossXYAdd(f, u, v, x, y);
    Opposed(x - u, y - v);
  }

  lemma {:induction false} CrossXYSign(xs: seq<real>, ys: seq<real>, x: real, y: real)
    requires |xs| == |ys| && forall i :: 0 <= i < |xs| ==> xs[i] <= x && ys[i] >= y
    ensures NotPositive(CrossXY(FitOf(xs, ys), x, y))
  {
    if xs != [] {
      var n := |xs| - 1;
      CrossXYSign(xs[..n], ys[..n], x, y);
      CrossXYFalls(FitOf(xs[..n], ys[..n]), xs[n], ys[n], x, y);
    }
  }

  lemma NumFalls(f: Fit, x: real, y: real)
    requires NotPositive(Num(f)) && NotPositive(CrossXY(f, x, y))
    ensures NotPositive(Num(Add(f, x, y)))
  {
    NumAdd(f, x, y);
  }

  /** Chebyshev's sum inequality: readings that never rise have no positive slope. */
  lemma {:induction false} Chebyshev(xs: seq<real>, ys: seq<real>)
    requires |xs| == |ys| && Rising(xs) && NeverRising(ys)
    ensures NotPositive(Num(FitOf(xs, ys)))
  {
    if xs != [] {
      var n := |xs| - 1;
      Chebyshev(xs[..n], ys[..n]);
      CrossXYSign(xs[..n], ys[..n], xs[n], ys[n]);
      NumFalls(FitOf(xs[..n], ys[..n]), xs[n], ys[n]);
    }
  }

  // ---------------------------------------------------------- points on a line

  predicate At(a: real, b: real, x: real, y: real) { y == a + b * x }

  ghost predicate OnLine(xs: seq<real>, ys: seq<real>, a: real, b: real) {
    |xs| == |ys| && forall i :: 0 <= i < |xs| ==> At(a, b, xs[i], ys[i])
  }

  predicate LineFit(f: Fit, a: real, b: real) {
    f.sy == f.n * a + b * f.sx && f.sxy == a * f.sx + b * f.sxx
  }

  lemma LineAdd(f: Fit, a: real, b: real, x: real, y: real)
    requires LineFit(f, a, b) && At(a, b, x, y)
    ensures LineFit(Add(f, x, y), a, b)
  {
    Product(f.n, 1.0, a, 0.0);
    Product(b, 0.0, f.sx, x);
    Product(a, 0.0, f.sx, x);
    Product(b, 0.0, f.sxx, x * x);
    Product(x, 0.0, a, b * x);
    assert x * (b * x) == b * (x * x);
  }

  lemma {:induction false} FitOnLine(xs: seq<real>, ys: seq<real>, a: real, b: real)
    requires OnLine(xs, ys, a, b)
    ensures LineFit(FitOf(xs, ys), a, b)
  {
    if xs != [] {
      var n := |xs| - 1;
      FitOnLine(xs[..n], ys[..n], a, b);
      LineAdd(FitOf(xs[..n], ys[..n]), a, b, xs[n], ys[n]);
    }
  }

  /** Through points on a line the fitted slope is the line's. */
  lemma LineSlope(f: Fit, a: real, b: real)
    requires LineFit(f, a, b)
    ensures Num(f) == b * Den(f)
  {
    var n, s, d := f.n, f.sx, f.sxx;
    assert n * f.sxy == n * (a * s) + n * (b * d);
    assert s * f.sy == s * (n * a) + s * (b * s);
    assert n * (a * s) == s * (n * a);
    assert n * (b * d) == b * (n * d);
    assert s * (b * s) == b * (s * s);
    assert b * (n * d - s * s) == b * (n * d) - b * (s * s);
  }

  // ------------------------------------------------------------ the forecast

  /** The mount's readings no older than the window. */
  function Recent(samples: seq<Sample>, mount: string, from: Time): seq<Point> {
    if samples == [] then []
    else
      var r := Recent(samples[..|samples| - 1], mount, from);
      var s := samples[|samples| - 1];
      if s.at < from || mount !in s.mounts then r else r + [Point(s.at, s.mounts[mount])]
  }

  /** A sample in the window that has a reading of the mount. */
  predicate Counts(s: Sample, mount: string, from: Time) {
    s.at >= from && mount in s.mounts
  }

  ghost predicate Rise(at: seq<nat>) {
    forall i, j :: 0 <= i < j < |at| ==> at[i] < at[j]
  }

  /** Point i is the mount's reading in the sample it was gathered from. */
  ghost predicate Gathered(samples: seq<Sample>, mount: string, from: Time, pts: seq<Point>, at: seq<nat>) {
    && |at| == |pts| && Rise(at)
    && (forall i :: 0 <= i < |at| ==>
          at[i] < |samples| && Counts(samples[at[i]], mount, from)
          && pts[i] == Point(samples[at[i]].at, samples[at[i]].mounts[mount]))
    && (forall j :: 0 <= j < |samples| && Counts(samples[j], mount, from) ==> j in at)
  }

  lemma GatheredSkip(init: seq<Sample>, s: Sample, mount: string, from: Time, pts: seq<Point>, at: seq<nat>)
    requires Gathered(init, mount, from, pts, at) && !Counts(s, mount, from)
    ensures Gathered(init + [s], mount, from, pts, at)
  {
  }

  lemma GatheredTake(init: seq<Sample>, s: Sample, mount: string, from: Time, pts: seq<Point>, at: seq<nat>)
    requires Gathered(init, mount, from, pts, at) && Counts(s, mount, from)
    ensures Gathered(init + [s], mount, from, pts + [Point(s.at, s.mounts[mount])], at + [|init|])
  {
    var more := at + [|init|];
    assert more[|at|] == |init|;
    forall j | 0 <= j < |init| && Counts(init[j], mount, from) ensures j in more {
      assert j in at;
    }
  }

  /** The points gathered are exactly the mount's readings in the samples of the window that have one,
      one for each, in the samples' order. */
  lemma {:induction false} RecentGathers(samples: seq<Sample>, mount: string, from: Time) returns (at: seq<nat>)
    ensures Gathered(samples, mount, from, Recent(samples, mount, from), at)
  {
    at := [];
    if samples != [] {
      var n := |samples| - 1;
      var init, s := samples[..n], samples[n];
      assert samples == init + [s];
      at := RecentGathers(init, mount, from);
      if Counts(s, mount, from) {
        GatheredTake(init, s, mount, from, Recent(init, mount, from), at);
        at := at + [n];
      } else {
        GatheredSkip(init, s, mount, from, Recent(init, mount, from), at);
      }
    }
  }

  /** As a set. */
  lemma RecentExactly(samples: seq<Sample>, mount: string, from: Time, p: Point)
    ensures p in Recent(samples, mount, from) <==>
      exists s :: s in samples && s.at >= from && mount in s.mounts && p == Point(s.at, s.mounts[mount])
  {
    var pts := Recent(samples, mount, from);
    var at := RecentGathers(samples, mount, from);
    if p in pts {
      var i :| 0 <= i < |pts| && pts[i] == p;
      assert samples[at[i]] in samples;
    }
    if s :| s in samples && s.at >= from && mount in s.mounts && p == Point(s.at, s.mounts[mount]) {
      var j :| 0 <= j < |samples| && samples[j] == s;
      assert Counts(samples[j], mount, from) && j in at;
      var i :| 0 <= i < |at| && at[i] == j;
      assert pts[i] == p;
    }
  }

  predicate Cleanup(before: Point, after: Point) { before.p - after.p >= CLEANUP_DROP }

  /** Starts over at every cleanup. */
  function SinceCleanup(w: seq<Point>): (r: seq<Point>)
    ensures |r| <= |w| && (w != [] ==> r != [])
  {
    if w == [] then []
    else
      var r := SinceCleanup(w[..|w| - 1]);
      var x := w[|w| - 1];
      if r != [] && Cleanup(r[|r| - 1], x) then [x] else r + [x]
  }

  function Hours(d: int): real { d as real / HOUR as real }

  function Xs(pts: seq<Point>): (r: seq<real>)
    ensures |r| == |pts| && forall i :: 0 <= i < |r| ==> r[i] == Hours(pts[i].at - pts[0].at)
  {
    seq(|pts|, i requires 0 <= i < |pts| => Hours(pts[i].at - pts[0].at))
  }

  function Ys(pts: seq<Point>): (r: seq<real>)
    ensures |r| == |pts| && forall i :: 0 <= i < |r| ==> r[i] == pts[i].p
  {
    seq(|pts|, i requires 0 <= i < |pts| => pts[i].p)
  }

  /** The part after the fit. `time.Duration(f)` drops the fraction. */
  function Extrapolate(f: Fit, last: Point, span: int): Option<Time> {
    if Den(f) == 0.0 then None
    else
      var slope := Num(f) / Den(f);
      if slope <= 0.0 || slope * Hours(span) < MIN_RISE then None
      else
        var left := 100.0 - last.p;
        if left <= 0.0 then None
        else
          var eta := (left / slope * HOUR as real).Floor;
          if eta > HORIZON then None else Some(last.at + eta)
  }

  function ForecastPoints(pts: seq<Point>): Option<Time> {
    if |pts| < MIN_SAMPLES || pts[|pts| - 1].at - pts[0].at < MIN_SPAN then None
    else Extrapolate(FitOf(Xs(pts), Ys(pts)), pts[|pts| - 1], pts[|pts| - 1].at - pts[0].at)
  }

  function Forecast(samples: seq<Sample>, mount: string): Option<Time> {
    if samples == [] then None
    else ForecastPoints(SinceCleanup(Recent(samples, mount, samples[|samples| - 1].at - WINDOW)))
  }

  method ForecastFull(samples: seq<Sample>, mount: string) returns (r: Option<Time>)
    ensures r == Forecast(samples, mount)
  {
    if |samples| == 0 {
      return None;
    }
    var from := samples[|samples| - 1].at - WINDOW;
    var pts := PointsSinceCleanup(samples, mount, from);
    r := FitLine(pts);
  }

  method FitLine(pts: seq<Point>) returns (r: Option<Time>)
    ensures r == ForecastPoints(pts)
  {
    if |pts| < MIN_SAMPLES {
      return None;
    }
    var first, last := pts[0], pts[|pts| - 1];
    var span := last.at - first.at;
    if span < MIN_SPAN {
      return None;
    }
    var f := SumUp(pts);
    return Extrapolate(f, last, span);
  }

  /** The loop that gathers the points. */
  method PointsSinceCleanup(samples: seq<Sample>, mount: string, from: Time) returns (pts: seq<Point>)
    ensures pts == SinceCleanup(Recent(samples, mount, from))
  {
    pts := [];
    for i := 0 to |samples|
      invariant pts == SinceCleanup(Recent(samples[..i], mount, from))
    {
      assert samples[..i + 1][..i] == samples[..i];
      var s := samples[i];
      if s.at < from {
        continue;
      }
      if mount !in s.mounts {
        continue;
      }
      var p := Point(s.at, s.mounts[mount]);
      ghost var w := Recent(samples[..i], mount, from);
      assert (w + [p])[..|w|] == w;
      if |pts| > 0 && pts[|pts| - 1].p - p.p >= CLEANUP_DROP {
        pts := [];
      }
      pts := pts + [p];
    }
    assert samples[..|samples|] == samples;
  }

  /** f sums the first i points. */
  ghost predicate Summed(f: Fit, pts: seq<Point>, i: nat) {
    i <= |pts| && f == FitOf(Xs(pts)[..i], Ys(pts)[..i])
  }

  lemma SummedStep(f: Fit, pts: seq<Point>, i: nat)
    requires i < |pts| && Summed(f, pts, i)
    ensures Summed(Add(f, Hours(pts[i].at - pts[0].at), pts[i].p), pts, i + 1)
  {
    var xs, ys := Xs(pts), Ys(pts);
    assert xs[..i + 1][..i] == xs[..i] && ys[..i + 1][..i] == ys[..i];
  }

  lemma SummedAll(f: Fit, pts: seq<Point>)
    requires Summed(f, pts, |pts|)
    ensures f == FitOf(Xs(pts), Ys(pts))
  {
    assert Xs(pts)[..|pts|] == Xs(pts) && Ys(pts)[..|pts|] == Ys(pts);
  }

  /** The accumulation loop. */
  method SumUp(pts: seq<Point>) returns (f: Fit)
    requires pts != []
    ensures f == FitOf(Xs(pts), Ys(pts))
  {
    f := Fit(0.0, 0.0, 0.0, 0.0, 0.0);
    for i := 0 to |pts|
      invariant Summed(f, pts, i)
    {
      SummedStep(f, pts, i);
      f := Add(f, Hours(pts[i].at - pts[0].at), pts[i].p);
    }
    SummedAll(f, pts);
  }

  // -------------------------------------------------------------- properties

  ghost predicate TimeOrdered(pts: seq<Point>) {
    forall i, j :: 0 <= i < j < |pts| ==> pts[i].at <= pts[j].at
  }

  ghost predicate CleanFrom(w: seq<Point>, k: nat) {
    forall i, j :: k <= i < j == i + 1 < |w| ==> !Cleanup(w[i], w[j])
  }

  /** The fitted points are the longest run of readings at the end of the window
      with no cleanup inside it. */
  lemma {:induction false} FittedIsLongestCleanSuffix(w: seq<Point>) returns (k: nat)
    requires w != []
    ensures k < |w| && SinceCleanup(w) == w[k..]
    ensures CleanFrom(w, k)
    ensures k > 0 ==> Cleanup(w[k - 1], w[k])
  {
    var n := |w| - 1;
    if n == 0 {
      k := 0;
      assert w[..0] == [];
    } else {
      var init := w[..n];
      assert w == init + [w[n]];
      k := FittedIsLongestCleanSuffix(init);
      FittedSnoc(init, w[n], k);
      CleanSnoc(init, w[n], k);
      if Cleanup(w[n - 1], w[n]) {
        k := n;
      }
    }
  }

  lemma CleanSnoc(init: seq<Point>, x: Point, k: nat)
    requires k < |init| && CleanFrom(init, k)
    ensures !Cleanup(init[|init| - 1], x) ==> CleanFrom(init + [x], k)
    ensures CleanFrom(init + [x], |init|)
  {
  }

  lemma FittedSnoc(init: seq<Point>, x: Point, k: nat)
    requires k < |init| && SinceCleanup(init) == init[k..]
    ensures SinceCleanup(init + [x]) ==
      if Cleanup(init[|init| - 1], x) then (init + [x])[|init|..] else (init + [x])[k..]
  {
    CleanupSnoc(init, x);
    SuffixSnoc(init, x, k);
    SuffixSnoc(init, x, |init|);
  }

  lemma CleanupSnoc(init: seq<Point>, x: Point)
    requires init != []
    ensures var r := SinceCleanup(init);
      SinceCleanup(init + [x]) == if Cleanup(r[|r| - 1], x) then [x] else r + [x]
  {
    assert (init + [x])[..|init|] == init;
  }

  lemma SuffixSnoc<T>(init: seq<T>, x: T, k: nat)
    requires k <= |init|
    ensures (init + [x])[k..] == init[k..] + [x]
    ensures k < |init| ==> init[k..][|init[k..]| - 1] == init[|init| - 1]
  {
  }

  lemma HoursOrdered(a: int, b: int)
    requires a <= b
    ensures Hours(a) <= Hours(b) && (a < b ==> Hours(a) < Hours(b))
  {
  }

  lemma XsRising(pts: seq<Point>)
    requires TimeOrdered(pts)
    ensures Rising(Xs(pts))
  {
    var xs := Xs(pts);
    forall i, j | 0 <= i < j < |xs| ensures xs[i] <= xs[j] {
      HoursOrdered(pts[i].at - pts[0].at, pts[j].at - pts[0].at);
    }
  }

  /** Past the span check the denominator is positive: the division is safe and
      the `den == 0` branch is never taken. */
  lemma DenominatorPositive(pts: seq<Point>)
    requires pts != [] && pts[|pts| - 1].at - pts[0].at >= MIN_SPAN
    ensures AboveZero(Den(FitOf(Xs(pts), Ys(pts))))
  {
    HoursOrdered(0, pts[|pts| - 1].at - pts[0].at);
    DenSign(Xs(pts), Ys(pts));
  }

  lemma NoSlopeNoForecast(f: Fit, last: Point, span: int)
    requires AboveZero(Den(f)) && NotPositive(Num(f))
    ensures Extrapolate(f, last, span).None?
  {
    Quotient(Num(f), Den(f));
  }

  lemma Quotient(a: real, b: real)
    requires b > 0.0
    ensures a <= 0.0 ==> a / b <= 0.0
  {
  }

  /** Readings that never rise never give a forecast. */
  lemma NeverRisingNeverForecast(pts: seq<Point>)
    requires TimeOrdered(pts) && NeverRising(Ys(pts))
    ensures ForecastPoints(pts).None?
  {
    if |pts| >= MIN_SAMPLES && pts[|pts| - 1].at - pts[0].at >= MIN_SPAN {
      XsRising(pts);
      Chebyshev(Xs(pts), Ys(pts));
      DenominatorPositive(pts);
      NoSlopeNoForecast(FitOf(Xs(pts), Ys(pts)), pts[|pts| - 1], pts[|pts| - 1].at - pts[0].at);
    }
  }

  lemma RatioOfLine(f: Fit, b: real)
    requires AboveZero(Den(f)) && Num(f) == b * Den(f)
    ensures Num(f) / Den(f) == b
  {
  }

  lemma EtaBound(left: real, b: real, h: real, eta: int)
    requires b > 0.0 && h > 0.0 && eta == (left / b * h).Floor
    ensures b * (eta as real / h) <= left < b * ((eta + 1) as real / h)
  {
    var t := left / b * h;
    assert eta as real <= t < (eta + 1) as real;
    ScaleDown(eta as real, t, b, h);
    ScaleDown(t, (eta + 1) as real, b, h);
    assert t / h == left / b;
    assert b * (t / h) == left;
  }

  lemma ScaleDown(u: real, v: real, b: real, h: real)
    requires b > 0.0 && h > 0.0 && u <= v
    ensures b * (u / h) <= b * (v / h) && (u < v ==> b * (u / h) < b * (v / h))
  {
    assert u / h <= v / h && (u < v ==> u / h < v / h);
  }

  lemma HoursAdd(d: int, e: int)
    ensures Hours(d + e) == Hours(d) + Hours(e)
  {
  }

  function Level(a: real, b: real, hours: real): real { a + b * hours }

  lemma LevelAfter(a: real, b: real, span: int, d: int, p: real)
    requires At(a, b, Hours(span), p)
    ensures Level(a, b, Hours(span + d)) == p + b * Hours(d)
  {
    HoursAdd(span, d);
    assert b * (Hours(span) + Hours(d)) == b * Hours(span) + b * Hours(d);
  }

  lemma LineExtrapolates(f: Fit, last: Point, span: int, a: real, b: real)
    requires LineFit(f, a, b) && AboveZero(Den(f)) && At(a, b, Hours(span), last.p)
    requires Extrapolate(f, last, span).Some?
    ensures var eta := Extrapolate(f, last, span).value - last.at;
            && 0 <= eta <= HORIZON
            && Level(a, b, Hours(span + eta)) <= 100.0 < Level(a, b, Hours(span + eta + 1))
  {
    LineSlope(f, a, b);
    RatioOfLine(f, b);
    var eta := SlopeExtrapolates(f, last, span, b);
    LineReaches(a, b, span, last.p, eta);
  }

  lemma SlopeExtrapolates(f: Fit, last: Point, span: int, b: real) returns (eta: int)
    requires AboveZero(Den(f)) && Num(f) / Den(f) == b && Extrapolate(f, last, span).Some?
    ensures b > 0.0 && last.p < 100.0
    ensures eta == ((100.0 - last.p) / b * HOUR as real).Floor
    ensures Extrapolate(f, last, span) == Some(last.at + eta) && eta <= HORIZON
  {
    eta := ((100.0 - last.p) / b * HOUR as real).Floor;
  }

  lemma LineReaches(a: real, b: real, span: int, p: real, eta: int)
    requires b > 0.0 && p < 100.0 && At(a, b, Hours(span), p)
    requires eta == ((100.0 - p) / b * HOUR as real).Floor
    ensures eta >= 0
    ensures Level(a, b, Hours(span + eta)) <= 100.0 < Level(a, b, Hours(span + eta + 1))
  {
    EtaBound(100.0 - p, b, HOUR as real, eta);
    LevelAfter(a, b, span, eta, p);
    LevelAfter(a, b, span, eta + 1, p);
    PositiveQuotient(100.0 - p, b);
  }

  /** Through points on a line, a forecast is the nanosecond in which that line
      reaches 100, no earlier than the last point and within the horizon. */
  lemma LineForecast(pts: seq<Point>, a: real, b: real)
    requires OnLine(Xs(pts), Ys(pts), a, b) && ForecastPoints(pts).Some?
    ensures var first, last, at := pts[0].at, pts[|pts| - 1].at, ForecastPoints(pts).value;
            && last <= at <= last + HORIZON
            && Level(a, b, Hours(at - first)) <= 100.0 < Level(a, b, Hours(at + 1 - first))
  {
    var n := |pts| - 1;
    var span := pts[n].at - pts[0].at;
    DenominatorPositive(pts);
    FitOnLine(Xs(pts), Ys(pts), a, b);
    assert At(a, b, Xs(pts)[n], Ys(pts)[n]);
    LineExtrapolates(FitOf(Xs(pts), Ys(pts)), pts[n], span, a, b);
  }

  lemma DurationBound(slope: real, span: int, p: real)
    requires 0 < span <= WINDOW && p >= 0.0
    requires slope > 0.0 && slope * Hours(span) >= MIN_RISE
    ensures (100.0 - p) / slope * HOUR as real <= MAX_DURATION as real
  {
    var h := Hours(span);
    HoursOrdered(span, WINDOW);
    assert Hours(WINDOW) == 72.0;
    assert slope * h <= slope * 72.0;
    assert slope * 144.0 >= 1.0;
    Reciprocal(slope, 100.0 - p);
  }

  lemma Reciprocal(slope: real, left: real)
    requires slope > 0.0 && slope * 144.0 >= 1.0 && left <= 100.0
    ensures left / slope <= 14400.0
  {
    assert left <= 14400.0 * slope;
  }

  /** The fitted points of time-ordered samples are time-ordered and span no more
      than the window. */
  lemma {:induction false} RecentOrdered(samples: seq<Sample>, mount: string, from: Time, to: Time)
    requires InOrder(samples) && forall x :: x in samples ==> x.at <= to
    ensures TimeOrdered(Recent(samples, mount, from))
    ensures forall p :: p in Recent(samples, mount, from) ==>
              from <= p.at <= to && (samples != [] ==> p.at <= samples[|samples| - 1].at)
  {
    if samples != [] {
      var n := |samples| - 1;
      RecentOrdered(samples[..n], mount, from, samples[n].at);
    }
  }

  /** A disk whose readings never rise within the window gets no forecast,
      whatever cleanups the window holds. */
  lemma FallingDiskNeverForecast(samples: seq<Sample>, mount: string)
    requires InOrder(samples) && samples != []
    requires NeverRising(Ys(Recent(samples, mount, samples[|samples| - 1].at - WINDOW)))
    ensures Forecast(samples, mount).None?
  {
    var to := samples[|samples| - 1].at;
    var w := Recent(samples, mount, to - WINDOW);
    RecentOrdered(samples, mount, to - WINDOW, to);
    if w != [] {
      var k := FittedIsLongestCleanSuffix(w);
      SuffixFalls(w, k);
      NeverRisingNeverForecast(SinceCleanup(w));
    }
  }

  lemma SuffixFalls(w: seq<Point>, k: nat)
    requires k <= |w| && TimeOrdered(w) && NeverRising(Ys(w))
    ensures TimeOrdered(w[k..]) && NeverRising(Ys(w[k..]))
  {
    forall i, j | 0 <= i < j < |w[k..]| ensures Ys(w[k..])[i] >= Ys(w[k..])[j] {
      assert Ys(w)[k + i] >= Ys(w)[k + j];
    }
  }

  // ----------------------------------------------------- the float conversion

  ghost predicate NotNegative(samples: seq<Sample>, mount: string) {
    forall x :: x in samples && mount in x.mounts ==> x.mounts[mount] >= 0.0
  }

  lemma {:induction false} RecentReadings(samples: seq<Sample>, mount: string, from: Time)
    requires NotNegative(samples, mount)
    ensures forall p :: p in Recent(samples, mount, from) ==> p.p >= 0.0
  {
    if samples != [] {
      assert samples[|samples| - 1] in samples;
      RecentReadings(samples[..|samples| - 1], mount, from);
    }
  }

  ghost predicate Within(w: seq<Point>, from: Time, to: Time) {
    forall p :: p in w ==> from <= p.at <= to && p.p >= 0.0
  }

  lemma CleanedWithin(w: seq<Point>, from: Time, to: Time)
    requires Within(w, from, to)
    ensures var pts := SinceCleanup(w);
      pts != [] ==> pts[|pts| - 1].at - pts[0].at <= to - from && pts[|pts| - 1].p >= 0.0
  {
    if w != [] {
      var k := FittedIsLongestCleanSuffix(w);
      assert w[k] in w && w[|w| - 1] in w;
    }
  }

  /** What the fit is made of, for samples in time order. */
  lemma FittedWithinWindow(samples: seq<Sample>, mount: string, from: Time, to: Time)
    requires InOrder(samples) && samples != [] && to == samples[|samples| - 1].at && NotNegative(samples, mount)
    ensures Within(Recent(samples, mount, from), from, to)
  {
    RecentOrdered(samples, mount, from, to);
    RecentReadings(samples, mount, from);
  }

  /** The forecast gets as far as converting its float to a duration. */
  predicate Converts(pts: seq<Point>) {
    && |pts| >= MIN_SAMPLES && pts[|pts| - 1].at - pts[0].at >= MIN_SPAN
    && var f, span := FitOf(Xs(pts), Ys(pts)), pts[|pts| - 1].at - pts[0].at;
       Den(f) != 0.0 && Num(f) / Den(f) > 0.0 && Num(f) / Den(f) * Hours(span) >= MIN_RISE && pts[|pts| - 1].p < 100.0
  }

  /** The float that is converted. */
  function Remaining(pts: seq<Point>): real
    requires Converts(pts)
  {
    var f := FitOf(Xs(pts), Ys(pts));
    (100.0 - pts[|pts| - 1].p) / (Num(f) / Den(f)) * HOUR as real
  }

  /** Converting cannot overflow. */
  ghost predicate Safe(pts: seq<Point>) {
    Converts(pts) ==> 0.0 < Remaining(pts) <= MAX_DURATION as real
  }

  ghost predicate InWindow(pts: seq<Point>) {
    pts != [] ==> pts[|pts| - 1].at - pts[0].at <= WINDOW && pts[|pts| - 1].p >= 0.0
  }

  lemma ConvertsSafely(pts: seq<Point>)
    requires InWindow(pts)
    ensures Safe(pts)
  {
    if Converts(pts) {
      var f := FitOf(Xs(pts), Ys(pts));
      var last, slope := pts[|pts| - 1], Num(f) / Den(f);
      DurationBound(slope, last.at - pts[0].at, last.p);
      PositiveQuotient(100.0 - last.p, slope);
    }
  }

  /** A forecast is given exactly if its float is converted and the duration is within the horizon. */
  lemma ForecastExactly(pts: seq<Point>)
    ensures ForecastPoints(pts).Some? <==> Converts(pts) && Remaining(pts).Floor <= HORIZON
  {
  }

  /** The points a forecast is fitted to. */
  function Fitted(samples: seq<Sample>, mount: string): seq<Point>
    requires samples != []
  {
    SinceCleanup(Recent(samples, mount, samples[|samples| - 1].at - WINDOW))
  }

  /** Whenever a forecast of time-ordered samples converts its float to a duration, the float is
      positive and far below what a `time.Duration` holds. */
  lemma DurationFits(samples: seq<Sample>, mount: string)
    requires InOrder(samples) && samples != [] && NotNegative(samples, mount)
    ensures Safe(Fitted(samples, mount))
  {
    FittedInWindow(samples, mount);
    ConvertsSafely(Fitted(samples, mount));
  }

  lemma FittedInWindow(samples: seq<Sample>, mount: string)
    requires InOrder(samples) && samples != [] && NotNegative(samples, mount)
    ensures InWindow(Fitted(samples, mount))
  {
    var to := samples[|samples| - 1].at;
    FittedWithinWindow(samples, mount, to - WINDOW, to);
    CleanedWithin(Recent(samples, mount, to - WINDOW), to - WINDOW, to);
  }

  lemma PositiveQuotient(left: real, slope: real)
    requires left > 0.0 && slope > 0.0
    ensures left / slope * HOUR as real > 0.0
  {
    assert left / slope > 0.0;
  }

  // ------------------------------------------------------- when it is given

  /** Through points on a rising or falling line a forecast is given exactly if there are at least sixty
      over at least twelve hours, on which the line rises by half a per cent or more, the disk is not
      full, and it will be within thirty days. */
  lemma LineForecastExactly(pts: seq<Point>, a: real, b: real)
    requires OnLine(Xs(pts), Ys(pts), a, b)
    ensures ForecastPoints(pts).Some? <==>
      && |pts| >= 60 && pts[|pts| - 1].at - pts[0].at >= 12 * HOUR
      && b > 0.0 && b * Hours(pts[|pts| - 1].at - pts[0].at) >= 0.5 && pts[|pts| - 1].p < 100.0
      && ((100.0 - pts[|pts| - 1].p) / b * HOUR as real).Floor <= 30 * DAY
  {
    if |pts| >= MIN_SAMPLES && pts[|pts| - 1].at - pts[0].at >= MIN_SPAN {
      DenominatorPositive(pts);
      FitOnLine(Xs(pts), Ys(pts), a, b);
      var f := FitOf(Xs(pts), Ys(pts));
      LineSlope(f, a, b);
      RatioOfLine(f, b);
      SlopeForecast(f, pts[|pts| - 1], pts[|pts| - 1].at - pts[0].at, b);
    }
  }

  lemma SlopeForecast(f: Fit, last: Point, span: int, b: real)
    requires AboveZero(Den(f)) && Num(f) / Den(f) == b
    ensures Extrapolate(f, last, span).Some? <==>
      && b > 0.0 && b * Hours(span) >= 0.5 && last.p < 100.0
      && ((100.0 - last.p) / b * HOUR as real).Floor <= 30 * DAY
  {
  }
}
