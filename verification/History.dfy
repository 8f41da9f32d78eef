/** The backend's per-server sample history: one sample a minute, whatever
    order and however often the samples arrive. */
module HistoryLog {
  import opened Base
  import opened Samples

  const RETAIN := 14 * DAY
  const MAX_SAMPLES := 30 * 24 * 60

  /** What is held for one server. `lastAt` is absent until something arrives. */
  datatype Series = Series(samples: seq<Sample>, lastAt: Option<Time>)

  function LastOrZero(lastAt: Option<Time>): Time {
    if lastAt.Some? then lastAt.value else ZERO_TIME
  }

  // ------------------------------------------------------------- operations

  predicate Accepts(h: Series, s: Sample) {
    h.lastAt.Some? ==> s.at - h.lastAt.value >= MINUTE
  }

  function Record(h: Series, s: Sample): Series {
    if Accepts(h, s) then Series(Newest(h.samples + [s], MAX_SAMPLES), Some(s.at)) else h
  }

  /** What recording stores: the sample itself behind the ones held, the oldest of which make room at
      the cap; or nothing, if it comes too soon. */
  lemma RecordStores(h: Series, s: Sample)
    ensures !Accepts(h, s) ==> Record(h, s) == h
    ensures Accepts(h, s) ==>
      var r := Record(h, s);
      && r.lastAt == Some(s.at)
      && 0 < |r.samples| <= |h.samples| + 1 && r.samples[|r.samples| - 1] == s
      && (forall i :: 0 <= i < |r.samples| - 1 ==> r.samples[i] == h.samples[|h.samples| + 1 - |r.samples| + i])
      && (|h.samples| < MAX_SAMPLES ==> |r.samples| == |h.samples| + 1)
      && (|h.samples| >= MAX_SAMPLES ==> |r.samples| == MAX_SAMPLES)
    ensures Accepts(h, s) <==> h.lastAt.None? || s.at >= h.lastAt.value + 60 * SECOND
  {
  }

  predicate Admissible(s: Sample, now: Time) {
    s.at != ZERO_TIME && now - RETAIN <= s.at <= now + HOUR
  }

  function AdmissibleMinutes(batch: seq<Sample>, now: Time): set<int> {
    set x | x in batch && Admissible(x, now) :: Minute(x.at)
  }

  /** The held samples followed by the first sample of each new, admissible minute. */
  function Admit(held: seq<Sample>, batch: seq<Sample>, now: Time): (r: seq<Sample>)
    ensures |held| <= |r|
    decreases |batch|
  {
    if batch == [] then held
    else
      var r := Admit(held, batch[..|batch| - 1], now);
      var s := batch[|batch| - 1];
      if Admissible(s, now) && Minute(s.at) !in Minutes(r) then r + [s] else r
  }

  /** `Backfill` from h to h'. `dropped` are the oldest samples over the cap. */
  ghost predicate Backfilled(h: Series, batch: seq<Sample>, now: Time, h': Series, dropped: seq<Sample>) {
    var all := Admit(h.samples, batch, now);
    if |all| == |h.samples| then h' == h && dropped == []
    else
      && InOrder(dropped + h'.samples)
      && multiset(dropped + h'.samples) == multiset(all)
      && |dropped| == (if |all| > MAX_SAMPLES then |all| - MAX_SAMPLES else 0)
      && h'.samples != []
      && var last := h'.samples[|h'.samples| - 1].at;
         h'.lastAt == if last > LastOrZero(h.lastAt) then Some(last) else h.lastAt
  }

  function Trim(h: Series, now: Time): Series {
    h.(samples := Since(h.samples, now - RETAIN))
  }

  // -------------------------------------------------------------- invariant

  ghost predicate WellKept(h: Series) {
    && InOrder(h.samples)
    && DistinctMinutes(h.samples)
    && |h.samples| <= MAX_SAMPLES
    && (h.lastAt.None? ==> h.samples == [])
    && (forall x :: x in h.samples ==> x.at <= LastOrZero(h.lastAt))
  }

  /** The one stretch in which two samples a minute apart can share a key. */
  predicate JustBeforeEpoch(t: Time) { -60 < Unix(t) < 0 }

  predicate JustAfterEpoch(t: Time) { 0 <= Unix(t) < 60 }

  lemma Suffix(s: seq<Sample>, k: nat)
    requires k <= |s|
    ensures InOrder(s) ==> InOrder(s[k..])
    ensures DistinctMinutes(s) ==> DistinctMinutes(s[k..])
  {
  }

  /** Recording keeps the series in order with one sample a minute, unless it
      puts a sample from the first minute of 1970 beside one from the last
      minute before it. */
  lemma RecordKeeps(h: Series, s: Sample)
    requires WellKept(h)
    requires |h.samples| < MAX_SAMPLES
    ensures WellKept(Record(h, s)) <==>
            !(Accepts(h, s) && JustAfterEpoch(s.at) && exists x :: x in h.samples && JustBeforeEpoch(x.at))
  {
    if Accepts(h, s) && h.samples != [] {
      var r := h.samples + [s];
      assert r[..|r| - 1] == h.samples;
      LastMinute(r);
      forall x | x in h.samples
        ensures x.at <= s.at
        ensures Minute(x.at) == Minute(s.at) <==> JustBeforeEpoch(x.at) && JustAfterEpoch(s.at)
      {
        MinuteApart(x.at, s.at);
      }
    }
  }

  /** At the cap the same holds, the oldest sample making room. */
  lemma RecordKeepsAtCap(h: Series, s: Sample)
    requires WellKept(h) && |h.samples| == MAX_SAMPLES
    ensures WellKept(Record(h, s)) <==>
            !(Accepts(h, s) && JustAfterEpoch(s.at) && exists x :: x in h.samples[1..] && JustBeforeEpoch(x.at))
  {
    if Accepts(h, s) {
      RecordsAlike(h, s);
      Shorter(h);
      RecordKeeps(h.(samples := h.samples[1..]), s);
    }
  }

  lemma Shorter(h: Series)
    requires WellKept(h) && h.samples != []
    ensures WellKept(h.(samples := h.samples[1..]))
  {
    Suffix(h.samples, 1);
  }

  lemma RecordsAlike(h: Series, s: Sample)
    requires |h.samples| == MAX_SAMPLES
    ensures Record(h, s).samples == Record(h.(samples := h.samples[1..]), s).samples || !Accepts(h, s)
    ensures Record(h, s).lastAt == Record(h.(samples := h.samples[1..]), s).lastAt
  {
    assert Newest(h.samples + [s], MAX_SAMPLES) == h.samples[1..] + [s];
  }

  /** Two samples 61 seconds apart around the epoch are both recorded under minute 0. */
  lemma EpochClash()
    ensures var a, b := Sample(-30 * SECOND, 0.0, 0.0, map[]), Sample(31 * SECOND, 0.0, 0.0, map[]);
            var h := Record(Record(Series([], None), a), b);
            h.samples == [a, b] && !WellKept(h)
  {
    var a, b := Sample(-30 * SECOND, 0.0, 0.0, map[]), Sample(31 * SECOND, 0.0, 0.0, map[]);
    var h := Record(Record(Series([], None), a), b);
    assert h.samples == [a, b];
    assert Minute(h.samples[0].at) == Minute(h.samples[1].at);
  }

  /** What a batch admits: the held samples stay in front, exactly the
      admissible minutes join, and no minute is taken twice. */
  lemma {:induction false} Admitted(held: seq<Sample>, batch: seq<Sample>, now: Time)
    ensures held <= Admit(held, batch, now)
    ensures Minutes(Admit(held, batch, now)) == Minutes(held) + AdmissibleMinutes(batch, now)
    ensures DistinctMinutes(held) ==> DistinctMinutes(Admit(held, batch, now))
    ensures forall x :: x in Admit(held, batch, now) ==> x in held || (x in batch && Admissible(x, now))
    decreases |batch|
  {
    if batch != [] {
      var init, s := batch[..|batch| - 1], batch[|batch| - 1];
      Admitted(held, init, now);
      AdmissibleLast(batch, now);
      var r := Admit(held, init, now);
      assert (r + [s])[..|r|] == r;
      LastMinute(r + [s]);
    }
  }

  /** Sample i is the first of its batch that is in the window and of a minute not held before. */
  ghost predicate FirstOfMinute(held: seq<Sample>, batch: seq<Sample>, now: Time, i: nat) {
    && i < |batch| && Admissible(batch[i], now) && Minute(batch[i].at) !in Minutes(held)
    && forall j :: 0 <= j < i && Admissible(batch[j], now) ==> Minute(batch[j].at) != Minute(batch[i].at)
  }

  /** The sample admitted for a new minute is the first one offered for it. */
  lemma {:induction false} FirstIsAdmitted(held: seq<Sample>, batch: seq<Sample>, now: Time, i: nat)
    requires FirstOfMinute(held, batch, now, i)
    ensures batch[i] in Admit(held, batch, now)
    decreases |batch|
  {
    var n := |batch| - 1;
    var init := batch[..n];
    if i < n {
      FirstIsAdmitted(held, init, now, i);
    } else {
      Admitted(held, init, now);
      forall x | x in init && Admissible(x, now) ensures Minute(x.at) != Minute(batch[i].at) {
        var j :| 0 <= j < n && init[j] == x;
        assert batch[j] == x;
      }
    }
  }

  /** A lone offer fills a gap exactly if it is timed, at most two weeks old and at most an hour ahead; a
      trim at the same instant then leaves it there unless it is two weeks old to the nanosecond. */
  lemma OfferExactly(s: Sample, now: Time)
    ensures Admit([], [s], now) == [s] || Admit([], [s], now) == []
    ensures Admit([], [s], now) == [s] <==>
            s.at != ZERO_TIME && now <= s.at + 14 * 24 * HOUR && s.at <= now + 60 * MINUTE
    ensures Admit([], [s], now) == [s] ==>
            (Trim(Series([s], Some(s.at)), now).samples == [s] <==> s.at + 14 * 24 * HOUR != now)
  {
    assert [s][..0] == [];
    assert Minutes([]) == {};
    assert Admit([], [s], now) == if Admissible(s, now) then [s] else [];
    SinceFilters([s], now - RETAIN);
    assert s in [s];
  }

  lemma AdmissibleLast(batch: seq<Sample>, now: Time)
    requires batch != []
    ensures var s := batch[|batch| - 1];
            AdmissibleMinutes(batch, now) ==
            AdmissibleMinutes(batch[..|batch| - 1], now) + (if Admissible(s, now) then {Minute(s.at)} else {})
  {
    var init, s := batch[..|batch| - 1], batch[|batch| - 1];
    forall x: Sample ensures x in batch <==> x in init || x == s {
      assert batch == init + [s];
    }
  }

  /** A clock reading late enough for `lastAt` to be told apart from Go's zero time. */
  predicate ClockSet(now: Time) { now - RETAIN > ZERO_TIME }

  lemma BackfillKeeps(h: Series, batch: seq<Sample>, now: Time, h': Series, dropped: seq<Sample>)
    requires WellKept(h) && ClockSet(now)
    requires Backfilled(h, batch, now, h', dropped)
    ensures WellKept(h')
    ensures Minutes(dropped) + Minutes(h'.samples) == Minutes(h.samples) + AdmissibleMinutes(batch, now)
  {
    BackfillMinutes(h, batch, now, h', dropped);
    if h' != h {
      Suffix(dropped + h'.samples, |dropped|);
      assert (dropped + h'.samples)[|dropped|..] == h'.samples;
      BackfillLast(h, batch, now, h', dropped);
    }
  }

  lemma BackfillMinutes(h: Series, batch: seq<Sample>, now: Time, h': Series, dropped: seq<Sample>)
    requires Backfilled(h, batch, now, h', dropped)
    ensures DistinctMinutes(h.samples) ==> DistinctMinutes(dropped + h'.samples)
    ensures Minutes(dropped) + Minutes(h'.samples) == Minutes(h.samples) + AdmissibleMinutes(batch, now)
    ensures h' != h ==> |dropped| + |h'.samples| == |Admit(h.samples, batch, now)|
  {
    var all, s := Admit(h.samples, batch, now), dropped + h'.samples;
    Admitted(h.samples, batch, now);
    MinutesConcat(dropped, h'.samples);
    if |all| == |h.samples| {
      assert all == h.samples == s;
    } else {
      SameElements(s, all);
      SameMinutes(s, all);
    }
  }

  lemma BackfillLast(h: Series, batch: seq<Sample>, now: Time, h': Series, dropped: seq<Sample>)
    requires h.lastAt.None? ==> h.samples == []
    requires ClockSet(now) && Backfilled(h, batch, now, h', dropped) && h' != h
    requires InOrder(h'.samples)
    ensures h'.lastAt.Some? && forall x :: x in h'.samples ==> x.at <= h'.lastAt.value
  {
    LastIsLatest(h'.samples);
    if h.lastAt.None? {
      var x := h'.samples[|h'.samples| - 1];
      assert x in dropped + h'.samples;
      SameElements(dropped + h'.samples, Admit(h.samples, batch, now));
      Admitted(h.samples, batch, now);
    }
  }

  lemma SameMinutes(r: seq<Sample>, s: seq<Sample>)
    requires |r| == |s| && forall x :: x in r <==> x in s
    ensures Minutes(r) == Minutes(s)
    ensures DistinctMinutes(r) <==> DistinctMinutes(s)
  {
    DistinctIsCounting(r);
    DistinctIsCounting(s);
  }

  lemma LastIsLatest(s: seq<Sample>)
    requires s != [] && InOrder(s)
    ensures forall x :: x in s ==> x.at <= s[|s| - 1].at
  {
  }

  lemma {:induction false} SinceDistinct(s: seq<Sample>, cutoff: Time)
    requires DistinctMinutes(s)
    ensures DistinctMinutes(Since(s, cutoff))
  {
    if s != [] {
      var init, x := s[..|s| - 1], s[|s| - 1];
      LastMinute(s);
      SinceDistinct(init, cutoff);
      SinceFilters(init, cutoff);
      var r := Since(init, cutoff);
      if x.at > cutoff {
        assert (r + [x])[..|r|] == r;
        LastMinute(r + [x]);
      }
    }
  }

  lemma TrimKeeps(h: Series, now: Time)
    requires WellKept(h)
    ensures WellKept(Trim(h, now))
    ensures forall x :: x in Trim(h, now).samples <==> x in h.samples && x.at > now - RETAIN
  {
    SinceFilters(h.samples, now - RETAIN);
    SinceOrdered(h.samples, now - RETAIN);
    SinceDistinct(h.samples, now - RETAIN);
  }

  // ------------------------------------------------------------------- runs

  datatype Op = Recording(s: Sample) | Backfilling(batch: seq<Sample>, now: Time) | Trimming(now: Time)

  ghost predicate Step(h: Series, op: Op, h': Series) {
    match op
    case Recording(s) => h' == Record(h, s)
    case Backfilling(batch, now) => exists dropped :: Backfilled(h, batch, now, h', dropped)
    case Trimming(now) => h' == Trim(h, now)
  }

  /** No sample offered comes from the last minute before 1970, and the clock is set. */
  predicate Sane(op: Op) {
    match op
    case Recording(s) => !JustBeforeEpoch(s.at)
    case Backfilling(batch, now) => ClockSet(now) && forall x :: x in batch ==> !JustBeforeEpoch(x.at)
    case Trimming(_) => true
  }

  ghost predicate Run(ops: seq<Op>, hs: seq<Series>) {
    |hs| == |ops| + 1 && forall i {:trigger ops[i]} :: 0 <= i < |ops| ==> Step(hs[i], ops[i], hs[i + 1])
  }

  ghost predicate NoneJustBefore(h: Series) {
    forall x :: x in h.samples ==> !JustBeforeEpoch(x.at)
  }

  lemma BackfillOrigin(h: Series, batch: seq<Sample>, now: Time, h': Series, dropped: seq<Sample>)
    requires Backfilled(h, batch, now, h', dropped)
    ensures forall x :: x in h'.samples ==> x in h.samples || x in batch
  {
    Admitted(h.samples, batch, now);
    if h' != h {
      SameElements(dropped + h'.samples, Admit(h.samples, batch, now));
      assert forall x :: x in h'.samples ==> x in dropped + h'.samples;
    }
  }

  lemma RecordStep(h: Series, s: Sample)
    requires WellKept(h) && NoneJustBefore(h) && !JustBeforeEpoch(s.at)
    ensures WellKept(Record(h, s)) && NoneJustBefore(Record(h, s))
    ensures h.lastAt.Some? ==> LastOrZero(h.lastAt) <= LastOrZero(Record(h, s).lastAt)
  {
    if |h.samples| < MAX_SAMPLES {
      RecordKeeps(h, s);
    } else {
      RecordKeepsAtCap(h, s);
    }
  }

  lemma StepKeeps(h: Series, op: Op, h': Series)
    requires WellKept(h) && NoneJustBefore(h) && Sane(op) && Step(h, op, h')
    ensures WellKept(h') && NoneJustBefore(h')
    ensures LastOrZero(h.lastAt) <= LastOrZero(h'.lastAt) || h.lastAt.None?
  {
    match op
    case Recording(s) =>
      RecordStep(h, s);
    case Backfilling(batch, now) =>
      var dropped :| Backfilled(h, batch, now, h', dropped);
      BackfillKeeps(h, batch, now, h', dropped);
      BackfillOrigin(h, batch, now, h', dropped);
    case Trimming(now) => TrimKeeps(h, now);
  }

  /** The one step that breaks the series: a sample of the first minute of 1970 is recorded beside one
      of the minute before it that stays within the cap. */
  ghost predicate Clash(h: Series, op: Op) {
    && op.Recording? && Accepts(h, op.s) && JustAfterEpoch(op.s.at)
    && exists x :: x in Newest(h.samples, MAX_SAMPLES - 1) && JustBeforeEpoch(x.at)
  }

  lemma RecordExactly(h: Series, s: Sample)
    requires WellKept(h)
    ensures WellKept(Record(h, s)) <==> !Clash(h, Recording(s))
  {
    if |h.samples| < MAX_SAMPLES {
      RecordKeeps(h, s);
    } else {
      RecordKeepsAtCap(h, s);
      assert Newest(h.samples, MAX_SAMPLES - 1) == h.samples[1..];
    }
  }

  predicate ClocksSet(ops: seq<Op>) {
    forall i :: 0 <= i < |ops| && ops[i].Backfilling? ==> ClockSet(ops[i].now)
  }

  lemma StepExactly(h: Series, op: Op, h': Series)
    requires WellKept(h) && Step(h, op, h') && (op.Backfilling? ==> ClockSet(op.now))
    ensures WellKept(h') <==> !Clash(h, op)
  {
    match op
    case Recording(s) => RecordExactly(h, s);
    case Backfilling(batch, now) =>
      var dropped :| Backfilled(h, batch, now, h', dropped);
      BackfillKeeps(h, batch, now, h', dropped);
    case Trimming(now) => TrimKeeps(h, now);
  }

  ghost predicate KeptAt(hs: seq<Series>, n: nat) {
    n < |hs| && WellKept(hs[n])
  }

  ghost predicate ClashAt(ops: seq<Op>, hs: seq<Series>, n: nat) {
    n < |ops| && n < |hs| && Clash(hs[n], ops[n])
  }

  lemma {:induction false} KeptUpTo(ops: seq<Op>, hs: seq<Series>, n: nat)
    requires Run(ops, hs) && WellKept(hs[0]) && ClocksSet(ops) && n <= |ops|
    requires forall i: nat :: i < n ==> !ClashAt(ops, hs, i)
    ensures KeptAt(hs, n)
  {
    if n > 0 {
      KeptUpTo(ops, hs, n - 1);
      StepExactly(hs[n - 1], ops[n - 1], hs[n]);
      assert !ClashAt(ops, hs, n - 1);
    }
  }

  /** Over every interleaving of records, backfills and trims, a server's series stays in time order,
      holds one sample a minute and never runs past `lastAt`, exactly if no step clashes at the epoch. */
  lemma OneSamplePerMinute(ops: seq<Op>, hs: seq<Series>)
    requires Run(ops, hs) && WellKept(hs[0]) && ClocksSet(ops)
    ensures (forall n: nat :: n <= |ops| ==> KeptAt(hs, n)) <==> (forall i: nat :: i < |ops| ==> !ClashAt(ops, hs, i))
  {
    if forall i: nat :: i < |ops| ==> !ClashAt(ops, hs, i) {
      forall n: nat | n <= |ops| ensures KeptAt(hs, n) {
        KeptUpTo(ops, hs, n);
      }
    } else {
      var i: nat :| i < |ops| && ClashAt(ops, hs, i);
      if KeptAt(hs, i) {
        StepExactly(hs[i], ops[i], hs[i + 1]);
        assert !KeptAt(hs, i + 1);
      }
    }
  }

  /** So it always does where no sample of the last minute before 1970 is ever offered. */
  lemma {:induction false} AlwaysKeptSinceEpoch(ops: seq<Op>, hs: seq<Series>, n: nat)
    requires Run(ops, hs) && WellKept(hs[0]) && NoneJustBefore(hs[0]) && n <= |ops|
    requires forall i :: 0 <= i < |ops| ==> Sane(ops[i])
    ensures WellKept(hs[n]) && NoneJustBefore(hs[n])
  {
    if n > 0 {
      AlwaysKeptSinceEpoch(ops, hs, n - 1);
      StepKeeps(hs[n - 1], ops[n - 1], hs[n]);
    }
  }

  // ------------------------------------------- re-sent and re-cut handovers

  datatype Chunk = Chunk(batch: seq<Sample>, now: Time)

  ghost predicate HandoverAt(chunks: seq<Chunk>, hs: seq<Series>, i: nat)
    requires i < |chunks| && |hs| == |chunks| + 1
  {
    Step(hs[i], Backfilling(chunks[i].batch, chunks[i].now), hs[i + 1]) && ClockSet(chunks[i].now)
  }

  ghost predicate Handovers(chunks: seq<Chunk>, hs: seq<Series>) {
    |hs| == |chunks| + 1 && forall i :: 0 <= i < |chunks| ==> HandoverAt(chunks, hs, i)
  }

  /** The minutes the first n chunks were in time to deliver. */
  ghost function Offered(chunks: seq<Chunk>, n: nat): set<int>
    requires n <= |chunks|
  {
    if n == 0 then {} else Offered(chunks, n - 1) + New(chunks, n - 1)
  }

  ghost predicate Holds(h: Series, minutes: set<int>) {
    WellKept(h) && Minutes(h.samples) == minutes
  }

  /** The minutes chunk i was in time to deliver. */
  ghost function New(chunks: seq<Chunk>, i: nat): set<int>
    requires i < |chunks|
  {
    AdmissibleMinutes(chunks[i].batch, chunks[i].now)
  }

  predicate Fits(minutes: set<int>) {
    |minutes| <= MAX_SAMPLES
  }

  /** The minutes held at first with those offered by the first n chunks. */
  ghost function Joined(before: set<int>, chunks: seq<Chunk>, n: nat): set<int>
    requires n <= |chunks|
  {
    if n == 0 then before else Joined(before, chunks, n - 1) + New(chunks, n - 1)
  }

  lemma {:induction false} JoinedIs(before: set<int>, chunks: seq<Chunk>, n: nat)
    requires n <= |chunks|
    ensures Joined(before, chunks, n) == before + Offered(chunks, n)
  {
    if n > 0 {
      JoinedIs(before, chunks, n - 1);
    }
  }

  lemma FewerFit(a: set<int>, b: set<int>)
    requires Fits(a + b)
    ensures Fits(a)
  {
    assert a + b == a + (b - a);
  }

  /** While they fit, the minutes held after any number of backfills are the
      ones held before plus the ones offered. */
  lemma HandoverMinutes(chunks: seq<Chunk>, hs: seq<Series>, before: set<int>, n: nat)
    requires Handovers(chunks, hs) && Holds(hs[0], before) && n <= |chunks|
    requires Fits(before + Offered(chunks, n))
    ensures Holds(hs[n], before + Offered(chunks, n))
  {
    JoinedIs(before, chunks, n);
    HandoverJoined(chunks, hs, before, n);
  }

  lemma {:induction false} HandoverJoined(chunks: seq<Chunk>, hs: seq<Series>, before: set<int>, n: nat)
    requires Handovers(chunks, hs) && Holds(hs[0], before) && n <= |chunks|
    requires Fits(Joined(before, chunks, n))
    ensures Holds(hs[n], Joined(before, chunks, n))
  {
    if n > 0 {
      FewerFit(Joined(before, chunks, n - 1), New(chunks, n - 1));
      HandoverJoined(chunks, hs, before, n - 1);
      HandoverOne(chunks, hs, Joined(before, chunks, n - 1), n - 1);
    }
  }

  lemma HandoverOne(chunks: seq<Chunk>, hs: seq<Series>, before: set<int>, i: nat)
    requires Handovers(chunks, hs) && i < |chunks| && Holds(hs[i], before)
    requires Fits(before + New(chunks, i))
    ensures Holds(hs[i + 1], before + New(chunks, i))
    ensures forall x :: x in hs[i].samples ==> x in hs[i + 1].samples
  {
    assert HandoverAt(chunks, hs, i);
    var h, h', c := hs[i], hs[i + 1], chunks[i];
    var dropped :| Backfilled(h, c.batch, c.now, h', dropped);
    BackfillKeeps(h, c.batch, c.now, h', dropped);
    FitsWithoutDropping(h, c.batch, c.now, h', dropped);
  }

  lemma FitsWithoutDropping(h: Series, batch: seq<Sample>, now: Time, h': Series, dropped: seq<Sample>)
    requires WellKept(h) && ClockSet(now)
    requires Backfilled(h, batch, now, h', dropped)
    requires Fits(Minutes(h.samples) + AdmissibleMinutes(batch, now))
    ensures dropped == []
    ensures forall x :: x in h.samples ==> x in h'.samples
  {
    var all := Admit(h.samples, batch, now);
    Admitted(h.samples, batch, now);
    DistinctIsCounting(all);
    if h' != h {
      SameElements(dropped + h'.samples, all);
      assert forall x :: x in h.samples ==> x in all;
    }
  }

  /** However a set of samples is cut, repeated and ordered into chunks, the
      same minutes end up occupied. */
  lemma ChunkingIsIrrelevant(a: seq<Chunk>, has: seq<Series>, b: seq<Chunk>, hbs: seq<Series>, now: Time)
    requires Handovers(a, has) && Handovers(b, hbs) && has[0] == hbs[0] && WellKept(has[0])
    requires forall c :: c in a || c in b ==> c.now == now
    requires forall x :: Delivers(a, |a|, x) <==> Delivers(b, |b|, x)
    requires Fits(Minutes(has[0].samples) + Offered(a, |a|))
    ensures Minutes(has[|a|].samples) == Minutes(hbs[|b|].samples)
  {
    SameOffer(a, b, now);
    HandoverMinutes(a, has, Minutes(has[0].samples), |a|);
    HandoverMinutes(b, hbs, Minutes(has[0].samples), |b|);
  }

  lemma SameOffer(a: seq<Chunk>, b: seq<Chunk>, now: Time)
    requires forall c :: c in a || c in b ==> c.now == now
    requires forall x :: Delivers(a, |a|, x) <==> Delivers(b, |b|, x)
    ensures Offered(a, |a|) == Offered(b, |b|)
  {
    OfferedIsDelivered(a, |a|, now);
    OfferedIsDelivered(b, |b|, now);
    forall k: int ensures k in Offered(a, |a|) <==> k in Offered(b, |b|) {}
  }

  ghost predicate Delivers(chunks: seq<Chunk>, n: nat, x: Sample)
    requires n <= |chunks|
  {
    exists i :: 0 <= i < n && x in chunks[i].batch
  }

  lemma {:induction false} OfferedIsDelivered(chunks: seq<Chunk>, n: nat, now: Time)
    requires n <= |chunks| && forall c :: c in chunks ==> c.now == now
    ensures forall k :: k in Offered(chunks, n) <==>
              exists x :: Delivers(chunks, n, x) && Admissible(x, now) && Minute(x.at) == k
  {
    if n > 0 {
      OfferedIsDelivered(chunks, n - 1, now);
      assert chunks[n - 1] in chunks;
      forall x: Sample
        ensures Delivers(chunks, n, x) <==> Delivers(chunks, n - 1, x) || x in chunks[n - 1].batch
      {
      }
    }
  }
}
