/** Choosing the two watchers: pinned servers first, then the most stable ones,
    the second preferably in another network. */
module Election {
  import opened Base
  import opened Samples

  /** An online candidate. `network` is its egress address, or its IPv6 /64; blank
      when unknown. */
  datatype Vps = Vps(id: string, createdAt: Time, network: string)

  type Coverage = map<string, nat>

  function CoverageOf(cov: Coverage, v: Vps): nat { if v.id in cov then cov[v.id] else 0 }

  // ---------------------------------------------------------------- ranking

  predicate Less(a: string, b: string) {
    if b == "" then false
    else if a == "" then true
    else if a[0] != b[0] then a[0] < b[0]
    else Less(a[1..], b[1..])
  }

  lemma {:induction false} LessTotal(a: string, b: string)
    ensures Less(a, b) || Less(b, a) || a == b
    ensures !(Less(a, b) && Less(b, a))
    ensures a == b ==> !Less(a, b)
  {
    if a != "" && b != "" && a[0] == b[0] {
      LessTotal(a[1..], b[1..]);
      assert a == [a[0]] + a[1..] && b == [b[0]] + b[1..];
    }
  }

  lemma {:induction false} LessTransitive(a: string, b: string, c: string)
    requires Less(a, b) && Less(b, c)
    ensures Less(a, c)
  {
    if a != "" && a[0] == b[0] == c[0] {
      LessTransitive(a[1..], b[1..], c[1..]);
    }
  }

  /** Better coverage first, then the older server, then the smaller id. */
  predicate Before(cov: Coverage, a: Vps, b: Vps) {
    if CoverageOf(cov, a) != CoverageOf(cov, b) then CoverageOf(cov, a) > CoverageOf(cov, b)
    else if a.createdAt != b.createdAt then a.createdAt < b.createdAt
    else Less(a.id, b.id)
  }

  lemma BeforeTotal(cov: Coverage, a: Vps, b: Vps)
    ensures Before(cov, a, b) || Before(cov, b, a) || a.id == b.id
    ensures !(Before(cov, a, b) && Before(cov, b, a))
  {
    LessTotal(a.id, b.id);
  }

  lemma BeforeTransitive(cov: Coverage, a: Vps, b: Vps, c: Vps)
    requires Before(cov, a, b) && Before(cov, b, c)
    ensures Before(cov, a, c)
  {
    if Less(a.id, b.id) && Less(b.id, c.id) {
      LessTransitive(a.id, b.id, c.id);
    }
  }

  ghost predicate Ranked(cov: Coverage, r: seq<Vps>) {
    forall i, j :: 0 <= i < j < |r| ==> Before(cov, r[i], r[j])
  }

  ghost predicate UniqueIds(s: seq<Vps>) {
    forall i, j :: 0 <= i < j < |s| ==> s[i].id != s[j].id
  }

  // ------------------------------------------------------- the choice itself

  predicate SameNetwork(a: Vps, b: Vps) { a.network != "" && a.network == b.network }

  predicate Eligible(taken: Option<Vps>, v: Vps) { taken.None? || v.id != taken.value.id }

  predicate Preferred(taken: Option<Vps>, v: Vps) {
    Eligible(taken, v) && (taken.None? || !SameNetwork(v, taken.value))
  }

  /** The most stable candidate other than the one taken, outside its network when
      there is one. */
  ghost predicate IsBest(cov: Coverage, cands: set<Vps>, taken: Option<Vps>, r: Option<Vps>) {
    if r.None? then forall v :: v in cands ==> !Eligible(taken, v)
    else
      && r.value in cands && Eligible(taken, r.value)
      && (forall v :: v in cands && Preferred(taken, v) ==>
            Preferred(taken, r.value) && (v == r.value || Before(cov, r.value, v)))
      && (!Preferred(taken, r.value) ==>
            forall v :: v in cands && Eligible(taken, v) ==> v == r.value || Before(cov, r.value, v))
  }

  ghost predicate IsPinned(cands: set<Vps>, pin: string, r: Option<Vps>) {
    if r.None? then pin == "" || forall v :: v in cands ==> v.id != pin
    else pin != "" && r.value in cands && r.value.id == pin
  }

  /** The election as a relation on the set of candidates: p and q are the seats,
      pinP and pinS the pins that are online, the second void if it repeats the first. */
  ghost predicate Elected(cov: Coverage, cands: set<Vps>, pinP: Option<Vps>, pinS: Option<Vps>,
                          p: Option<Vps>, q: Option<Vps>)
  {
    && (if pinP.Some? then p == pinP else IsBest(cov, cands, pinS, p))
    && (if pinS.Some? then q == pinS else IsBest(cov, cands, p, q))
  }

  function SecondPin(pinP: Option<Vps>, pinS: Option<Vps>): Option<Vps> {
    if pinP.Some? && pinS.Some? && pinP.value.id == pinS.value.id then None else pinS
  }

  /** The candidate a pin names, if it is online. */
  ghost function Pinned(cands: set<Vps>, pin: string): (r: Option<Vps>)
    ensures IsPinned(cands, pin, r)
  {
    if pin != "" && exists v :: v in cands && v.id == pin then
      var v :| v in cands && v.id == pin;
      Some(v)
    else None
  }

  /** What the election may return for the candidates and pins it is given. */
  ghost predicate Seats(cov: Coverage, cands: set<Vps>, pinP: string, pinS: string, p: Option<Vps>, q: Option<Vps>) {
    var onP, onS := Pinned(cands, pinP), Pinned(cands, pinS);
    Elected(cov, cands, onP, SecondPin(onP, onS), p, q)
  }

  ghost predicate DistinctIds(cands: set<Vps>) {
    forall a, b :: a in cands && b in cands && a.id == b.id ==> a == b
  }

  function AsSet(s: seq<Vps>): set<Vps> { set v | v in s }

  // -------------------------------------------------------------- the method

  method Rank(cov: Coverage, cands: seq<Vps>) returns (r: seq<Vps>)
    requires UniqueIds(cands)
    ensures Ranked(cov, r) && AsSet(r) == AsSet(cands)
  {
    r := [];
    for i := 0 to |cands|
      invariant Ranked(cov, r) && AsSet(r) == AsSet(cands[..i])
    {
      var v := cands[i];
      var k := |r|;
      assert forall j :: 0 <= j < |r| ==> r[j] in AsSet(cands[..i]);
      while k > 0 && Before(cov, v, r[k - 1])
        invariant 0 <= k <= |r|
        invariant k < |r| ==> Before(cov, v, r[k])
      {
        k := k - 1;
      }
      if k > 0 {
        assert r[k - 1] in cands[..i];
        BeforeTotal(cov, r[k - 1], v);
      }
      InsertRanked(cov, r, k, v);
      assert cands[..i + 1] == cands[..i] + [v];
      r := r[..k] + [v] + r[k..];
    }
    assert cands[..|cands|] == cands;
  }

  lemma InsertRanked(cov: Coverage, r: seq<Vps>, k: nat, v: Vps)
    requires Ranked(cov, r) && k <= |r|
    requires k > 0 ==> Before(cov, r[k - 1], v)
    requires k < |r| ==> Before(cov, v, r[k])
    ensures Ranked(cov, r[..k] + [v] + r[k..])
    ensures AsSet(r[..k] + [v] + r[k..]) == AsSet(r) + {v}
  {
    forall i | 0 <= i < k ensures Before(cov, r[i], v) {
      if i < k - 1 { BeforeTransitive(cov, r[i], r[k - 1], v); }
    }
    forall i | k <= i < |r| ensures Before(cov, v, r[i]) {
      if i > k { BeforeTransitive(cov, v, r[k], r[i]); }
    }
    Inserted(cov, r, k, v);
    assert r == r[..k] + r[k..];
  }

  lemma Inserted(cov: Coverage, r: seq<Vps>, k: nat, v: Vps)
    requires Ranked(cov, r) && k <= |r|
    requires forall i :: 0 <= i < k ==> Before(cov, r[i], v)
    requires forall i :: k <= i < |r| ==> Before(cov, v, r[i])
    ensures Ranked(cov, r[..k] + [v] + r[k..])
  {
    var q := r[..k] + [v] + r[k..];
    forall i, j | 0 <= i < j < |q| ensures Before(cov, q[i], q[j]) {
      var a := if i < k then i else i - 1;
      var b := if j < k then j else j - 1;
      assert (i != k ==> q[i] == r[a]) && (j != k ==> q[j] == r[b]);
    }
  }

  method ById(r: seq<Vps>, id: string) returns (v: Option<Vps>)
    ensures IsPinned(AsSet(r), id, v)
  {
    for i := 0 to |r|
      invariant id == "" || forall j :: 0 <= j < i ==> r[j].id != id
    {
      if id != "" && r[i].id == id {
        return Some(r[i]);
      }
    }
    return None;
  }

  ghost predicate FirstEligible(r: seq<Vps>, taken: Option<Vps>, i: nat, v: Vps)
    requires i <= |r|
  {
    exists k :: (0 <= k < i && r[k] == v && Eligible(taken, v) && forall j :: 0 <= j < k ==> !Eligible(taken, r[j]))
  }

  method Best(cov: Coverage, r: seq<Vps>, taken: Option<Vps>) returns (v: Option<Vps>)
    requires Ranked(cov, r)
    ensures IsBest(cov, AsSet(r), taken, v)
  {
    var fallback: Option<Vps> := None;
    for i := 0 to |r|
      invariant forall j :: 0 <= j < i ==> !Preferred(taken, r[j])
      invariant fallback.None? ==> forall j :: 0 <= j < i ==> !Eligible(taken, r[j])
      invariant fallback.Some? ==> FirstEligible(r, taken, i, fallback.value)
    {
      var c := r[i];
      if taken.Some? && c.id == taken.value.id {
        continue;
      }
      if taken.None? || !SameNetwork(c, taken.value) {
        return Some(c);
      }
      if fallback.None? {
        fallback := Some(c);
      }
    }
    return fallback;
  }

  /** `electWatchers`. */
  method ElectWatchers(cands: seq<Vps>, cov: Coverage, pinP: string, pinS: string)
      returns (primary: Option<Vps>, secondary: Option<Vps>)
    requires UniqueIds(cands)
    ensures Seats(cov, AsSet(cands), pinP, pinS, primary, secondary)
  {
    PinnedOnce(cands, pinP);
    PinnedOnce(cands, pinS);
    if |cands| == 0 {
      return None, None;
    }
    var ranked := Rank(cov, cands);
    primary := ById(ranked, pinP);
    secondary := ById(ranked, pinS);
    if secondary.Some? && primary.Some? && secondary.value.id == primary.value.id {
      secondary := None;
    }
    if primary.None? {
      primary := Best(cov, ranked, secondary);
    }
    if secondary.None? {
      secondary := Best(cov, ranked, primary);
    }
  }

  lemma PinnedOnce(cands: seq<Vps>, pin: string)
    requires UniqueIds(cands)
    ensures forall r :: IsPinned(AsSet(cands), pin, r) ==> r == Pinned(AsSet(cands), pin)
  {
  }

  // -------------------------------------------------------------- properties

  lemma BestIsUnique(cov: Coverage, cands: set<Vps>, taken: Option<Vps>, a: Option<Vps>, b: Option<Vps>)
    requires DistinctIds(cands) && IsBest(cov, cands, taken, a) && IsBest(cov, cands, taken, b)
    ensures a == b
  {
    if a.Some? && b.Some? {
      BeforeTotal(cov, a.value, b.value);
    }
  }

  /** The result depends on the candidates only, not on the order they come in. */
  lemma OrderDoesNotMatter(cov: Coverage, cands: set<Vps>, pinP: string, pinS: string,
                           p: Option<Vps>, q: Option<Vps>, p': Option<Vps>, q': Option<Vps>)
    requires DistinctIds(cands)
    requires Seats(cov, cands, pinP, pinS, p, q) && Seats(cov, cands, pinP, pinS, p', q')
    ensures p == p' && q == q'
  {
    var onP, onS := Pinned(cands, pinP), Pinned(cands, pinS);
    if onP.None? {
      BestIsUnique(cov, cands, SecondPin(onP, onS), p, p');
    }
    if SecondPin(onP, onS).None? {
      BestIsUnique(cov, cands, p, q, q');
    }
  }

  ghost predicate TwoOrMore(cands: set<Vps>) {
    exists a, b :: a in cands && b in cands && a != b
  }

  /** The seats differ, and both are filled exactly when there are two candidates;
      online pins keep their seats when distinct. A lone candidate gets the first
      seat, unless it is pinned to the second only: then the first stays empty. */
  lemma SeatsFilled(cov: Coverage, cands: set<Vps>, pinP: string, pinS: string, p: Option<Vps>, q: Option<Vps>)
    requires DistinctIds(cands) && Seats(cov, cands, pinP, pinS, p, q)
    ensures p.Some? && q.Some? <==> TwoOrMore(cands)
    ensures p.Some? && q.Some? ==> p.value in cands && q.value in cands && p.value.id != q.value.id
    ensures var onP, onS := Pinned(cands, pinP), Pinned(cands, pinS);
            && (cands != {} ==> (p.None? <==> onP.None? && onS.Some? && cands == {onS.value}))
            && (onP.Some? ==> p == onP)
            && (onS.Some? && (onP.Some? ==> onP.value.id != onS.value.id) ==> q == onS)
  {
    var onP, onS := Pinned(cands, pinP), Pinned(cands, pinS);
    if TwoOrMore(cands) {
      var a, b :| a in cands && b in cands && a != b;
      var s := SecondPin(onP, onS);
      assert Eligible(s, a) || Eligible(s, b);
      assert Eligible(p, a) || Eligible(p, b);
    } else if v :| v in cands {
      assert forall w :: w in cands ==> w == v;
      assert cands == {v};
      assert Eligible(None, v);
    }
  }

  /** Network diversity, exactly: the pair shares a known network if and only if
      both seats are pinned that way, or every two candidates share one. */
  lemma NetworkDiversity(cov: Coverage, cands: set<Vps>, pinP: string, pinS: string, p: Option<Vps>, q: Option<Vps>)
    requires DistinctIds(cands) && Seats(cov, cands, pinP, pinS, p, q) && p.Some? && q.Some?
    ensures var onP, onS := Pinned(cands, pinP), Pinned(cands, pinS);
            SameNetwork(p.value, q.value) <==>
              if onP.Some? && SecondPin(onP, onS).Some? then SameNetwork(onP.value, onS.value)
              else forall a, b :: a in cands && b in cands && a != b ==> SameNetwork(a, b)
  {
    SeatsFilled(cov, cands, pinP, pinS, p, q);
    var onP, onS := Pinned(cands, pinP), Pinned(cands, pinS);
    if !(onP.Some? && SecondPin(onP, onS).Some?) && SameNetwork(p.value, q.value) {
      var first := if onP.None? && SecondPin(onP, onS).Some? then q else p;
      var chosen := if onP.None? && SecondPin(onP, onS).Some? then p else q;
      assert IsBest(cov, cands, first, chosen) && !Preferred(first, chosen.value);
      forall v | v in cands && v != first.value ensures SameNetwork(v, first.value) {
        assert !Preferred(first, v);
      }
    }
  }

  // ------------------------------------------------------------- stability

  /** Where two strings first differ, or the shorter one ends. */
  ghost predicate DifferAt(a: string, b: string, k: nat) {
    k <= |a| && k <= |b| && a[..k] == b[..k] && k < |b| && (k == |a| || a[k] < b[k])
  }

  /** The order of ids is that of their first difference. */
  lemma {:induction false} LessExactly(a: string, b: string)
    ensures Less(a, b) <==> exists k: nat :: DifferAt(a, b, k)
  {
    if a == "" && b != "" {
      assert DifferAt(a, b, 0);
    } else if a != "" && b != "" && a[0] < b[0] {
      assert DifferAt(a, b, 0);
    } else if a != "" && b != "" && a[0] == b[0] {
      LessExactly(a[1..], b[1..]);
      if k: nat :| DifferAt(a[1..], b[1..], k) {
        assert a[..k + 1] == [a[0]] + a[1..][..k] && b[..k + 1] == [b[0]] + b[1..][..k];
        assert DifferAt(a, b, k + 1);
      }
      if k: nat :| DifferAt(a, b, k) {
        assert k > 0;
        assert a[1..][..k - 1] == a[..k][1..] && b[1..][..k - 1] == b[..k][1..];
        assert DifferAt(a[1..], b[1..], k - 1);
      }
    }
  }

  /** With no pin online the first seat goes to a candidate nobody covers better, nobody as covered is
      older than, and nobody as covered and old has a smaller id than. */
  lemma MostStableFirst(cov: Coverage, cands: set<Vps>, pinP: string, pinS: string, p: Option<Vps>, q: Option<Vps>,
                        v: Vps)
    requires Seats(cov, cands, pinP, pinS, p, q) && Pinned(cands, pinP).None? && Pinned(cands, pinS).None?
    requires v in cands
    ensures p.Some? && p.value in cands && CoverageOf(cov, p.value) >= CoverageOf(cov, v)
    ensures CoverageOf(cov, p.value) == CoverageOf(cov, v) ==> p.value.createdAt <= v.createdAt
    ensures CoverageOf(cov, p.value) == CoverageOf(cov, v) && p.value.createdAt == v.createdAt ==>
      p.value == v || Less(p.value.id, v.id)
  {
    assert Eligible(None, v) && Preferred(None, v);
  }

  /** With the second seat to choose, it goes outside the first one's network if any candidate is there,
      and then to one that nobody there comes before. */
  lemma MostStableElsewhere(cov: Coverage, cands: set<Vps>, pinP: string, pinS: string, p: Option<Vps>, q: Option<Vps>,
                            v: Vps)
    requires Seats(cov, cands, pinP, pinS, p, q) && p.Some? && SecondPin(Pinned(cands, pinP), Pinned(cands, pinS)).None?
    requires v in cands && v.id != p.value.id && (v.network == "" || v.network != p.value.network)
    ensures q.Some? && q.value in cands && q.value.id != p.value.id
    ensures q.value.network == "" || q.value.network != p.value.network
    ensures CoverageOf(cov, q.value) >= CoverageOf(cov, v)
    ensures CoverageOf(cov, q.value) == CoverageOf(cov, v) ==> q.value.createdAt <= v.createdAt
  {
    assert Eligible(p, v) && Preferred(p, v);
  }
}
