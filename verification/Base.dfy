/** Wrappers and the sort used by several components. */
module Base {

  datatype Option<+T> = None | Some(value: T)

  datatype Result<+T> = Ok(value: T) | Err(error: string)

  /** Go's `sort.Slice` is not stable: all a caller may rely on is that the
      result is ordered by the key and is a rearrangement of the input. */
  ghost predicate SortedBy<T>(s: seq<T>, key: T -> int) {
    forall i, j :: 0 <= i < j < |s| ==> key(s[i]) <= key(s[j])
  }

  ghost predicate SortedPermutation<T>(r: seq<T>, s: seq<T>, key: T -> int) {
    SortedBy(r, key) && multiset(r) == multiset(s)
  }

  function InsertAt<T>(r: seq<T>, k: nat, x: T): seq<T>
    requires k <= |r|
  {
    r[..k] + [x] + r[k..]
  }

  lemma InsertSorted<T>(r: seq<T>, k: nat, x: T, key: T -> int)
    requires SortedBy(r, key) && k <= |r|
    requires k > 0 ==> key(r[k - 1]) <= key(x)
    requires k < |r| ==> key(x) <= key(r[k])
    ensures SortedBy(InsertAt(r, k, x), key)
  {
    var q := InsertAt(r, k, x);
    assert forall i :: 0 <= i < k ==> q[i] == r[i] && key(r[i]) <= key(x);
    assert forall i :: k < i < |q| ==> q[i] == r[i - 1] && key(x) <= key(r[i - 1]);
  }

  lemma InsertMultiset<T>(r: seq<T>, k: nat, x: T)
    requires k <= |r|
    ensures multiset(InsertAt(r, k, x)) == multiset(r) + multiset{x}
  {
    assert r == r[..k] + r[k..];
  }

  method Position<T>(r: seq<T>, x: T, key: T -> int) returns (k: nat)
    ensures k <= |r|
    ensures k > 0 ==> key(r[k - 1]) <= key(x)
    ensures k < |r| ==> key(x) <= key(r[k])
  {
    k := |r|;
    while k > 0 && key(x) < key(r[k - 1])
      invariant k <= |r|
      invariant k < |r| ==> key(x) < key(r[k])
    {
      k := k - 1;
    }
  }

  method SortSlice<T>(s: seq<T>, key: T -> int) returns (r: seq<T>)
    ensures SortedPermutation(r, s, key)
  {
    if s == [] {
      return [];
    }
    var n := |s| - 1;
    var q := SortSlice(s[..n], key);
    var k := Position(q, s[n], key);
    r := InsertAt(q, k, s[n]);
    InsertSorted(q, k, s[n], key);
    InsertMultiset(q, k, s[n]);
    SplitLast(s);
  }

  lemma SplitLast<T>(s: seq<T>)
    requires s != []
    ensures multiset(s) == multiset(s[..|s| - 1]) + multiset{s[|s| - 1]}
  {
    assert s == s[..|s| - 1] + [s[|s| - 1]];
  }

  lemma SameElements<T>(r: seq<T>, s: seq<T>)
    requires multiset(r) == multiset(s)
    ensures |r| == |s|
    ensures forall x :: x in r <==> x in s
  {
    assert |multiset(r)| == |multiset(s)|;
    forall x ensures x in r <==> x in s {
      assert x in r <==> x in multiset(r);
      assert x in s <==> x in multiset(s);
    }
  }

  /** A sequence less its k-th element. */
  function Without<T>(s: seq<T>, k: nat): seq<T>
    requires k < |s|
  {
    seq(|s| - 1, i requires 0 <= i < |s| - 1 => if i < k then s[i] else s[i + 1])
  }

  lemma WithoutMembers<T>(s: seq<T>, k: nat)
    requires k < |s|
    ensures forall x :: x in s <==> x in Without(s, k) || x == s[k]
  {
    var r := Without(s, k);
    forall x | x in s && x != s[k] ensures x in r {
      var i :| 0 <= i < |s| && s[i] == x;
      assert r[if i < k then i else i - 1] == x;
    }
  }

  lemma WithoutIs<T>(s: seq<T>, k: nat)
    requires k < |s|
    ensures s[..k] + s[k + 1..] == Without(s, k)
  {
  }

  lemma Parted<T>(s: seq<T>, k: nat)
    requires k < |s|
    ensures s == s[..k] + [s[k]] + s[k + 1..]
  {
  }

  /** The last n elements, or all of them. */
  function Newest<T>(s: seq<T>, n: nat): seq<T> {
    if |s| > n then s[|s| - n..] else s
  }

  /** What `Newest` leaves behind. */
  function Older<T>(s: seq<T>, n: nat): seq<T> {
    if |s| > n then s[..|s| - n] else []
  }
}
