/** Shared vocabulary of the pipeline model: bytes, optional values, results
    and Python's clamping slice. */
module Common {

  /** One element of a Python `bytes` / `bytearray`. */
  type byte = b: int | 0 <= b < 256

  datatype Option<+T> = None | Some(value: T)

  /** A value, or the exception the source raises instead of returning. */
  datatype Result<+T, +E> = Ok(value: T) | Err(error: E)

  function Min(a: int, b: int): int { if a <= b then a else b }

  function Max(a: int, b: int): int { if a <= b then b else a }

  /** Python's `s[a:b]` for non-negative bounds: both ends are clamped to the
      length and an inverted range is empty, so it never fails. */
  function Slice<T>(s: seq<T>, a: nat, b: nat): (r: seq<T>)
    ensures |r| == if a <= b && a <= |s| then Min(b, |s|) - a else 0
    ensures forall i :: 0 <= i < |r| ==> r[i] == s[a + i]
    ensures b <= |s| && a <= b ==> r == s[a..b]
  {
    var lo := Min(a, |s|);
    var hi := Max(lo, Min(b, |s|));
    s[lo..hi]
  }

  /** No element occurs twice. */
  predicate NoDuplicates<T(==)>(s: seq<T>)
  {
    forall i, j :: 0 <= i < j < |s| ==> s[i] != s[j]
  }

  /** Appending an element not yet present keeps the elements distinct. */
  lemma NoDuplicatesSnoc<T>(s: seq<T>, x: T)
    requires NoDuplicates(s) && x !in s
    ensures NoDuplicates(s + [x])
  {
    var t := s + [x];
    forall i, j | 0 <= i < j < |t|
      ensures t[i] != t[j]
    {
      if j == |s| {
        assert t[i] == s[i] && s[i] in s;
      }
    }
  }

  /** The half-open integer interval [lo, lo + n) as a set. */
  function Interval(lo: int, n: nat): (r: set<int>)
    ensures forall x :: x in r <==> lo <= x < lo + n
    ensures |r| == n
  {
    if n == 0 then {} else
      var rest := Interval(lo, n - 1);
      assert lo + n - 1 !in rest;
      rest + {lo + n - 1}
  }

  /** Appending an element keeps every earlier element in place. */
  lemma SnocIndex<T>(s: seq<T>, x: T)
    ensures |s + [x]| == |s| + 1 && (s + [x])[|s|] == x
    ensures forall k :: 0 <= k < |s| ==> (s + [x])[k] == s[k]
  {
  }

  /** A non-empty sequence is its front followed by its last element. */
  lemma SplitLast<T>(q: seq<T>)
    requires |q| > 0
    ensures q == q[..|q| - 1] + [q[|q| - 1]]
  {
  }

  /** A set of integers inside an interval of length n has at most n members. */
  lemma CardinalityInInterval(s: set<int>, lo: int, n: nat)
    requires forall x :: x in s ==> lo <= x < lo + n
    ensures |s| <= n
  {
    var whole := Interval(lo, n);
    assert s <= whole;
    SubsetCardinality(s, whole);
  }

  lemma {:induction false} SubsetCardinality<T>(a: set<T>, b: set<T>)
    requires a <= b
    ensures |a| <= |b|
  {
    if a != {} {
      var x :| x in a;
      SubsetCardinality(a - {x}, b - {x});
    }
  }

  /** `[f(i, x) for i, x in enumerate(xs)]`. */
  function MapIndexed<A, B>(xs: seq<A>, f: (nat, A) -> B): (ys: seq<B>)
    ensures |ys| == |xs|
  {
    if xs == [] then [] else MapIndexed(xs[..|xs| - 1], f) + [f(|xs| - 1, xs[|xs| - 1])]
  }

  /** Element k of the mapped sequence is f of k and element k. */
  lemma {:induction false} MapIndexedAt<A, B>(xs: seq<A>, f: (nat, A) -> B, k: nat)
    requires k < |xs|
    ensures MapIndexed(xs, f)[k] == f(k, xs[k])
    decreases |xs|
  {
    var n := |xs| - 1;
    if k < n {
      assert xs[..n][k] == xs[k];
      MapIndexedAt(xs[..n], f, k);
    }
  }

  /** Mapping one more element adds one more result. */
  lemma MapIndexedSnoc<A, B>(xs: seq<A>, i: nat, f: (nat, A) -> B)
    requires i < |xs|
    ensures MapIndexed(xs[..i + 1], f) == MapIndexed(xs[..i], f) + [f(i, xs[i])]
  {
    assert xs[..i + 1][..i] == xs[..i];
  }

  /** `{f(x) for x in xs if f(x) is not None}`. */
  function Gather<T>(xs: seq<T>, f: T -> Option<int>): set<int>
  {
    if xs == [] then {}
    else
      var y := f(xs[|xs| - 1]);
      Gather(xs[..|xs| - 1], f) + (if y.Some? then {y.value} else {})
  }

  /** Every value `f` gives an element is gathered. */
  lemma {:induction false} GatherHas<T>(xs: seq<T>, f: T -> Option<int>, i: nat)
    requires i < |xs| && f(xs[i]).Some?
    ensures f(xs[i]).value in Gather(xs, f)
    decreases |xs|
  {
    var init := xs[..|xs| - 1];
    if i < |init| {
      assert init[i] == xs[i];
      GatherHas(init, f, i);
    }
  }

  /** Every gathered value is the value `f` gives some element. */
  lemma {:induction false} GatherFrom<T>(xs: seq<T>, f: T -> Option<int>, x: int) returns (i: nat)
    requires x in Gather(xs, f)
    ensures i < |xs| && f(xs[i]) == Some(x)
    decreases |xs|
  {
    var init := xs[..|xs| - 1];
    if x in Gather(init, f) {
      i := GatherFrom(init, f, x);
      assert init[i] == xs[i];
    } else {
      i := |xs| - 1;
    }
  }

  /** Gathering one more element adds its value, if it has one. */
  lemma GatherSnoc<T>(xs: seq<T>, i: nat, f: T -> Option<int>)
    requires i < |xs|
    ensures Gather(xs[..i + 1], f) == Gather(xs[..i], f) + (if f(xs[i]).Some? then {f(xs[i]).value} else {})
  {
    assert xs[..i + 1][..i] == xs[..i];
  }
}
