/** Optional values, money held in integer paise, the rounding rule that
    stands in for `round(a / n, 2)`, and sums over sequences. */
module Basics {

  /** A database column that may hold NULL. */
  datatype Option<T> = None | Some(value: T)

  /** A stored amount that may be missing reads as zero (`x or 0`). */
  function OrZero(x: Option<int>): int
  {
    match x
    case None => 0
    case Some(v) => v
  }

  function Abs(x: int): nat
  {
    if x < 0 then -x else x
  }

  /** `max(0.0, x)`. */
  function Max0(x: int): int
  {
    if x < 0 then 0 else x
  }

  /** `round(a / n, 2)` with both amounts held in paise: the paisa nearest to
      a / n, and on an exact half the even one. */
  function RoundDiv(a: int, n: int): (q: int)
    requires n > 0
    ensures 2 * Abs(q * n - a) <= n
    ensures 2 * Abs(q * n - a) == n ==> q % 2 == 0
    ensures a >= 0 ==> q >= 0
  {
    var f, r := a / n, a % n;
    DivFacts(a, n);
    if 2 * r < n then f
    else if 2 * r > n then f + 1
    else if f % 2 == 0 then f
    else f + 1
  }

  /** Euclidean division by a positive n, in the linear terms RoundDiv's
      proof works with. */
  lemma DivFacts(a: int, n: int)
    requires n > 0
    ensures a == (a / n) * n + a % n && 0 <= a % n < n
    ensures (a / n + 1) * n == (a / n) * n + n
    ensures a >= 0 ==> a / n >= 0
  {
  }

  /** The two clauses of RoundDiv's contract single out its result: no other
      whole number of paise is as near, or as near and even. */
  lemma RoundDivUnique(a: int, n: int, q: int)
    requires n > 0
    requires 2 * Abs(q * n - a) <= n
    requires 2 * Abs(q * n - a) == n ==> q % 2 == 0
    ensures q == RoundDiv(a, n)
  {
    NearestEvenUnique(a, n, q, RoundDiv(a, n));
  }

  /** Two whole numbers of paise that both lie within half a paisa of a / n,
      and are even when exactly half a paisa away, are equal. */
  lemma NearestEvenUnique(a: int, n: int, q: int, p: int)
    requires n > 0
    requires 2 * Abs(q * n - a) <= n && (2 * Abs(q * n - a) == n ==> q % 2 == 0)
    requires 2 * Abs(p * n - a) <= n && (2 * Abs(p * n - a) == n ==> p % 2 == 0)
    ensures q == p
  {
    if q != p {
      var d := q - p;
      var e1, e2 := q * n - a, p * n - a;
      assert e1 - e2 == d * n by { assert q * n - p * n == (q - p) * n; }
      UnitMultiple(d, n);
      assert false;
    }
  }

  /** A nonzero multiple of n that is no larger than n is n or -n. */
  lemma UnitMultiple(d: int, n: int)
    requires n > 0 && d != 0 && Abs(d * n) <= n
    ensures d == 1 || d == -1
  {
  }

  /** Halving a debt and halving a refund round to the same size. */
  lemma RoundDivNegate(a: int, n: int)
    requires n > 0
    ensures RoundDiv(-a, n) == -RoundDiv(a, n)
  {
    var p := RoundDiv(a, n);
    assert (-p) * n - (-a) == -(p * n - a);
    RoundDivUnique(-a, n, -p);
  }

  /** An amount that divides evenly is split without rounding. */
  lemma RoundDivExact(k: int, n: int)
    requires n > 0
    ensures RoundDiv(k * n, n) == k
  {
    RoundDivUnique(k * n, n, k);
  }

  /** No element occurs twice. */
  predicate Distinct<T(==)>(s: seq<T>)
  {
    forall i, j :: 0 <= i < j < |s| ==> s[i] != s[j]
  }

  /** Dropping the last element keeps the rest distinct, and the last
      element is not among them. */
  lemma DistinctInit<T>(s: seq<T>)
    requires Distinct(s) && |s| > 0
    ensures Distinct(s[..|s| - 1]) && s[|s| - 1] !in s[..|s| - 1]
  {
  }

  /** A prefix one longer is the prefix with the next element appended. */
  lemma TakeSnoc<T>(s: seq<T>, i: nat)
    requires i < |s|
    ensures s[..i + 1] == s[..i] + [s[i]]
  {
  }

  /** `s.index(x)`: where x first occurs in s. */
  function IndexOf<T(==)>(s: seq<T>, x: T): (i: nat)
    requires x in s
    ensures i < |s| && s[i] == x
    ensures forall j :: 0 <= j < i ==> s[j] != x
  {
    if s[0] == x then 0 else 1 + IndexOf(s[1..], x)
  }

  /** In a sequence without repeats, an element is found where it is. */
  lemma IndexOfDistinct<T>(s: seq<T>, i: nat)
    requires Distinct(s) && i < |s|
    ensures IndexOf(s, s[i]) == i
  {
  }

  /** An element occurs at most once in a sequence without repeats. */
  lemma {:induction false} DistinctCount<T>(s: seq<T>, x: T)
    requires Distinct(s)
    ensures multiset(s)[x] <= 1
    decreases |s|
  {
    if |s| > 0 {
      var k := |s| - 1;
      DistinctCount(s[..k], x);
      assert s == s[..k] + [s[k]];
      assert s[k] !in s[..k];
    }
  }

  /** Rearranging a sequence without repeats gives one without repeats. */
  lemma PermutationDistinct<T>(s: seq<T>, t: seq<T>)
    requires Distinct(s) && multiset(s) == multiset(t)
    ensures Distinct(t)
  {
    forall i, j | 0 <= i < j < |t|
      ensures t[i] != t[j]
    {
      DistinctCount(s, t[i]);
      assert t == t[..j] + t[j..];
      assert t[i] in t[..j] && t[j] in t[j..];
    }
  }

  /** Sum of f over a sequence, accumulated from the front as the source's
      loops and generator sums do. */
  function Sum<T>(xs: seq<T>, f: T -> int): int
    decreases |xs|
  {
    if |xs| == 0 then 0 else Sum(xs[..|xs| - 1], f) + f(xs[|xs| - 1])
  }

  lemma {:induction false} SumConcat<T>(xs: seq<T>, ys: seq<T>, f: T -> int)
    ensures Sum(xs + ys, f) == Sum(xs, f) + Sum(ys, f)
    decreases |ys|
  {
    if |ys| > 0 {
      var zs := xs + ys;
      assert zs[..|zs| - 1] == xs + ys[..|ys| - 1];
      assert zs[|zs| - 1] == ys[|ys| - 1];
      SumConcat(xs, ys[..|ys| - 1], f);
    } else {
      assert xs + ys == xs;
    }
  }

  /** One more element adds its own value. */
  lemma SumSnoc<T>(xs: seq<T>, x: T, f: T -> int)
    ensures Sum(xs + [x], f) == Sum(xs, f) + f(x)
  {
    assert (xs + [x])[..|xs|] == xs;
  }

  /** Sum of a sequence of amounts (`sum(selected_amounts)`). */
  function Total(xs: seq<int>): int
    decreases |xs|
  {
    if |xs| == 0 then 0 else Total(xs[..|xs| - 1]) + xs[|xs| - 1]
  }

  /** A sequence of amounts that are all v adds up to v times its length. */
  lemma {:induction false} TotalConstant(xs: seq<int>, v: int)
    requires forall i :: 0 <= i < |xs| ==> xs[i] == v
    ensures Total(xs) == v * |xs|
    decreases |xs|
  {
    if |xs| > 0 {
      TotalConstant(xs[..|xs| - 1], v);
    }
  }

  /** Summing f over elements on which f is the constant v gives v times
      their number. */
  lemma {:induction false} SumConstant<T>(xs: seq<T>, f: T -> int, v: int)
    requires forall i :: 0 <= i < |xs| ==> f(xs[i]) == v
    ensures Sum(xs, f) == v * |xs|
    decreases |xs|
  {
    if |xs| > 0 {
      SumConstant(xs[..|xs| - 1], f, v);
    }
  }
}
