/** Shared vocabulary: optional values, raised errors, and sums of exact decimals. */
module Prelude {

  datatype Option<+T> = None | Some(value: T)

  /** The exceptions the modelled code lets escape. */
  datatype Raised =
    | AdapterUnavailable   // the source produced nothing usable
    | Timeout              // TimeoutError
    | DivisionByZero       // decimal division by a zero weight sum
    | ValueError           // date outside years 1..9999, unknown call
    | OtherError           // any other exception

  datatype Result<+T> = Returned(value: T) | Threw(error: Raised)

  function Max(a: real, b: real): real { if a >= b then a else b }

  function Min(a: real, b: real): real { if a <= b then a else b }

  function Abs(a: real): real { if a >= 0.0 then a else -a }

  function Last<T>(xs: seq<T>): T
    requires xs != []
  {
    xs[|xs| - 1]
  }

  /** The decimal `sum(...)`. */
  function Sum(xs: seq<real>): real {
    if xs == [] then 0.0 else Sum(xs[..|xs| - 1]) + Last(xs)
  }

  function Mean(xs: seq<real>): real
    requires xs != []
  {
    Sum(xs) / (|xs| as real)
  }

  function Lin(a: real, b: real, x: real): real { a * x + b }

  /** Every entry x replaced by a*x + b. */
  function Affine(a: real, b: real, xs: seq<real>): seq<real> {
    seq(|xs|, i requires 0 <= i < |xs| => Lin(a, b, xs[i]))
  }

  lemma AffineSlice(a: real, b: real, xs: seq<real>, lo: nat, hi: nat)
    requires lo <= hi <= |xs|
    ensures Affine(a, b, xs)[lo..hi] == Affine(a, b, xs[lo..hi])
  {
    hide Lin;
  }

  lemma {:induction false} SumAffine(a: real, b: real, xs: seq<real>)
    ensures Sum(Affine(a, b, xs)) == a * Sum(xs) + b * (|xs| as real)
  {
    if xs != [] {
      var n := |xs| - 1;
      AffineSlice(a, b, xs, 0, n);
      SumAffine(a, b, xs[..n]);
      SumStep(a, b, Sum(xs[..n]), Last(xs), n as real);
    }
  }

  lemma SumStep(a: real, b: real, s: real, x: real, n: real)
    ensures a * s + b * n + Lin(a, b, x) == a * (s + x) + b * (n + 1.0)
  {
  }

  lemma Distribute(a: real, x: real, y: real)
    ensures a * (x + y) == a * x + a * y
  {
  }

  lemma QuotientUnique(q: real, n: real, p: real)
    requires n != 0.0 && p == q * n
    ensures p / n == q
  {
  }

  lemma {:induction false} MeanAffine(a: real, b: real, xs: seq<real>)
    requires xs != []
    ensures Mean(Affine(a, b, xs)) == Lin(a, b, Mean(xs))
  {
    SumAffine(a, b, xs);
    LinQuotient(a, b, Sum(xs), |xs| as real);
  }

  lemma LinQuotient(a: real, b: real, s: real, n: real)
    requires n != 0.0
    ensures (a * s + b * n) / n == Lin(a, b, s / n)
  {
    var q := s / n;
    assert q * n == s;
    assert a * (q * n) + b * n == (a * q + b) * n;
    QuotientUnique(a * q + b, n, a * s + b * n);
  }

  lemma LinDifference(a: real, b: real, x: real, y: real)
    ensures Lin(a, b, x) - Lin(a, b, y) == Lin(a, 0.0, x - y)
  {
  }

  lemma LinOrder(a: real, b: real, x: real, y: real)
    requires a > 0.0
    ensures Lin(a, b, x) > Lin(a, b, y) <==> x > y
    ensures Lin(a, b, x) < Lin(a, b, y) <==> x < y
  {
    Cancel(x, y, a);
    Cancel(y, x, a);
  }

  lemma LinInjective(a: real, b: real, x: real, y: real)
    requires a != 0.0
    ensures Lin(a, b, x) == Lin(a, b, y) <==> x == y
  {
    if Lin(a, b, x) == Lin(a, b, y) {
      assert a * x == a * y;
      QuotientUnique(x, a, a * x);
      QuotientUnique(y, a, a * x);
    }
  }

  /** A mean lies between any bounds of its entries. */
  lemma {:induction false} SumBounds(xs: seq<real>, lo: real, hi: real)
    requires forall i :: 0 <= i < |xs| ==> lo <= xs[i] <= hi
    ensures lo * (|xs| as real) <= Sum(xs) <= hi * (|xs| as real)
  {
    if xs != [] {
      SumBounds(xs[..|xs| - 1], lo, hi);
      assert (|xs| as real) == (|xs| - 1) as real + 1.0;
      Distribute(lo, (|xs| - 1) as real, 1.0);
      Distribute(hi, (|xs| - 1) as real, 1.0);
    }
  }

  lemma Cancel(x: real, y: real, n: real)
    requires n > 0.0
    ensures x * n <= y * n <==> x <= y
  {
    assert (y - x) * n == y * n - x * n;
  }

  lemma QuotientBounds(s: real, n: real, lo: real, hi: real)
    requires n > 0.0 && lo * n <= s <= hi * n
    ensures lo <= s / n <= hi
  {
    assert s / n * n == s;
    Cancel(lo, s / n, n);
    Cancel(s / n, hi, n);
  }

  lemma AddQuotients(x: real, y: real, n: real)
    requires n != 0.0
    ensures x / n + y / n == (x + y) / n
  {
    var u, v := x / n, y / n;
    assert u * n == x && v * n == y;
    Distribute(n, u, v);
    QuotientUnique(u + v, n, x + y);
  }

  lemma MeanBounds(xs: seq<real>, lo: real, hi: real)
    requires xs != [] && forall i :: 0 <= i < |xs| ==> lo <= xs[i] <= hi
    ensures lo <= Mean(xs) <= hi
  {
    SumBounds(xs, lo, hi);
    QuotientBounds(Sum(xs), |xs| as real, lo, hi);
  }

  function Without<T>(xs: seq<T>, k: nat): seq<T>
    requires k < |xs|
  {
    xs[..k] + xs[k + 1..]
  }

  lemma WithoutMultiset<T>(xs: seq<T>, k: nat)
    requires k < |xs|
    ensures multiset(xs) == multiset(Without(xs, k)) + multiset{xs[k]}
  {
    assert xs == xs[..k] + [xs[k]] + xs[k + 1..];
  }

  lemma HeadMultiset<T>(xs: seq<T>)
    requires xs != []
    ensures multiset(xs) == multiset(xs[1..]) + multiset{xs[0]}
  {
    assert xs == [xs[0]] + xs[1..];
  }

  lemma SameLength<T>(xs: seq<T>, ys: seq<T>)
    requires multiset(xs) == multiset(ys)
    ensures |xs| == |ys|
  {
    assert |multiset(xs)| == |xs| && |multiset(ys)| == |ys|;
  }

  /** Where the first entry of one arrangement sits in another, and what is left of both. */
  lemma HeadElsewhere<T>(xs: seq<T>, ys: seq<T>) returns (k: nat)
    requires xs != [] && multiset(xs) == multiset(ys)
    ensures k < |ys| && ys[k] == xs[0]
    ensures multiset(xs[1..]) == multiset(Without(ys, k))
  {
    HeadMultiset(xs);
    assert xs[0] in multiset(ys);
    k :| 0 <= k < |ys| && ys[k] == xs[0];
    WithoutMultiset(ys, k);
    assert multiset(xs[1..]) == multiset(xs) - multiset{xs[0]};
    assert multiset(Without(ys, k)) == multiset(ys) - multiset{xs[0]};
  }

  predicate Distinct<T(==)>(xs: seq<T>) {
    forall i, j :: 0 <= i < j < |xs| ==> xs[i] != xs[j]
  }

  /** Every entry replaced by the sequence f makes of it. */
  function FlatMap<A, B>(f: A -> seq<B>, xs: seq<A>): seq<B> {
    if xs == [] then [] else f(xs[0]) + FlatMap(f, xs[1..])
  }

  lemma FlatMapOne<A, B>(f: A -> seq<B>, x: A)
    ensures FlatMap(f, [x]) == f(x)
  {
    assert FlatMap(f, [x][1..]) == [];
  }

  lemma {:induction false} FlatMapAppend<A, B>(f: A -> seq<B>, xs: seq<A>, ys: seq<A>)
    ensures FlatMap(f, xs + ys) == FlatMap(f, xs) + FlatMap(f, ys)
  {
    if xs == [] {
      assert xs + ys == ys;
    } else {
      assert (xs + ys)[1..] == xs[1..] + ys;
      FlatMapAppend(f, xs[1..], ys);
    }
  }

  lemma FlatMapHead<A, B>(f: A -> seq<B>, xs: seq<A>)
    requires xs != []
    ensures FlatMap(f, xs) == f(xs[0]) + FlatMap(f, xs[1..])
  {
  }

  lemma FlatMapWithout<A, B>(f: A -> seq<B>, ys: seq<A>, k: nat)
    requires k < |ys|
    ensures multiset(FlatMap(f, ys)) == multiset(f(ys[k])) + multiset(FlatMap(f, Without(ys, k)))
  {
    hide FlatMap;
    var left, right := ys[..k], ys[k + 1..];
    assert left + ys[k..] == ys && ys[k..][1..] == right;
    FlatMapAppend(f, left, right);
    FlatMapAppend(f, left, ys[k..]);
    FlatMapHead(f, ys[k..]);
  }

  /** Permuting the input permutes the output. */
  lemma {:induction false} FlatMapPermuted<A, B>(f: A -> seq<B>, xs: seq<A>, ys: seq<A>)
    requires multiset(xs) == multiset(ys)
    ensures multiset(FlatMap(f, xs)) == multiset(FlatMap(f, ys))
    decreases |xs|
  {
    SameLength(xs, ys);
    if xs != [] {
      var k := HeadElsewhere(xs, ys);
      FlatMapPermuted(f, xs[1..], Without(ys, k));
      FlatMapWithout(f, ys, k);
    }
  }
}
