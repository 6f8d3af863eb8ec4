/** Filtering, counting and collecting over sequences. */
module Sequences {

  function Without<T>(xs: seq<T>, i: nat): (r: seq<T>)
    requires i < |xs|
    ensures |r| == |xs| - 1
  {
    xs[..i] + xs[i + 1..]
  }

  function Count<T>(xs: seq<T>, f: T -> bool): (n: nat)
    ensures n <= |xs|
  {
    if xs == [] then 0 else (if f(xs[0]) then 1 else 0) + Count(xs[1..], f)
  }

  lemma {:induction false} CountSplit<T>(a: seq<T>, b: seq<T>, f: T -> bool)
    ensures Count(a + b, f) == Count(a, f) + Count(b, f)
  {
    if a == [] {
      assert a + b == b;
    } else {
      assert (a + b)[1..] == a[1..] + b;
      CountSplit(a[1..], b, f);
    }
  }

  lemma CountAppend<T>(xs: seq<T>, x: T, f: T -> bool)
    ensures Count(xs + [x], f) == Count(xs, f) + if f(x) then 1 else 0
  {
    CountSplit(xs, [x], f);
  }

  lemma CountMiddle<T>(a: seq<T>, x: T, b: seq<T>, f: T -> bool)
    ensures Count(a + ([x] + b), f) == Count(a + b, f) + if f(x) then 1 else 0
  {
    CountSplit(a, [x] + b, f);
    CountSplit([x], b, f);
    CountSplit(a, b, f);
  }

  lemma Around<T>(xs: seq<T>, i: nat)
    requires i < |xs|
    ensures xs == xs[..i] + ([xs[i]] + xs[i + 1..])
  {}

  lemma CountAt<T>(xs: seq<T>, i: nat, f: T -> bool)
    requires i < |xs|
    ensures Count(xs, f) == Count(Without(xs, i), f) + if f(xs[i]) then 1 else 0
  {
    Around(xs, i);
    CountMiddle(xs[..i], xs[i], xs[i + 1..], f);
  }

  lemma CountUpdate<T>(xs: seq<T>, i: nat, x: T, f: T -> bool)
    requires i < |xs|
    ensures Count(xs[i := x], f) == Count(xs, f) - (if f(xs[i]) then 1 else 0) + (if f(x) then 1 else 0)
  {
    CountAt(xs, i, f);
    CountAt(xs[i := x], i, f);
    assert Without(xs[i := x], i) == Without(xs, i);
  }

  /** The concatenation of f over the elements. */
  function Collect<T, U>(xs: seq<T>, f: T -> seq<U>): seq<U> {
    if xs == [] then [] else f(xs[0]) + Collect(xs[1..], f)
  }

  lemma {:induction false} CollectSplit<T, U>(a: seq<T>, b: seq<T>, f: T -> seq<U>)
    ensures Collect(a + b, f) == Collect(a, f) + Collect(b, f)
  {
    if a == [] {
      assert a + b == b;
    } else {
      assert (a + b)[1..] == a[1..] + b;
      CollectSplit(a[1..], b, f);
    }
  }

  lemma CollectAppend<T, U>(xs: seq<T>, x: T, f: T -> seq<U>)
    ensures Collect(xs + [x], f) == Collect(xs, f) + f(x)
  {
    CollectSplit(xs, [x], f);
    assert Collect([x], f) == f(x) + [];
  }

  lemma CollectMiddle<T, U>(a: seq<T>, x: T, b: seq<T>, f: T -> seq<U>)
    ensures Collect(a + ([x] + b), f) == Collect(a, f) + (f(x) + Collect(b, f))
  {
    CollectSplit(a, [x] + b, f);
    CollectSplit([x], b, f);
    assert Collect([x], f) == f(x) + [];
  }

  lemma CollectAt<T, U>(xs: seq<T>, i: nat, f: T -> seq<U>)
    requires i < |xs|
    ensures Collect(xs, f) == Collect(xs[..i], f) + (f(xs[i]) + Collect(xs[i + 1..], f))
    ensures Collect(Without(xs, i), f) == Collect(xs[..i], f) + Collect(xs[i + 1..], f)
  {
    Around(xs, i);
    CollectMiddle(xs[..i], xs[i], xs[i + 1..], f);
    CollectSplit(xs[..i], xs[i + 1..], f);
  }

  lemma CollectUpdate<T, U>(xs: seq<T>, i: nat, x: T, f: T -> seq<U>)
    requires i < |xs|
    ensures Collect(xs[i := x], f) == Collect(xs[..i], f) + (f(x) + Collect(xs[i + 1..], f))
  {
    CollectAt(xs[i := x], i, f);
    assert xs[i := x][..i] == xs[..i] && xs[i := x][i + 1..] == xs[i + 1..];
  }

  /** If no element that contributes is claimed by f, nothing is collected. */
  lemma {:induction false} CollectNone<T, U>(xs: seq<T>, f: T -> bool, g: T -> seq<U>)
    requires Count(xs, f) == 0 && forall x :: x in xs && !f(x) ==> g(x) == []
    ensures Collect(xs, g) == []
  {
    if xs != [] {
      CollectNone(xs[1..], f, g);
    }
  }

  lemma ConsAppend<T>(s: seq<T>, rest: seq<T>)
    requires s != []
    ensures s + rest == [s[0]] + (s[1..] + rest)
  {}

  lemma AppendAssoc<T>(a: seq<T>, b: seq<T>, c: seq<T>)
    ensures (a + b) + c == a + (b + c)
  {}

  // ---------------------------------------------------------------- filtering

  function Filter<T(!new)>(xs: seq<T>, f: T -> bool): (r: seq<T>)
    ensures |r| <= |xs|
    ensures forall x :: x in r <==> x in xs && f(x)
  {
    if xs == [] then []
    else
      assert forall x :: x in xs <==> x == xs[0] || x in xs[1..];
      (if f(xs[0]) then [xs[0]] else []) + Filter(xs[1..], f)
  }

  lemma {:induction false} FilterSplit<T(!new)>(a: seq<T>, b: seq<T>, f: T -> bool)
    ensures Filter(a + b, f) == Filter(a, f) + Filter(b, f)
  {
    if a == [] {
      assert a + b == b;
    } else {
      assert (a + b)[1..] == a[1..] + b;
      FilterSplit(a[1..], b, f);
    }
  }

  lemma {:induction false} FilterNone<T(!new)>(xs: seq<T>, f: T -> bool)
    requires forall x :: x in xs ==> !f(x)
    ensures Filter(xs, f) == []
  {
    if xs != [] {
      FilterNone(xs[1..], f);
    }
  }

  lemma {:induction false} FilterAll<T(!new)>(xs: seq<T>, f: T -> bool)
    requires forall x :: x in xs ==> f(x)
    ensures Filter(xs, f) == xs
  {
    if xs != [] {
      FilterAll(xs[1..], f);
    }
  }

  lemma {:induction false} FilterAgree<T(!new)>(xs: seq<T>, f: T -> bool, g: T -> bool)
    requires forall x :: x in xs ==> (f(x) <==> g(x))
    ensures Filter(xs, f) == Filter(xs, g)
  {
    if xs != [] {
      assert xs[0] in xs;
      FilterAgree(xs[1..], f, g);
    }
  }

  /** Filtering by f and then by g filters by any h that means both. */
  lemma {:induction false} FilterTwice<T(!new)>(xs: seq<T>, f: T -> bool, g: T -> bool, h: T -> bool)
    requires forall x :: x in xs ==> (h(x) <==> f(x) && g(x))
    ensures Filter(Filter(xs, f), g) == Filter(xs, h)
  {
    if xs != [] {
      assert xs[0] in xs;
      FilterTwice(xs[1..], f, g, h);
      FilterSplit(if f(xs[0]) then [xs[0]] else [], Filter(xs[1..], f), g);
    }
  }

  /** Rows that satisfy one of two exclusive conditions, counted with multiplicity. */
  lemma {:induction false} FilterEither<T(!new)>(xs: seq<T>, f: T -> bool, g: T -> bool, h: T -> bool)
    requires forall x :: x in xs ==> (h(x) <==> f(x) || g(x)) && !(f(x) && g(x))
    ensures multiset(Filter(xs, h)) == multiset(Filter(xs, f)) + multiset(Filter(xs, g))
  {
    if xs != [] {
      assert xs[0] in xs;
      FilterEither(xs[1..], f, g, h);
    }
  }

  function Map<T, U>(xs: seq<T>, f: T -> U): (r: seq<U>)
    ensures |r| == |xs| && forall i :: 0 <= i < |xs| ==> r[i] == f(xs[i])
  {
    seq(|xs|, i requires 0 <= i < |xs| => f(xs[i]))
  }

  lemma MapSplit<T, U>(a: seq<T>, b: seq<T>, f: T -> U)
    ensures Map(a + b, f) == Map(a, f) + Map(b, f)
  {}

  lemma MapAgree<T, U>(xs: seq<T>, f: T -> U, g: T -> U)
    requires forall x :: x in xs ==> f(x) == g(x)
    ensures Map(xs, f) == Map(xs, g)
  {}

  /** Filtering the images is filtering the originals by what it comes to. */
  lemma {:induction false} FilterMap<T(!new), U(!new)>(xs: seq<T>, f: T -> U, p: U -> bool, q: T -> bool)
    requires forall x :: x in xs ==> (p(f(x)) <==> q(x))
    ensures Filter(Map(xs, f), p) == Map(Filter(xs, q), f)
  {
    if xs != [] {
      assert Map(xs, f)[1..] == Map(xs[1..], f);
      FilterMap(xs[1..], f, p, q);
      MapSplit(if q(xs[0]) then [xs[0]] else [], Filter(xs[1..], q), f);
    }
  }

  /** The parts of a list to which something was appended. */
  lemma AppendedParts<T>(a: seq<T>, x: T, b: seq<T>)
    ensures (a + ([x] + b))[..|a|] == a && (a + ([x] + b))[|a|] == x && (a + ([x] + b))[|a| + 1..] == b
  {}

  /** Only the last part of what was appended passes the filter. */
  lemma FilterAppended<T(!new)>(a: seq<T>, x: T, b: seq<T>, f: T -> bool)
    requires Filter(a, f) == [] && !f(x) && forall y :: y in b ==> f(y)
    ensures Filter(a + ([x] + b), f) == b
  {
    FilterSplit(a, [x] + b, f);
    FilterSplit([x], b, f);
    FilterNone([x], f);
    FilterAll(b, f);
    assert [] + ([] + b) == b;
  }

  lemma MultisetAt<T>(xs: seq<T>, i: nat)
    requires i < |xs|
    ensures multiset(xs) == multiset(Without(xs, i)) + multiset{xs[i]}
  {
    assert xs == xs[..i] + [xs[i]] + xs[i + 1..];
  }

  lemma RemoveSame<T>(xs: seq<T>, i: nat, ys: seq<T>, j: nat)
    requires i < |xs| && j < |ys| && xs[i] == ys[j]
    ensures multiset(xs) == multiset(ys) <==> multiset(Without(xs, i)) == multiset(Without(ys, j))
  {
    MultisetAt(xs, i);
    MultisetAt(ys, j);
    assert multiset(Without(xs, i)) == multiset(xs) - multiset{xs[i]};
    assert multiset(Without(ys, j)) == multiset(ys) - multiset{ys[j]};
  }

  lemma MapWithout<T, U>(xs: seq<T>, i: nat, f: T -> U)
    requires i < |xs|
    ensures Map(Without(xs, i), f) == Without(Map(xs, f), i)
  {}

  /** Mapping keeps multiplicities. */
  lemma {:induction false} MapMultiset<T, U>(xs: seq<T>, ys: seq<T>, f: T -> U)
    requires multiset(xs) == multiset(ys)
    ensures multiset(Map(xs, f)) == multiset(Map(ys, f))
    decreases |xs|
  {
    if xs == [] {
      assert |multiset(ys)| == 0;
    } else {
      assert xs[0] in multiset(xs);
      var j :| 0 <= j < |ys| && ys[j] == xs[0];
      RemoveSame(xs, 0, ys, j);
      MapMultiset(Without(xs, 0), Without(ys, j), f);
      MapWithout(xs, 0, f);
      MapWithout(ys, j, f);
      RemoveSame(Map(xs, f), 0, Map(ys, f), j);
    }
  }
}
