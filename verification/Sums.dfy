/** Sums, filters and duplicate-freeness over sequences of rows: what the ORM's
    aggregate, filter and unique constraints mean. */
module Sums {
  import opened Wrappers

  function Sum<T>(s: seq<T>, f: T -> real): real {
    if s == [] then 0.0 else Sum(s[..|s| - 1], f) + f(s[|s| - 1])
  }

  lemma SumAppend<T>(s: seq<T>, x: T, f: T -> real)
    ensures Sum(s + [x], f) == Sum(s, f) + f(x)
  {
    assert (s + [x])[..|s|] == s;
  }

  lemma {:induction false} SumConcat<T>(s: seq<T>, t: seq<T>, f: T -> real)
    ensures Sum(s + t, f) == Sum(s, f) + Sum(t, f)
  {
    if t == [] {
      assert s + t == s;
    } else {
      assert (s + t)[..|s + t| - 1] == s + t[..|t| - 1];
      SumConcat(s, t[..|t| - 1], f);
    }
  }

  lemma {:induction false} SumRemove<T>(s: seq<T>, i: nat, f: T -> real)
    requires i < |s|
    ensures Sum(s, f) == Sum(s[..i] + s[i + 1..], f) + f(s[i])
  {
    assert s == s[..i] + [s[i]] + s[i + 1..];
    SumConcat(s[..i] + [s[i]], s[i + 1..], f);
    SumConcat(s[..i], [s[i]], f);
    SumConcat(s[..i], s[i + 1..], f);
  }

  lemma MultisetRemove<T>(s: seq<T>, i: nat)
    requires i < |s|
    ensures multiset(s[..i] + s[i + 1..]) == multiset(s) - multiset{s[i]}
  {
    assert s == s[..i] + [s[i]] + s[i + 1..];
  }

  /** A sum does not depend on the order rows come back in. */
  lemma {:induction false} SumPermutation<T>(s: seq<T>, t: seq<T>, f: T -> real)
    requires multiset(s) == multiset(t)
    ensures Sum(s, f) == Sum(t, f)
  {
    if s == [] {
      assert |multiset(t)| == 0;
    } else {
      var k := |s| - 1;
      assert s[k] in multiset(t);
      var i :| 0 <= i < |t| && t[i] == s[k];
      SumRemove(t, i, f);
      MultisetRemove(s, k);
      MultisetRemove(t, i);
      assert s[..k] + s[k + 1..] == s[..k];
      SumPermutation(s[..k], t[..i] + t[i + 1..], f);
    }
  }

  lemma {:induction false} SumPointwise<T>(s: seq<T>, f: T -> real, g: T -> real)
    requires forall x :: x in s ==> f(x) == g(x)
    ensures Sum(s, f) == Sum(s, g)
  {
    if s != [] {
      SumPointwise(s[..|s| - 1], f, g);
    }
  }

  lemma {:induction false} SumBelow<T>(s: seq<T>, f: T -> real, g: T -> real)
    requires forall x :: x in s ==> f(x) <= g(x)
    ensures Sum(s, f) <= Sum(s, g)
  {
    if s != [] {
      SumBelow(s[..|s| - 1], f, g);
    }
  }

  lemma {:induction false} SumNonNegative<T>(s: seq<T>, f: T -> real)
    requires forall x :: x in s ==> f(x) >= 0.0
    ensures Sum(s, f) >= 0.0
  {
    if s != [] {
      SumNonNegative(s[..|s| - 1], f);
    }
  }

  function Filter<T>(s: seq<T>, p: T -> bool): seq<T> {
    if s == [] then []
    else Filter(s[..|s| - 1], p) + if p(s[|s| - 1]) then [s[|s| - 1]] else []
  }

  lemma {:induction false} FilterMembers<T(!new)>(s: seq<T>, p: T -> bool)
    ensures forall x :: x in Filter(s, p) <==> x in s && p(x)
  {
    if s != [] {
      FilterMembers(s[..|s| - 1], p);
      assert s == s[..|s| - 1] + [s[|s| - 1]];
    }
  }

  lemma {:induction false} FilterMultiset<T(!new)>(s: seq<T>, p: T -> bool, x: T)
    ensures multiset(Filter(s, p))[x] == if p(x) then multiset(s)[x] else 0
  {
    if s != [] {
      FilterMultiset(s[..|s| - 1], p, x);
      assert s == s[..|s| - 1] + [s[|s| - 1]];
    }
  }

  lemma FilterPermutation<T(!new)>(s: seq<T>, t: seq<T>, p: T -> bool)
    requires multiset(s) == multiset(t)
    ensures multiset(Filter(s, p)) == multiset(Filter(t, p))
  {
    forall x ensures multiset(Filter(s, p))[x] == multiset(Filter(t, p))[x] {
      FilterMultiset(s, p, x);
      FilterMultiset(t, p, x);
    }
  }

  lemma {:induction false} SumFilter<T(!new)>(s: seq<T>, p: T -> bool, f: T -> real, g: T -> real)
    requires forall x :: x in s ==> g(x) == if p(x) then f(x) else 0.0
    ensures Sum(Filter(s, p), f) == Sum(s, g)
  {
    if s != [] {
      var n := |s| - 1;
      SumFilter(s[..n], p, f, g);
      SumConcat(Filter(s[..n], p), if p(s[n]) then [s[n]] else [], f);
    }
  }

  ghost predicate Distinct<T>(s: seq<T>) {
    forall i, j :: 0 <= i < j < |s| ==> s[i] != s[j]
  }

  lemma {:induction false} DistinctMultiplicity<T>(s: seq<T>, x: T)
    requires Distinct(s)
    ensures multiset(s)[x] == if x in s then 1 else 0
  {
    if s != [] {
      DistinctMultiplicity(s[..|s| - 1], x);
      assert s == s[..|s| - 1] + [s[|s| - 1]];
    }
  }

  /** Two duplicate-free listings of the same set are permutations of each other. */
  lemma DistinctSameElements<T>(s: seq<T>, t: seq<T>)
    requires Distinct(s) && Distinct(t)
    requires forall x :: x in s <==> x in t
    ensures multiset(s) == multiset(t)
  {
    forall x ensures multiset(s)[x] == multiset(t)[x] {
      DistinctMultiplicity(s, x);
      DistinctMultiplicity(t, x);
    }
  }

  /** .first() of a filtered query. */
  function First<T>(s: seq<T>, p: T -> bool): Option<T> {
    if s == [] then None
    else match First(s[..|s| - 1], p)
      case Some(x) => Some(x)
      case None => if p(s[|s| - 1]) then Some(s[|s| - 1]) else None
  }

  lemma {:induction false} FirstMeans<T(!new)>(s: seq<T>, p: T -> bool)
    ensures First(s, p) == None <==> forall x :: x in s ==> !p(x)
    ensures First(s, p).Some? ==>
              exists k :: 0 <= k < |s| && s[k] == First(s, p).value && p(s[k]) && forall m :: 0 <= m < k ==> !p(s[m])
  {
    if s != [] {
      var n := |s| - 1;
      FirstMeans(s[..n], p);
      assert s == s[..n] + [s[n]];
      if First(s[..n], p).Some? {
        var k :| 0 <= k < n && s[..n][k] == First(s[..n], p).value && p(s[..n][k])
                 && forall m :: 0 <= m < k ==> !p(s[..n][m]);
        assert forall m :: 0 <= m <= k ==> s[..n][m] == s[m];
        assert s[k] == First(s, p).value;
      }
    }
  }

  /** A scan that stops at the first hit. */
  lemma {:induction false} FirstFound<T>(s: seq<T>, p: T -> bool, k: nat)
    requires k < |s| && p(s[k]) && First(s[..k], p) == None
    ensures First(s, p) == Some(s[k])
  {
    var n := |s| - 1;
    if k < n {
      assert s[..n][..k] == s[..k];
      FirstFound(s[..n], p, k);
    }
  }

  lemma {:induction false} FirstPointwise<T>(s: seq<T>, p: T -> bool, q: T -> bool)
    requires forall x :: x in s ==> p(x) == q(x)
    ensures First(s, p) == First(s, q)
  {
    if s != [] { FirstPointwise(s[..|s| - 1], p, q); }
  }
}
