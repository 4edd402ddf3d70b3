/** Sums over sequences and finite sets, shared by the whole project. */
module Sums {

  /** The sum of `f` over the elements of `s`, counted with multiplicity. */
  function SumBy<T>(s: seq<T>, f: T -> int): int {
    if s == [] then 0 else SumBy(s[..|s| - 1], f) + f(s[|s| - 1])
  }

  lemma {:induction false} SumAppend<T>(s: seq<T>, x: T, f: T -> int)
    ensures SumBy(s + [x], f) == SumBy(s, f) + f(x)
  {
    assert (s + [x])[..|s|] == s;
  }

  lemma {:induction false} SumConcat<T>(s: seq<T>, t: seq<T>, f: T -> int)
    ensures SumBy(s + t, f) == SumBy(s, f) + SumBy(t, f)
  {
    if t == [] {
      assert s + t == s;
    } else {
      assert (s + t)[..|s + t| - 1] == s + t[..|t| - 1];
      SumConcat(s, t[..|t| - 1], f);
    }
  }

  lemma {:induction false} SumUpdate<T>(s: seq<T>, i: nat, x: T, f: T -> int)
    requires i < |s|
    ensures SumBy(s[i := x], f) == SumBy(s, f) - f(s[i]) + f(x)
  {
    var n := |s| - 1;
    if i == n {
      assert s[i := x][..n] == s[..n];
    } else {
      assert s[i := x][..n] == s[..n][i := x];
      SumUpdate(s[..n], i, x, f);
    }
  }

  lemma {:induction false} SumCongruence<T>(s: seq<T>, f: T -> int, g: T -> int)
    requires forall x :: x in s ==> f(x) == g(x)
    ensures SumBy(s, f) == SumBy(s, g)
  {
    if s != [] {
      SumCongruence(s[..|s| - 1], f, g);
    }
  }

  /** A sum of non-negative terms bounds each of its terms. */
  lemma {:induction false} SumBoundsTerm<T>(s: seq<T>, f: T -> int)
    requires forall x :: x in s ==> 0 <= f(x)
    ensures 0 <= SumBy(s, f)
    ensures forall i :: 0 <= i < |s| ==> f(s[i]) <= SumBy(s, f)
  {
    if s != [] {
      var n := |s| - 1;
      SumBoundsTerm(s[..n], f);
      forall i | 0 <= i < |s| ensures f(s[i]) <= SumBy(s, f) {
        if i < n {
          assert s[i] == s[..n][i];
        }
        assert s[n] in s;
      }
    }
  }

  lemma {:induction false} SumPointwise<T>(s: seq<T>, f: T -> int, g: T -> int, h: T -> int)
    requires forall x :: x in s ==> h(x) == f(x) + g(x)
    ensures SumBy(s, h) == SumBy(s, f) + SumBy(s, g)
  {
    if s != [] {
      SumPointwise(s[..|s| - 1], f, g, h);
    }
  }

  lemma SumTwo<T>(x: T, y: T, f: T -> int)
    ensures SumBy([x, y], f) == f(x) + f(y)
  {
    assert [x, y] == [x] + [y];
    SumAppend([x], y, f);
    SumAppend([], x, f);
    assert [] + [x] == [x];
  }

  lemma SumFour<T>(x: T, y: T, z: T, w: T, f: T -> int)
    ensures SumBy([x, y, z, w], f) == f(x) + f(y) + f(z) + f(w)
  {
    SumTwo(x, y, f);
    SumTwo(z, w, f);
    SumConcat([x, y], [z, w], f);
    assert [x, y] + [z, w] == [x, y, z, w];
  }

  /** A sum does not depend on the order of its terms. */
  lemma {:induction false} SumPermutation<T>(s: seq<T>, t: seq<T>, f: T -> int)
    requires multiset(s) == multiset(t)
    ensures SumBy(s, f) == SumBy(t, f)
  {
    if s == [] {
      assert |multiset(t)| == |t|;
    } else {
      var n := |s| - 1;
      assert s == s[..n] + [s[n]];
      assert s[n] in multiset(t);
      var k :| 0 <= k < |t| && t[k] == s[n];
      var rest := t[..k] + t[k + 1..];
      assert t == t[..k] + [t[k]] + t[k + 1..];
      assert multiset(s) == multiset(s[..n]) + multiset{s[n]};
      assert multiset(t) == multiset(rest) + multiset{s[n]};
      assert multiset(s[..n]) == multiset(s) - multiset{s[n]} == multiset(rest);
      SumPermutation(s[..n], rest, f);
      SumConcat(t[..k] + [t[k]], t[k + 1..], f);
      SumAppend(t[..k], t[k], f);
      SumConcat(t[..k], t[k + 1..], f);
    }
  }

  lemma SomeMember<T(!new)>(s: set<T>) returns (x: T)
    requires s != {}
    ensures x in s
  {
    assert |s| != 0;
    x :| x in s;
  }

  /** The sum of `f` over a finite set. */
  ghost function SetSum<T(!new)>(s: set<T>, f: T -> int): int {
    if s == {} then 0 else var x :| x in s; f(x) + SetSum(s - {x}, f)
  }

  lemma {:induction false} SetSumRemove<T(!new)>(s: set<T>, x: T, f: T -> int)
    requires x in s
    ensures SetSum(s, f) == f(x) + SetSum(s - {x}, f)
    decreases |s|
  {
    var y :| y in s && SetSum(s, f) == f(y) + SetSum(s - {y}, f);
    if y != x {
      SetSumRemove(s - {y}, x, f);
      SetSumRemove(s - {x}, y, f);
      assert s - {y} - {x} == s - {x} - {y};
    }
  }

  lemma {:induction false} SetSumPointwise<T(!new)>(s: set<T>, f: T -> int, g: T -> int, h: T -> int)
    requires forall x :: x in s ==> h(x) == f(x) + g(x)
    ensures SetSum(s, h) == SetSum(s, f) + SetSum(s, g)
    decreases |s|
  {
    if s != {} {
      var x :| x in s;
      SetSumRemove(s, x, f);
      SetSumRemove(s, x, g);
      SetSumRemove(s, x, h);
      SetSumPointwise(s - {x}, f, g, h);
    }
  }

  lemma {:induction false} SetSumCongruence<T(!new)>(s: set<T>, f: T -> int, g: T -> int)
    requires forall x :: x in s ==> f(x) == g(x)
    ensures SetSum(s, f) == SetSum(s, g)
    decreases |s|
  {
    if s != {} {
      var x :| x in s;
      SetSumRemove(s, x, f);
      SetSumRemove(s, x, g);
      SetSumCongruence(s - {x}, f, g);
    }
  }

  lemma {:induction false} SetSumZero<T(!new)>(s: set<T>, f: T -> int)
    requires forall x :: x in s ==> f(x) == 0
    ensures SetSum(s, f) == 0
    decreases |s|
  {
    if s != {} {
      var x :| x in s;
      SetSumRemove(s, x, f);
      SetSumZero(s - {x}, f);
    }
  }

  /** Only `x` contributes: the sum is its term, if it is a member. */
  lemma SetSumSingle<T(!new)>(s: set<T>, x: T, f: T -> int)
    requires forall y :: y in s && y != x ==> f(y) == 0
    ensures SetSum(s, f) == if x in s then f(x) else 0
  {
    if x in s {
      SetSumRemove(s, x, f);
      SetSumZero(s - {x}, f);
    } else {
      SetSumZero(s, f);
    }
  }

  lemma {:induction false} SetSumSplit<T(!new)>(s: set<T>, t: set<T>, f: T -> int)
    requires s !! t
    ensures SetSum(s + t, f) == SetSum(s, f) + SetSum(t, f)
    decreases |s|
  {
    if s == {} {
      assert s + t == t;
    } else {
      var x :| x in s;
      SetSumRemove(s, x, f);
      SetSumRemove(s + t, x, f);
      assert s + t - {x} == (s - {x}) + t;
      SetSumSplit(s - {x}, t, f);
    }
  }
}
