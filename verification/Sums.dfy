/** Sums over sequences of records, one summand function at a time, and over sets of keys. */
module Sums {
  function Sum<T>(s: seq<T>, f: T -> int): int {
    if s == [] then 0 else f(s[0]) + Sum(s[1..], f)
  }

  lemma {:induction false} SumSnoc<T>(s: seq<T>, x: T, f: T -> int)
    ensures Sum(s + [x], f) == Sum(s, f) + f(x)
  {
    if s == [] {
      assert [x][1..] == [];
    } else {
      assert (s + [x])[1..] == s[1..] + [x];
      SumSnoc(s[1..], x, f);
    }
  }

  lemma {:induction false} SumUpdate<T>(s: seq<T>, i: nat, x: T, f: T -> int)
    requires i < |s|
    ensures Sum(s[i := x], f) == Sum(s, f) - f(s[i]) + f(x)
  {
    if i == 0 {
      assert s[i := x][1..] == s[1..];
    } else {
      assert s[i := x][1..] == s[1..][i - 1 := x];
      SumUpdate(s[1..], i - 1, x, f);
    }
  }

  lemma {:induction false} SumNonNegative<T(!new)>(s: seq<T>, f: T -> int)
    requires forall x :: 0 <= f(x)
    ensures 0 <= Sum(s, f)
    ensures forall i | 0 <= i < |s| :: f(s[i]) <= Sum(s, f)
  {
    if s != [] {
      SumNonNegative(s[1..], f);
      assert forall i | 0 < i < |s| :: s[i] == s[1..][i - 1];
    }
  }

  lemma {:induction false} SumZero<T>(s: seq<T>, f: T -> int)
    requires forall i | 0 <= i < |s| :: f(s[i]) == 0
    ensures Sum(s, f) == 0
  {
    if s != [] {
      SumZero(s[1..], f);
    }
  }

  lemma {:induction false} SumEqual<T>(s: seq<T>, f: T -> int, g: T -> int)
    requires forall i | 0 <= i < |s| :: f(s[i]) == g(s[i])
    ensures Sum(s, f) == Sum(s, g)
  {
    if s != [] {
      SumEqual(s[1..], f, g);
    }
  }

  ghost function SetSum<T(!new)>(s: set<T>, size: map<T, int>): int
    requires s <= size.Keys
  {
    if s == {} then 0 else var x :| x in s; size[x] + SetSum(s - {x}, size)
  }

  lemma {:induction false} SetSumRemove<T(!new)>(s: set<T>, size: map<T, int>, x: T)
    requires s <= size.Keys && x in s
    ensures SetSum(s, size) == size[x] + SetSum(s - {x}, size)
  {
    var y :| y in s && SetSum(s, size) == size[y] + SetSum(s - {y}, size);
    if y != x {
      SetSumRemove(s - {y}, size, x);
      SetSumRemove(s - {x}, size, y);
      assert s - {y} - {x} == s - {x} - {y};
    }
  }

  lemma {:induction false} SetSumEqual<T(!new)>(s: set<T>, a: map<T, int>, b: map<T, int>)
    requires s <= a.Keys && s <= b.Keys && forall x | x in s :: a[x] == b[x]
    ensures SetSum(s, a) == SetSum(s, b)
  {
    if s != {} {
      var x :| x in s;
      SetSumRemove(s, a, x);
      SetSumRemove(s, b, x);
      SetSumEqual(s - {x}, a, b);
    }
  }
}
