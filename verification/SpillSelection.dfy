/** Which buffers a watermark spill picks (`MemoryStore::lookup_spill_buffers`). */
module SpillSelection {
  import opened Blocks
  import opened Sums

  /** At most as many elements, none larger than any of the others, weigh at most as much. */
  lemma {:induction false} SumDominated(a: set<Uid>, b: set<Uid>, size: map<Uid, int>)
    requires a <= size.Keys && b <= size.Keys && |a| <= |b|
    requires forall x, y | x in a && y in b :: size[x] <= size[y]
    requires forall y | y in b :: 0 <= size[y]
    ensures SetSum(a, size) <= SetSum(b, size)
  {
    if b != {} {
      var y :| y in b;
      SetSumRemove(b, size, y);
      if a == {} {
        SumDominated({}, b - {y}, size);
      } else {
        var x :| x in a;
        SetSumRemove(a, size, x);
        SumDominated(a - {x}, b - {y}, size);
      }
    }
  }

  lemma {:induction false} SumDisjoint(a: set<Uid>, b: set<Uid>, size: map<Uid, int>)
    requires a + b <= size.Keys && a !! b
    ensures SetSum(a + b, size) == SetSum(a, size) + SetSum(b, size)
  {
    if a == {} {
      assert a + b == b;
    } else {
      var x :| x in a;
      SetSumRemove(a, size, x);
      SetSumRemove(a + b, size, x);
      assert a + b - {x} == (a - {x}) + b;
      SumDisjoint(a - {x}, b, size);
    }
  }

  /** A set whose members are at least as large as everything left out is the heaviest of its size. */
  lemma {:induction false} LargestIsHeaviest(top: set<Uid>, q: set<Uid>, live: set<Uid>, size: map<Uid, int>)
    requires top <= live && q <= live <= size.Keys && |q| <= |top|
    requires forall x, y | x in top && y in live - top :: size[y] <= size[x]
    requires forall x | x in live :: 0 <= size[x]
    ensures SetSum(q, size) <= SetSum(top, size)
  {
    var common := q * top;
    assert q == common + (q - top) && top == common + (top - q);
    SumDisjoint(common, q - top, size);
    SumDisjoint(common, top - q, size);
    SumDominated(q - top, top - q, size);
  }

  ghost predicate Distinct(s: seq<Uid>) {
    forall i, j | 0 <= i < j < |s| :: s[i] != s[j]
  }

  /** The `BTreeMap` from staging size to the partitions of that size. */
  ghost predicate Grouped(groups: map<int, seq<Uid>>, entries: seq<Uid>, size: map<Uid, int>)
    requires forall u | u in entries :: u in size
  {
    && (forall k | k in groups :: k != 0 && groups[k] != [] && Distinct(groups[k]))
    && (forall k, u | k in groups && u in groups[k] :: u in entries && size[u] == k)
    && (forall u | u in entries && size[u] != 0 :: size[u] in groups && u in groups[size[u]])
  }

  method GroupBySize(entries: seq<Uid>, size: map<Uid, int>) returns (groups: map<int, seq<Uid>>)
    requires Distinct(entries) && forall u | u in entries :: u in size
    ensures Grouped(groups, entries, size)
  {
    groups := map[];
    for i := 0 to |entries|
      invariant Grouped(groups, entries[..i], size)
    {
      var u := entries[i];
      var k := size[u];
      assert entries[..i + 1] == entries[..i] + [u];
      assert u !in entries[..i];
      if k != 0 {
        var old' := if k in groups then groups[k] else [];
        assert u !in old';
        groups := groups[k := old' + [u]];
      }
    }
    assert entries[..|entries|] == entries;
  }

  method Pick<T(==)>(s: set<T>) returns (x: T)
    requires s != {}
    ensures x in s
  {
    x :| x in s;
  }

  method LargestKey(keys: set<int>) returns (k: int)
    requires keys != {}
    ensures k in keys && forall x | x in keys :: x <= k
  {
    k := Pick(keys);
    var rest := keys - {k};
    while rest != {}
      invariant k in keys && rest <= keys
      invariant forall x | x in keys && x !in rest :: x <= k
      decreases rest
    {
      var x := Pick(rest);
      if x > k { k := x; }
      rest := rest - {x};
    }
  }

  /** The outcome of a lookup that needs `required` bytes, over the buffers still alive. */
  ghost predicate GoodPick(picked: set<Uid>, live: set<Uid>, size: map<Uid, int>, required: int)
    requires live <= size.Keys
  {
    && picked <= live
    && (forall x | x in picked :: size[x] != 0)
    // largest first
    && (forall x, y | x in picked && y in live - picked :: size[y] <= size[x])
    // no smaller number of buffers would have been enough
    && (forall q: set<Uid> | q <= live && |q| < |picked| :: SetSum(q, size) < required)
  }

  /** Adding a largest remaining buffer while the picked ones are not enough keeps the pick good. */
  lemma {:induction false} PickOne(picked: set<Uid>, u: Uid, live: set<Uid>, size: map<Uid, int>, required: int)
    requires live <= size.Keys && GoodPick(picked, live, size, required) && SetSum(picked, size) < required
    requires u in live - picked && size[u] != 0
    requires forall x | x in live :: 0 <= size[x]
    requires forall x, y | x in picked + {u} && y in live - picked - {u} :: size[y] <= size[x]
    ensures GoodPick(picked + {u}, live, size, required)
    ensures SetSum(picked + {u}, size) == SetSum(picked, size) + size[u]
  {
    SetSumRemove(picked + {u}, size, u);
    assert picked + {u} - {u} == picked;
    forall q: set<Uid> | q <= live && |q| < |picked + {u}|
      ensures SetSum(q, size) < required
    {
      LargestIsHeaviest(picked, q, live, size);
    }
  }

  /** Exactly the live buffers larger than `k`, and those of the first `j` partitions, are picked. */
  ghost predicate PickedSoFar(picked: set<Uid>, vals: seq<Uid>, j: nat, k: int, live: set<Uid>, size: map<Uid, int>)
    requires live <= size.Keys && j <= |vals|
  {
    forall u | u in live :: u in picked <==> size[u] > k || u in vals[..j]
  }

  ghost predicate OfSize(vals: seq<Uid>, k: int, gone: set<Uid>, live: set<Uid>, size: map<Uid, int>) {
    Distinct(vals) && forall i | 0 <= i < |vals| :: (vals[i] in live || vals[i] in gone) && vals[i] in size && size[vals[i]] == k
  }

  /** What is picked is at least `k`, what is not is at most `k`. */
  lemma SizesAround(picked: set<Uid>, vals: seq<Uid>, j: nat, k: int, gone: set<Uid>, live: set<Uid>, size: map<Uid, int>)
    requires picked <= live <= size.Keys && j <= |vals| && OfSize(vals, k, gone, live, size) && PickedSoFar(picked, vals, j, k, live, size)
    ensures (forall x | x in picked :: size[x] >= k) && (forall y | y in live - picked :: size[y] <= k)
  {
  }

  lemma SoFarSkips(picked: set<Uid>, vals: seq<Uid>, j: nat, k: int, live: set<Uid>, size: map<Uid, int>)
    requires live <= size.Keys && j < |vals| && vals[j] !in live && PickedSoFar(picked, vals, j, k, live, size)
    ensures PickedSoFar(picked, vals, j + 1, k, live, size)
  {
    assert vals[..j + 1] == vals[..j] + [vals[j]];
  }

  lemma SoFarGrows(picked: set<Uid>, vals: seq<Uid>, j: nat, k: int, live: set<Uid>, size: map<Uid, int>)
    requires live <= size.Keys && j < |vals| && PickedSoFar(picked, vals, j, k, live, size)
    ensures PickedSoFar(picked + {vals[j]}, vals, j + 1, k, live, size)
  {
    assert vals[..j + 1] == vals[..j] + [vals[j]];
  }

  lemma {:induction false} PickNext(picked: set<Uid>, vals: seq<Uid>, j: nat, k: int, gone: set<Uid>, live: set<Uid>, size: map<Uid, int>, required: int)
    requires live <= size.Keys && live !! gone && (forall x | x in live :: 0 <= size[x]) && j < |vals| && k != 0
    requires OfSize(vals, k, gone, live, size) && vals[j] !in gone
    requires GoodPick(picked, live, size, required) && SetSum(picked, size) < required && PickedSoFar(picked, vals, j, k, live, size)
    ensures picked + {vals[j]} <= live && GoodPick(picked + {vals[j]}, live, size, required)
    ensures SetSum(picked + {vals[j]}, size) == SetSum(picked, size) + k
  {
    SizesAround(picked, vals, j, k, gone, live, size);
    assert vals[j] in live && size[vals[j]] == k;
    assert vals[j] !in vals[..j];
    PickOne(picked, vals[j], live, size, required);
  }

  /** The inner loop over the partitions of one size `k`: all larger live buffers are picked already. */
  method PickGroup(vals: seq<Uid>, k: int, gone: set<Uid>, picked0: set<Uid>, spilled0: int, required: int,
                   ghost live: set<Uid>, ghost size: map<Uid, int>)
    returns (picked: set<Uid>, spilled: int, full: bool)
    requires live <= size.Keys && live !! gone && forall x | x in live :: 0 <= size[x]
    requires k != 0 && OfSize(vals, k, gone, live, size) && forall u | u in live && size[u] == k :: u in vals
    requires GoodPick(picked0, live, size, required) && spilled0 == SetSum(picked0, size)
    requires forall u | u in live :: u in picked0 <==> size[u] > k
    ensures GoodPick(picked, live, size, required) && spilled == SetSum(picked, size)
    ensures full ==> spilled >= required
    ensures !full ==> forall u | u in live :: u in picked <==> size[u] >= k
  {
    picked, spilled, full := picked0, spilled0, false;
    var j := 0;
    while j < |vals|
      invariant 0 <= j <= |vals|
      invariant GoodPick(picked, live, size, required) && spilled == SetSum(picked, size)
      invariant PickedSoFar(picked, vals, j, k, live, size)
    {
      if spilled >= required {
        full := true;
        return;
      }
      var u := vals[j];
      if u !in gone {
        PickNext(picked, vals, j, k, gone, live, size, required);
        SoFarGrows(picked, vals, j, k, live, size);
        spilled := spilled + k;
        picked := picked + {u};
      } else {
        SoFarSkips(picked, vals, j, k, live, size);
      }
      j := j + 1;
    }
    assert vals[..j] == vals;
  }

  lemma {:induction false} SizesBounded(live: set<Uid>, size: map<Uid, int>) returns (bound: int)
    requires live <= size.Keys
    ensures forall u | u in live :: size[u] < bound
  {
    bound := 0;
    if live != {} {
      var u :| u in live;
      bound := SizesBounded(live - {u}, size);
      bound := if size[u] < bound then bound else size[u] + 1;
    }
  }

  /** Every buffer of a size not below `bound` is dealt with; the remaining keys are the smaller sizes. */
  ghost predicate Ahead(picked: set<Uid>, remaining: set<int>, bound: int, live: set<Uid>, size: map<Uid, int>)
    requires live <= size.Keys
  {
    && (forall u | u in live && size[u] != 0 :: u in picked <==> size[u] >= bound)
    && (forall u | u in size && size[u] != 0 :: size[u] in remaining <==> size[u] < bound)
  }

  /** One round of the outer loop, over the largest size left in the tree. */
  method PickNextSize(groups: map<int, seq<Uid>>, gone: set<Uid>, required: int, picked0: set<Uid>, spilled0: int,
                      remaining0: set<int>, ghost entries: seq<Uid>, ghost size: map<Uid, int>, ghost bound0: int)
    returns (picked: set<Uid>, spilled: int, full: bool, remaining: set<int>, ghost bound: int)
    requires (forall u :: u in entries <==> u in size) && (forall u | u in size :: 0 <= size[u])
    requires Grouped(groups, entries, size)
    requires remaining0 != {} && remaining0 <= groups.Keys
    requires GoodPick(picked0, size.Keys - gone, size, required) && spilled0 == SetSum(picked0, size)
    requires Ahead(picked0, remaining0, bound0, size.Keys - gone, size)
    ensures remaining < remaining0
    ensures GoodPick(picked, size.Keys - gone, size, required) && spilled == SetSum(picked, size)
    ensures if full then spilled >= required else Ahead(picked, remaining, bound, size.Keys - gone, size)
  {
    ghost var live := size.Keys - gone;
    var k := LargestKey(remaining0);
    assert 0 < k < bound0 by {
      assert groups[k][0] in entries;
    }
    forall u | u in live ensures u in picked0 <==> size[u] > k {
      if size[u] > k {
        assert size[u] !in remaining0;
      }
    }
    picked, spilled, full := PickGroup(groups[k], k, gone, picked0, spilled0, required, live, size);
    remaining := remaining0 - {k};
    bound := k;
  }

  /** `size` is the staging size of every buffer in the snapshot, `entries` the order in which the
      snapshot iterates, `gone` the buffers removed before they are fetched. `None` is the error
      returned when nothing needs to be spilled. */
  method LookupSpillBuffers(size: map<Uid, int>, entries: seq<Uid>, gone: set<Uid>, used: int, expected: int)
    returns (r: Option<set<Uid>>)
    requires Distinct(entries) && (forall u :: u in entries <==> u in size)
    requires forall u | u in size :: 0 <= size[u]
    ensures r.None? <==> used <= expected
    ensures r.Some? ==> GoodPick(r.value, size.Keys - gone, size, used - expected)
    ensures r.Some? ==> SetSum(r.value, size) >= used - expected
                        || r.value == set u | u in size.Keys - gone && size[u] != 0
  {
    var required := used - expected;
    if required <= 0 {
      return None;
    }
    var groups := GroupBySize(entries, size);
    ghost var live := size.Keys - gone;
    var spilled, full := 0, false;
    var picked: set<Uid> := {};
    var remaining := groups.Keys;
    ghost var bound := SizesBounded(size.Keys, size);
    assert GoodPick({}, live, size, required);
    while remaining != {} && !full
      invariant remaining <= groups.Keys
      invariant GoodPick(picked, live, size, required) && spilled == SetSum(picked, size)
      invariant if full then spilled >= required else Ahead(picked, remaining, bound, live, size)
      decreases remaining
    {
      picked, spilled, full, remaining, bound :=
        PickNextSize(groups, gone, required, picked, spilled, remaining, entries, size, bound);
    }
    assert full || picked == set u | u in live && size[u] != 0;
    r := Some(picked);
  }
}
