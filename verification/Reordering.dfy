/** What a spill or a cleared flight does to a client that is paging: both let the hashed flight map
    choose a new iteration order. The staging batch is treated as one more flight, under the id the
    next spill gives it, so both operations only reorder (and drop) batches of one map. */
module Reordering {
  import opened Bytes
  import opened Blocks
  import opened Buffer
  import opened Paging

  // ---- reading on from any cursor ----

  /** What is wanted behind a client's cursor. */
  function Ahead(blocks: seq<Block>, c: Client, tasks: Option<set<nat>>): seq<Block> {
    Matching(tasks, blocks[Start(blocks, c.cursor)..])
  }

  /** Whatever the buffer holds, reading on from a cursor appends the wanted blocks behind it. */
  lemma {:induction false} PagesFromCursor(blocks: seq<Block>, c: Client, r: Reading, pages: nat)
    requires DistinctIds(blocks) && r.batchLen > 0 && pages >= |Ahead(blocks, c, r.tasks)|
    ensures ReadPages(blocks, c, r, pages).received == c.received + Ahead(blocks, c, r.tasks)
    decreases pages
  {
    if NextPage(blocks, c, r) == [] {
      NothingMore(blocks, c, r, pages);
    } else {
      PageAdvances(blocks, c, r);
      PagesFromCursor(blocks, ReadPage(blocks, c, r), r, pages - 1);
    }
  }

  /** A page takes its blocks from the front of what is wanted behind the cursor. */
  lemma PageAdvances(blocks: seq<Block>, c: Client, r: Reading)
    requires DistinctIds(blocks) && NextPage(blocks, c, r) != []
    ensures var d := ReadPage(blocks, c, r);
            && c.received + Ahead(blocks, c, r.tasks) == d.received + Ahead(blocks, d, r.tasks)
            && |Ahead(blocks, d, r.tasks)| < |Ahead(blocks, c, r.tasks)|
  {
    var k := Start(blocks, c.cursor);
    var m := NextStretch(r.tasks, blocks, k, r.batchLen);
    AfterDistinct(blocks, m);
    TakenFromFront(blocks, k, m, r.tasks, c.received, NextPage(blocks, c, r));
  }

  lemma {:induction false} TakenFromFront(blocks: seq<Block>, k: nat, m: nat, tasks: Option<set<nat>>, held: seq<Block>, page: seq<Block>)
    requires k <= |blocks| && m <= |blocks|
    requires Matching(tasks, blocks[..k]) + page == Matching(tasks, blocks[..m])
    ensures held + Matching(tasks, blocks[k..]) == (held + page) + Matching(tasks, blocks[m..])
    ensures |Matching(tasks, blocks[k..])| == |page| + |Matching(tasks, blocks[m..])|
  {
    MatchingSplit(tasks, blocks, k);
    MatchingSplit(tasks, blocks, m);
    Cancel(Matching(tasks, blocks[..k]), page, Matching(tasks, blocks[k..]), Matching(tasks, blocks[m..]), held);
  }

  lemma Cancel(a: seq<Block>, page: seq<Block>, b: seq<Block>, c: seq<Block>, held: seq<Block>)
    requires a + b == (a + page) + c
    ensures b == page + c && held + b == (held + page) + c
  {
    assert b == (a + b)[|a|..];
    assert page + c == ((a + page) + c)[|a|..];
    assert held + (page + c) == (held + page) + c;
  }

  lemma {:induction false} NothingMore(blocks: seq<Block>, c: Client, r: Reading, pages: nat)
    requires r.batchLen > 0 && NextPage(blocks, c, r) == []
    ensures Ahead(blocks, c, r.tasks) == []
    ensures ReadPages(blocks, c, r, pages) == c
    decreases pages
  {
    if pages > 0 {
      NothingMore(blocks, c, r, pages - 1);
    }
  }

  /** Once the buffer is read to its end, the client holds every wanted block of it exactly once. */
  ghost predicate ExactlyOnce(blocks: seq<Block>, c: Client, r: Reading, pages: nat) {
    forall x | x in Matching(r.tasks, blocks) :: multiset(ReadPages(blocks, c, r, pages).received)[x] == 1
  }

  lemma {:induction false} MatchingMember(tasks: Option<set<nat>>, blocks: seq<Block>, x: Block)
    ensures x in Matching(tasks, blocks) <==> x in blocks && Wanted(tasks, x)
  {
    if blocks != [] {
      MatchingMember(tasks, blocks[1..], x);
      assert blocks == [blocks[0]] + blocks[1..];
    }
  }

  lemma {:induction false} MatchingOnce(tasks: Option<set<nat>>, blocks: seq<Block>, x: Block)
    requires DistinctIds(blocks)
    ensures multiset(Matching(tasks, blocks))[x] == if x in blocks && Wanted(tasks, x) then 1 else 0
  {
    if blocks != [] {
      var rest := blocks[1..];
      assert DistinctIds(rest) by { assert forall i | 0 <= i < |rest| :: rest[i] == blocks[i + 1]; }
      MatchingOnce(tasks, rest, x);
      assert blocks == [blocks[0]] + rest;
      assert blocks[0] !in rest;
    }
  }

  lemma HalvesDistinct(blocks: seq<Block>, k: nat, x: Block)
    requires DistinctIds(blocks) && k <= |blocks|
    ensures DistinctIds(blocks[..k]) && DistinctIds(blocks[k..])
    ensures x in blocks <==> x in blocks[..k] || x in blocks[k..]
    ensures !(x in blocks[..k] && x in blocks[k..])
  {
    var a, b := blocks[..k], blocks[k..];
    assert blocks == a + b;
    assert forall i | 0 <= i < |a| :: a[i] == blocks[i];
    assert forall i | 0 <= i < |b| :: b[i] == blocks[k + i];
  }

  /** Of the wanted blocks in the buffer, the client holds exactly those that have been passed. */
  ghost predicate Delivered(tasks: Option<set<nat>>, blocks: seq<Block>, held: seq<Block>, passed: seq<Block>) {
    forall x | x in Matching(tasks, blocks) :: x in held <==> x in passed
  }

  lemma {:induction false} OnceIff(blocks: seq<Block>, k: nat, tasks: Option<set<nat>>, held: seq<Block>, x: Block)
    requires DistinctIds(blocks) && k <= |blocks| && x in Matching(tasks, blocks) && multiset(held)[x] <= 1
    ensures multiset(held + Matching(tasks, blocks[k..]))[x] == 1 <==> (x in held <==> x in blocks[..k])
  {
    MatchingMember(tasks, blocks, x);
    HalvesDistinct(blocks, k, x);
    MatchingOnce(tasks, blocks[k..], x);
    assert x in held <==> multiset(held)[x] == 1;
  }

  ghost predicate NoRepeats(held: seq<Block>) { forall x :: multiset(held)[x] <= 1 }

  /** The client holds nothing twice, and of the wanted blocks in the buffer exactly those up to its cursor. */
  ghost predicate InStep(blocks: seq<Block>, c: Client, tasks: Option<set<nat>>) {
    NoRepeats(c.received) && Delivered(tasks, blocks, c.received, blocks[..Start(blocks, c.cursor)])
  }

  /** The buffer may change in any way between two pages of a client: reading on delivers every wanted
      block exactly once if and only if what the client already holds of it is what stands up to
      its cursor. */
  lemma ExactIffDelivered(blocks: seq<Block>, c: Client, r: Reading, pages: nat)
    requires DistinctIds(blocks) && r.batchLen > 0 && pages >= |blocks|
    requires NoRepeats(c.received)
    ensures ExactlyOnce(blocks, c, r, pages) <==> InStep(blocks, c, r.tasks)
  {
    var k := Start(blocks, c.cursor);
    MatchingLength(r.tasks, blocks[k..]);
    PagesFromCursor(blocks, c, r, pages);
    var final := ReadPages(blocks, c, r, pages).received;
    forall x | x in Matching(r.tasks, blocks)
      ensures multiset(final)[x] == 1 <==> (x in c.received <==> x in blocks[..k])
    {
      OnceIff(blocks, k, r.tasks, c.received, x);
    }
    SameForAll(Matching(r.tasks, blocks), final, c.received, blocks[..k]);
  }

  lemma SameForAll(wanted: seq<Block>, final: seq<Block>, held: seq<Block>, passed: seq<Block>)
    requires forall x | x in wanted :: multiset(final)[x] == 1 <==> (x in held <==> x in passed)
    ensures (forall x | x in wanted :: multiset(final)[x] == 1) <==> (forall x | x in wanted :: x in held <==> x in passed)
  {
  }

  lemma {:induction false} MatchingLength(tasks: Option<set<nat>>, blocks: seq<Block>)
    ensures |Matching(tasks, blocks)| <= |blocks|
  {
    if blocks != [] {
      MatchingLength(tasks, blocks[1..]);
    }
  }

  // ---- the batches of a buffer, in a given order ----

  predicate Within(order: seq<nat>, batches: map<nat, Batch>) { forall f | f in order :: f in batches }

  predicate NoRepeat(order: seq<nat>) { forall i, j | 0 <= i < j < |order| :: order[i] != order[j] }

  /** Whether `f` stands before `g`. */
  predicate Precedes(order: seq<nat>, f: nat, g: nat) {
    exists a, b | 0 <= a < b < |order| :: order[a] == f && order[b] == g
  }

  /** The batch that holds the n-th block. */
  function BatchAt(batches: map<nat, Batch>, order: seq<nat>, n: nat): (f: nat)
    requires Within(order, batches) && 0 < n <= |FlightBlocks(batches, order)|
    ensures f in order
  {
    var first := |Flatten(batches[order[0]])|;
    if n <= first then order[0] else BatchAt(batches, order[1..], n - first)
  }

  /** The first `n` blocks are all of the batches before the n-th block's and a part of that one. */
  lemma {:induction false} SplitAt(batches: map<nat, Batch>, order: seq<nat>, n: nat) returns (i: nat, j: nat)
    requires Within(order, batches) && 0 < n <= |FlightBlocks(batches, order)|
    ensures i < |order| && order[i] == BatchAt(batches, order, n)
    ensures 0 < j <= |Flatten(batches[order[i]])|
    ensures FlightBlocks(batches, order)[..n] == FlightBlocks(batches, order[..i]) + Flatten(batches[order[i]])[..j]
    ensures FlightBlocks(batches, order)[n - 1] == Flatten(batches[order[i]])[j - 1]
  {
    var head := Flatten(batches[order[0]]);
    var rest := FlightBlocks(batches, order[1..]);
    if n <= |head| {
      i, j := 0, n;
      assert (head + rest)[..n] == head[..n];
    } else {
      var k;
      k, j := SplitAt(batches, order[1..], n - |head|);
      i := k + 1;
      assert order[..i][1..] == order[1..][..k];
      assert order[..i][0] == order[0];
      assert (head + rest)[..n] == head + rest[..n - |head|];
    }
  }

  /** The same part of the same batch, wherever that batch stands in another order. */
  lemma JoinAt(batches: map<nat, Batch>, order: seq<nat>, i: nat, j: nat) returns (n: nat)
    requires Within(order, batches) && i < |order| && 0 < j <= |Flatten(batches[order[i]])|
    ensures 0 < n <= |FlightBlocks(batches, order)|
    ensures FlightBlocks(batches, order)[..n] == FlightBlocks(batches, order[..i]) + Flatten(batches[order[i]])[..j]
    ensures FlightBlocks(batches, order)[n - 1] == Flatten(batches[order[i]])[j - 1]
  {
    var before, batch := FlightBlocks(batches, order[..i]), Flatten(batches[order[i]]);
    assert order == order[..i] + order[i..];
    FlightBlocksConcat(batches, order[..i], order[i..]);
    var all := FlightBlocks(batches, order);
    n := |before| + j;
    assert all[..n] == before + batch[..j];
    assert all[n - 1] == all[..n][n - 1];
  }

  lemma {:induction false} InFlightBlocks(batches: map<nat, Batch>, order: seq<nat>, x: Block)
    requires Within(order, batches)
    ensures x in FlightBlocks(batches, order) <==> exists f | f in order :: x in Flatten(batches[f])
  {
    if order != [] {
      InFlightBlocks(batches, order[1..], x);
      assert forall f :: f in order <==> f == order[0] || f in order[1..];
    }
  }

  // ---- distinct ids, whatever the order ----

  /** No id occurs twice in a batch or in two batches. */
  ghost predicate Separate(batches: map<nat, Batch>, order: seq<nat>)
    requires Within(order, batches)
  {
    && (forall f | f in order :: DistinctIds(Flatten(batches[f])))
    && (forall f, g, x, y | f in order && g in order && f != g && x in Flatten(batches[f]) && y in Flatten(batches[g]) ::
          x.blockId != y.blockId)
  }

  lemma {:induction false} DistinctIsSeparate(batches: map<nat, Batch>, order: seq<nat>)
    requires Within(order, batches) && NoRepeat(order) && DistinctIds(FlightBlocks(batches, order))
    ensures Separate(batches, order)
  {
    if order != [] {
      var head, rest := Flatten(batches[order[0]]), FlightBlocks(batches, order[1..]);
      PartsDistinct(head, rest);
      DistinctIsSeparate(batches, order[1..]);
      forall f, g, x, y | f in order && g in order && f != g && x in Flatten(batches[f]) && y in Flatten(batches[g])
        ensures x.blockId != y.blockId
      {
        InFlightBlocks(batches, order[1..], x);
        InFlightBlocks(batches, order[1..], y);
      }
    }
  }

  lemma PartsDistinct(a: seq<Block>, b: seq<Block>)
    ensures DistinctIds(a + b) <==>
            DistinctIds(a) && DistinctIds(b) && forall x, y | x in a && y in b :: x.blockId != y.blockId
  {
    var c := a + b;
    assert forall i | 0 <= i < |a| :: c[i] == a[i];
    assert forall i | 0 <= i < |b| :: c[|a| + i] == b[i];
    assert forall i | |a| <= i < |c| :: c[i] == b[i - |a|];
  }

  lemma {:induction false} SeparateIsDistinct(batches: map<nat, Batch>, order: seq<nat>)
    requires Within(order, batches) && NoRepeat(order) && Separate(batches, order)
    ensures DistinctIds(FlightBlocks(batches, order))
  {
    if order != [] {
      var head, rest := Flatten(batches[order[0]]), FlightBlocks(batches, order[1..]);
      SeparateIsDistinct(batches, order[1..]);
      forall x, y | x in head && y in rest ensures x.blockId != y.blockId {
        InFlightBlocks(batches, order[1..], y);
        var f :| f in order[1..] && y in Flatten(batches[f]);
        assert f != order[0];
      }
      PartsDistinct(head, rest);
    }
  }

  // ---- the same batches in another order ----

  /** The batches still there, in their new order. */
  ghost predicate Reordered(batches: map<nat, Batch>, from: seq<nat>, to: seq<nat>) {
    && Within(from, batches) && NoRepeat(from)
    && NoRepeat(to) && (forall f | f in to :: f in from)
  }

  /** Every other batch that still has wanted blocks stays on its side of batch `g`. A batch `g` that
      is gone precedes nothing, so then no batch with wanted blocks may have stood before it. */
  ghost predicate SidesKept(batches: map<nat, Batch>, from: seq<nat>, to: seq<nat>, g: nat, tasks: Option<set<nat>>)
    requires Reordered(batches, from, to)
  {
    forall f | f in to && f != g && Matching(tasks, Flatten(batches[f])) != [] ::
      Precedes(from, f, g) <==> Precedes(to, f, g)
  }

  /** Block `x` of batch `f` is held exactly when it has been passed if and only if `f` kept its side. */
  ghost predicate SideHolds(from: seq<nat>, to: seq<nat>, g: nat, held: seq<Block>, passed: seq<Block>, f: nat, x: Block) {
    (x in held <==> x in passed) <==> (f == g || (Precedes(from, f, g) <==> Precedes(to, f, g)))
  }

  lemma PrefixIsPrecedes(order: seq<nat>, i: nat, f: nat)
    requires NoRepeat(order) && i < |order|
    ensures f in order[..i] <==> Precedes(order, f, order[i])
  {
    if f in order[..i] {
      var a :| 0 <= a < i && order[..i][a] == f;
      assert order[a] == f;
    }
    if Precedes(order, f, order[i]) {
      var a, b :| 0 <= a < b < |order| && order[a] == f && order[b] == order[i];
      assert order[..i][a] == f;
    }
  }

  /** A block of another batch has been passed exactly when its batch stands before the cursor's. */
  lemma {:induction false} PassedIff(batches: map<nat, Batch>, order: seq<nat>, i: nat, j: nat, f: nat, x: Block)
    requires Within(order, batches) && NoRepeat(order) && Separate(batches, order)
    requires i < |order| && j <= |Flatten(batches[order[i]])|
    requires f in order && x in Flatten(batches[f])
    ensures var passed := FlightBlocks(batches, order[..i]) + Flatten(batches[order[i]])[..j];
            if f == order[i] then x in passed <==> x in Flatten(batches[f])[..j]
            else x in passed <==> Precedes(order, f, order[i])
  {
    var g := order[i];
    var part := Flatten(batches[g])[..j];
    InFlightBlocks(batches, order[..i], x);
    PrefixIsPrecedes(order, i, f);
    assert x in part ==> x in Flatten(batches[g]);
    forall h | h in order[..i] && x in Flatten(batches[h]) ensures h == f {
      assert h in order;
    }
    if f == g {
      assert f !in order[..i];
    }
  }

  lemma SeparateSub(batches: map<nat, Batch>, from: seq<nat>, to: seq<nat>)
    requires Reordered(batches, from, to) && Separate(batches, from)
    ensures Within(to, batches) && Separate(batches, to)
  {
  }

  /** Of a remaining wanted block of batch `f`: what the client holds and what its cursor has passed
      agree if and only if the batch kept its side. The cursor's own batch is still there. */
  lemma {:induction false} SideDecides(batches: map<nat, Batch>, from: seq<nat>, to: seq<nat>, held: seq<Block>, tasks: Option<set<nat>>,
                    i: nat, j: nat, l: nat, f: nat, x: Block)
    requires Reordered(batches, from, to) && Separate(batches, from)
    requires i < |from| && 0 < j <= |Flatten(batches[from[i]])|
    requires Delivered(tasks, FlightBlocks(batches, from), held, FlightBlocks(batches, from[..i]) + Flatten(batches[from[i]])[..j])
    requires l < |to| && to[l] == from[i]
    requires f in to && x in Flatten(batches[f]) && Wanted(tasks, x)
    ensures SideHolds(from, to, from[i], held, FlightBlocks(batches, to[..l]) + Flatten(batches[to[l]])[..j], f, x)
  {
    StillWanted(batches, from, to, tasks, f, x);
    PassedIff(batches, from, i, j, f, x);
    PassedIff(batches, to, l, j, f, x);
  }

  lemma {:induction false} StillWanted(batches: map<nat, Batch>, from: seq<nat>, to: seq<nat>, tasks: Option<set<nat>>, f: nat, x: Block)
    requires Reordered(batches, from, to) && f in to && x in Flatten(batches[f]) && Wanted(tasks, x)
    ensures x in Matching(tasks, FlightBlocks(batches, from))
  {
    InFlightBlocks(batches, from, x);
    MatchingMember(tasks, FlightBlocks(batches, from), x);
  }

  lemma HasWanted(batches: map<nat, Batch>, order: seq<nat>, tasks: Option<set<nat>>, f: nat) returns (x: Block)
    requires Within(order, batches) && f in order && Matching(tasks, Flatten(batches[f])) != []
    ensures x in Flatten(batches[f]) && Wanted(tasks, x) && x in Matching(tasks, FlightBlocks(batches, order))
  {
    x := Matching(tasks, Flatten(batches[f]))[0];
    MatchingMember(tasks, Flatten(batches[f]), x);
    InFlightBlocks(batches, order, x);
    MatchingMember(tasks, FlightBlocks(batches, order), x);
  }

  lemma BatchOf(batches: map<nat, Batch>, order: seq<nat>, tasks: Option<set<nat>>, x: Block) returns (f: nat)
    requires Within(order, batches) && x in Matching(tasks, FlightBlocks(batches, order))
    ensures f in order && x in Flatten(batches[f]) && Wanted(tasks, x) && Matching(tasks, Flatten(batches[f])) != []
  {
    MatchingMember(tasks, FlightBlocks(batches, order), x);
    InFlightBlocks(batches, order, x);
    f :| f in order && x in Flatten(batches[f]);
    MatchingMember(tasks, Flatten(batches[f]), x);
  }

  /** Where a cursor in a batch that is still there stands in the new order. */
  lemma {:induction false} CursorMoves(batches: map<nat, Batch>, order: seq<nat>, l: nat, j: nat, cursor: I64)
    requires Within(order, batches) && DistinctIds(FlightBlocks(batches, order))
    requires l < |order| && 0 < j <= |Flatten(batches[order[l]])|
    requires cursor == Flatten(batches[order[l]])[j - 1].blockId
    ensures var now := FlightBlocks(batches, order);
            now[..Start(now, cursor)] == FlightBlocks(batches, order[..l]) + Flatten(batches[order[l]])[..j]
  {
    var k := JoinAt(batches, order, l, j);
    AfterDistinct(FlightBlocks(batches, order), k);
  }

  lemma {:induction false} SidesDecide(batches: map<nat, Batch>, from: seq<nat>, to: seq<nat>, held: seq<Block>, tasks: Option<set<nat>>,
                    i: nat, j: nat, l: nat)
    requires Reordered(batches, from, to) && Separate(batches, from)
    requires i < |from| && 0 < j <= |Flatten(batches[from[i]])|
    requires Delivered(tasks, FlightBlocks(batches, from), held, FlightBlocks(batches, from[..i]) + Flatten(batches[from[i]])[..j])
    requires l < |to| && to[l] == from[i]
    ensures Delivered(tasks, FlightBlocks(batches, to), held,
                      FlightBlocks(batches, to[..l]) + Flatten(batches[to[l]])[..j])
            <==> SidesKept(batches, from, to, from[i], tasks)
  {
    var g, passed := from[i], FlightBlocks(batches, to[..l]) + Flatten(batches[to[l]])[..j];
    forall f, x | f in to && x in Flatten(batches[f]) && Wanted(tasks, x)
      ensures SideHolds(from, to, g, held, passed, f, x)
    {
      SideDecides(batches, from, to, held, tasks, i, j, l, f, x);
    }
    SidesAreBlocks(batches, from, to, g, tasks, held, passed);
  }

  lemma CursorAt(blocks: seq<Block>, cursor: I64)
    requires Start(blocks, cursor) > 0
    ensures blocks[Start(blocks, cursor) - 1].blockId == cursor
  {
  }

  lemma TakeNone(blocks: seq<Block>)
    ensures blocks[..0] == []
  {
  }

  /** The cursor's batch is still there: reading on is exact if and only if every batch with wanted
      blocks keeps its side of it. */
  lemma {:induction false} ExactWhenPresent(batches: map<nat, Batch>, from: seq<nat>, to: seq<nat>, c: Client, tasks: Option<set<nat>>, n: nat)
    requires Reordered(batches, from, to) && Separate(batches, from)
    requires DistinctIds(FlightBlocks(batches, to))
    requires 0 < n == Start(FlightBlocks(batches, from), c.cursor) && BatchAt(batches, from, n) in to
    requires Delivered(tasks, FlightBlocks(batches, from), c.received, FlightBlocks(batches, from)[..n])
    ensures var now := FlightBlocks(batches, to);
            Delivered(tasks, now, c.received, now[..Start(now, c.cursor)])
            <==> SidesKept(batches, from, to, BatchAt(batches, from, n), tasks)
  {
    var i, j := SplitAt(batches, from, n);
    var l :| 0 <= l < |to| && to[l] == from[i];
    assert c.cursor == Flatten(batches[from[i]])[j - 1].blockId by { CursorAt(FlightBlocks(batches, from), c.cursor); }
    CursorMoves(batches, to, l, j, c.cursor);
    SidesDecide(batches, from, to, c.received, tasks, i, j, l);
  }

  lemma ReceivedOnce(blocks: seq<Block>, c: Client, tasks: Option<set<nat>>, n: nat)
    requires DistinctIds(blocks) && Caught(blocks, c, tasks, n)
    ensures NoRepeats(c.received)
  {
    PrefixDistinct(blocks[..n], blocks);
    forall x ensures multiset(c.received)[x] <= 1 {
      MatchingOnce(tasks, blocks[..n], x);
    }
  }

  /** A client that has paged through appends alone is in step. */
  lemma CaughtIsInStep(blocks: seq<Block>, c: Client, tasks: Option<set<nat>>, n: nat)
    requires DistinctIds(blocks) && Caught(blocks, c, tasks, n)
    ensures InStep(blocks, c, tasks) && Start(blocks, c.cursor) == n
  {
    ReceivedOnce(blocks, c, tasks, n);
    if n > 0 {
      AfterDistinct(blocks, n);
    }
    forall x | x in Matching(tasks, blocks) ensures x in c.received <==> x in blocks[..n] {
      MatchingMember(tasks, blocks, x);
      MatchingMember(tasks, blocks[..n], x);
    }
  }

  /** From single blocks to batches. */
  lemma {:induction false} SidesAreBlocks(batches: map<nat, Batch>, from: seq<nat>, to: seq<nat>, g: nat, tasks: Option<set<nat>>,
                       held: seq<Block>, passed: seq<Block>)
    requires Reordered(batches, from, to)
    requires forall f, x | f in to && x in Flatten(batches[f]) && Wanted(tasks, x) ::
               SideHolds(from, to, g, held, passed, f, x)
    ensures SidesKept(batches, from, to, g, tasks)
            <==> Delivered(tasks, FlightBlocks(batches, to), held, passed)
  {
    var now := FlightBlocks(batches, to);
    if SidesKept(batches, from, to, g, tasks) {
      forall x | x in Matching(tasks, now) ensures x in held <==> x in passed {
        var f := BatchOf(batches, to, tasks, x);
        assert SideHolds(from, to, g, held, passed, f, x);
      }
    } else {
      var f :| f in to && f != g && Matching(tasks, Flatten(batches[f])) != []
               && !(Precedes(from, f, g) <==> Precedes(to, f, g));
      var x := HasWanted(batches, to, tasks, f);
      assert SideHolds(from, to, g, held, passed, f, x);
    }
  }

  /** The cursor's batch is gone, so the read starts over: that is exact if and only if no batch with
      wanted blocks had been passed. */
  lemma {:induction false} ExactWhenGone(batches: map<nat, Batch>, from: seq<nat>, to: seq<nat>, c: Client, tasks: Option<set<nat>>, n: nat)
    requires Reordered(batches, from, to) && Separate(batches, from)
    requires 0 < n == Start(FlightBlocks(batches, from), c.cursor) && BatchAt(batches, from, n) !in to
    requires Delivered(tasks, FlightBlocks(batches, from), c.received, FlightBlocks(batches, from)[..n])
    ensures var now := FlightBlocks(batches, to);
            && Start(now, c.cursor) == 0
            && (Delivered(tasks, now, c.received, now[..0])
                <==> SidesKept(batches, from, to, BatchAt(batches, from, n), tasks))
  {
    CursorAt(FlightBlocks(batches, from), c.cursor);
    var i, j := SplitAt(batches, from, n);
    CursorGone(batches, from, to, from[i], Flatten(batches[from[i]])[j - 1]);
    TakeNone(FlightBlocks(batches, to));
    GoneDecides(batches, from, to, c.received, tasks, i, j);
  }

  lemma {:induction false} GoneDecides(batches: map<nat, Batch>, from: seq<nat>, to: seq<nat>, held: seq<Block>, tasks: Option<set<nat>>,
                    i: nat, j: nat)
    requires Reordered(batches, from, to) && Separate(batches, from)
    requires i < |from| && 0 < j <= |Flatten(batches[from[i]])| && from[i] !in to
    requires Delivered(tasks, FlightBlocks(batches, from), held, FlightBlocks(batches, from[..i]) + Flatten(batches[from[i]])[..j])
    ensures Delivered(tasks, FlightBlocks(batches, to), held, []) <==> SidesKept(batches, from, to, from[i], tasks)
  {
    forall f, x | f in to && x in Flatten(batches[f]) && Wanted(tasks, x)
      ensures SideHolds(from, to, from[i], held, [], f, x)
    {
      StillWanted(batches, from, to, tasks, f, x);
      PassedIff(batches, from, i, j, f, x);
      assert !Precedes(to, f, from[i]);
    }
    SidesAreBlocks(batches, from, to, from[i], tasks, held, []);
  }

  lemma {:induction false} OccursBefore(batches: map<nat, Batch>, from: seq<nat>, to: seq<nat>, id: I64)
    requires Reordered(batches, from, to)
    ensures Occurs(FlightBlocks(batches, to), id) ==> Occurs(FlightBlocks(batches, from), id)
  {
    var was, now := FlightBlocks(batches, from), FlightBlocks(batches, to);
    if Occurs(now, id) {
      var i :| 0 <= i < |now| && now[i].blockId == id;
      InFlightBlocks(batches, to, now[i]);
      InFlightBlocks(batches, from, now[i]);
      var k :| 0 <= k < |was| && was[k] == now[i];
    }
  }

  /** A cursor that stands nowhere stands nowhere in a new order either. */
  lemma {:induction false} ExactWhenNowhere(batches: map<nat, Batch>, from: seq<nat>, to: seq<nat>, c: Client, tasks: Option<set<nat>>)
    requires Reordered(batches, from, to) && Start(FlightBlocks(batches, from), c.cursor) == 0
    requires Delivered(tasks, FlightBlocks(batches, from), c.received, [])
    ensures var now := FlightBlocks(batches, to);
            Start(now, c.cursor) == 0 && Delivered(tasks, now, c.received, [])
  {
    var now := FlightBlocks(batches, to);
    OccursBefore(batches, from, to, c.cursor);
    forall x | x in Matching(tasks, now) ensures x !in c.received {
      var f := BatchOf(batches, to, tasks, x);
      StillWanted(batches, from, to, tasks, f, x);
    }
  }

  lemma {:induction false} CursorGone(batches: map<nat, Batch>, from: seq<nat>, to: seq<nat>, g: nat, last: Block)
    requires Reordered(batches, from, to) && Separate(batches, from)
    requires g in from && g !in to && last in Flatten(batches[g])
    ensures !Occurs(FlightBlocks(batches, to), last.blockId)
  {
    var now := FlightBlocks(batches, to);
    forall i | 0 <= i < |now| ensures now[i].blockId != last.blockId {
      InFlightBlocks(batches, to, now[i]);
    }
  }

  /** A new order of the batches keeps a client in step if and only if every batch with wanted blocks keeps
      its side of the batch the cursor is in. */
  lemma {:induction false} ReorderInStepIff(batches: map<nat, Batch>, from: seq<nat>, to: seq<nat>, c: Client, tasks: Option<set<nat>>, n: nat)
    requires Reordered(batches, from, to) && DistinctIds(FlightBlocks(batches, from))
    requires InStep(FlightBlocks(batches, from), c, tasks) && n == Start(FlightBlocks(batches, from), c.cursor)
    ensures DistinctIds(FlightBlocks(batches, to))
    ensures InStep(FlightBlocks(batches, to), c, tasks)
            <==> n == 0 || SidesKept(batches, from, to, BatchAt(batches, from, n), tasks)
  {
    DistinctIsSeparate(batches, from);
    SeparateSub(batches, from, to);
    SeparateIsDistinct(batches, to);
    if n == 0 {
      assert FlightBlocks(batches, from)[..0] == [] && FlightBlocks(batches, to)[..0] == [];
      ExactWhenNowhere(batches, from, to, c, tasks);
    } else if BatchAt(batches, from, n) in to {
      ExactWhenPresent(batches, from, to, c, tasks, n);
    } else {
      ExactWhenGone(batches, from, to, c, tasks, n);
    }
  }

  // ---- the two operations ----

  /** Flights, and the staging batch under the id the next spill gives it. */
  function Batches(s: BufferState): map<nat, Batch> { s.flights[s.counter := s.staging] }

  function Layout(s: BufferState): seq<nat> { s.order + [s.counter] }

  lemma FlatIsLayout(s: BufferState)
    requires s.Valid()
    ensures Within(Layout(s), Batches(s)) && NoRepeat(Layout(s))
    ensures s.Flat() == FlightBlocks(Batches(s), Layout(s))
  {
    var all := Batches(s);
    assert forall f | f in Layout(s) :: f in s.order || f == s.counter;
    FlightBlocksConcat(all, s.order, [s.counter]);
    FlightBlocksFrame(s.flights, all, s.order);
    FlightBlocksOne(all, s.counter);
  }

  /** A spill of this order keeps every batch with wanted blocks on its side of the cursor's batch. */
  ghost predicate SpillKeepsSides(s: BufferState, order: seq<nat>, cursor: I64, tasks: Option<set<nat>>)
    requires s.Valid() && Spill(s, order).Valid()
  {
    SpillReorders(s, order);
    var n := Start(s.Flat(), cursor);
    n == 0 || SidesKept(Batches(s), Layout(s), order, BatchAt(Batches(s), Layout(s), n), tasks)
  }

  /** A spill under a paging client that is in step, for every order the map may take: reading on delivers
      every wanted block exactly once if and only if every batch with wanted blocks is on the same side of
      the cursor's batch in the new order as before. */
  lemma {:induction false} SpillExactIff(s: BufferState, order: seq<nat>, c: Client, r: Reading, pages: nat)
    requires s.Valid() && Spill(s, order).Valid()
    requires DistinctIds(s.Flat()) && r.batchLen > 0 && InStep(s.Flat(), c, r.tasks)
    requires pages >= |Spill(s, order).Flat()|
    ensures ExactlyOnce(Spill(s, order).Flat(), c, r, pages) <==> InStep(Spill(s, order).Flat(), c, r.tasks)
    ensures ExactlyOnce(Spill(s, order).Flat(), c, r, pages) <==> SpillKeepsSides(s, order, c.cursor, r.tasks)
    ensures DistinctIds(Spill(s, order).Flat())
  {
    SpillReorders(s, order);
    ReorderInStepIff(Batches(s), Layout(s), order, c, r.tasks, Start(s.Flat(), c.cursor));
    ExactIffDelivered(Spill(s, order).Flat(), c, r, pages);
  }

  lemma {:induction false} SpillReorders(s: BufferState, order: seq<nat>)
    requires s.Valid() && Spill(s, order).Valid()
    ensures Reordered(Batches(s), Layout(s), order) && s.Flat() == FlightBlocks(Batches(s), Layout(s))
    ensures Spill(s, order).Flat() == FlightBlocks(Batches(s), order)
  {
    FlatIsLayout(s);
    assert Layout(s)[|s.order|] == s.counter;
    forall f | f in order ensures f in Layout(s) {
      if f != s.counter {
        assert f in s.flights;
        InLayout(s, f);
      }
    }
  }

  lemma InLayout(s: BufferState, f: nat)
    requires s.Valid() && f in s.flights
    ensures f in Layout(s)
  {
    var i :| 0 <= i < |s.order| && s.order[i] == f;
    assert Layout(s)[i] == f;
  }

  /** A clear of this order likewise; clearing a flight that is not there changes nothing. */
  ghost predicate ClearKeepsSides(s: BufferState, flight: nat, size: nat, order: seq<nat>, cursor: I64, tasks: Option<set<nat>>)
    requires s.Valid() && Clear(s, flight, size, order).Valid()
  {
    if flight !in s.flights then true else
      ClearReorders(s, flight, size, order);
      var n := Start(s.Flat(), cursor);
      n == 0 || SidesKept(Batches(s), Layout(s), order + [s.counter], BatchAt(Batches(s), Layout(s), n), tasks)
  }

  /** A flight cleared under such a client: of the blocks still in memory, each wanted one is delivered
      exactly once if and only if every remaining batch with wanted blocks keeps its side of the cursor's
      batch. If that batch is the cleared one, the read starts over, and the condition says that no
      remaining batch with wanted blocks had been read. */
  lemma {:induction false} ClearExactIff(s: BufferState, flight: nat, size: nat, order: seq<nat>, c: Client, r: Reading, pages: nat)
    requires s.Valid() && Clear(s, flight, size, order).Valid()
    requires DistinctIds(s.Flat()) && r.batchLen > 0 && InStep(s.Flat(), c, r.tasks)
    requires pages >= |Clear(s, flight, size, order).Flat()|
    ensures ExactlyOnce(Clear(s, flight, size, order).Flat(), c, r, pages)
            <==> InStep(Clear(s, flight, size, order).Flat(), c, r.tasks)
    ensures ExactlyOnce(Clear(s, flight, size, order).Flat(), c, r, pages)
            <==> ClearKeepsSides(s, flight, size, order, c.cursor, r.tasks)
    ensures DistinctIds(Clear(s, flight, size, order).Flat())
  {
    if flight in s.flights {
      ClearReorders(s, flight, size, order);
      ReorderInStepIff(Batches(s), Layout(s), order + [s.counter], c, r.tasks, Start(s.Flat(), c.cursor));
    }
    ExactIffDelivered(Clear(s, flight, size, order).Flat(), c, r, pages);
  }

  lemma {:induction false} ClearReorders(s: BufferState, flight: nat, size: nat, order: seq<nat>)
    requires s.Valid() && Clear(s, flight, size, order).Valid() && flight in s.flights
    ensures Reordered(Batches(s), Layout(s), order + [s.counter]) && s.Flat() == FlightBlocks(Batches(s), Layout(s))
    ensures Clear(s, flight, size, order).Flat() == FlightBlocks(Batches(s), order + [s.counter])
  {
    var t := Clear(s, flight, size, order);
    FlatIsLayout(s);
    FlatIsLayout(t);
    assert Layout(s)[|s.order|] == s.counter;
    forall f | f in Layout(t) ensures f in Layout(s) && Batches(t)[f] == Batches(s)[f] {
      if f != s.counter {
        assert f in t.flights;
        InLayout(s, f);
      }
    }
    FlightBlocksFrame(Batches(t), Batches(s), Layout(t));
  }

  /** If the spilled batch comes last in the new order, readers notice nothing. */
  lemma SpillInOrderKeepsFlat(s: BufferState)
    requires s.Valid()
    ensures Spill(s, Layout(s)).Valid() && Spill(s, Layout(s)).Flat() == s.Flat()
  {
    FlatIsLayout(s);
    forall f | f in Batches(s) ensures f in Layout(s) {
      assert Layout(s)[|s.order|] == s.counter;
      assert f in s.order || f == s.counter;
    }
    SpillReorders(s, Layout(s));
  }

  const ONE := Block(1, 1, 0, 0, [7], 0)
  const TWO := Block(2, 1, 0, 0, [8], 0)

  lemma PageAtEnd(blocks: seq<Block>, batchLen: int, tasks: Option<set<nat>>)
    requires DistinctIds(blocks) && blocks != []
    ensures Page(blocks, Query(blocks[|blocks| - 1].blockId, batchLen, tasks)) == []
  {
    AfterDistinct(blocks, |blocks|);
  }

  lemma FlatOfOne(s: BufferState, f: nat, x: Block)
    requires s.Valid() && s.flights == map[f := [[x]]] && s.order == [f]
    ensures s.Flat() == [x] + Flatten(s.staging)
  {
    FlattenOne([x]);
    FlightBlocksOne(s.flights, f);
  }

  /** The map order is not under anyone's control, and another order hides a block: with block 1 in
      flight and read, and block 2 spilled in front of it, the next page is empty although block 2
      was never delivered. */
  lemma SpillMayHideBlock(s: BufferState)
    requires s == BufferState(2, 1, 1, [[TWO]], map[0 := [[ONE]]], [0], 1)
    ensures s.Valid() && Page(s.Flat(), Query(1, 10, None)) == [TWO]
    ensures Spill(s, [1, 0]).Valid() && TWO in Spill(s, [1, 0]).Flat()
    ensures Page(Spill(s, [1, 0]).Flat(), Query(1, 10, None)) == []
  {
    FlatOfOne(s, 0, ONE);
    FlattenOne([TWO]);
    assert s.Flat() == [ONE, TWO];
    AfterDistinct([ONE, TWO], 1);
    assert Matching(None, [TWO]) == [TWO];
    assert TakeBelow([TWO], 10) == [TWO];
    var t := Spill(s, [1, 0]);
    assert t.flights == map[0 := [[ONE]], 1 := [[TWO]]];
    assert t.Valid() by { SpillKeepsValid(s, [1, 0]); }
    SpilledInFront(t);
    PageAtEnd([TWO, ONE], 10, None);
  }

  lemma SpilledInFront(t: BufferState)
    requires t.Valid() && t.flights == map[0 := [[ONE]], 1 := [[TWO]]] && t.order == [1, 0] && t.staging == []
    ensures t.Flat() == [TWO, ONE]
  {
    FlightBlocksConcat(t.flights, [1], [0]);
    FlattenOne([ONE]);
    FlattenOne([TWO]);
    FlightBlocksOne(t.flights, 0);
    FlightBlocksOne(t.flights, 1);
    assert [1] + [0] == t.order;
  }
}
