/** A paging client over whole runs: appends, spills, cleared flights and pages in any order. */
module PagingRuns {
  import opened Bytes
  import opened Blocks
  import opened Buffer
  import opened Paging
  import opened Reordering

  datatype Change =
    | Add(blocks: seq<Block>, size: nat)
    | TurnPage
    | SpillBatch(spilled: seq<nat>)                              // the order the flight map takes
    | ClearBatch(flight: nat, cleared: nat, order: seq<nat>)     // flight, size and order

  predicate CanChange(s: Session, op: Change) {
    match op
    case Add(_, _) => true
    case TurnPage => true
    case SpillBatch(order) => Spill(s.buffer, order).Valid()
    case ClearBatch(flight, size, order) => Clear(s.buffer, flight, size, order).Valid()
  }

  function Changed(s: Session, op: Change, r: Reading): (t: Session)
    requires s.buffer.Valid() && CanChange(s, op)
    ensures t.buffer.Valid()
  {
    match op
    case Add(blocks, size) => s.(buffer := Append(s.buffer, blocks, size))
    case TurnPage => s.(client := ReadPage(s.buffer.Flat(), s.client, r))
    case SpillBatch(order) => s.(buffer := Spill(s.buffer, order))
    case ClearBatch(flight, size, order) => s.(buffer := Clear(s.buffer, flight, size, order))
  }

  /** No spill and no clear moves a batch with wanted blocks across the cursor. */
  ghost predicate Keeps(s: Session, op: Change, tasks: Option<set<nat>>)
    requires s.buffer.Valid() && CanChange(s, op)
  {
    match op
    case Add(_, _) => true
    case TurnPage => true
    case SpillBatch(order) => SpillKeepsSides(s.buffer, order, s.client.cursor, tasks)
    case ClearBatch(flight, size, order) => ClearKeepsSides(s.buffer, flight, size, order, s.client.cursor, tasks)
  }

  ghost predicate StepAt(states: seq<Session>, ops: seq<Change>, r: Reading, i: nat) {
    && i < |ops| < |states| && states[i].buffer.Valid() && CanChange(states[i], ops[i])
    && states[i + 1] == Changed(states[i], ops[i], r)
  }

  /** All states of a run that starts with a new client. */
  ghost predicate IsRun(b: BufferState, states: seq<Session>, ops: seq<Change>, r: Reading) {
    && b.Valid() && |states| == |ops| + 1 && states[0] == Open(b)
    && forall i: nat | i < |ops| :: StepAt(states, ops, r, i)
  }

  /** The blocks that were added, in order. */
  function Added(ops: seq<Change>): seq<Block>
    decreases |ops|
  {
    if ops == [] then [] else
      Added(ops[..|ops| - 1]) + if ops[|ops| - 1].Add? then ops[|ops| - 1].blocks else []
  }

  // ---- what a session knows ----

  /** Everything in the buffer and at the client is among `all`, and the cursor is a received block's id. */
  ghost predicate Knows(s: Session, all: seq<Block>) {
    && s.buffer.Valid() && DistinctIds(all) && DistinctIds(s.buffer.Flat())
    && (forall x | x in s.buffer.Flat() :: x in all) && (forall x | x in s.client.received :: x in all)
    && (s.client.cursor != INVALID_BLOCK_ID ==> exists x | x in s.client.received :: x.blockId == s.client.cursor)
  }

  lemma AppendFlat(s: BufferState, blocks: seq<Block>, size: nat)
    requires s.Valid()
    ensures Append(s, blocks, size).Valid() && Append(s, blocks, size).Flat() == s.Flat() + blocks
  {
    FlattenSnoc(s.staging, blocks);
  }

  lemma AddKnows(s: Session, blocks: seq<Block>, size: nat, all: seq<Block>, r: Reading)
    requires Knows(s, all) && DistinctIds(all + blocks)
    ensures Knows(Changed(s, Add(blocks, size), r), all + blocks)
  {
    AppendFlat(s.buffer, blocks, size);
    PartsDistinct(all, blocks);
    PartsDistinct(s.buffer.Flat(), blocks);
  }

  lemma PageFrom(blocks: seq<Block>, q: Query, x: Block)
    requires x in Page(blocks, q)
    ensures x in blocks
  {
    var k := Start(blocks, q.last);
    var rest := Matching(q.tasks, blocks[k..]);
    if Page(blocks, q) != [] {
      var m := PageStretch(q.tasks, blocks[k..], q.batchLen);
      MatchingMember(q.tasks, blocks[k..][..m], x);
    }
  }

  lemma PageKnows(s: Session, all: seq<Block>, r: Reading)
    requires Knows(s, all)
    ensures Knows(Changed(s, TurnPage, r), all)
  {
    var blocks := s.buffer.Flat();
    var page := NextPage(blocks, s.client, r);
    forall x | x in page ensures x in all {
      PageFrom(blocks, Query(s.client.cursor, r.batchLen, r.tasks), x);
    }
    if page != [] {
      assert page[|page| - 1] in s.client.received + page;
    }
  }

  lemma {:induction false} SameBlocks(batches: map<nat, Batch>, from: seq<nat>, to: seq<nat>, x: Block)
    requires Reordered(batches, from, to) && x in FlightBlocks(batches, to)
    ensures x in FlightBlocks(batches, from)
  {
    InFlightBlocks(batches, to, x);
    InFlightBlocks(batches, from, x);
  }

  lemma SpillKnows(s: Session, order: seq<nat>, all: seq<Block>, r: Reading)
    requires Knows(s, all) && CanChange(s, SpillBatch(order))
    ensures Knows(Changed(s, SpillBatch(order), r), all)
  {
    SpillReorders(s.buffer, order);
    ReorderDistinct(Batches(s.buffer), Layout(s.buffer), order);
    forall x | x in Spill(s.buffer, order).Flat() ensures x in all {
      SameBlocks(Batches(s.buffer), Layout(s.buffer), order, x);
    }
  }

  lemma {:induction false} ReorderDistinct(batches: map<nat, Batch>, from: seq<nat>, to: seq<nat>)
    requires Reordered(batches, from, to) && DistinctIds(FlightBlocks(batches, from))
    ensures DistinctIds(FlightBlocks(batches, to))
  {
    DistinctIsSeparate(batches, from);
    SeparateSub(batches, from, to);
    SeparateIsDistinct(batches, to);
  }

  lemma ClearKnows(s: Session, flight: nat, size: nat, order: seq<nat>, all: seq<Block>, r: Reading)
    requires Knows(s, all) && CanChange(s, ClearBatch(flight, size, order))
    ensures Knows(Changed(s, ClearBatch(flight, size, order), r), all)
  {
    if flight in s.buffer.flights {
      ClearReorders(s.buffer, flight, size, order);
      var to := order + [s.buffer.counter];
      ReorderDistinct(Batches(s.buffer), Layout(s.buffer), to);
      forall x | x in Clear(s.buffer, flight, size, order).Flat() ensures x in all {
        SameBlocks(Batches(s.buffer), Layout(s.buffer), to, x);
      }
    }
  }

  function Widened(all: seq<Block>, op: Change): seq<Block> { all + if op.Add? then op.blocks else [] }

  lemma ChangeKnows(s: Session, op: Change, all: seq<Block>, r: Reading)
    requires Knows(s, all) && CanChange(s, op) && DistinctIds(Widened(all, op))
    ensures Knows(Changed(s, op, r), Widened(all, op))
  {
    assert !op.Add? ==> Widened(all, op) == all;
    match op
    case Add(blocks, size) => AddKnows(s, blocks, size, all, r);
    case TurnPage => PageKnows(s, all, r);
    case SpillBatch(order) => SpillKnows(s, order, all, r);
    case ClearBatch(flight, size, order) => ClearKnows(s, flight, size, order, all, r);
  }

  // ---- one change ----

  ghost predicate Up(s: Session, tasks: Option<set<nat>>)
    requires s.buffer.Valid()
  {
    InStep(s.buffer.Flat(), s.client, tasks)
  }

  lemma StartAppended(blocks: seq<Block>, more: seq<Block>, id: I64)
    requires id == INVALID_BLOCK_ID || !Occurs(more, id) || Occurs(blocks, id)
    ensures Start(blocks + more, id) == Start(blocks, id)
  {
    if id != INVALID_BLOCK_ID && Occurs(blocks, id) {
      FirstStays(blocks, more, id);
    } else {
      OccursInParts(blocks, more, id);
    }
  }

  lemma OccursInParts(blocks: seq<Block>, more: seq<Block>, id: I64)
    ensures Occurs(blocks + more, id) ==> Occurs(blocks, id) || Occurs(more, id)
  {
    var all := blocks + more;
    if i :| 0 <= i < |all| && all[i].blockId == id {
      if i < |blocks| {
        assert blocks[i].blockId == id;
      } else {
        assert more[i - |blocks|].blockId == id;
      }
    }
  }

  lemma {:induction false} FirstIs(blocks: seq<Block>, id: I64, m: nat)
    requires 0 < m <= |blocks| && blocks[m - 1].blockId == id && forall i | 0 <= i < m - 1 :: blocks[i].blockId != id
    ensures Occurs(blocks, id) && After(blocks, id) == m
    decreases m
  {
    if m > 1 {
      FirstIs(blocks[1..], id, m - 1);
    }
  }

  lemma {:induction false} FirstStays(blocks: seq<Block>, more: seq<Block>, id: I64)
    requires Occurs(blocks, id)
    ensures Occurs(blocks + more, id) && After(blocks + more, id) == After(blocks, id)
  {
    var i :| 0 <= i < |blocks| && blocks[i].blockId == id;
    assert (blocks + more)[i].blockId == id;
    var m := After(blocks, id);
    var first := blocks[..m - 1];
    assert forall j | 0 <= j < |first| :: first[j].blockId != id;
    FirstIs(blocks + more, id, m);
  }

  lemma AddKeepsUp(s: Session, blocks: seq<Block>, size: nat, all: seq<Block>, r: Reading)
    requires Knows(s, all) && DistinctIds(all + blocks) && Up(s, r.tasks)
    ensures Up(Changed(s, Add(blocks, size), r), r.tasks)
  {
    var flat, c := s.buffer.Flat(), s.client;
    AppendFlat(s.buffer, blocks, size);
    PartsDistinct(all, blocks);
    StartAppended(flat, blocks, c.cursor);
    var k := Start(flat, c.cursor);
    assert (flat + blocks)[..k] == flat[..k];
    forall x | x in Matching(r.tasks, flat + blocks) ensures x in c.received <==> x in flat[..k] {
      MatchingMember(r.tasks, flat + blocks, x);
      MatchingMember(r.tasks, flat, x);
      if x in blocks {
        assert x !in all;
      }
    }
  }

  lemma {:induction false} PageIsNew(blocks: seq<Block>, k: nat, m: nat, tasks: Option<set<nat>>, page: seq<Block>, x: Block)
    requires DistinctIds(blocks) && k <= m <= |blocks|
    requires Matching(tasks, blocks[..k]) + page == Matching(tasks, blocks[..m])
    ensures multiset(page)[x] == if x in blocks[..m] && x !in blocks[..k] && Wanted(tasks, x) then 1 else 0
  {
    PrefixDistinct(blocks[..k], blocks);
    PrefixDistinct(blocks[..m], blocks);
    MatchingOnce(tasks, blocks[..k], x);
    MatchingOnce(tasks, blocks[..m], x);
    assert blocks[..k] == blocks[..m][..k];
    assert multiset(Matching(tasks, blocks[..k]) + page)[x] == multiset(Matching(tasks, blocks[..k]))[x] + multiset(page)[x];
  }

  lemma {:induction false} StretchKeepsUp(blocks: seq<Block>, c: Client, d: Client, tasks: Option<set<nat>>, m: nat, page: seq<Block>)
    requires DistinctIds(blocks) && InStep(blocks, c, tasks) && Start(blocks, c.cursor) <= m <= |blocks|
    requires Matching(tasks, blocks[..Start(blocks, c.cursor)]) + page == Matching(tasks, blocks[..m])
    requires d.received == c.received + page && Start(blocks, d.cursor) == m
    ensures InStep(blocks, d, tasks)
  {
    var k := Start(blocks, c.cursor);
    forall x ensures multiset(d.received)[x] <= 1 {
      PageIsNew(blocks, k, m, tasks, page, x);
      if multiset(page)[x] == 1 {
        MatchingMember(tasks, blocks, x);
      }
    }
    forall x | x in Matching(tasks, blocks) ensures x in d.received <==> x in blocks[..m] {
      PageIsNew(blocks, k, m, tasks, page, x);
      MatchingMember(tasks, blocks, x);
      assert x in page <==> multiset(page)[x] > 0;
      assert blocks[..k] == blocks[..m][..k];
    }
  }

  lemma PageKeepsUp(s: Session, r: Reading)
    requires s.buffer.Valid() && DistinctIds(s.buffer.Flat()) && Up(s, r.tasks)
    ensures Up(Changed(s, TurnPage, r), r.tasks)
  {
    var blocks, c := s.buffer.Flat(), s.client;
    if NextPage(blocks, c, r) != [] {
      var k := Start(blocks, c.cursor);
      var m := NextStretch(r.tasks, blocks, k, r.batchLen);
      AfterDistinct(blocks, m);
      StretchKeepsUp(blocks, c, ReadPage(blocks, c, r), r.tasks, m, NextPage(blocks, c, r));
    }
  }

  /** A client that is in step stays so through appends and pages, and through a spill or a clear exactly when no
      batch with wanted blocks crosses its cursor. */
  lemma ChangeUpIff(s: Session, op: Change, all: seq<Block>, r: Reading)
    requires Knows(s, all) && CanChange(s, op) && DistinctIds(Widened(all, op)) && Up(s, r.tasks) && r.batchLen > 0
    ensures Up(Changed(s, op, r), r.tasks) <==> Keeps(s, op, r.tasks)
  {
    match op
    case Add(blocks, size) => AddKeepsUp(s, blocks, size, all, r);
    case TurnPage => PageKeepsUp(s, r);
    case SpillBatch(order) => SpillExactIff(s.buffer, order, s.client, r, |Spill(s.buffer, order).Flat()|);
    case ClearBatch(flight, size, order) =>
      ClearExactIff(s.buffer, flight, size, order, s.client, r, |Clear(s.buffer, flight, size, order).Flat()|);
  }

  // ---- whole runs ----

  lemma {:induction false} AddedPrefix(b: BufferState, ops: seq<Change>, i: nat)
    requires b.Valid() && i <= |ops| && DistinctIds(b.Flat() + Added(ops))
    ensures DistinctIds(b.Flat() + Added(ops[..i]))
    decreases |ops|
  {
    if i < |ops| {
      var before := ops[..|ops| - 1];
      PrefixDistinct(b.Flat() + Added(before), b.Flat() + Added(ops));
      AddedPrefix(b, before, i);
      assert before[..i] == ops[..i];
    } else {
      assert ops[..i] == ops;
    }
  }

  lemma AddedNext(b: BufferState, ops: seq<Change>, i: nat)
    requires b.Valid() && i < |ops|
    ensures b.Flat() + Added(ops[..i + 1]) == Widened(b.Flat() + Added(ops[..i]), ops[i])
  {
    assert ops[..i + 1][..i] == ops[..i];
    var added := if ops[i].Add? then ops[i].blocks else [];
    assert b.Flat() + (Added(ops[..i]) + added) == b.Flat() + Added(ops[..i]) + added;
  }

  lemma {:induction false} RunKnows(b: BufferState, states: seq<Session>, ops: seq<Change>, r: Reading, i: nat)
    requires IsRun(b, states, ops, r) && DistinctIds(b.Flat() + Added(ops)) && i <= |ops|
    ensures Knows(states[i], b.Flat() + Added(ops[..i]))
    decreases i
  {
    AddedPrefix(b, ops, i);
    if i == 0 {
      assert ops[..0] == [] && b.Flat() + [] == b.Flat();
    } else {
      RunKnows(b, states, ops, r, i - 1);
      AddedNext(b, ops, i - 1);
      assert StepAt(states, ops, r, i - 1);
      ChangeKnows(states[i - 1], ops[i - 1], b.Flat() + Added(ops[..i - 1]), r);
    }
  }

  ghost predicate KeepsAt(states: seq<Session>, ops: seq<Change>, r: Reading, i: nat) {
    StepAt(states, ops, r, i) && Keeps(states[i], ops[i], r.tasks)
  }

  lemma {:induction false} RunStep(b: BufferState, states: seq<Session>, ops: seq<Change>, r: Reading, i: nat)
    requires IsRun(b, states, ops, r) && DistinctIds(b.Flat() + Added(ops)) && r.batchLen > 0 && i < |ops|
    requires states[i].buffer.Valid() && Up(states[i], r.tasks)
    ensures states[i + 1].buffer.Valid() && (Up(states[i + 1], r.tasks) <==> KeepsAt(states, ops, r, i))
  {
    RunKnows(b, states, ops, r, i);
    AddedPrefix(b, ops, i + 1);
    AddedNext(b, ops, i);
    assert StepAt(states, ops, r, i);
    ChangeUpIff(states[i], ops[i], b.Flat() + Added(ops[..i]), r);
  }

  lemma {:induction false} RunStaysUp(b: BufferState, states: seq<Session>, ops: seq<Change>, r: Reading, i: nat)
    requires IsRun(b, states, ops, r) && DistinctIds(b.Flat() + Added(ops)) && r.batchLen > 0 && i <= |ops|
    requires forall j: nat | j < i :: KeepsAt(states, ops, r, j)
    ensures states[i].buffer.Valid() && Up(states[i], r.tasks)
    decreases i
  {
    if i == 0 {
      RunKnows(b, states, ops, r, 0);
      CaughtIsInStep(b.Flat(), states[0].client, r.tasks, 0);
    } else {
      RunStaysUp(b, states, ops, r, i - 1);
      RunStep(b, states, ops, r, i - 1);
    }
  }

  /** Reading on from the i-th moment would deliver every wanted block in memory exactly once. */
  ghost predicate ExactAt(states: seq<Session>, r: Reading, i: nat) {
    && i < |states| && states[i].buffer.Valid()
    && ExactlyOnce(states[i].buffer.Flat(), states[i].client, r, |states[i].buffer.Flat()|)
  }

  lemma {:induction false} UpIsExact(b: BufferState, states: seq<Session>, ops: seq<Change>, r: Reading, i: nat)
    requires IsRun(b, states, ops, r) && DistinctIds(b.Flat() + Added(ops)) && r.batchLen > 0 && i <= |ops|
    requires states[i].buffer.Valid() && NoRepeats(states[i].client.received)
    ensures ExactAt(states, r, i) <==> Up(states[i], r.tasks)
  {
    RunKnows(b, states, ops, r, i);
    ExactIffDelivered(states[i].buffer.Flat(), states[i].client, r, |states[i].buffer.Flat()|);
  }

  lemma FailureKeepsClient(s: Session, op: Change, r: Reading)
    requires s.buffer.Valid() && CanChange(s, op) && !Keeps(s, op, r.tasks) && Up(s, r.tasks)
    ensures NoRepeats(Changed(s, op, r).client.received)
  {
  }

  lemma FailureAt(states: seq<Session>, ops: seq<Change>, r: Reading, i: nat)
    requires StepAt(states, ops, r, i) && !KeepsAt(states, ops, r, i) && Up(states[i], r.tasks)
    ensures NoRepeats(states[i + 1].client.received)
  {
    FailureKeepsClient(states[i], ops[i], r);
  }

  /** A change that does not keep the sides leaves the client out of step. */
  lemma {:induction false} FirstFailure(b: BufferState, states: seq<Session>, ops: seq<Change>, r: Reading, i: nat)
    requires IsRun(b, states, ops, r) && DistinctIds(b.Flat() + Added(ops)) && r.batchLen > 0 && i < |ops|
    requires states[i].buffer.Valid() && Up(states[i], r.tasks) && !KeepsAt(states, ops, r, i)
    ensures !ExactAt(states, r, i + 1)
  {
    RunStep(b, states, ops, r, i);
    assert StepAt(states, ops, r, i);
    FailureAt(states, ops, r, i);
    UpIsExact(b, states, ops, r, i + 1);
  }

  lemma {:induction false} LeastFailure(states: seq<Session>, ops: seq<Change>, r: Reading, i: nat) returns (j: nat)
    requires !KeepsAt(states, ops, r, i)
    ensures j <= i && !KeepsAt(states, ops, r, j) && forall k: nat | k < j :: KeepsAt(states, ops, r, k)
    decreases i
  {
    j := i;
    if !forall k: nat | k < i :: KeepsAt(states, ops, r, k) {
      var k: nat :| k < i && !KeepsAt(states, ops, r, k);
      j := LeastFailure(states, ops, r, k);
    }
  }

  /** Over every run of appends, spills, clears and pages with distinct block ids: at every moment reading on
      would deliver every wanted block in memory exactly once, if and only if no spill and no clear of the
      run moves a batch with wanted blocks across the cursor. */
  lemma {:induction false} RunExactIff(b: BufferState, states: seq<Session>, ops: seq<Change>, r: Reading)
    requires IsRun(b, states, ops, r) && DistinctIds(b.Flat() + Added(ops)) && r.batchLen > 0
    ensures (forall i: nat | i <= |ops| :: ExactAt(states, r, i)) <==> (forall i: nat | i < |ops| :: KeepsAt(states, ops, r, i))
  {
    if forall i: nat | i < |ops| :: KeepsAt(states, ops, r, i) {
      forall i: nat | i <= |ops| ensures ExactAt(states, r, i) {
        RunStaysUp(b, states, ops, r, i);
        UpIsExact(b, states, ops, r, i);
      }
    } else {
      var i: nat :| i < |ops| && !KeepsAt(states, ops, r, i);
      var j := LeastFailure(states, ops, r, i);
      RunStaysUp(b, states, ops, r, j);
      FirstFailure(b, states, ops, r, j);
    }
  }
}
