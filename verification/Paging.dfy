/** What a read of a memory buffer returns (`get`, `get_v2`), as a specification on sequences,
    and what a client gets by paging through a growing buffer. */
module Paging {
  import opened Bytes
  import opened Blocks
  import opened Buffer

  const INVALID_BLOCK_ID: I64 := -1

  /** `tasks` is the optional bitmap of wanted task attempt ids (unsigned). */
  datatype Query = Query(last: I64, batchLen: int, tasks: Option<set<nat>>)

  predicate Wanted(tasks: Option<set<nat>>, b: Block) {
    tasks.None? || AsU64(b.taskAttemptId) in tasks.value
  }

  // ---- the specification of one page ----

  predicate Occurs(blocks: seq<Block>, id: I64) {
    exists i | 0 <= i < |blocks| :: blocks[i].blockId == id
  }

  /** One past the first block with the given id. */
  function After(blocks: seq<Block>, id: I64): (n: nat)
    requires Occurs(blocks, id)
    ensures 0 < n <= |blocks| && blocks[n - 1].blockId == id && !Occurs(blocks[..n - 1], id)
  {
    if blocks[0].blockId == id then 1
    else
      assert Occurs(blocks[1..], id) by {
        var i :| 0 <= i < |blocks| && blocks[i].blockId == id;
        assert blocks[1..][i - 1].blockId == id;
      }
      var m := After(blocks[1..], id);
      assert forall i | 0 < i < m :: blocks[i].blockId == blocks[1..][..m - 1][i - 1].blockId;
      m + 1
  }

  function Start(blocks: seq<Block>, last: I64): (n: nat)
    ensures n <= |blocks|
  {
    if last != INVALID_BLOCK_ID && Occurs(blocks, last) then After(blocks, last) else 0
  }

  function Matching(tasks: Option<set<nat>>, blocks: seq<Block>): seq<Block> {
    if blocks == [] then []
    else
      var rest := Matching(tasks, blocks[1..]);
      if Wanted(tasks, blocks[0]) then [blocks[0]] + rest else rest
  }

  /** Keep blocks while the length already kept is below the limit. */
  function TakeBelow(blocks: seq<Block>, limit: int): seq<Block> {
    if blocks == [] || limit <= 0 then [] else [blocks[0]] + TakeBelow(blocks[1..], limit - blocks[0].length)
  }

  function Page(blocks: seq<Block>, q: Query): seq<Block> {
    TakeBelow(Matching(q.tasks, blocks[Start(blocks, q.last)..]), q.batchLen)
  }

  /** A filter keeps the blocks whose task attempt id, read as unsigned, it names: each as often as
      it occurs. No filter keeps everything. */
  lemma {:induction false} MatchingTasks(tasks: Option<set<nat>>, blocks: seq<Block>)
    ensures tasks.None? ==> Matching(tasks, blocks) == blocks
    ensures tasks.Some? ==>
      forall x :: multiset(Matching(tasks, blocks))[x]
               == if AsU64(x.taskAttemptId) in tasks.value then multiset(blocks)[x] else 0
    ensures tasks.Some? ==>
      forall x :: x in Matching(tasks, blocks) <==> x in blocks && AsU64(x.taskAttemptId) in tasks.value
  {
    if blocks != [] {
      MatchingTasks(tasks, blocks[1..]);
      assert blocks == [blocks[0]] + blocks[1..];
    }
  }

  /** The blocks kept are a prefix, each of them starts below the limit, and it stops only once the
      limit is reached. */
  lemma {:induction false} TakeBelowExact(blocks: seq<Block>, limit: int)
    ensures var kept := TakeBelow(blocks, limit);
            && kept <= blocks
            && (forall i | 0 <= i < |kept| :: SumLength(blocks[..i]) < limit)
            && (kept != blocks ==> SumLength(kept) >= limit)
  {
    if blocks != [] && limit > 0 {
      var rest, limit' := blocks[1..], limit - blocks[0].length;
      TakeBelowExact(rest, limit');
      var kept := TakeBelow(rest, limit');
      forall i | 0 < i <= |kept| ensures SumLength(blocks[..i]) < limit {
        assert blocks[..i] == [blocks[0]] + rest[..i - 1];
        assert SumLength(rest[..i - 1]) < limit';
      }
    }
  }

  // ---- the accumulator of the read loops ----

  datatype Scan = Scan(found: bool, readLen: int, picked: seq<Block>)

  function Visit(q: Query, s: Scan, b: Block): Scan {
    if !s.found then s.(found := b.blockId == q.last)
    else if s.readLen >= q.batchLen || !Wanted(q.tasks, b) then s
    else Scan(true, s.readLen + b.length, s.picked + [b])
  }

  function VisitAll(q: Query, s: Scan, blocks: seq<Block>): Scan
    decreases |blocks|
  {
    if blocks == [] then s else VisitAll(q, Visit(q, s, blocks[0]), blocks[1..])
  }

  lemma {:induction false} VisitConcat(q: Query, s: Scan, a: seq<Block>, b: seq<Block>)
    ensures VisitAll(q, s, a + b) == VisitAll(q, VisitAll(q, s, a), b)
    decreases |a|
  {
    if a == [] {
      assert a + b == b;
    } else {
      assert (a + b)[1..] == a[1..] + b;
      VisitConcat(q, Visit(q, s, a[0]), a[1..], b);
    }
  }

  /** Leaving only the innermost loop on a full page is harmless: the other loops pick nothing more. */
  lemma {:induction false} VisitFull(q: Query, s: Scan, blocks: seq<Block>)
    requires s.found && s.readLen >= q.batchLen
    ensures VisitAll(q, s, blocks) == s
    decreases |blocks|
  {
    if blocks != [] {
      VisitFull(q, s, blocks[1..]);
    }
  }

  lemma {:induction false} VisitFound(q: Query, s: Scan, blocks: seq<Block>)
    requires s.found && s.readLen == SumLength(s.picked)
    ensures var kept := TakeBelow(Matching(q.tasks, blocks), q.batchLen - s.readLen);
            VisitAll(q, s, blocks) == Scan(true, SumLength(s.picked + kept), s.picked + kept)
    decreases |blocks|
  {
    if s.readLen >= q.batchLen {
      VisitFull(q, s, blocks);
      assert s.picked + [] == s.picked;
    } else if blocks == [] {
      assert s.picked + [] == s.picked;
    } else {
      var t := Visit(q, s, blocks[0]);
      SumLengthSnoc(s.picked, blocks[0]);
      VisitFound(q, t, blocks[1..]);
      if Wanted(q.tasks, blocks[0]) {
        var rest := Matching(q.tasks, blocks[1..]);
        assert Matching(q.tasks, blocks)[1..] == rest;
        var kept := TakeBelow(rest, q.batchLen - t.readLen);
        assert s.picked + ([blocks[0]] + kept) == t.picked + kept;
      }
    }
  }

  lemma {:induction false} VisitUnfound(q: Query, s: Scan, blocks: seq<Block>)
    requires !s.found && s.readLen == 0 && s.picked == []
    ensures if Occurs(blocks, q.last)
            then VisitAll(q, s, blocks) == VisitAll(q, Scan(true, 0, []), blocks[After(blocks, q.last)..])
            else VisitAll(q, s, blocks) == s
    decreases |blocks|
  {
    if blocks != [] {
      if blocks[0].blockId != q.last {
        VisitUnfound(q, s, blocks[1..]);
        if Occurs(blocks[1..], q.last) {
          var i :| 0 <= i < |blocks[1..]| && blocks[1..][i].blockId == q.last;
          assert blocks[i + 1].blockId == q.last;
          var n := After(blocks[1..], q.last);
          assert blocks[1..][n..] == blocks[n + 1..];
        } else {
          assert forall i | 0 < i < |blocks| :: blocks[i].blockId == blocks[1..][i - 1].blockId;
        }
      }
    }
  }

  // ---- paging through a buffer that grows by appends ----

  datatype Op = AppendOp(blocks: seq<Block>, size: nat) | PageOp

  /** How a client reads: page size and task filter stay the same from page to page. */
  datatype Reading = Reading(batchLen: int, tasks: Option<set<nat>>)

  /** A reading client: what it has received and the block id it will pass next. */
  datatype Client = Client(received: seq<Block>, cursor: I64)

  datatype Session = Session(buffer: BufferState, client: Client)

  function NextPage(blocks: seq<Block>, c: Client, r: Reading): seq<Block> {
    Page(blocks, Query(c.cursor, r.batchLen, r.tasks))
  }

  function ReadPage(blocks: seq<Block>, c: Client, r: Reading): Client {
    var page := NextPage(blocks, c, r);
    if page == [] then c else Client(c.received + page, page[|page| - 1].blockId)
  }

  function ReadPages(blocks: seq<Block>, c: Client, r: Reading, pages: nat): Client
    decreases pages
  {
    if pages == 0 then c else ReadPages(blocks, ReadPage(blocks, c, r), r, pages - 1)
  }

  function Perform(s: Session, op: Op, r: Reading): (t: Session)
    requires s.buffer.Valid()
    ensures t.buffer.Valid()
  {
    match op
    case AppendOp(blocks, size) => s.(buffer := Append(s.buffer, blocks, size))
    case PageOp => s.(client := ReadPage(s.buffer.Flat(), s.client, r))
  }

  function PerformAll(s: Session, ops: seq<Op>, r: Reading): (t: Session)
    requires s.buffer.Valid()
    ensures t.buffer.Valid()
  {
    if ops == [] then s else Perform(PerformAll(s, ops[..|ops| - 1], r), ops[|ops| - 1], r)
  }

  function Open(buffer: BufferState): Session { Session(buffer, Client([], INVALID_BLOCK_ID)) }

  ghost predicate DistinctIds(blocks: seq<Block>) {
    && (forall i | 0 <= i < |blocks| :: blocks[i].blockId != INVALID_BLOCK_ID)
    && (forall i, j | 0 <= i < j < |blocks| :: blocks[i].blockId != blocks[j].blockId)
  }

  /** `n` blocks of the buffer have been dealt with: everything wanted among them was received,
      and the cursor is the id of the last of them. */
  ghost predicate Caught(blocks: seq<Block>, c: Client, tasks: Option<set<nat>>, n: nat) {
    && n <= |blocks|
    && c.received == Matching(tasks, blocks[..n])
    && c.cursor == (if n == 0 then INVALID_BLOCK_ID else blocks[n - 1].blockId)
  }

  lemma {:induction false} MatchingConcat(tasks: Option<set<nat>>, a: seq<Block>, b: seq<Block>)
    ensures Matching(tasks, a + b) == Matching(tasks, a) + Matching(tasks, b)
  {
    if a == [] {
      assert a + b == b;
    } else {
      assert (a + b)[1..] == a[1..] + b;
      MatchingConcat(tasks, a[1..], b);
    }
  }

  /** A non-empty page is exactly the wanted blocks of some stretch that ends with the page's last block. */
  lemma {:induction false} PageStretch(tasks: Option<set<nat>>, blocks: seq<Block>, limit: int) returns (m: nat)
    requires TakeBelow(Matching(tasks, blocks), limit) != []
    ensures 0 < m <= |blocks|
    ensures var page := TakeBelow(Matching(tasks, blocks), limit);
            page == Matching(tasks, blocks[..m]) && page[|page| - 1] == blocks[m - 1]
  {
    var rest := Matching(tasks, blocks[1..]);
    if Wanted(tasks, blocks[0]) {
      assert Matching(tasks, blocks)[1..] == rest;
      var limit' := limit - blocks[0].length;
      if TakeBelow(rest, limit') == [] {
        m := 1;
        assert blocks[..1] == [blocks[0]];
      } else {
        var k := PageStretch(tasks, blocks[1..], limit');
        m := k + 1;
        assert blocks[..m] == [blocks[0]] + blocks[1..][..k];
      }
    } else {
      var k := PageStretch(tasks, blocks[1..], limit);
      m := k + 1;
      assert blocks[..m] == [blocks[0]] + blocks[1..][..k];
    }
  }

  lemma AfterDistinct(blocks: seq<Block>, n: nat)
    requires DistinctIds(blocks) && 0 < n <= |blocks|
    ensures Start(blocks, blocks[n - 1].blockId) == n
  {
    var id := blocks[n - 1].blockId;
    assert Occurs(blocks, id);
    var k := After(blocks, id);
    assert blocks[k - 1].blockId == id;
  }

  lemma {:induction false} MatchingSplit(tasks: Option<set<nat>>, blocks: seq<Block>, n: nat)
    requires n <= |blocks|
    ensures Matching(tasks, blocks) == Matching(tasks, blocks[..n]) + Matching(tasks, blocks[n..])
  {
    MatchingConcat(tasks, blocks[..n], blocks[n..]);
    assert blocks == blocks[..n] + blocks[n..];
  }

  lemma NextStretch(tasks: Option<set<nat>>, blocks: seq<Block>, n: nat, limit: int) returns (m: nat)
    requires n <= |blocks| && TakeBelow(Matching(tasks, blocks[n..]), limit) != []
    ensures n < m <= |blocks|
    ensures var page := TakeBelow(Matching(tasks, blocks[n..]), limit);
            page[|page| - 1] == blocks[m - 1]
            && Matching(tasks, blocks[..n]) + page == Matching(tasks, blocks[..m])
  {
    var k := PageStretch(tasks, blocks[n..], limit);
    m := n + k;
    assert blocks[..m] == blocks[..n] + blocks[n..][..k];
    MatchingConcat(tasks, blocks[..n], blocks[n..][..k]);
  }

  /** One more page from a caught-up cursor continues where the last one stopped, and it is empty
      only when nothing wanted is left. */
  lemma PageContinues(blocks: seq<Block>, c: Client, r: Reading, n: nat) returns (m: nat)
    requires DistinctIds(blocks) && r.batchLen > 0 && Caught(blocks, c, r.tasks, n)
    ensures Caught(blocks, ReadPage(blocks, c, r), r.tasks, m)
    ensures c.received <= Matching(r.tasks, blocks)
    ensures if NextPage(blocks, c, r) == [] then c.received == Matching(r.tasks, blocks)
            else |c.received| < |ReadPage(blocks, c, r).received| <= |Matching(r.tasks, blocks)|
  {
    assert Start(blocks, c.cursor) == n by {
      if n > 0 {
        AfterDistinct(blocks, n);
      }
    }
    MatchingSplit(r.tasks, blocks, n);
    m := n;
    if TakeBelow(Matching(r.tasks, blocks[n..]), r.batchLen) != [] {
      m := NextStretch(r.tasks, blocks, n, r.batchLen);
      MatchingSplit(r.tasks, blocks, m);
    }
  }

  lemma {:induction false} PagesFinish(blocks: seq<Block>, c: Client, r: Reading, n: nat, pages: nat)
    requires DistinctIds(blocks) && r.batchLen > 0 && Caught(blocks, c, r.tasks, n)
    requires |c.received| + pages >= |Matching(r.tasks, blocks)|
    ensures var d := ReadPages(blocks, c, r, pages);
            d.received == Matching(r.tasks, blocks) && NextPage(blocks, d, r) == []
    decreases pages
  {
    var m := PageContinues(blocks, c, r, n);
    if pages > 0 {
      PagesFinish(blocks, ReadPage(blocks, c, r), r, m, pages - 1);
    }
  }

  lemma PerformExtends(s: Session, op: Op, r: Reading)
    requires s.buffer.Valid()
    ensures s.buffer.Flat() <= Perform(s, op, r).buffer.Flat()
  {
    if op.AppendOp? {
      FlattenSnoc(s.buffer.staging, op.blocks);
    }
  }

  lemma PrefixDistinct(a: seq<Block>, b: seq<Block>)
    requires DistinctIds(b) && a <= b
    ensures DistinctIds(a)
  {
    assert forall i | 0 <= i < |a| :: a[i] == b[i];
  }

  lemma CaughtExtends(blocks: seq<Block>, more: seq<Block>, c: Client, tasks: Option<set<nat>>, n: nat)
    requires Caught(blocks, c, tasks, n) && blocks <= more
    ensures Caught(more, c, tasks, n)
  {
    assert more[..n] == blocks[..n];
  }

  /** In every run of appends and pages, what the client holds is exactly the wanted blocks of a
      prefix of the buffer, each once and in order. */
  lemma {:induction false} PagingInvariant(b: BufferState, ops: seq<Op>, r: Reading) returns (n: nat)
    requires b.Valid() && r.batchLen > 0
    requires DistinctIds(PerformAll(Open(b), ops, r).buffer.Flat())
    ensures var t := PerformAll(Open(b), ops, r);
            Caught(t.buffer.Flat(), t.client, r.tasks, n)
  {
    n := 0;
    if ops != [] {
      var before, op := ops[..|ops| - 1], ops[|ops| - 1];
      var s := PerformAll(Open(b), before, r);
      var t := Perform(s, op, r);
      PerformExtends(s, op, r);
      PrefixDistinct(s.buffer.Flat(), t.buffer.Flat());
      n := PagingInvariant(b, before, r);
      if op.AppendOp? {
        CaughtExtends(s.buffer.Flat(), t.buffer.Flat(), s.client, r.tasks, n);
      } else {
        n := PageContinues(s.buffer.Flat(), s.client, r, n);
      }
    }
  }

  /** Paging is exact: at any point the received blocks are a prefix of the wanted blocks of the
      buffer, the next page is empty exactly when they are all of them, and once appends stop at
      most one page per missing block is needed to receive them all. */
  lemma {:induction false} PagingExact(b: BufferState, ops: seq<Op>, r: Reading, pages: nat)
    requires b.Valid() && r.batchLen > 0
    requires DistinctIds(PerformAll(Open(b), ops, r).buffer.Flat())
    ensures var t := PerformAll(Open(b), ops, r);
            var blocks := t.buffer.Flat();
            var wanted := Matching(r.tasks, blocks);
            && t.client.received <= wanted
            && (NextPage(blocks, t.client, r) == [] <==> t.client.received == wanted)
            && (|t.client.received| + pages >= |wanted| ==>
                  var d := ReadPages(blocks, t.client, r, pages);
                  d.received == wanted && NextPage(blocks, d, r) == [])
  {
    var t := PerformAll(Open(b), ops, r);
    var n := PagingInvariant(b, ops, r);
    var _ := PageContinues(t.buffer.Flat(), t.client, r, n);
    if |t.client.received| + pages >= |Matching(r.tasks, t.buffer.Flat())| {
      PagesFinish(t.buffer.Flat(), t.client, r, n, pages);
    }
  }
}
