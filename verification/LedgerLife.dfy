/** The life of one send through the ledgers, from any state: what it takes is given back in full. */
module LedgerLife {
  import opened Bytes
  import opened Blocks
  import opened Buffer
  import opened Budget
  import opened Sums
  import opened Ledger

  // ---- the three parts of a life ----

  function Reserve(i: nat, n: nat): seq<Action> { [RequireBuffer(n), RecordTicket(i), ReleaseTicket(i)] }

  function Send(i: nat, uid: Uid, blocks: seq<Block>): seq<Action> {
    [InsertBlocks(i, uid, blocks, DataSize(blocks)), MoveInserted(i), SettleUnused(i)]
  }

  function Flush(uid: Uid, k: nat): seq<Action> { [SpillBuffer(uid, [0]), ClearFlight(uid, 0, []), FreeUsed(k)] }

  lemma {:induction false} ReserveRuns(s: State, n: nat)
    requires |s.tickets| + 1 !in s.store && s.budget.alloc + s.budget.used + n <= s.budget.capacity
    ensures var i := |s.tickets|;
      && Runs(s, Reserve(i, n))
      && After(s, Reserve(i, n))
         == s.(budget := s.budget.(alloc := s.budget.alloc + n, counter := s.budget.counter + 1),
               tickets := s.tickets + [Sending(n, 0, false)])
  {
    var i := |s.tickets|;
    var s1 := Step(s, RequireBuffer(n));
    var s2 := Step(s1, RecordTicket(i));
    assert s2.tickets == s.tickets + [Live(n)] && s2.store == s.store[i + 1 := n];
    var s3 := Step(s2, ReleaseTicket(i));
    assert s3.tickets == s.tickets + [Sending(n, 0, false)];
    assert s3.store == s.store;
    RunsThree(s, RequireBuffer(n), RecordTicket(i), ReleaseTicket(i));
  }

  lemma {:induction false} SendRuns(s: State, i: nat, n: nat, uid: Uid, blocks: seq<Block>)
    requires i < |s.tickets| && s.tickets[i] == Sending(n, 0, false) && uid !in s.buffers
    requires DataSize(blocks) <= n <= s.budget.alloc && DataSize(blocks) < 0x8000_0000
    ensures var size := DataSize(blocks);
      && Runs(s, Send(i, uid, blocks))
      && After(s, Send(i, uid, blocks))
         == s.(budget := s.budget.(alloc := s.budget.alloc - n, used := s.budget.used + size),
               buffers := s.buffers[uid := EMPTY.(totalSize := size, stagingSize := size, staging := [blocks])],
               tickets := s.tickets[i := Settled(n, size)], chunks := s.chunks + [Chunk(i, uid, size, Staging)])
  {
    var size := DataSize(blocks);
    var s1 := Step(s, InsertBlocks(i, uid, blocks, size));
    assert s1.tickets[i] == Sending(n, size, false);
    assert s1.buffers[uid].staging == [blocks];
    var s2 := Step(s1, MoveInserted(i));
    assert s2.tickets[i] == Sending(n, size, true);
    var s3 := Step(s2, SettleUnused(i));
    assert s3.tickets == s.tickets[i := Settled(n, size)];
    RunsThree(s, InsertBlocks(i, uid, blocks, size), MoveInserted(i), SettleUnused(i));
  }

  /** The chunk stands last and is the partition's only one. */
  ghost predicate OnlyChunk(chunks: seq<Chunk>, c: Chunk) {
    |chunks| > 0 && chunks[|chunks| - 1] == c && forall k | 0 <= k < |chunks| - 1 :: chunks[k].uid != c.uid
  }

  function WithLast(chunks: seq<Chunk>, c: Chunk): seq<Chunk>
    requires |chunks| > 0
  {
    chunks[|chunks| - 1 := c]
  }

  lemma SpillOne(s: State, uid: Uid, blocks: seq<Block>, c: Chunk)
    requires uid in s.buffers && s.buffers[uid] == EMPTY.(totalSize := c.size, stagingSize := c.size, staging := [blocks])
    requires c.uid == uid && c.place == Staging && OnlyChunk(s.chunks, c)
    ensures Enabled(s, SpillBuffer(uid, [0]))
    ensures Step(s, SpillBuffer(uid, [0]))
         == s.(buffers := s.buffers[uid := BufferState(c.size, 0, c.size, [], map[0 := [blocks]], [0], 1)],
               spills := s.spills[(uid, 0) := c.size], chunks := WithLast(s.chunks, c.(place := InFlight(0))))
  {
    var t := Step(s, SpillBuffer(uid, [0]));
    assert t.chunks == WithLast(s.chunks, c.(place := InFlight(0)));
  }

  lemma ClearOne(s: State, uid: Uid, blocks: seq<Block>, c: Chunk)
    requires uid in s.buffers && s.buffers[uid] == BufferState(c.size, 0, c.size, [], map[0 := [blocks]], [0], 1)
    requires c.uid == uid && c.place == InFlight(0) && OnlyChunk(s.chunks, c) && (uid, 0) in s.spills && s.spills[(uid, 0)] == c.size
    ensures Enabled(s, ClearFlight(uid, 0, []))
    ensures Step(s, ClearFlight(uid, 0, []))
         == s.(buffers := s.buffers[uid := EMPTY.(counter := 1)], spills := s.spills - {(uid, 0)}, decs := s.decs + [c.size],
               chunks := WithLast(s.chunks, c.(place := Gone)))
  {
    var t := Step(s, ClearFlight(uid, 0, []));
    assert t.chunks == WithLast(s.chunks, c.(place := Gone));
    assert t.buffers[uid].flights == map[];
  }

  lemma FreeOne(s: State, decs: seq<nat>, size: nat)
    requires s.decs == decs + [size] && size <= s.budget.used
    ensures Enabled(s, FreeUsed(|decs|))
    ensures Step(s, FreeUsed(|decs|)) == s.(budget := s.budget.(used := s.budget.used - size), decs := decs)
  {
    assert s.decs[..|decs|] + s.decs[|decs| + 1..] == decs;
  }

  lemma {:induction false} FlushRuns(s: State, uid: Uid, blocks: seq<Block>, c: Chunk)
    requires uid in s.buffers && s.buffers[uid] == EMPTY.(totalSize := c.size, stagingSize := c.size, staging := [blocks])
    requires (uid, 0) !in s.spills && c.size <= s.budget.used
    requires c.uid == uid && c.place == Staging && OnlyChunk(s.chunks, c)
    ensures Runs(s, Flush(uid, |s.decs|))
    ensures After(s, Flush(uid, |s.decs|))
         == s.(budget := s.budget.(used := s.budget.used - c.size),
               buffers := s.buffers[uid := EMPTY.(counter := 1)], chunks := WithLast(s.chunks, c.(place := Gone)))
  {
    SpillOne(s, uid, blocks, c);
    var s1 := Step(s, SpillBuffer(uid, [0]));
    ClearOne(s1, uid, blocks, c.(place := InFlight(0)));
    var s2 := Step(s1, ClearFlight(uid, 0, []));
    assert s2.spills == s.spills;
    assert s2.buffers == s.buffers[uid := EMPTY.(counter := 1)];
    FreeOne(s2, s.decs, c.size);
    RunsThree(s, SpillBuffer(uid, [0]), ClearFlight(uid, 0, []), FreeUsed(|s.decs|));
  }

  /** Nothing of the partition is in the memory store yet. */
  ghost predicate Untouched(s: State, uid: Uid) {
    uid !in s.buffers && (uid, 0) !in s.spills && forall k | 0 <= k < |s.chunks| :: s.chunks[k].uid != uid
  }

  lemma AllocationCovers(s: State)
    requires AllocationExact(s)
    ensures 0 <= s.budget.alloc && |s.tickets| + 1 !in s.store
  {
    SumNonNegative(s.tickets, Held);
    SumNonNegative(s.tickets, EvictedSize);
  }

  /** From any state in which the request fits, the whole life of a send runs: its ticket is granted, recorded and
      released, its blocks are inserted, moved and settled, then spilled, cleared and freed. It ends with the
      same allocated and used memory, the same ticket store and the same pending work, one settled ticket
      more, and nothing of the blocks in memory. */
  lemma {:induction false} WholeLifeGivesBack(s: State, n: nat, uid: Uid, blocks: seq<Block>)
    requires AllocationExact(s) && s.budget.alloc + s.budget.used + n <= s.budget.capacity && Untouched(s, uid)
    requires DataSize(blocks) <= n && DataSize(blocks) < 0x8000_0000
    ensures var i, size := |s.tickets|, DataSize(blocks);
      var acts := Reserve(i, n) + (Send(i, uid, blocks) + Flush(uid, |s.decs|));
      && Runs(s, acts)
      && After(s, acts)
         == s.(budget := s.budget.(counter := s.budget.counter + 1), buffers := s.buffers[uid := EMPTY.(counter := 1)],
               tickets := s.tickets + [Settled(n, size)], chunks := s.chunks + [Chunk(i, uid, size, Gone)])
  {
    var i, size := |s.tickets|, DataSize(blocks);
    AllocationCovers(s);
    ReserveRuns(s, n);
    var t := After(s, Reserve(i, n));
    SendRuns(t, i, n, uid, blocks);
    var u := After(t, Send(i, uid, blocks));
    assert u.chunks[..|s.chunks|] == s.chunks;
    FlushRuns(u, uid, blocks, Chunk(i, uid, size, Staging));
    RunsConcat(t, Send(i, uid, blocks), Flush(uid, |s.decs|));
    RunsConcat(s, Reserve(i, n), Send(i, uid, blocks) + Flush(uid, |s.decs|));
    assert u.tickets == s.tickets + [Settled(n, size)];
    assert WithLast(u.chunks, Chunk(i, uid, size, Gone)) == s.chunks + [Chunk(i, uid, size, Gone)];
  }

  function Evict(i: nat, n: nat): seq<Action> { [RequireBuffer(n), RecordTicket(i), EvictTicket(i)] + [EvictFree] }

  /** A ticket that is never used can be evicted. Its memory comes back if and only if the evictor shares the
      budget, or the ticket was empty. */
  lemma {:induction false} EvictionGivesBackIff(s: State, n: nat)
    requires AllocationExact(s) && s.budget.alloc + s.budget.used + n <= s.budget.capacity && s.evicting == 0
    ensures Runs(s, Evict(|s.tickets|, n))
    ensures var t := After(s, Evict(|s.tickets|, n));
      t.budget.alloc == s.budget.alloc <==> s.evictor.None? || n == 0
  {
    var i := |s.tickets|;
    AllocationCovers(s);
    var s1 := Step(s, RequireBuffer(n));
    var s2 := Step(s1, RecordTicket(i));
    var s3 := Step(s2, EvictTicket(i));
    assert s3.evicting == n && s3.budget.alloc == s.budget.alloc + n;
    RunsThree(s, RequireBuffer(n), RecordTicket(i), EvictTicket(i));
    RunsOne(s3, EvictFree);
    RunsConcat(s, [RequireBuffer(n), RecordTicket(i), EvictTicket(i)], [EvictFree]);
  }
}
