/** `MemoryBuffer` as the program runs it: fields changed in place, nested read loops. Each method
    is tied to the state functions of `Buffer` and the page specification of `Paging`. */
module MemoryBuffers {
  import opened Bytes
  import opened Blocks
  import opened Buffer
  import opened Paging

  /** `ComposedBytes`: chunks that are written one after the other, with a length claimed by the maker. */
  datatype ComposedBytes = ComposedBytes(chunks: seq<seq<Byte>>, totalLen: nat)

  method Freeze(c: ComposedBytes) returns (bytes: seq<Byte>)
    ensures bytes == Flatten(c.chunks)
  {
    bytes := [];
    for i := 0 to |c.chunks|
      invariant bytes == Flatten(c.chunks[..i])
    {
      FlattenTake(c.chunks, i);
      bytes := bytes + c.chunks[i];
    }
    assert c.chunks[..|c.chunks|] == c.chunks;
  }

  datatype DataSegment = DataSegment(
    blockId: I64, offset: int, length: I32, uncompressLength: I32, crc: I64, taskAttemptId: I64)

  datatype MemoryData = MemoryData(segments: seq<DataSegment>, data: ComposedBytes)

  function SegmentOf(b: Block, offset: int): DataSegment {
    DataSegment(b.blockId, offset, b.length, b.uncompressLength, b.crc, b.taskAttemptId)
  }

  /** The response lists exactly these blocks, each at the running sum of the lengths before it. */
  ghost predicate Describes(m: MemoryData, blocks: seq<Block>) {
    && |m.segments| == |m.data.chunks| == |blocks|
    && m.data.totalLen == AsU64(SumLength(blocks))
    && (forall i | 0 <= i < |blocks| ::
          DescribesBlock(m.segments[i], SumLength(blocks[..i]), blocks[i]) && m.data.chunks[i] == blocks[i].data)
  }

  ghost predicate DescribesBlock(s: DataSegment, offset: int, b: Block) {
    && s.offset == offset && s.blockId == b.blockId && s.taskAttemptId == b.taskAttemptId
    && s.length == b.length && s.uncompressLength == b.uncompressLength && s.crc == b.crc
  }

  /** Every block asked for by task belongs to one of the tasks asked for. */
  ghost predicate OfTasks(blocks: seq<Block>, tasks: Option<set<nat>>) {
    tasks.Some? ==> forall b | b in blocks :: AsU64(b.taskAttemptId) in tasks.value
  }

  lemma {:induction false} PageOfTasks(blocks: seq<Block>, q: Query)
    ensures OfTasks(Page(blocks, q), q.tasks)
    ensures q.tasks.None? ==> Page(blocks, q) == TakeBelow(blocks[Start(blocks, q.last)..], q.batchLen)
    ensures forall b | b in Page(blocks, q) :: b in blocks
  {
    var rest := blocks[Start(blocks, q.last)..];
    MatchingTasks(q.tasks, rest);
    TakeBelowExact(Matching(q.tasks, rest), q.batchLen);
  }

  class MemoryBuffer {
    var totalSize: int
    var stagingSize: int
    var flightSize: int
    var staging: Batch
    var flight: map<nat, Batch>
    var order: seq<nat>
    var flightCounter: nat

    function View(): BufferState
      reads this
    {
      BufferState(totalSize, stagingSize, flightSize, staging, flight, order, flightCounter)
    }

    constructor ()
      ensures View() == EMPTY && View().Valid()
    {
      totalSize, stagingSize, flightSize, flightCounter := 0, 0, 0, 0;
      staging, flight, order := [], map[], [];
    }

    method AppendBlocks(blocks: seq<Block>, size: nat)
      requires View().Valid()
      modifies this
      ensures View() == Append(old(View()), blocks, size) && View().Valid()
      ensures staging == old(staging) + [blocks] && flight == old(flight) && order == old(order)
      ensures stagingSize == old(stagingSize) + size && totalSize == old(totalSize) + size && flightSize == old(flightSize)
      ensures old(Sized(View())) && size == SumLength(blocks) ==> Sized(View())
    {
      staging := staging + [blocks];
      stagingSize := stagingSize + size;
      totalSize := totalSize + size;
      if old(Sized(View())) && size == SumLength(blocks) {
        AppendKeepsSized(old(View()), blocks, size);
      }
    }

    /** `newOrder` is the order in which the flight map iterates afterwards. */
    method SpillStaging(newOrder: seq<nat>) returns (flightId: nat, flightLen: int, blocks: Batch)
      requires View().Valid() && IsOrder(newOrder, flight.Keys + {flightCounter})
      modifies this
      ensures View() == Spill(old(View()), newOrder) && View().Valid()
      ensures staging == [] && stagingSize == 0 && totalSize == old(totalSize) && flightSize == old(flightSize) + flightLen
      ensures flight == old(flight)[flightId := old(staging)] && flightCounter == flightId + 1
      ensures flightId == old(flightCounter) && flightLen == old(stagingSize) && blocks == old(staging)
      ensures old(Sized(View())) ==> Sized(View()) && flightLen == SumLength(Flatten(flight[flightId]))
    {
      blocks := staging;
      staging := [];
      flightId := flightCounter;
      flight := flight[flightId := blocks];
      order := newOrder;
      flightLen := stagingSize;
      flightCounter := flightCounter + 1;
      flightSize := flightSize + flightLen;
      stagingSize := 0;
      SpillKeepsValid(old(View()), newOrder);
      if old(Sized(View())) {
        SpillKeepsSized(old(View()), newOrder);
      }
    }

    method ClearFlight(flightId: nat, size: nat, newOrder: seq<nat>)
      requires View().Valid() && IsOrder(newOrder, flight.Keys - {flightId})
      modifies this
      ensures View() == Clear(old(View()), flightId, size, newOrder) && View().Valid()
      ensures flight == old(flight) - {flightId} && staging == old(staging) && stagingSize == old(stagingSize)
      ensures var freed := if flightId in old(flight) then size else 0;
              totalSize == old(totalSize) - freed && flightSize == old(flightSize) - freed
    {
      ClearKeepsValid(View(), flightId, size, newOrder);
      if flightId in flight {
        flight := flight - {flightId};
        order := newOrder;
        totalSize := totalSize - size;
        flightSize := flightSize - size;
      }
    }

    /** The two inner loops over one batch; `break` leaves only the innermost. */
    method ScanBatch(q: Query, batch: Batch, s0: Scan) returns (s: Scan)
      ensures s == VisitAll(q, s0, Flatten(batch))
    {
      s := s0;
      for i := 0 to |batch|
        invariant s == VisitAll(q, s0, Flatten(batch[..i]))
      {
        ghost var before := s;
        var blocks := batch[i];
        var j := 0;
        while j < |blocks|
          invariant 0 <= j <= |blocks|
          invariant s == VisitAll(q, before, blocks[..j])
        {
          var block := blocks[j];
          VisitConcat(q, before, blocks[..j], blocks[j..]);
          assert blocks == blocks[..j] + blocks[j..];
          if !s.found && block.blockId == q.last {
            s := s.(found := true);
          } else if s.found {
            if s.readLen >= q.batchLen {
              VisitFull(q, s, blocks[j..]);
              assert s == VisitAll(q, before, blocks);
              break;
            }
            if Wanted(q.tasks, block) {
              s := Scan(true, s.readLen + block.length, s.picked + [block]);
            }
          }
          VisitConcat(q, before, blocks[..j], [block]);
          assert blocks[..j + 1] == blocks[..j] + [block];
          j := j + 1;
        }
        assert s == VisitAll(q, before, blocks) by {
          if j == |blocks| { assert blocks[..j] == blocks; }
        }
        FlattenTake(batch, i);
        VisitConcat(q, s0, Flatten(batch[..i]), blocks);
      }
      assert batch[..|batch|] == batch;
    }

    method ScanFlights(q: Query, s0: Scan) returns (s: Scan)
      requires View().Valid()
      ensures s == VisitAll(q, s0, FlightBlocks(flight, order))
    {
      s := s0;
      for i := 0 to |order|
        invariant s == VisitAll(q, s0, FlightBlocks(flight, order[..i]))
      {
        s := ScanBatch(q, flight[order[i]], s);
        FlightBlocksConcat(flight, order[..i], [order[i]]);
        FlightBlocksOne(flight, order[i]);
        assert order[..i + 1] == order[..i] + [order[i]];
        VisitConcat(q, s0, FlightBlocks(flight, order[..i]), Flatten(flight[order[i]]));
      }
      assert order[..|order|] == order;
    }

    /** The read loop shared by `get` and `get_v2`: a second pass from the beginning runs exactly
        when the requested block id is neither -1 nor present. */
    method Read(q: Query) returns (picked: seq<Block>, readLen: int, passes: nat)
      requires View().Valid()
      ensures picked == Page(View().Flat(), q) && readLen == SumLength(picked)
      ensures OfTasks(picked, q.tasks)
      ensures passes == if q.last == INVALID_BLOCK_ID || Occurs(View().Flat(), q.last) then 1 else 2
    {
      var s := Scan(false, 0, []);
      ghost var flat := View().Flat();
      var exit := false;
      passes := 0;
      while !exit
        invariant passes <= 2 && (passes == 2 ==> exit)
        invariant passes == 0 ==> s == Scan(false, 0, []) && !exit
        invariant passes == 1 && !exit ==>
                    s == Scan(true, 0, []) && q.last != INVALID_BLOCK_ID && !Occurs(flat, q.last)
        invariant exit ==> s == Scan(true, SumLength(Page(flat, q)), Page(flat, q))
        invariant exit ==> passes == if q.last == INVALID_BLOCK_ID || Occurs(flat, q.last) then 1 else 2
        decreases 2 - passes, !exit
      {
        exit := true;
        if q.last == INVALID_BLOCK_ID {
          s := s.(found := true);
        }
        ghost var entered := s;
        s := ScanFlights(q, s);
        s := ScanBatch(q, staging, s);
        VisitConcat(q, entered, FlightBlocks(flight, order), Flatten(staging));
        assert s == VisitAll(q, entered, flat);
        PassResult(q, entered, flat);
        if !s.found {
          s := s.(found := true);
          exit := false;
        }
        passes := passes + 1;
      }
      picked, readLen := s.picked, s.readLen;
      PageOfTasks(flat, q);
    }

    method Get(q: Query) returns (blocks: seq<Block>, readLen: nat)
      requires View().Valid()
      ensures blocks == Page(View().Flat(), q) && readLen == AsU64(SumLength(blocks))
      ensures OfTasks(blocks, q.tasks)
    {
      var picked, len, _ := Read(q);
      blocks, readLen := picked, AsU64(len);
    }

    method GetV2(q: Query) returns (m: MemoryData)
      requires View().Valid()
      ensures Describes(m, Page(View().Flat(), q))
      ensures q.tasks.Some? ==>
        forall i | 0 <= i < |m.segments| :: AsU64(m.segments[i].taskAttemptId) in q.tasks.value
    {
      var picked, _, _ := Read(q);
      var chunks: seq<seq<Byte>> := [];
      var segments: seq<DataSegment> := [];
      var offset := 0;
      for i := 0 to |picked|
        invariant offset == SumLength(picked[..i])
        invariant Describes(MemoryData(segments, ComposedBytes(chunks, AsU64(offset))), picked[..i])
      {
        chunks := chunks + [picked[i].data];
        segments := segments + [SegmentOf(picked[i], offset)];
        assert picked[..i + 1] == picked[..i] + [picked[i]];
        SumLengthSnoc(picked[..i], picked[i]);
        offset := offset + picked[i].length;
        assert forall k | 0 <= k <= i :: picked[..i + 1][..k] == picked[..i][..k];
      }
      assert picked[..|picked|] == picked;
      m := MemoryData(segments, ComposedBytes(chunks, AsU64(offset)));
    }
  }

  /** What one pass of the outer loop leaves in the accumulator. */
  lemma {:induction false} PassResult(q: Query, s: Scan, flat: seq<Block>)
    requires s.readLen == 0 && s.picked == []
    requires s.found ==> q.last == INVALID_BLOCK_ID || !Occurs(flat, q.last)
    requires q.last == INVALID_BLOCK_ID ==> s.found
    ensures if s.found || Occurs(flat, q.last)
            then VisitAll(q, s, flat) == Scan(true, SumLength(Page(flat, q)), Page(flat, q))
            else VisitAll(q, s, flat) == s
  {
    var rest := flat[Start(flat, q.last)..];
    var kept := TakeBelow(Matching(q.tasks, rest), q.batchLen);
    VisitFound(q, Scan(true, 0, []), rest);
    assert [] + kept == kept;
    if s.found {
      assert rest == flat;
    } else {
      VisitUnfound(q, s, flat);
    }
  }
}
