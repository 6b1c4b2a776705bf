/** The urpc requests and the plain response: what `parse` makes of any bytes, and the wire layout it
    inverts. */
module Commands {
  import opened Bytes
  import opened Blocks
  import opened Wire

  datatype Frame =
    | SendShuffleData(requestId: I64, appId: seq<Byte>, shuffleId: I32, ticketId: I64, blocks: map<I32, seq<Block>>, timestamp: I64)
    | GetMemoryData(
        requestId: I64, appId: seq<Byte>, shuffleId: I32, partitionId: I32, lastBlockId: I64, readBufferSize: I32,
        timestamp: I64, bitmap: Option<seq<Byte>>)
    | GetLocalDataIndex(
        requestId: I64, appId: seq<Byte>, shuffleId: I32, partitionId: I32, numPerRange: I32, partitionNum: I32)
    | GetLocalData(
        requestId: I64, appId: seq<Byte>, shuffleId: I32, partitionId: I32, numPerRange: I32, partitionNum: I32,
        offset: I64, length: I32, timestamp: I64)
    | RpcResponse(requestId: I64, statusCode: I32, message: seq<Byte>)

  const SEND_SHUFFLE_DATA: Byte := 3
  const GET_LOCAL_DATA_INDEX: Byte := 4
  const GET_LOCAL_DATA: Byte := 5
  const GET_MEMORY_DATA: Byte := 6
  const GET_LOCAL_DATA_INDEX_RESPONSE: Byte := 14
  const GET_LOCAL_DATA_RESPONSE: Byte := 15
  const GET_MEMORY_DATA_RESPONSE: Byte := 16
  const RPC_RESPONSE: Byte := 0

  const HEADER_LEN: nat := 9

  // ---- parsers ----

  function LocalDataAt(s: seq<Byte>, p: nat): Parsed<Frame> {
    var (requestId, p1) :- GetI64At(s, p);
    var (appId, p2) :- GetStringAt(s, p1);
    var (shuffleId, p3) :- GetI32At(s, p2);
    var (partitionId, p4) :- GetI32At(s, p3);
    var (numPerRange, p5) :- GetI32At(s, p4);
    var (partitionNum, p6) :- GetI32At(s, p5);
    var (offset, p7) :- GetI64At(s, p6);
    var (length, p8) :- GetI32At(s, p7);
    var (timestamp, p9) :- GetI64At(s, p8);
    Ok(GetLocalData(requestId, appId, shuffleId, partitionId, numPerRange, partitionNum, offset, length, timestamp), p9)
  }

  function LocalIndexAt(s: seq<Byte>, p: nat): Parsed<Frame> {
    var (requestId, p1) :- GetI64At(s, p);
    var (appId, p2) :- GetStringAt(s, p1);
    var (shuffleId, p3) :- GetI32At(s, p2);
    var (partitionId, p4) :- GetI32At(s, p3);
    var (numPerRange, p5) :- GetI32At(s, p4);
    var (partitionNum, p6) :- GetI32At(s, p5);
    Ok(GetLocalDataIndex(requestId, appId, shuffleId, partitionId, numPerRange, partitionNum), p6)
  }

  function MemoryDataAt(s: seq<Byte>, p: nat): Parsed<Frame> {
    var (requestId, p1) :- GetI64At(s, p);
    var (appId, p2) :- GetStringAt(s, p1);
    var (shuffleId, p3) :- GetI32At(s, p2);
    var (partitionId, p4) :- GetI32At(s, p3);
    var (lastBlockId, p5) :- GetI64At(s, p4);
    var (readBufferSize, p6) :- GetI32At(s, p5);
    var (timestamp, p7) :- GetI64At(s, p6);
    var (bitmap, p8) :- GetBytesAt(s, p7);
    Ok(GetMemoryData(requestId, appId, shuffleId, partitionId, lastBlockId, readBufferSize, timestamp, bitmap), p8)
  }

  function RpcResponseAt(s: seq<Byte>, p: nat): Parsed<Frame> {
    var (requestId, p1) :- GetI64At(s, p);
    var (statusCode, p2) :- GetI32At(s, p1);
    var (message, p3) :- GetStringAt(s, p2);
    Ok(RpcResponse(requestId, statusCode, message), p3)
  }

  /** One skipped shuffle-server record. */
  function ServerAt(s: seq<Byte>, p: nat): Parsed<()> {
    var (_, p1) :- GetStringAt(s, p);
    var (_, p2) :- GetStringAt(s, p1);
    var (_, p3) :- GetI32At(s, p2);
    var (_, p4) :- GetI32At(s, p3);
    Ok((), p4)
  }

  function DataOf(bytes: Option<seq<Byte>>): seq<Byte> { if bytes.Some? then bytes.value else [] }

  function BlockAt(s: seq<Byte>, p: nat): Parsed<Block> {
    var (_, p1) :- GetI32At(s, p);
    var (blockId, p2) :- GetI64At(s, p1);
    var (length, p3) :- GetI32At(s, p2);
    var (_, p4) :- GetI32At(s, p3);
    var (crc, p5) :- GetI64At(s, p4);
    var (taskAttemptId, p6) :- GetI64At(s, p5);
    var (buffer, p7) :- GetBytesAt(s, p6);
    var (servers, p8) :- GetI32At(s, p7);
    var (_, p9) :- RepeatAt(s, p8, servers, ServerAt, []);
    var (uncompressLength, p10) :- GetI32At(s, p9);
    var (_, p11) :- GetI64At(s, p10);
    Ok(Block(blockId, length, uncompressLength, crc, DataOf(buffer), taskAttemptId), p11)
  }

  /** One partition; a negative block count overflows the capacity asked for. */
  function PartitionAt(s: seq<Byte>, p: nat): Parsed<(I32, seq<Block>)> {
    var (id, p1) :- GetI32At(s, p);
    var (count, p2) :- GetI32At(s, p1);
    if count < 0 then Fail(Panic) else
      var (blocks, p3) :- RepeatAt(s, p2, count, BlockAt, []);
      Ok((id, blocks), p3)
  }

  /** Insertion in order: a later partition with the same id replaces the earlier one. */
  function InsertAll(parts: seq<(I32, seq<Block>)>): map<I32, seq<Block>>
    decreases |parts|
  {
    if parts == [] then map[] else
      var last := parts[|parts| - 1];
      InsertAll(parts[..|parts| - 1])[last.0 := last.1]
  }

  function SendAt(s: seq<Byte>, p: nat): Parsed<Frame> {
    var (requestId, p1) :- GetI64At(s, p);
    var (appId, p2) :- GetStringAt(s, p1);
    var (shuffleId, p3) :- GetI32At(s, p2);
    var (ticketId, p4) :- GetI64At(s, p3);
    var (count, p5) :- GetI32At(s, p4);
    var (parts, p6) :- RepeatAt(s, p5, count, PartitionAt, []);
    var (timestamp, p7) :- GetI64At(s, p6);
    Ok(SendShuffleData(requestId, appId, shuffleId, ticketId, InsertAll(parts), timestamp), p7)
  }

  /** The dispatch on the message type; the three response types are not implemented and panic. */
  function CommandAt(s: seq<Byte>, p: nat, ty: Byte): Parsed<Frame> {
    if ty == GET_LOCAL_DATA then LocalDataAt(s, p)
    else if ty == GET_LOCAL_DATA_INDEX then LocalIndexAt(s, p)
    else if ty == GET_MEMORY_DATA then MemoryDataAt(s, p)
    else if ty == SEND_SHUFFLE_DATA then SendAt(s, p)
    else if ty == RPC_RESPONSE then RpcResponseAt(s, p)
    else if ty == GET_LOCAL_DATA_RESPONSE || ty == GET_LOCAL_DATA_INDEX_RESPONSE || ty == GET_MEMORY_DATA_RESPONSE then Fail(Panic)
    else Fail(TypeNotFound)
  }

  /** The two header lengths, added as `i32` and cast to `usize`. */
  function ContentLength(msgLen: I32, bodyLen: I32): nat { AsU64(WrapI32(msgLen + bodyLen)) }

  datatype Header = Header(msgLen: I32, ty: Byte, bodyLen: I32)

  function HeaderAt(s: seq<Byte>, p: nat): Parsed<Header> {
    var (msgLen, p1) :- GetI32At(s, p);
    var (ty, p2) :- GetU8At(s, p1);
    var (bodyLen, p3) :- GetI32At(s, p2);
    Ok(Header(msgLen, ty, bodyLen), p3)
  }

  function Parse(s: seq<Byte>): Parsed<Frame> {
    match HeaderAt(s, 0)
    case Fail(e) => Fail(e)
    case Ok(h, p) => if |s| - p < ContentLength(h.msgLen, h.bodyLen) then Fail(Abnormal) else CommandAt(s, p, h.ty)
  }

  /** `check`: the length of the frame the bytes start with, or incomplete. */
  function Check(s: seq<Byte>): Parsed<()> {
    if |s| < HEADER_LEN then Fail(Incomplete) else
      match HeaderAt(s, 0)
      case Fail(e) => Fail(e)
      case Ok(h, p) =>
        if |s| - p < ContentLength(h.msgLen, h.bodyLen) then Fail(Incomplete) else Ok((), p + ContentLength(h.msgLen, h.bodyLen))
  }

  // ---- what was parsed does not depend on what follows ----

  lemma StableServer(s: seq<Byte>, t: seq<Byte>, p: nat)
    requires ServerAt(s, p).Ok?
    ensures ServerAt(s + t, p) == ServerAt(s, p) && ServerAt(s, p).pos <= |s|
  {
    StableString(s, t, p);
    var p1 := GetStringAt(s, p).pos;
    StableString(s, t, p1);
    var p2 := GetStringAt(s, p1).pos;
    StableI32(s, t, p2);
    StableI32(s, t, GetI32At(s, p2).pos);
  }

  lemma StableServers(s: seq<Byte>, t: seq<Byte>)
    ensures Steady(ServerAt, s, t)
  {
    forall p: nat | ServerAt(s, p).Ok? ensures ServerAt(s + t, p) == ServerAt(s, p) && ServerAt(s, p).pos <= |s| {
      StableServer(s, t, p);
    }
  }

  lemma StableBlock(s: seq<Byte>, t: seq<Byte>, p: nat)
    requires BlockAt(s, p).Ok?
    ensures BlockAt(s + t, p) == BlockAt(s, p) && BlockAt(s, p).pos <= |s|
  {
    StableI32(s, t, p);
    var p1 := GetI32At(s, p).pos;
    StableI64(s, t, p1);
    var p2 := GetI64At(s, p1).pos;
    StableI32(s, t, p2);
    var p3 := GetI32At(s, p2).pos;
    StableI32(s, t, p3);
    var p4 := GetI32At(s, p3).pos;
    StableI64(s, t, p4);
    var p5 := GetI64At(s, p4).pos;
    StableI64(s, t, p5);
    var p6 := GetI64At(s, p5).pos;
    StableBytes(s, t, p6);
    var p7 := GetBytesAt(s, p6).pos;
    StableI32(s, t, p7);
    var servers, p8 := GetI32At(s, p7).value, GetI32At(s, p7).pos;
    StableServers(s, t);
    StableRepeat(s, t, p8, servers, ServerAt, []);
    var p9 := RepeatAt(s, p8, servers, ServerAt, []).pos;
    StableI32(s, t, p9);
    StableI64(s, t, GetI32At(s, p9).pos);
  }

  lemma StableBlocks(s: seq<Byte>, t: seq<Byte>)
    ensures Steady(BlockAt, s, t)
  {
    forall p: nat | BlockAt(s, p).Ok? ensures BlockAt(s + t, p) == BlockAt(s, p) && BlockAt(s, p).pos <= |s| {
      StableBlock(s, t, p);
    }
  }

  lemma StablePartition(s: seq<Byte>, t: seq<Byte>, p: nat)
    requires PartitionAt(s, p).Ok?
    ensures PartitionAt(s + t, p) == PartitionAt(s, p) && PartitionAt(s, p).pos <= |s|
  {
    StableI32(s, t, p);
    var p1 := GetI32At(s, p).pos;
    StableI32(s, t, p1);
    StableBlocks(s, t);
    StableRepeat(s, t, GetI32At(s, p1).pos, GetI32At(s, p1).value, BlockAt, []);
  }

  lemma StablePartitions(s: seq<Byte>, t: seq<Byte>)
    ensures Steady(PartitionAt, s, t)
  {
    forall p: nat | PartitionAt(s, p).Ok? ensures PartitionAt(s + t, p) == PartitionAt(s, p) && PartitionAt(s, p).pos <= |s| {
      StablePartition(s, t, p);
    }
  }

  lemma StableSend(s: seq<Byte>, t: seq<Byte>, p: nat)
    requires SendAt(s, p).Ok?
    ensures SendAt(s + t, p) == SendAt(s, p) && SendAt(s, p).pos <= |s|
  {
    StableI64(s, t, p);
    var p1 := GetI64At(s, p).pos;
    StableString(s, t, p1);
    var p2 := GetStringAt(s, p1).pos;
    StableI32(s, t, p2);
    var p3 := GetI32At(s, p2).pos;
    StableI64(s, t, p3);
    var p4 := GetI64At(s, p3).pos;
    StableI32(s, t, p4);
    var count, p5 := GetI32At(s, p4).value, GetI32At(s, p4).pos;
    StablePartitions(s, t);
    StableRepeat(s, t, p5, count, PartitionAt, []);
    StableI64(s, t, RepeatAt(s, p5, count, PartitionAt, []).pos);
  }

  lemma StableLocalData(s: seq<Byte>, t: seq<Byte>, p: nat)
    requires LocalDataAt(s, p).Ok?
    ensures LocalDataAt(s + t, p) == LocalDataAt(s, p) && LocalDataAt(s, p).pos <= |s|
  {
    StableI64(s, t, p);
    var p1 := GetI64At(s, p).pos;
    StableString(s, t, p1);
    var p2 := GetStringAt(s, p1).pos;
    StableI32(s, t, p2);
    var p3 := GetI32At(s, p2).pos;
    StableI32(s, t, p3);
    var p4 := GetI32At(s, p3).pos;
    StableI32(s, t, p4);
    var p5 := GetI32At(s, p4).pos;
    StableI32(s, t, p5);
    var p6 := GetI32At(s, p5).pos;
    StableI64(s, t, p6);
    var p7 := GetI64At(s, p6).pos;
    StableI32(s, t, p7);
    StableI64(s, t, GetI32At(s, p7).pos);
  }

  lemma StableLocalIndex(s: seq<Byte>, t: seq<Byte>, p: nat)
    requires LocalIndexAt(s, p).Ok?
    ensures LocalIndexAt(s + t, p) == LocalIndexAt(s, p) && LocalIndexAt(s, p).pos <= |s|
  {
    StableI64(s, t, p);
    var p1 := GetI64At(s, p).pos;
    StableString(s, t, p1);
    var p2 := GetStringAt(s, p1).pos;
    StableI32(s, t, p2);
    var p3 := GetI32At(s, p2).pos;
    StableI32(s, t, p3);
    var p4 := GetI32At(s, p3).pos;
    StableI32(s, t, p4);
    StableI32(s, t, GetI32At(s, p4).pos);
  }

  lemma StableMemoryData(s: seq<Byte>, t: seq<Byte>, p: nat)
    requires MemoryDataAt(s, p).Ok?
    ensures MemoryDataAt(s + t, p) == MemoryDataAt(s, p) && MemoryDataAt(s, p).pos <= |s|
  {
    StableI64(s, t, p);
    var p1 := GetI64At(s, p).pos;
    StableString(s, t, p1);
    var p2 := GetStringAt(s, p1).pos;
    StableI32(s, t, p2);
    var p3 := GetI32At(s, p2).pos;
    StableI32(s, t, p3);
    var p4 := GetI32At(s, p3).pos;
    StableI64(s, t, p4);
    var p5 := GetI64At(s, p4).pos;
    StableI32(s, t, p5);
    var p6 := GetI32At(s, p5).pos;
    StableI64(s, t, p6);
    StableBytes(s, t, GetI64At(s, p6).pos);
  }

  lemma StableRpcResponse(s: seq<Byte>, t: seq<Byte>, p: nat)
    requires RpcResponseAt(s, p).Ok?
    ensures RpcResponseAt(s + t, p) == RpcResponseAt(s, p) && RpcResponseAt(s, p).pos <= |s|
  {
    StableI64(s, t, p);
    var p1 := GetI64At(s, p).pos;
    StableI32(s, t, p1);
    StableString(s, t, GetI32At(s, p1).pos);
  }

  lemma StableCommand(s: seq<Byte>, t: seq<Byte>, p: nat, ty: Byte)
    requires CommandAt(s, p, ty).Ok?
    ensures CommandAt(s + t, p, ty) == CommandAt(s, p, ty) && CommandAt(s, p, ty).pos <= |s|
  {
    if ty == GET_LOCAL_DATA {
      StableLocalData(s, t, p);
    } else if ty == GET_LOCAL_DATA_INDEX {
      StableLocalIndex(s, t, p);
    } else if ty == GET_MEMORY_DATA {
      StableMemoryData(s, t, p);
    } else if ty == SEND_SHUFFLE_DATA {
      StableSend(s, t, p);
    } else {
      StableRpcResponse(s, t, p);
    }
  }

  lemma StableHeader(s: seq<Byte>, t: seq<Byte>)
    ensures HeaderAt(s, 0).Ok? ==> HeaderAt(s + t, 0) == HeaderAt(s, 0) && HeaderAt(s, 0).pos == HEADER_LEN <= |s|
    ensures |s| >= HEADER_LEN ==> HeaderAt(s, 0).Ok?
  {
    if |s| >= HEADER_LEN {
      StableI32(s, t, 0);
      StableU8(s, t, 4);
      StableI32(s, t, 5);
    }
  }

  /** For all bytes: a successful parse is unchanged by whatever follows. */
  lemma ParseIsStable(s: seq<Byte>, t: seq<Byte>)
    requires Parse(s).Ok?
    ensures Parse(s + t) == Parse(s) && Parse(s).pos <= |s|
  {
    StableHeader(s, t);
    StableCommand(s, t, HEADER_LEN, HeaderAt(s, 0).value.ty);
  }

  /** For all bytes: a complete frame stays the same frame, and an incomplete one is never a complete one
      of another length. */
  lemma CheckIsStable(s: seq<Byte>, t: seq<Byte>)
    ensures Check(s).Ok? ==> Check(s + t) == Check(s) && HEADER_LEN <= Check(s).pos <= |s|
    ensures Check(s).Fail? ==> Check(s) == Fail(Incomplete)
    ensures Check(s).Fail? && Check(s + t).Ok? ==> Check(s + t).pos > |s|
  {
    StableHeader(s, t);
    StableHeader(s + t, []);
  }

  // ---- where the fields stand ----

  /** The message type in the header picks the parser; everything else is refused. */
  lemma CommandByType(s: seq<Byte>, p: nat, ty: Byte)
    ensures CommandAt(s, p, ty) ==
            if ty == 0 then RpcResponseAt(s, p)
            else if ty == 3 then SendAt(s, p)
            else if ty == 4 then LocalIndexAt(s, p)
            else if ty == 5 then LocalDataAt(s, p)
            else if ty == 6 then MemoryDataAt(s, p)
            else if 14 <= ty <= 16 then Fail(Panic)
            else Fail(TypeNotFound)
  {
  }

  /** The header is nine bytes: the message length, the type, the body length. */
  lemma HeaderPlaces(s: seq<Byte>)
    requires HeaderAt(s, 0).Ok?
    ensures |s| >= 9 && HeaderAt(s, 0) == Ok(Header(GetI32(s[0..4]), s[4], GetI32(s[5..9])), 9)
  {
  }

  lemma StringPlace(s: seq<Byte>, p: nat)
    requires GetStringAt(s, p).Ok?
    ensures var text, q := GetStringAt(s, p).value, GetStringAt(s, p).pos;
      q == p + 4 + |text| <= |s| && GetI32(s[p..p + 4]) == |text| && s[p + 4..q] == text
  {
  }

  lemma BytesPlace(s: seq<Byte>, p: nat)
    requires GetBytesAt(s, p).Ok?
    ensures var data, q := DataOf(GetBytesAt(s, p).value), GetBytesAt(s, p).pos;
      && q == p + 4 + |data| <= |s| && s[p + 4..q] == data && (GetBytesAt(s, p).value.Some? <==> GetI32(s[p..p + 4]) > 0)
      && |data| == if GetI32(s[p..p + 4]) > 0 then GetI32(s[p..p + 4]) else 0
  {
  }

  // Request id, application and shuffle open every request; `q` is where the application id ends.

  lemma LocalDataPlaces(s: seq<Byte>, p: nat)
    requires LocalDataAt(s, p).Ok?
    ensures var f := LocalDataAt(s, p).value;
      f.GetLocalData? && GetStringAt(s, p + 8).Ok? && var q := GetStringAt(s, p + 8).pos;
      && GetI64At(s, p) == Ok(f.requestId, p + 8) && GetStringAt(s, p + 8) == Ok(f.appId, q)
      && GetI32At(s, q) == Ok(f.shuffleId, q + 4) && GetI32At(s, q + 4) == Ok(f.partitionId, q + 8)
      && GetI32At(s, q + 8) == Ok(f.numPerRange, q + 12) && GetI32At(s, q + 12) == Ok(f.partitionNum, q + 16)
      && GetI64At(s, q + 16) == Ok(f.offset, q + 24) && GetI32At(s, q + 24) == Ok(f.length, q + 28)
      && GetI64At(s, q + 28) == Ok(f.timestamp, q + 36) && LocalDataAt(s, p).pos == q + 36
  {
    var p1 := GetI64At(s, p).pos;
    var p2 := GetStringAt(s, p1).pos;
    var p3 := GetI32At(s, p2).pos;
    var p4 := GetI32At(s, p3).pos;
    var p5 := GetI32At(s, p4).pos;
    var p6 := GetI32At(s, p5).pos;
    var p7 := GetI64At(s, p6).pos;
    var p8 := GetI32At(s, p7).pos;
    assert LocalDataAt(s, p).pos == GetI64At(s, p8).pos;
  }

  lemma LocalIndexPlaces(s: seq<Byte>, p: nat)
    requires LocalIndexAt(s, p).Ok?
    ensures var f := LocalIndexAt(s, p).value;
      f.GetLocalDataIndex? && GetStringAt(s, p + 8).Ok? && var q := GetStringAt(s, p + 8).pos;
      && GetI64At(s, p) == Ok(f.requestId, p + 8) && GetStringAt(s, p + 8) == Ok(f.appId, q)
      && GetI32At(s, q) == Ok(f.shuffleId, q + 4) && GetI32At(s, q + 4) == Ok(f.partitionId, q + 8)
      && GetI32At(s, q + 8) == Ok(f.numPerRange, q + 12) && GetI32At(s, q + 12) == Ok(f.partitionNum, q + 16)
      && LocalIndexAt(s, p).pos == q + 16
  {
    var p1 := GetI64At(s, p).pos;
    var p2 := GetStringAt(s, p1).pos;
    var p3 := GetI32At(s, p2).pos;
    var p4 := GetI32At(s, p3).pos;
    var p5 := GetI32At(s, p4).pos;
    assert LocalIndexAt(s, p).pos == GetI32At(s, p5).pos;
  }

  lemma MemoryDataPlaces(s: seq<Byte>, p: nat)
    requires MemoryDataAt(s, p).Ok?
    ensures var f := MemoryDataAt(s, p).value;
      f.GetMemoryData? && GetStringAt(s, p + 8).Ok? && var q := GetStringAt(s, p + 8).pos;
      && GetI64At(s, p) == Ok(f.requestId, p + 8) && GetStringAt(s, p + 8) == Ok(f.appId, q)
      && GetI32At(s, q) == Ok(f.shuffleId, q + 4) && GetI32At(s, q + 4) == Ok(f.partitionId, q + 8)
      && GetI64At(s, q + 8) == Ok(f.lastBlockId, q + 16) && GetI32At(s, q + 16) == Ok(f.readBufferSize, q + 20)
      && GetI64At(s, q + 20) == Ok(f.timestamp, q + 28) && GetBytesAt(s, q + 28) == Ok(f.bitmap, MemoryDataAt(s, p).pos)
  {
    var p1 := GetI64At(s, p).pos;
    var p2 := GetStringAt(s, p1).pos;
    var p3 := GetI32At(s, p2).pos;
    var p4 := GetI32At(s, p3).pos;
    var p5 := GetI64At(s, p4).pos;
    var p6 := GetI32At(s, p5).pos;
    var p7 := GetI64At(s, p6).pos;
    assert MemoryDataAt(s, p).pos == GetBytesAt(s, p7).pos;
  }

  lemma SendPlaces(s: seq<Byte>, p: nat)
    requires SendAt(s, p).Ok?
    ensures var f := SendAt(s, p).value;
      f.SendShuffleData? && GetStringAt(s, p + 8).Ok? && var q := GetStringAt(s, p + 8).pos;
      && GetI64At(s, p) == Ok(f.requestId, p + 8) && GetStringAt(s, p + 8) == Ok(f.appId, q)
      && GetI32At(s, q) == Ok(f.shuffleId, q + 4) && GetI64At(s, q + 4) == Ok(f.ticketId, q + 12)
      && SendAt(s, p).pos >= 8 && GetI64At(s, SendAt(s, p).pos - 8) == Ok(f.timestamp, SendAt(s, p).pos)
  {
    var p1 := GetI64At(s, p).pos;
    var p2 := GetStringAt(s, p1).pos;
    var p3 := GetI32At(s, p2).pos;
    var p4 := GetI64At(s, p3).pos;
    var p5 := GetI32At(s, p4).pos;
    var p6 := RepeatAt(s, p5, GetI32At(s, p4).value, PartitionAt, []).pos;
    assert SendAt(s, p).pos == GetI64At(s, p6).pos;
  }

  /** The partition and shuffle id before the data and the servers behind it are skipped. */
  lemma BlockPlaces(s: seq<Byte>, p: nat)
    requires BlockAt(s, p).Ok?
    ensures var b := BlockAt(s, p).value;
      var q := p + 40 + |b.data|;
      && GetI64At(s, p + 4) == Ok(b.blockId, p + 12) && GetI32At(s, p + 12) == Ok(b.length, p + 16)
      && GetI64At(s, p + 20) == Ok(b.crc, p + 28) && GetI64At(s, p + 28) == Ok(b.taskAttemptId, p + 36)
      && GetBytesAt(s, p + 36).Ok? && GetBytesAt(s, p + 36).pos == q && b.data == DataOf(GetBytesAt(s, p + 36).value)
      && BlockAt(s, p).pos >= 12 && GetI32At(s, BlockAt(s, p).pos - 12) == Ok(b.uncompressLength, BlockAt(s, p).pos - 8)
  {
    var p1 := GetI32At(s, p).pos;
    var p2 := GetI64At(s, p1).pos;
    var p3 := GetI32At(s, p2).pos;
    var p4 := GetI32At(s, p3).pos;
    var p5 := GetI64At(s, p4).pos;
    var p6 := GetI64At(s, p5).pos;
    BytesPlace(s, p6);
    var p7 := GetBytesAt(s, p6).pos;
    var p8 := GetI32At(s, p7).pos;
    var p9 := RepeatAt(s, p8, GetI32At(s, p7).value, ServerAt, []).pos;
    assert BlockAt(s, p).pos == GetI64At(s, GetI32At(s, p9).pos).pos == p9 + 12;
  }
}
