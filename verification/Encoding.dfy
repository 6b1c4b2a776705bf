/** The wire layout of the urpc requests, as clients write it, and the proof that `parse` inverts it. */
module Encoding {
  import opened Bytes
  import opened Blocks
  import opened Wire
  import Records
  import opened Commands

  // ---- layout ----

  /** A shuffle-server record attached to a block; the server skips it. */
  datatype Server = Server(id: seq<Byte>, host: seq<Byte>, grpcPort: I32, nettyPort: I32)

  datatype WireBlock = WireBlock(partitionId: I32, shuffleId: I32, block: Block, servers: seq<Server>, freeMemory: I64)

  datatype WirePartition = WirePartition(id: I32, blocks: seq<WireBlock>)

  datatype WireSend = WireSend(
    requestId: I64, appId: seq<Byte>, shuffleId: I32, ticketId: I64, partitions: seq<WirePartition>, timestamp: I64)

  function PutServer(v: Server): seq<Byte> {
    PutBytes(v.id) + (PutBytes(v.host) + (PutI32(v.grpcPort) + PutI32(v.nettyPort)))
  }

  function PutBlockTail(w: WireBlock): seq<Byte> {
    PutI32(WrapI32(|w.servers|)) + (Records.Encode(w.servers, PutServer) + (PutI32(w.block.uncompressLength) + PutI64(w.freeMemory)))
  }

  function PutBlock(w: WireBlock): seq<Byte> {
    var b := w.block;
    PutI32(w.partitionId) + (PutI64(b.blockId) + (PutI32(b.length) + (PutI32(w.shuffleId)
      + (PutI64(b.crc) + (PutI64(b.taskAttemptId) + (PutBytes(b.data) + PutBlockTail(w)))))))
  }

  function PutPartition(w: WirePartition): seq<Byte> {
    PutI32(w.id) + (PutI32(WrapI32(|w.blocks|)) + Records.Encode(w.blocks, PutBlock))
  }

  function PutSendTail(w: WireSend): seq<Byte> {
    PutI64(w.ticketId) + (PutI32(WrapI32(|w.partitions|)) + (Records.Encode(w.partitions, PutPartition) + PutI64(w.timestamp)))
  }

  function PutSend(w: WireSend): seq<Byte> {
    PutI64(w.requestId) + (PutBytes(w.appId) + (PutI32(w.shuffleId) + PutSendTail(w)))
  }

  function PutRange(offset: I64, length: I32, timestamp: I64): seq<Byte> {
    PutI64(offset) + (PutI32(length) + PutI64(timestamp))
  }

  function PutLocalData(f: Frame): seq<Byte>
    requires f.GetLocalData?
  {
    PutI64(f.requestId) + (PutBytes(f.appId) + (PutI32(f.shuffleId) + (PutI32(f.partitionId) + (PutI32(f.numPerRange)
      + (PutI32(f.partitionNum) + PutRange(f.offset, f.length, f.timestamp))))))
  }

  function PutLocalIndex(f: Frame): seq<Byte>
    requires f.GetLocalDataIndex?
  {
    PutI64(f.requestId) + (PutBytes(f.appId) + (PutI32(f.shuffleId) + (PutI32(f.partitionId)
      + (PutI32(f.numPerRange) + (PutI32(f.partitionNum) + [])))))
  }

  function PutMemoryTail(f: Frame): seq<Byte>
    requires f.GetMemoryData?
  {
    PutI32(f.partitionId) + (PutI64(f.lastBlockId) + (PutI32(f.readBufferSize)
      + (PutI64(f.timestamp) + PutBytes(DataOf(f.bitmap)))))
  }

  function PutMemoryData(f: Frame): seq<Byte>
    requires f.GetMemoryData?
  {
    PutI64(f.requestId) + (PutBytes(f.appId) + (PutI32(f.shuffleId) + PutMemoryTail(f)))
  }

  function PutRpcResponse(f: Frame): seq<Byte>
    requires f.RpcResponse?
  {
    PutI64(f.requestId) + (PutI32(f.statusCode) + PutBytes(f.message))
  }

  /** Header and content; the two lengths together say how long the content is. */
  function PutFrame(msgLen: I32, ty: Byte, bodyLen: I32, content: seq<Byte>): seq<Byte> {
    PutI32(msgLen) + ([ty] + (PutI32(bodyLen) + content))
  }

  // ---- what a client may send ----

  predicate ServerOk(v: Server) { IsText(v.id) && IsText(v.host) }

  predicate BlockOk(w: WireBlock) {
    |w.block.data| < 0x8000_0000 && |w.servers| < 0x8000_0000 && forall i | 0 <= i < |w.servers| :: ServerOk(w.servers[i])
  }

  predicate PartitionOk(w: WirePartition) {
    |w.blocks| < 0x8000_0000 && forall i | 0 <= i < |w.blocks| :: BlockOk(w.blocks[i])
  }

  predicate SendOk(w: WireSend) {
    IsText(w.appId) && |w.partitions| < 0x8000_0000 && forall i | 0 <= i < |w.partitions| :: PartitionOk(w.partitions[i])
  }

  // ---- round trips: servers ----

  lemma ServerReadBack(s: seq<Byte>, p: nat, v: Server)
    requires ServerOk(v) && At(s, p, PutServer(v))
    ensures ServerAt(s, p) == Ok((), p + |PutServer(v)|)
  {
    var p1 := PeelString(s, p, v.id, PutBytes(v.host) + (PutI32(v.grpcPort) + PutI32(v.nettyPort)));
    var p2 := PeelString(s, p1, v.host, PutI32(v.grpcPort) + PutI32(v.nettyPort));
    var p3 := PeelI32(s, p2, v.grpcPort, PutI32(v.nettyPort));
    var p4 := LastI32(s, p3, v.nettyPort);
  }

  lemma ServerInverts(v: Server)
    requires ServerOk(v)
    ensures Inverts(ServerAt, PutServer, v, ())
  {
    forall s: seq<Byte>, p: nat | At(s, p, PutServer(v)) ensures ServerAt(s, p) == Ok((), p + |PutServer(v)|) {
      ServerReadBack(s, p, v);
    }
  }

  function Nothing(v: Server): () { () }

  lemma PeelServers(s: seq<Byte>, p: nat, servers: seq<Server>, rest: seq<Byte>) returns (q: nat)
    requires (forall i | 0 <= i < |servers| :: ServerOk(servers[i])) && At(s, p, Records.Encode(servers, PutServer) + rest)
    ensures RepeatAt(s, p, |servers|, ServerAt, []) == Ok(MapAll(servers, Nothing), q)
    ensures At(s, q, rest) && q + |rest| == p + |Records.Encode(servers, PutServer) + rest|
  {
    forall i | 0 <= i < |servers| ensures Inverts(ServerAt, PutServer, servers[i], Nothing(servers[i])) {
      ServerInverts(servers[i]);
    }
    q := PeelAll(s, p, servers, ServerAt, PutServer, Nothing, rest);
  }

  // ---- round trips: blocks ----

  function BlockOf(w: WireBlock): Block { w.block }

  lemma PeelBlockStart(s: seq<Byte>, p: nat, w: WireBlock, rest: seq<Byte>) returns (p1: nat, p2: nat, p3: nat, p4: nat)
    requires At(s, p, PutI32(w.partitionId) + (PutI64(w.block.blockId) + (PutI32(w.block.length) + (PutI32(w.shuffleId) + rest))))
    ensures GetI32At(s, p) == Ok(w.partitionId, p1) && GetI64At(s, p1) == Ok(w.block.blockId, p2)
    ensures GetI32At(s, p2) == Ok(w.block.length, p3) && GetI32At(s, p3) == Ok(w.shuffleId, p4)
    ensures At(s, p4, rest) && p4 == p + 20
  {
    var e3 := PutI32(w.shuffleId) + rest;
    var e2 := PutI32(w.block.length) + e3;
    p1 := PeelI32(s, p, w.partitionId, PutI64(w.block.blockId) + e2);
    p2 := PeelI64(s, p1, w.block.blockId, e2);
    p3 := PeelI32(s, p2, w.block.length, e3);
    p4 := PeelI32(s, p3, w.shuffleId, rest);
  }

  lemma PeelBlockMiddle(s: seq<Byte>, p: nat, b: Block, rest: seq<Byte>) returns (p1: nat, p2: nat, p3: nat)
    requires |b.data| < 0x8000_0000 && At(s, p, PutI64(b.crc) + (PutI64(b.taskAttemptId) + (PutBytes(b.data) + rest)))
    ensures GetI64At(s, p) == Ok(b.crc, p1) && GetI64At(s, p1) == Ok(b.taskAttemptId, p2)
    ensures GetBytesAt(s, p2) == Ok(if b.data == [] then None else Some(b.data), p3)
    ensures At(s, p3, rest) && p3 == p + 20 + |b.data|
  {
    p1 := PeelI64(s, p, b.crc, PutI64(b.taskAttemptId) + (PutBytes(b.data) + rest));
    p2 := PeelI64(s, p1, b.taskAttemptId, PutBytes(b.data) + rest);
    p3 := PeelBytes(s, p2, b.data, rest);
  }

  lemma PeelBlockTail(s: seq<Byte>, p: nat, w: WireBlock) returns (p1: nat, p2: nat, p3: nat, p4: nat)
    requires BlockOk(w) && At(s, p, PutBlockTail(w))
    ensures GetI32At(s, p) == Ok(|w.servers|, p1)
    ensures RepeatAt(s, p1, |w.servers|, ServerAt, []) == Ok(MapAll(w.servers, Nothing), p2)
    ensures GetI32At(s, p2) == Ok(w.block.uncompressLength, p3) && GetI64At(s, p3) == Ok(w.freeMemory, p4)
    ensures p4 == p + |PutBlockTail(w)|
  {
    var y := PutI32(w.block.uncompressLength) + PutI64(w.freeMemory);
    p1 := PeelI32(s, p, |w.servers|, Records.Encode(w.servers, PutServer) + y);
    p2 := PeelServers(s, p1, w.servers, y);
    p3 := PeelI32(s, p2, w.block.uncompressLength, PutI64(w.freeMemory));
    p4 := LastI64(s, p3, w.freeMemory);
  }

  /** Reading the fields of a block in order is reading the block. */
  lemma {:induction false} BlockFromFields(
    s: seq<Byte>, p: nat, w: WireBlock, servers: I32, skipped: seq<()>,
    p1: nat, p2: nat, p3: nat, p4: nat, p5: nat, p6: nat, p7: nat, p8: nat, p9: nat, p10: nat, p11: nat)
    requires GetI32At(s, p) == Ok(w.partitionId, p1) && GetI64At(s, p1) == Ok(w.block.blockId, p2)
    requires GetI32At(s, p2) == Ok(w.block.length, p3) && GetI32At(s, p3) == Ok(w.shuffleId, p4)
    requires GetI64At(s, p4) == Ok(w.block.crc, p5) && GetI64At(s, p5) == Ok(w.block.taskAttemptId, p6)
    requires GetBytesAt(s, p6) == Ok(if w.block.data == [] then None else Some(w.block.data), p7)
    requires GetI32At(s, p7) == Ok(servers, p8) && RepeatAt(s, p8, servers, ServerAt, []) == Ok(skipped, p9)
    requires GetI32At(s, p9) == Ok(w.block.uncompressLength, p10) && GetI64At(s, p10) == Ok(w.freeMemory, p11)
    ensures BlockAt(s, p) == Ok(w.block, p11)
  {
  }

  lemma PeelBlock(s: seq<Byte>, p: nat, w: WireBlock) returns (
      p1: nat, p2: nat, p3: nat, p4: nat, p5: nat, p6: nat, p7: nat, p8: nat, p9: nat, p10: nat, p11: nat)
    requires BlockOk(w) && At(s, p, PutBlock(w))
    ensures GetI32At(s, p) == Ok(w.partitionId, p1) && GetI64At(s, p1) == Ok(w.block.blockId, p2)
    ensures GetI32At(s, p2) == Ok(w.block.length, p3) && GetI32At(s, p3) == Ok(w.shuffleId, p4)
    ensures GetI64At(s, p4) == Ok(w.block.crc, p5) && GetI64At(s, p5) == Ok(w.block.taskAttemptId, p6)
    ensures GetBytesAt(s, p6) == Ok(if w.block.data == [] then None else Some(w.block.data), p7)
    ensures GetI32At(s, p7) == Ok(|w.servers|, p8)
    ensures RepeatAt(s, p8, |w.servers|, ServerAt, []) == Ok(MapAll(w.servers, Nothing), p9)
    ensures GetI32At(s, p9) == Ok(w.block.uncompressLength, p10) && GetI64At(s, p10) == Ok(w.freeMemory, p11)
    ensures p11 == p + |PutBlock(w)|
  {
    var b, tail := w.block, PutBlockTail(w);
    p1, p2, p3, p4 := PeelBlockStart(s, p, w, PutI64(b.crc) + (PutI64(b.taskAttemptId) + (PutBytes(b.data) + tail)));
    p5, p6, p7 := PeelBlockMiddle(s, p4, b, tail);
    p8, p9, p10, p11 := PeelBlockTail(s, p7, w);
  }

  lemma BlockReadBack(s: seq<Byte>, p: nat, w: WireBlock)
    requires BlockOk(w) && At(s, p, PutBlock(w))
    ensures BlockAt(s, p) == Ok(w.block, p + |PutBlock(w)|)
  {
    var p1, p2, p3, p4, p5, p6, p7, p8, p9, p10, p11 := PeelBlock(s, p, w);
    BlockFromFields(s, p, w, |w.servers|, MapAll(w.servers, Nothing), p1, p2, p3, p4, p5, p6, p7, p8, p9, p10, p11);
  }

  lemma BlockInverts(w: WireBlock)
    requires BlockOk(w)
    ensures Inverts(BlockAt, PutBlock, w, BlockOf(w))
  {
    forall s: seq<Byte>, p: nat | At(s, p, PutBlock(w)) ensures BlockAt(s, p) == Ok(w.block, p + |PutBlock(w)|) {
      BlockReadBack(s, p, w);
    }
  }

  lemma PeelBlocks(s: seq<Byte>, p: nat, blocks: seq<WireBlock>, rest: seq<Byte>) returns (q: nat)
    requires (forall i | 0 <= i < |blocks| :: BlockOk(blocks[i])) && At(s, p, Records.Encode(blocks, PutBlock) + rest)
    ensures RepeatAt(s, p, |blocks|, BlockAt, []) == Ok(MapAll(blocks, BlockOf), q)
    ensures At(s, q, rest) && q + |rest| == p + |Records.Encode(blocks, PutBlock) + rest|
  {
    forall i | 0 <= i < |blocks| ensures Inverts(BlockAt, PutBlock, blocks[i], BlockOf(blocks[i])) {
      BlockInverts(blocks[i]);
    }
    q := PeelAll(s, p, blocks, BlockAt, PutBlock, BlockOf, rest);
  }

  // ---- round trips: partitions ----

  function PartitionOf(w: WirePartition): (I32, seq<Block>) { (w.id, MapAll(w.blocks, BlockOf)) }

  lemma {:induction false} PartitionFromFields(s: seq<Byte>, p: nat, id: I32, count: I32, blocks: seq<Block>, p1: nat, p2: nat, p3: nat)
    requires count >= 0 && GetI32At(s, p) == Ok(id, p1) && GetI32At(s, p1) == Ok(count, p2)
    requires RepeatAt(s, p2, count, BlockAt, []) == Ok(blocks, p3)
    ensures PartitionAt(s, p) == Ok((id, blocks), p3)
  {
  }

  lemma PartitionReadBack(s: seq<Byte>, p: nat, w: WirePartition)
    requires PartitionOk(w) && At(s, p, PutPartition(w))
    ensures PartitionAt(s, p) == Ok(PartitionOf(w), p + |PutPartition(w)|)
  {
    var x := Records.Encode(w.blocks, PutBlock);
    var p1 := PeelI32(s, p, w.id, PutI32(WrapI32(|w.blocks|)) + x);
    var p2 := PeelI32(s, p1, |w.blocks|, x);
    AtWhole(s, p2, x);
    var p3 := PeelBlocks(s, p2, w.blocks, []);
    PartitionFromFields(s, p, w.id, |w.blocks|, MapAll(w.blocks, BlockOf), p1, p2, p3);
  }

  lemma PartitionInverts(w: WirePartition)
    requires PartitionOk(w)
    ensures Inverts(PartitionAt, PutPartition, w, PartitionOf(w))
  {
    forall s: seq<Byte>, p: nat | At(s, p, PutPartition(w)) ensures PartitionAt(s, p) == Ok(PartitionOf(w), p + |PutPartition(w)|) {
      PartitionReadBack(s, p, w);
    }
  }

  lemma PeelPartitions(s: seq<Byte>, p: nat, parts: seq<WirePartition>, rest: seq<Byte>) returns (q: nat)
    requires (forall i | 0 <= i < |parts| :: PartitionOk(parts[i])) && At(s, p, Records.Encode(parts, PutPartition) + rest)
    ensures RepeatAt(s, p, |parts|, PartitionAt, []) == Ok(MapAll(parts, PartitionOf), q)
    ensures At(s, q, rest) && q + |rest| == p + |Records.Encode(parts, PutPartition) + rest|
  {
    forall i | 0 <= i < |parts| ensures Inverts(PartitionAt, PutPartition, parts[i], PartitionOf(parts[i])) {
      PartitionInverts(parts[i]);
    }
    q := PeelAll(s, p, parts, PartitionAt, PutPartition, PartitionOf, rest);
  }

  // ---- round trips: commands ----

  /** The command a send request stands for: later partitions replace earlier ones with the same id. */
  function CommandOf(w: WireSend): Frame {
    SendShuffleData(
      w.requestId, w.appId, w.shuffleId, w.ticketId, InsertAll(MapAll(w.partitions, PartitionOf)), w.timestamp)
  }

  /** All requests begin with these three fields. */
  lemma PeelHead(s: seq<Byte>, p: nat, requestId: I64, appId: seq<Byte>, shuffleId: I32, rest: seq<Byte>)
    returns (p1: nat, p2: nat, p3: nat)
    requires IsText(appId) && At(s, p, PutI64(requestId) + (PutBytes(appId) + (PutI32(shuffleId) + rest)))
    ensures GetI64At(s, p) == Ok(requestId, p1) && GetStringAt(s, p1) == Ok(appId, p2) && GetI32At(s, p2) == Ok(shuffleId, p3)
    ensures At(s, p3, rest) && p3 == p + 16 + |appId|
  {
    p1 := PeelI64(s, p, requestId, PutBytes(appId) + (PutI32(shuffleId) + rest));
    p2 := PeelString(s, p1, appId, PutI32(shuffleId) + rest);
    p3 := PeelI32(s, p2, shuffleId, rest);
  }

  lemma PeelSendTail(s: seq<Byte>, p: nat, w: WireSend) returns (p1: nat, p2: nat, p3: nat, p4: nat)
    requires SendOk(w) && At(s, p, PutSendTail(w))
    ensures GetI64At(s, p) == Ok(w.ticketId, p1) && GetI32At(s, p1) == Ok(|w.partitions|, p2)
    ensures RepeatAt(s, p2, |w.partitions|, PartitionAt, []) == Ok(MapAll(w.partitions, PartitionOf), p3)
    ensures GetI64At(s, p3) == Ok(w.timestamp, p4) && p4 == p + |PutSendTail(w)|
  {
    var parts := Records.Encode(w.partitions, PutPartition);
    p1 := PeelI64(s, p, w.ticketId, PutI32(WrapI32(|w.partitions|)) + (parts + PutI64(w.timestamp)));
    p2 := PeelI32(s, p1, |w.partitions|, parts + PutI64(w.timestamp));
    p3 := PeelPartitions(s, p2, w.partitions, PutI64(w.timestamp));
    p4 := LastI64(s, p3, w.timestamp);
  }

  lemma {:induction false} SendFromFields(
    s: seq<Byte>, p: nat, w: WireSend, count: I32, parts: seq<(I32, seq<Block>)>,
    p1: nat, p2: nat, p3: nat, p4: nat, p5: nat, p6: nat, p7: nat)
    requires GetI64At(s, p) == Ok(w.requestId, p1) && GetStringAt(s, p1) == Ok(w.appId, p2)
    requires GetI32At(s, p2) == Ok(w.shuffleId, p3) && GetI64At(s, p3) == Ok(w.ticketId, p4)
    requires GetI32At(s, p4) == Ok(count, p5) && RepeatAt(s, p5, count, PartitionAt, []) == Ok(parts, p6)
    requires GetI64At(s, p6) == Ok(w.timestamp, p7)
    ensures SendAt(s, p) == Ok(SendShuffleData(w.requestId, w.appId, w.shuffleId, w.ticketId, InsertAll(parts), w.timestamp), p7)
  {
  }

  lemma SendInverts(s: seq<Byte>, p: nat, w: WireSend)
    requires SendOk(w) && At(s, p, PutSend(w))
    ensures SendAt(s, p) == Ok(CommandOf(w), p + |PutSend(w)|)
  {
    var p1, p2, p3 := PeelHead(s, p, w.requestId, w.appId, w.shuffleId, PutSendTail(w));
    var p4, p5, p6, p7 := PeelSendTail(s, p3, w);
    SendFromFields(s, p, w, |w.partitions|, MapAll(w.partitions, PartitionOf), p1, p2, p3, p4, p5, p6, p7);
  }

  lemma PeelThree(s: seq<Byte>, p: nat, a: I32, b: I32, c: I32, rest: seq<Byte>) returns (p1: nat, p2: nat, p3: nat)
    requires At(s, p, PutI32(a) + (PutI32(b) + (PutI32(c) + rest)))
    ensures GetI32At(s, p) == Ok(a, p1) && GetI32At(s, p1) == Ok(b, p2) && GetI32At(s, p2) == Ok(c, p3)
    ensures At(s, p3, rest) && p3 == p + 12
  {
    p1 := PeelI32(s, p, a, PutI32(b) + (PutI32(c) + rest));
    p2 := PeelI32(s, p1, b, PutI32(c) + rest);
    p3 := PeelI32(s, p2, c, rest);
  }

  lemma PeelRange(s: seq<Byte>, p: nat, offset: I64, length: I32, timestamp: I64) returns (p1: nat, p2: nat, p3: nat)
    requires At(s, p, PutRange(offset, length, timestamp))
    ensures GetI64At(s, p) == Ok(offset, p1) && GetI32At(s, p1) == Ok(length, p2) && GetI64At(s, p2) == Ok(timestamp, p3)
    ensures p3 == p + 20
  {
    p1 := PeelI64(s, p, offset, PutI32(length) + PutI64(timestamp));
    p2 := PeelI32(s, p1, length, PutI64(timestamp));
    p3 := LastI64(s, p2, timestamp);
  }

  lemma LocalDataFromFields(
    s: seq<Byte>, p: nat, f: Frame, p1: nat, p2: nat, p3: nat, p4: nat, p5: nat, p6: nat, p7: nat, p8: nat, p9: nat)
    requires f.GetLocalData? && GetI64At(s, p) == Ok(f.requestId, p1) && GetStringAt(s, p1) == Ok(f.appId, p2)
    requires GetI32At(s, p2) == Ok(f.shuffleId, p3) && GetI32At(s, p3) == Ok(f.partitionId, p4)
    requires GetI32At(s, p4) == Ok(f.numPerRange, p5) && GetI32At(s, p5) == Ok(f.partitionNum, p6)
    requires GetI64At(s, p6) == Ok(f.offset, p7) && GetI32At(s, p7) == Ok(f.length, p8) && GetI64At(s, p8) == Ok(f.timestamp, p9)
    ensures LocalDataAt(s, p) == Ok(f, p9)
  {
  }

  lemma LocalDataInverts(s: seq<Byte>, p: nat, f: Frame)
    requires f.GetLocalData? && IsText(f.appId) && At(s, p, PutLocalData(f))
    ensures LocalDataAt(s, p) == Ok(f, p + |PutLocalData(f)|)
  {
    var tail := PutRange(f.offset, f.length, f.timestamp);
    var ids := PutI32(f.partitionId) + (PutI32(f.numPerRange) + (PutI32(f.partitionNum) + tail));
    var p1, p2, p3 := PeelHead(s, p, f.requestId, f.appId, f.shuffleId, ids);
    var p4, p5, p6 := PeelThree(s, p3, f.partitionId, f.numPerRange, f.partitionNum, tail);
    var p7, p8, p9 := PeelRange(s, p6, f.offset, f.length, f.timestamp);
    LocalDataFromFields(s, p, f, p1, p2, p3, p4, p5, p6, p7, p8, p9);
  }

  lemma LocalIndexFromFields(s: seq<Byte>, p: nat, f: Frame, p1: nat, p2: nat, p3: nat, p4: nat, p5: nat, p6: nat)
    requires f.GetLocalDataIndex? && GetI64At(s, p) == Ok(f.requestId, p1) && GetStringAt(s, p1) == Ok(f.appId, p2)
    requires GetI32At(s, p2) == Ok(f.shuffleId, p3) && GetI32At(s, p3) == Ok(f.partitionId, p4)
    requires GetI32At(s, p4) == Ok(f.numPerRange, p5) && GetI32At(s, p5) == Ok(f.partitionNum, p6)
    ensures LocalIndexAt(s, p) == Ok(f, p6)
  {
  }

  lemma LocalIndexInverts(s: seq<Byte>, p: nat, f: Frame)
    requires f.GetLocalDataIndex? && IsText(f.appId) && At(s, p, PutLocalIndex(f))
    ensures LocalIndexAt(s, p) == Ok(f, p + |PutLocalIndex(f)|)
  {
    var ids := PutI32(f.partitionId) + (PutI32(f.numPerRange) + (PutI32(f.partitionNum) + []));
    var p1, p2, p3 := PeelHead(s, p, f.requestId, f.appId, f.shuffleId, ids);
    var p4, p5, p6 := PeelThree(s, p3, f.partitionId, f.numPerRange, f.partitionNum, []);
    LocalIndexFromFields(s, p, f, p1, p2, p3, p4, p5, p6);
  }

  /** An empty bitmap is written like an absent one and comes back as absent. */
  predicate BitmapOk(b: Option<seq<Byte>>) { b.Some? ==> 0 < |b.value| < 0x8000_0000 }

  lemma PeelMemoryTail(s: seq<Byte>, p: nat, f: Frame) returns (p1: nat, p2: nat, p3: nat, p4: nat, p5: nat)
    requires f.GetMemoryData? && BitmapOk(f.bitmap) && At(s, p, PutMemoryTail(f))
    ensures GetI32At(s, p) == Ok(f.partitionId, p1) && GetI64At(s, p1) == Ok(f.lastBlockId, p2)
    ensures GetI32At(s, p2) == Ok(f.readBufferSize, p3) && GetI64At(s, p3) == Ok(f.timestamp, p4)
    ensures GetBytesAt(s, p4) == Ok(f.bitmap, p5) && p5 == p + |PutMemoryTail(f)|
  {
    var bits := PutBytes(DataOf(f.bitmap));
    var e3 := PutI64(f.timestamp) + bits;
    var e2 := PutI32(f.readBufferSize) + e3;
    p1 := PeelI32(s, p, f.partitionId, PutI64(f.lastBlockId) + e2);
    p2 := PeelI64(s, p1, f.lastBlockId, e2);
    p3 := PeelI32(s, p2, f.readBufferSize, e3);
    p4 := PeelI64(s, p3, f.timestamp, bits);
    AtWhole(s, p4, bits);
    p5 := PeelBytes(s, p4, DataOf(f.bitmap), []);
  }

  lemma MemoryDataFromFields(
    s: seq<Byte>, p: nat, f: Frame, p1: nat, p2: nat, p3: nat, p4: nat, p5: nat, p6: nat, p7: nat, p8: nat)
    requires f.GetMemoryData? && GetI64At(s, p) == Ok(f.requestId, p1) && GetStringAt(s, p1) == Ok(f.appId, p2)
    requires GetI32At(s, p2) == Ok(f.shuffleId, p3) && GetI32At(s, p3) == Ok(f.partitionId, p4)
    requires GetI64At(s, p4) == Ok(f.lastBlockId, p5) && GetI32At(s, p5) == Ok(f.readBufferSize, p6)
    requires GetI64At(s, p6) == Ok(f.timestamp, p7) && GetBytesAt(s, p7) == Ok(f.bitmap, p8)
    ensures MemoryDataAt(s, p) == Ok(f, p8)
  {
  }

  lemma MemoryDataInverts(s: seq<Byte>, p: nat, f: Frame)
    requires f.GetMemoryData? && IsText(f.appId) && BitmapOk(f.bitmap) && At(s, p, PutMemoryData(f))
    ensures MemoryDataAt(s, p) == Ok(f, p + |PutMemoryData(f)|)
  {
    var p1, p2, p3 := PeelHead(s, p, f.requestId, f.appId, f.shuffleId, PutMemoryTail(f));
    var p4, p5, p6, p7, p8 := PeelMemoryTail(s, p3, f);
    MemoryDataFromFields(s, p, f, p1, p2, p3, p4, p5, p6, p7, p8);
  }

  lemma RpcResponseInverts(s: seq<Byte>, p: nat, f: Frame)
    requires f.RpcResponse? && IsText(f.message) && At(s, p, PutRpcResponse(f))
    ensures RpcResponseAt(s, p) == Ok(f, p + |PutRpcResponse(f)|)
  {
    var p1 := PeelI64(s, p, f.requestId, PutI32(f.statusCode) + PutBytes(f.message));
    var p2 := PeelI32(s, p1, f.statusCode, PutBytes(f.message));
    AtWhole(s, p2, PutBytes(f.message));
    var p3 := PeelString(s, p2, f.message, []);
  }

  // ---- whole frames ----

  /** Reading a header back. */
  lemma HeaderInverts(msgLen: I32, ty: Byte, bodyLen: I32, content: seq<Byte>, t: seq<Byte>)
    requires msgLen + bodyLen == |content| < 0x8000_0000
    ensures var s := PutFrame(msgLen, ty, bodyLen, content) + t;
      && HeaderAt(s, 0) == Ok(Header(msgLen, ty, bodyLen), 9)
      && At(s, 9, content) && Check(s) == Ok((), HEADER_LEN + |content|) && Parse(s) == CommandAt(s, 9, ty)
  {
    var f := PutFrame(msgLen, ty, bodyLen, content);
    var s := f + t;
    AtSlice(s, 0, f);
    var p1 := PeelI32(s, 0, msgLen, [ty] + (PutI32(bodyLen) + content));
    AtSplit(s, p1, [ty], PutI32(bodyLen) + content);
    assert [ty][0] == s[4];
    var p2 := PeelI32(s, 5, bodyLen, content);
  }

  /** Parsing a send request, with anything behind it, returns the command and consumes exactly the request. */
  lemma SendRoundTrip(w: WireSend, msgLen: I32, bodyLen: I32, t: seq<Byte>)
    requires SendOk(w) && msgLen + bodyLen == |PutSend(w)| < 0x8000_0000
    ensures var f := PutFrame(msgLen, SEND_SHUFFLE_DATA, bodyLen, PutSend(w));
      Parse(f + t) == Ok(CommandOf(w), |f|) && Check(f + t) == Ok((), |f|)
  {
    HeaderInverts(msgLen, SEND_SHUFFLE_DATA, bodyLen, PutSend(w), t);
    SendInverts(PutFrame(msgLen, SEND_SHUFFLE_DATA, bodyLen, PutSend(w)) + t, 9, w);
  }

  /** The frame and the fields that fit it. */
  predicate RequestOk(f: Frame) {
    match f
    case GetMemoryData(_, app, _, _, _, _, _, bitmap) => IsText(app) && BitmapOk(bitmap)
    case GetLocalDataIndex(_, app, _, _, _, _) => IsText(app)
    case GetLocalData(_, app, _, _, _, _, _, _, _) => IsText(app)
    case RpcResponse(_, _, message) => IsText(message)
    case SendShuffleData(_, _, _, _, _, _) => false
  }

  function TypeOf(f: Frame): Byte {
    match f
    case SendShuffleData(_, _, _, _, _, _) => SEND_SHUFFLE_DATA
    case GetMemoryData(_, _, _, _, _, _, _, _) => GET_MEMORY_DATA
    case GetLocalDataIndex(_, _, _, _, _, _) => GET_LOCAL_DATA_INDEX
    case GetLocalData(_, _, _, _, _, _, _, _, _) => GET_LOCAL_DATA
    case RpcResponse(_, _, _) => RPC_RESPONSE
  }

  function PutRequest(f: Frame): seq<Byte>
    requires !f.SendShuffleData?
  {
    match f
    case GetMemoryData(_, _, _, _, _, _, _, _) => PutMemoryData(f)
    case GetLocalDataIndex(_, _, _, _, _, _) => PutLocalIndex(f)
    case GetLocalData(_, _, _, _, _, _, _, _, _) => PutLocalData(f)
    case RpcResponse(_, _, _) => PutRpcResponse(f)
  }

  /** The same for the three other requests and for the plain response. */
  lemma RequestRoundTrip(f: Frame, msgLen: I32, bodyLen: I32, t: seq<Byte>)
    requires RequestOk(f) && msgLen + bodyLen == |PutRequest(f)| < 0x8000_0000
    ensures var bytes := PutFrame(msgLen, TypeOf(f), bodyLen, PutRequest(f));
      Parse(bytes + t) == Ok(f, |bytes|) && Check(bytes + t) == Ok((), |bytes|)
  {
    HeaderInverts(msgLen, TypeOf(f), bodyLen, PutRequest(f), t);
    RequestReadBack(PutFrame(msgLen, TypeOf(f), bodyLen, PutRequest(f)) + t, 9, f);
  }

  lemma RequestReadBack(s: seq<Byte>, p: nat, f: Frame)
    requires RequestOk(f) && At(s, p, PutRequest(f))
    ensures CommandAt(s, p, TypeOf(f)) == Ok(f, p + |PutRequest(f)|)
  {
    match f
    case GetMemoryData(_, _, _, _, _, _, _, _) => MemoryDataInverts(s, p, f);
    case GetLocalDataIndex(_, _, _, _, _, _) => LocalIndexInverts(s, p, f);
    case GetLocalData(_, _, _, _, _, _, _, _, _) => LocalDataInverts(s, p, f);
    case RpcResponse(_, _, _) => RpcResponseInverts(s, p, f);
  }

  // ---- partitions with the same id ----

  /** The map holds the ids that were sent, each with its last blocks. */
  lemma {:induction false} InsertAllKeepsLast(parts: seq<(I32, seq<Block>)>, k: I32)
    ensures k in InsertAll(parts) <==> exists i :: 0 <= i < |parts| && parts[i].0 == k
    ensures forall i | 0 <= i < |parts| && parts[i].0 == k && (forall j | i < j < |parts| :: parts[j].0 != k) ::
      k in InsertAll(parts) && InsertAll(parts)[k] == parts[i].1
    decreases |parts|
  {
    if parts != [] {
      var n := |parts| - 1;
      var before := parts[..n];
      InsertAllKeepsLast(before, k);
      assert forall i | 0 <= i < n :: before[i] == parts[i];
      if parts[n].0 != k {
        forall i | 0 <= i < |parts| && parts[i].0 == k && (forall j | i < j < |parts| :: parts[j].0 != k)
          ensures k in InsertAll(parts) && InsertAll(parts)[k] == parts[i].1
        {
          assert before[i].0 == k;
        }
      }
    }
  }

  /** With distinct partition ids every partition arrives with exactly its blocks. */
  lemma DistinctPartitionsArrive(w: WireSend, i: nat)
    requires i < |w.partitions|
    requires forall a, b | 0 <= a < b < |w.partitions| :: w.partitions[a].id != w.partitions[b].id
    ensures var m := CommandOf(w).blocks;
      w.partitions[i].id in m && m[w.partitions[i].id] == MapAll(w.partitions[i].blocks, BlockOf)
    ensures forall k | k in CommandOf(w).blocks :: exists j :: 0 <= j < |w.partitions| && w.partitions[j].id == k
  {
    var parts := MapAll(w.partitions, PartitionOf);
    InsertAllKeepsLast(parts, parts[i].0);
    forall k | k in CommandOf(w).blocks ensures exists j :: 0 <= j < |w.partitions| && w.partitions[j].id == k {
      InsertAllKeepsLast(parts, k);
      var j :| 0 <= j < |parts| && parts[j].0 == k;
      assert w.partitions[j].id == k;
    }
  }
}
