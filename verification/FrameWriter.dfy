/** Writing urpc responses: the stream calls in order, the two header lengths, and what a client reads
    back. */
module FrameWriter {
  import opened Bytes
  import opened Blocks
  import opened Wire
  import Records
  import opened Commands
  import opened Encoding
  import opened MemoryBuffers

  datatype Response =
    | LocalDataResponse(requestId: I64, statusCode: I32, message: seq<Byte>, data: seq<Byte>)
    | LocalIndexResponse(requestId: I64, statusCode: I32, message: seq<Byte>, index: seq<Byte>, dataFileLen: I64)
    | MemoryResponse(requestId: I64, statusCode: I32, message: seq<Byte>, mem: MemoryData)
    | PlainResponse(requestId: I64, statusCode: I32, message: seq<Byte>)

  // ---- layout ----

  /** Request id, status and message open every response. */
  function PutStatus(r: Response): seq<Byte> { PutI64(r.requestId) + (PutI32(r.statusCode) + PutBytes(r.message)) }

  function PutSegment(g: DataSegment): seq<Byte> {
    PutI64(g.blockId) + (PutI32(WrapI32(g.offset)) + (PutI32(g.length) + (PutI32(g.uncompressLength)
      + (PutI64(g.crc) + PutI64(g.taskAttemptId)))))
  }

  function PutSegments(segments: seq<DataSegment>): seq<Byte> {
    PutI32(WrapI32(|segments|)) + Records.Encode(segments, PutSegment)
  }

  /** What stands between the status and the body. */
  function Details(r: Response): seq<Byte> {
    match r
    case LocalIndexResponse(_, _, _, _, len) => PutI64(len)
    case MemoryResponse(_, _, _, mem) => PutSegments(mem.segments)
    case LocalDataResponse(_, _, _, _) => []
    case PlainResponse(_, _, _) => []
  }

  /** What is written after the header, up to the body. */
  function Encoded(r: Response): seq<Byte> { PutStatus(r) + Details(r) }

  function Body(r: Response): seq<Byte> {
    match r
    case LocalDataResponse(_, _, _, data) => data
    case LocalIndexResponse(_, _, _, index, _) => index
    case MemoryResponse(_, _, _, mem) => Flatten(mem.data.chunks)
    case PlainResponse(_, _, _) => []
  }

  /** The header lengths as the code computes them, in `i32` arithmetic; for memory data it trusts the
      recorded total. */
  function MsgLen(r: Response): I32 {
    var status := WrapI32(WrapI32(|r.message|) + 16);
    match r
    case LocalIndexResponse(_, _, _, _, _) => WrapI32(status + 8)
    case MemoryResponse(_, _, _, mem) => WrapI32(status + WrapI32(4 + 36 * |mem.segments|))
    case _ => status
  }

  function BodyLen(r: Response): I32 {
    match r
    case LocalDataResponse(_, _, _, data) => WrapI32(|data|)
    case LocalIndexResponse(_, _, _, index, _) => WrapI32(|index|)
    case MemoryResponse(_, _, _, mem) => WrapI32(mem.data.totalLen)
    case PlainResponse(_, _, _) => 0
  }

  function ResponseType(r: Response): Byte {
    match r
    case LocalDataResponse(_, _, _, _) => GET_LOCAL_DATA_RESPONSE
    case LocalIndexResponse(_, _, _, _, _) => GET_LOCAL_DATA_INDEX_RESPONSE
    case MemoryResponse(_, _, _, _) => GET_MEMORY_DATA_RESPONSE
    case PlainResponse(_, _, _) => RPC_RESPONSE
  }

  function PutResponse(r: Response): seq<Byte> {
    PutFrame(MsgLen(r), ResponseType(r), BodyLen(r), Encoded(r) + Body(r))
  }

  // ---- the header lengths ----

  lemma {:induction false} SegmentsLength(segments: seq<DataSegment>)
    ensures |Records.Encode(segments, PutSegment)| == 36 * |segments|
  {
    if segments != [] {
      assert |PutSegment(segments[0])| == 36;
      SegmentsLength(segments[1..]);
    }
  }

  lemma WrapBoth(x: int, y: int)
    ensures WrapI32(WrapI32(x) + WrapI32(y)) == WrapI32(x + y)
  {
    WrapI32Add(x, WrapI32(y));
    WrapI32Add(y, x);
  }

  lemma EncodedLength(r: Response)
    ensures MsgLen(r) == WrapI32(|Encoded(r)|)
  {
    assert |PutStatus(r)| == 16 + |r.message|;
    WrapI32Add(|r.message|, 16);
    match r
    case LocalIndexResponse(_, _, _, _, _) => WrapI32Add(|r.message| + 16, 8);
    case MemoryResponse(_, _, _, mem) =>
      SegmentsLength(mem.segments);
      WrapBoth(|r.message| + 16, 4 + 36 * |mem.segments|);
    case LocalDataResponse(_, _, _, _) =>
    case PlainResponse(_, _, _) =>
  }

  /** The recorded total of memory data is its real size. */
  ghost predicate TrueTotal(r: Response) { r.MemoryResponse? ==> r.mem.data.totalLen == |Flatten(r.mem.data.chunks)| }

  lemma CastsBack(x: nat)
    requires x < 0x8000_0000_0000_0000
    ensures AsU64(WrapI32(x)) == x <==> x < 0x8000_0000
  {
  }

  /** The two header lengths add up to exactly the bytes written after the header, if and only if these
      fit a signed 32-bit length. No byte string in memory reaches 2^63. */
  lemma HeaderCoversContent(r: Response)
    requires TrueTotal(r) && |Encoded(r) + Body(r)| < 0x8000_0000_0000_0000
    ensures ContentLength(MsgLen(r), BodyLen(r)) == |Encoded(r) + Body(r)| <==> |Encoded(r) + Body(r)| < 0x8000_0000
  {
    var n, m := |Encoded(r)|, |Body(r)|;
    EncodedLength(r);
    assert BodyLen(r) == WrapI32(m);
    WrapBoth(n, m);
    CastsBack(n + m);
  }

  /** So a client's `check` takes exactly the response from whatever follows it. */
  lemma ResponseIsOneFrame(r: Response, t: seq<Byte>)
    requires TrueTotal(r) && |Encoded(r) + Body(r)| < 0x8000_0000
    ensures Check(PutResponse(r) + t) == Ok((), |PutResponse(r)|)
    ensures MsgLen(r) == |Encoded(r)| && BodyLen(r) == |Body(r)|
  {
    EncodedLength(r);
    HeaderInverts(MsgLen(r), ResponseType(r), BodyLen(r), Encoded(r) + Body(r), t);
  }

  /** The plain response as written here is parsed back. */
  lemma PlainResponseRoundTrip(r: Response, t: seq<Byte>)
    requires r.PlainResponse? && IsText(r.message) && |r.message| + 16 < 0x8000_0000
    ensures Parse(PutResponse(r) + t) == Ok(RpcResponse(r.requestId, r.statusCode, r.message), |PutResponse(r)|)
  {
    var f := RpcResponse(r.requestId, r.statusCode, r.message);
    EncodedLength(r);
    assert Encoded(r) + Body(r) == PutRequest(f);
    RequestRoundTrip(f, MsgLen(r), 0, t);
  }

  /** The fifth byte tells a client which response it is. */
  lemma ResponseTypeByte(r: Response)
    ensures |PutResponse(r)| == 9 + |Encoded(r) + Body(r)|
    ensures PutResponse(r)[4] == match r
      case PlainResponse(_, _, _) => 0
      case LocalIndexResponse(_, _, _, _, _) => 14
      case LocalDataResponse(_, _, _, _) => 15
      case MemoryResponse(_, _, _, _) => 16
  {
  }

  // ---- memory data ----

  /** How a client reads one segment. */
  function SegmentAt(s: seq<Byte>, p: nat): Parsed<DataSegment> {
    var (blockId, p1) :- GetI64At(s, p);
    var (offset, p2) :- GetI32At(s, p1);
    var (length, p3) :- GetI32At(s, p2);
    var (uncompressLength, p4) :- GetI32At(s, p3);
    var (crc, p5) :- GetI64At(s, p4);
    var (taskAttemptId, p6) :- GetI64At(s, p5);
    Ok(DataSegment(blockId, offset, length, uncompressLength, crc, taskAttemptId), p6)
  }

  /** A segment is 36 bytes, with its fields at these places. */
  lemma SegmentPlaces(g: DataSegment)
    ensures var s := PutSegment(g);
      && |s| == 36 && GetI64(s[0..8]) == g.blockId && GetI32(s[8..12]) == WrapI32(g.offset) && GetI32(s[12..16]) == g.length
      && GetI32(s[16..20]) == g.uncompressLength && GetI64(s[20..28]) == g.crc && GetI64(s[28..36]) == g.taskAttemptId
  {
    var s := PutSegment(g);
    assert GetI64(s[0..8]) == g.blockId by { assert s[0..8] == PutI64(g.blockId); I64RoundTrip(g.blockId); }
    assert GetI32(s[8..12]) == WrapI32(g.offset) by { assert s[8..12] == PutI32(WrapI32(g.offset)); I32RoundTrip(WrapI32(g.offset)); }
    assert GetI32(s[12..16]) == g.length by { assert s[12..16] == PutI32(g.length); I32RoundTrip(g.length); }
    assert GetI32(s[16..20]) == g.uncompressLength by {
      assert s[16..20] == PutI32(g.uncompressLength);
      I32RoundTrip(g.uncompressLength);
    }
    assert GetI64(s[20..28]) == g.crc by { assert s[20..28] == PutI64(g.crc); I64RoundTrip(g.crc); }
    assert GetI64(s[28..36]) == g.taskAttemptId by { assert s[28..36] == PutI64(g.taskAttemptId); I64RoundTrip(g.taskAttemptId); }
  }

  /** The segment as it travels: the offset is cut to 32 bits. */
  function Sent(g: DataSegment): DataSegment { g.(offset := WrapI32(g.offset)) }

  lemma SegmentFromFields(s: seq<Byte>, p: nat, g: DataSegment, p1: nat, p2: nat, p3: nat, p4: nat, p5: nat, p6: nat)
    requires GetI64At(s, p) == Ok(g.blockId, p1) && GetI32At(s, p1) == Ok(WrapI32(g.offset), p2)
    requires GetI32At(s, p2) == Ok(g.length, p3) && GetI32At(s, p3) == Ok(g.uncompressLength, p4)
    requires GetI64At(s, p4) == Ok(g.crc, p5) && GetI64At(s, p5) == Ok(g.taskAttemptId, p6)
    ensures SegmentAt(s, p) == Ok(Sent(g), p6)
  {
  }

  lemma SegmentReadBack(s: seq<Byte>, p: nat, g: DataSegment)
    requires At(s, p, PutSegment(g))
    ensures SegmentAt(s, p) == Ok(Sent(g), p + |PutSegment(g)|)
  {
    var tail := PutI64(g.crc) + PutI64(g.taskAttemptId);
    var p1 := PeelI64(s, p, g.blockId, PutI32(WrapI32(g.offset)) + (PutI32(g.length) + (PutI32(g.uncompressLength) + tail)));
    var p2, p3, p4 := PeelThree(s, p1, WrapI32(g.offset), g.length, g.uncompressLength, tail);
    var p5 := PeelI64(s, p4, g.crc, PutI64(g.taskAttemptId));
    var p6 := LastI64(s, p5, g.taskAttemptId);
    SegmentFromFields(s, p, g, p1, p2, p3, p4, p5, p6);
  }

  lemma SegmentInverts(g: DataSegment)
    ensures Inverts(SegmentAt, PutSegment, g, Sent(g))
  {
    forall s: seq<Byte>, p: nat | At(s, p, PutSegment(g)) ensures SegmentAt(s, p) == Ok(Sent(g), p + |PutSegment(g)|) {
      SegmentReadBack(s, p, g);
    }
  }

  /** Where the segments stand in the content: after the status, the message and their count. */
  function SegmentsStart(r: Response): nat { 20 + |r.message| }

  /** A client reads the count and the segments back, and what follows them is the body. */
  lemma SegmentsReadBack(r: Response)
    requires r.MemoryResponse? && |r.mem.segments| < 0x8000_0000
    ensures var content, n := Encoded(r) + Body(r), |r.mem.segments|;
      && GetI32At(content, SegmentsStart(r) - 4) == Ok(n, SegmentsStart(r))
      && RepeatAt(content, SegmentsStart(r), n, SegmentAt, []) == Ok(MapAll(r.mem.segments, Sent), |Encoded(r)|)
      && content[|Encoded(r)|..] == Body(r)
  {
    var content := Encoded(r) + Body(r);
    assert content[0..|Encoded(r)|] == Encoded(r);
    AtSlice(content, 0, Encoded(r));
    AtSplit(content, 0, PutStatus(r), PutSegments(r.mem.segments));
    var q := PeelSegments(content, |PutStatus(r)|, r.mem.segments);
  }

  // ---- a whole response ----

  /** What a client makes of a response. */
  datatype Reply = Reply(
    ty: Byte, requestId: I64, statusCode: I32, message: seq<Byte>, dataFileLen: Option<I64>, segments: seq<DataSegment>, body: seq<Byte>)

  /** The part between the status and the body depends on the type in the header: the data file's length
      for an index, counted segments for memory data, otherwise nothing. */
  function DetailsAt(s: seq<Byte>, p: nat, ty: Byte): Parsed<(Option<I64>, seq<DataSegment>)> {
    if ty == 14 then
      var (len, q) :- GetI64At(s, p);
      Ok((Some(len), []), q)
    else if ty == 16 then
      var (n, p1) :- GetI32At(s, p);
      var (segments, q) :- RepeatAt(s, p1, n, SegmentAt, []);
      Ok((None, segments), q)
    else Ok((None, []), p)
  }

  /** How a client reads a response from its first byte on; the body is as long as the header says. */
  function ReplyAt(s: seq<Byte>): Parsed<Reply> {
    var (h, p0) :- HeaderAt(s, 0);
    var (requestId, p1) :- GetI64At(s, p0);
    var (statusCode, p2) :- GetI32At(s, p1);
    var (message, p3) :- GetStringAt(s, p2);
    var (details, p4) :- DetailsAt(s, p3, h.ty);
    if h.bodyLen < 0 || p4 + h.bodyLen > |s| then Fail(Incomplete) else
      Ok(Reply(h.ty, requestId, statusCode, message, details.0, details.1, s[p4..p4 + h.bodyLen]), p4 + h.bodyLen)
  }

  lemma StatusReadBack(s: seq<Byte>, p: nat, r: Response, rest: seq<Byte>) returns (p1: nat, p2: nat, p3: nat)
    requires IsText(r.message) && At(s, p, PutStatus(r) + rest)
    ensures GetI64At(s, p) == Ok(r.requestId, p1) && GetI32At(s, p1) == Ok(r.statusCode, p2)
    ensures GetStringAt(s, p2) == Ok(r.message, p3)
    ensures p3 == p + |PutStatus(r)| && At(s, p3, rest)
  {
    assert PutStatus(r) + rest == PutI64(r.requestId) + (PutI32(r.statusCode) + (PutBytes(r.message) + rest));
    p1 := PeelI64(s, p, r.requestId, PutI32(r.statusCode) + (PutBytes(r.message) + rest));
    p2 := PeelI32(s, p1, r.statusCode, PutBytes(r.message) + rest);
    p3 := PeelString(s, p2, r.message, rest);
  }

  lemma DetailsReadBack(s: seq<Byte>, p: nat, r: Response)
    requires At(s, p, Details(r)) && (r.MemoryResponse? ==> |r.mem.segments| < 0x8000_0000)
    ensures DetailsAt(s, p, ResponseType(r)) == Ok(DetailsOf(r), p + |Details(r)|)
  {
    if r.LocalIndexResponse? {
      var q := LastI64(s, p, r.dataFileLen);
    } else if r.MemoryResponse? {
      var q := PeelSegments(s, p, r.mem.segments);
    }
  }

  lemma PeelSegments(s: seq<Byte>, p: nat, segments: seq<DataSegment>) returns (q: nat)
    requires |segments| < 0x8000_0000 && At(s, p, PutSegments(segments))
    ensures GetI32At(s, p) == Ok(|segments|, p + 4)
    ensures RepeatAt(s, p + 4, |segments|, SegmentAt, []) == Ok(MapAll(segments, Sent), q)
    ensures q == p + |PutSegments(segments)|
  {
    var p1 := PeelI32(s, p, |segments|, Records.Encode(segments, PutSegment));
    AtWhole(s, p1, Records.Encode(segments, PutSegment));
    forall i | 0 <= i < |segments| ensures Inverts(SegmentAt, PutSegment, segments[i], Sent(segments[i])) {
      SegmentInverts(segments[i]);
    }
    q := PeelAll(s, p1, segments, SegmentAt, PutSegment, Sent, []);
  }

  lemma ReplyFromParts(
    s: seq<Byte>, h: Header, requestId: I64, statusCode: I32, message: seq<Byte>, len: Option<I64>, segments: seq<DataSegment>,
    body: seq<Byte>, p0: nat, p1: nat, p2: nat, p3: nat, p4: nat)
    requires HeaderAt(s, 0) == Ok(h, p0) && GetI64At(s, p0) == Ok(requestId, p1) && GetI32At(s, p1) == Ok(statusCode, p2)
    requires GetStringAt(s, p2) == Ok(message, p3) && DetailsAt(s, p3, h.ty) == Ok((len, segments), p4)
    requires h.bodyLen == |body| && At(s, p4, body)
    ensures ReplyAt(s) == Ok(Reply(h.ty, requestId, statusCode, message, len, segments, body), p4 + |body|)
  {
    AtSlice(s, p4, body);
  }

  /** A client that reads a response from its header on, with anything behind it, gets the type, the request
      id, the status, the message, the length of the data file, the segments and the body, and stops at
      the first byte after it. */
  lemma ReplyRoundTrip(r: Response, t: seq<Byte>)
    requires IsText(r.message) && TrueTotal(r) && |Encoded(r) + Body(r)| < 0x8000_0000
    ensures var reply := ReplyAt(PutResponse(r) + t);
      && reply.Ok? && reply.pos == |PutResponse(r)|
      && match r
         case PlainResponse(id, status, message) => reply.value == Reply(0, id, status, message, None, [], [])
         case LocalIndexResponse(id, status, message, index, len) =>
           reply.value == Reply(14, id, status, message, Some(len), [], index)
         case LocalDataResponse(id, status, message, data) => reply.value == Reply(15, id, status, message, None, [], data)
         case MemoryResponse(id, status, message, mem) =>
           reply.value == Reply(16, id, status, message, None, MapAll(mem.segments, Sent), Flatten(mem.data.chunks))
  {
    var s, h := PutResponse(r) + t, Header(MsgLen(r), ResponseType(r), BodyLen(r));
    assert h.bodyLen == |Body(r)| by { ResponseIsOneFrame(r, t); }
    HeaderInverts(h.msgLen, h.ty, h.bodyLen, Encoded(r) + Body(r), t) by { ResponseIsOneFrame(r, t); }
    ContentParts(r);
    ReplyReadBack(s, r, h);
    assert |PutResponse(r)| == 9 + |Encoded(r) + Body(r)| by { ResponseTypeByte(r); }
  }

  /** What a client should take from that part. */
  function DetailsOf(r: Response): (Option<I64>, seq<DataSegment>) {
    match r
    case LocalIndexResponse(_, _, _, _, len) => (Some(len), [])
    case MemoryResponse(_, _, _, mem) => (None, MapAll(mem.segments, Sent))
    case LocalDataResponse(_, _, _, _) => (None, [])
    case PlainResponse(_, _, _) => (None, [])
  }

  lemma ReplyReadBack(s: seq<Byte>, r: Response, h: Header)
    requires IsText(r.message) && (r.MemoryResponse? ==> |r.mem.segments| < 0x8000_0000)
    requires HeaderAt(s, 0) == Ok(h, 9) && h.ty == ResponseType(r) && h.bodyLen == |Body(r)|
    requires At(s, 9, PutStatus(r) + (Details(r) + Body(r)))
    ensures ReplyAt(s)
         == Ok(Reply(h.ty, r.requestId, r.statusCode, r.message, DetailsOf(r).0, DetailsOf(r).1, Body(r)),
               9 + |PutStatus(r) + (Details(r) + Body(r))|)
  {
    var p, details, body := 9 + |PutStatus(r)|, Details(r), Body(r);
    DetailsBehind(s, p - |PutStatus(r)|, PutStatus(r), details, body);
    assert DetailsAt(s, p, h.ty) == Ok(DetailsOf(r), p + |details|) by { DetailsReadBack(s, p, r); }
    ReplyWithDetails(s, r, h, details, DetailsOf(r), body);
  }

  lemma DetailsBehind(s: seq<Byte>, p: nat, status: seq<Byte>, details: seq<Byte>, body: seq<Byte>)
    requires At(s, p, status + (details + body))
    ensures At(s, p + |status|, details)
  {
    AtSplit(s, p, status, details + body);
    AtSplit(s, p + |status|, details, body);
  }

  lemma ReplyWithDetails(s: seq<Byte>, r: Response, h: Header, details: seq<Byte>, read: (Option<I64>, seq<DataSegment>), body: seq<Byte>)
    requires IsText(r.message) && HeaderAt(s, 0) == Ok(h, 9) && h.bodyLen == |body|
    requires At(s, 9, PutStatus(r) + (details + body))
    requires DetailsAt(s, 9 + |PutStatus(r)|, h.ty) == Ok(read, 9 + |PutStatus(r)| + |details|)
    ensures ReplyAt(s)
         == Ok(Reply(h.ty, r.requestId, r.statusCode, r.message, read.0, read.1, body), 9 + |PutStatus(r) + (details + body)|)
  {
    var p1, p2, p3 := StatusReadBack(s, 9, r, details + body);
    AtSplit(s, p3, details, body);
    ReplyFromParts(s, h, r.requestId, r.statusCode, r.message, read.0, read.1, body, 9, p1, p2, p3, p3 + |details|);
  }

  lemma ContentParts(r: Response)
    ensures Encoded(r) + Body(r) == PutStatus(r) + (Details(r) + Body(r))
    ensures r.MemoryResponse? ==> |r.mem.segments| <= |Encoded(r)|
  {
    Append2(PutStatus(r), Details(r), Body(r));
    if r.MemoryResponse? {
      SegmentsLength(r.mem.segments);
    }
  }

  lemma SliceBehind(a: seq<Byte>, b: seq<Byte>, i: nat, j: nat)
    requires i <= j <= |b|
    ensures (a + b)[|a| + i..|a| + j] == b[i..j]
  {
  }

  lemma {:induction false} ChunkInBody(chunks: seq<seq<Byte>>, blocks: seq<Block>, i: nat)
    requires |chunks| == |blocks| && i < |blocks|
    requires forall j | 0 <= j < |blocks| :: chunks[j] == blocks[j].data && Honest(blocks[j])
    ensures var at := SumLength(blocks[..i]);
      0 <= at <= at + blocks[i].length <= |Flatten(chunks)| && Flatten(chunks)[at..at + blocks[i].length] == blocks[i].data
  {
    var rest := Flatten(chunks[1..]);
    assert Flatten(chunks) == chunks[0] + rest;
    if i > 0 {
      ChunkInBody(chunks[1..], blocks[1..], i - 1);
      assert blocks[..i][1..] == blocks[1..][..i - 1];
      var at, n := SumLength(blocks[1..][..i - 1]), blocks[0].length;
      assert |chunks[0]| == n && |blocks[i].data| == blocks[i].length;
      SliceBehind(chunks[0], rest, at, at + blocks[i].length);
    }
  }

  lemma {:induction false} TotalOfChunks(chunks: seq<seq<Byte>>, blocks: seq<Block>)
    requires |chunks| == |blocks| && forall j | 0 <= j < |blocks| :: chunks[j] == blocks[j].data && Honest(blocks[j])
    ensures |Flatten(chunks)| == SumLength(blocks)
  {
    if chunks != [] {
      TotalOfChunks(chunks[1..], blocks[1..]);
    }
  }

  /** A segment's offset reaches the client exactly when it fits 32 bits, and then slicing the body at the
      received offset and length yields that block's bytes, whatever the number of segments and the size
      of the body. */
  lemma SegmentsSliceBody(r: Response, blocks: seq<Block>, i: nat)
    requires r.MemoryResponse? && Describes(r.mem, blocks) && i < |blocks|
    requires forall b | b in blocks :: Honest(b)
    ensures |Body(r)| < TWO64 ==> TrueTotal(r)
    ensures var g := Sent(r.mem.segments[i]);
      && DescribesBlock(g, g.offset, blocks[i])
      && (g.offset == SumLength(blocks[..i]) <==> SumLength(blocks[..i]) < 0x8000_0000)
      && (SumLength(blocks[..i]) < 0x8000_0000 ==>
            && 0 <= g.offset <= g.offset + g.length <= |Body(r)|
            && Body(r)[g.offset..g.offset + g.length] == blocks[i].data)
  {
    assert forall j | 0 <= j < |blocks| :: blocks[j] in blocks;
    ChunkInBody(r.mem.data.chunks, blocks, i);
    TotalOfChunks(r.mem.data.chunks, blocks);
  }

  // ---- the stream ----

  class Stream {
    var out: seq<Byte>

    constructor ()
      ensures out == []
    {
      out := [];
    }

    method WriteI32(v: I32)
      modifies this
      ensures out == old(out) + PutI32(v)
    {
      out := out + PutI32(v);
    }

    method WriteI64(v: I64)
      modifies this
      ensures out == old(out) + PutI64(v)
    {
      out := out + PutI64(v);
    }

    method WriteU8(v: Byte)
      modifies this
      ensures out == old(out) + [v]
    {
      out := out + [v];
    }

    method WriteAll(bytes: seq<Byte>)
      modifies this
      ensures out == old(out) + bytes
    {
      out := out + bytes;
    }

    method WriteHeader(msgLen: I32, ty: Byte, bodyLen: I32)
      modifies this
      ensures out == old(out) + (PutI32(msgLen) + ([ty] + PutI32(bodyLen)))
    {
      WriteI32(msgLen);
      WriteU8(ty);
      WriteI32(bodyLen);
      Append3(old(out), PutI32(msgLen), [ty], PutI32(bodyLen));
    }

    method WriteStatus(r: Response)
      modifies this
      ensures out == old(out) + PutStatus(r)
    {
      WriteI64(r.requestId);
      WriteI32(r.statusCode);
      WriteI32(WrapI32(|r.message|));
      WriteAll(r.message);
      Append3(old(out), PutI64(r.requestId), PutI32(r.statusCode), PutI32(WrapI32(|r.message|)));
      StatusShape(r, old(out));
    }

    method WriteSegment(g: DataSegment)
      modifies this
      ensures out == old(out) + PutSegment(g)
    {
      WriteI64(g.blockId);
      WriteI32(WrapI32(g.offset));
      WriteI32(g.length);
      WriteI32(g.uncompressLength);
      WriteI64(g.crc);
      WriteI64(g.taskAttemptId);
      Append6(old(out), PutI64(g.blockId), PutI32(WrapI32(g.offset)), PutI32(g.length), PutI32(g.uncompressLength),
              PutI64(g.crc), PutI64(g.taskAttemptId));
    }

    method WriteSegments(segments: seq<DataSegment>)
      modifies this
      ensures out == old(out) + PutSegments(segments)
    {
      WriteI32(WrapI32(|segments|));
      ghost var start := out;
      for i := 0 to |segments|
        invariant out == start + Records.Encode(segments[..i], PutSegment)
      {
        WriteSegment(segments[i]);
        EncodeNext(segments, i, PutSegment);
        Append2(start, Records.Encode(segments[..i], PutSegment), PutSegment(segments[i]));
      }
      assert segments[..|segments|] == segments;
      Append2(old(out), PutI32(WrapI32(|segments|)), Records.Encode(segments, PutSegment));
    }

    method WriteChunks(chunks: seq<seq<Byte>>)
      modifies this
      ensures out == old(out) + Flatten(chunks)
    {
      for i := 0 to |chunks|
        invariant out == old(out) + Flatten(chunks[..i])
      {
        WriteAll(chunks[i]);
        FlattenTake(chunks, i);
        Append2(old(out), Flatten(chunks[..i]), chunks[i]);
      }
      assert chunks[..|chunks|] == chunks;
    }

    /** What follows the header, in the order the code writes it. */
    method WriteContent(r: Response)
      modifies this
      ensures out == old(out) + (Encoded(r) + Body(r))
    {
      WriteStatus(r);
      ghost var start := out;
      match r
      case LocalDataResponse(_, _, _, data) =>
        WriteAll(data);
        Append2(old(out), PutStatus(r), data);
      case LocalIndexResponse(_, _, _, index, len) =>
        WriteI64(len);
        WriteAll(index);
        Append2(old(out), PutStatus(r), PutI64(len));
        Append2(old(out), PutStatus(r) + PutI64(len), index);
      case MemoryResponse(_, _, _, mem) =>
        WriteSegments(mem.segments);
        WriteChunks(mem.data.chunks);
        Append2(old(out), PutStatus(r), PutSegments(mem.segments));
        Append2(old(out), PutStatus(r) + PutSegments(mem.segments), Flatten(mem.data.chunks));
      case PlainResponse(_, _, _) =>
        Append2(old(out), PutStatus(r), []);
    }

    /** `Frame::write`. */
    method WriteResponse(r: Response)
      modifies this
      ensures out == old(out) + PutResponse(r)
      ensures |out| > |old(out)| + 4
      ensures out[|old(out)| + 4] == match r
        case PlainResponse(_, _, _) => 0
        case LocalIndexResponse(_, _, _, _, _) => 14
        case LocalDataResponse(_, _, _, _) => 15
        case MemoryResponse(_, _, _, _) => 16
    {
      WriteHeader(MsgLen(r), ResponseType(r), BodyLen(r));
      WriteContent(r);
      Append3(old(out), PutI32(MsgLen(r)), [ResponseType(r)], PutI32(BodyLen(r)));
      FrameShape(old(out), PutI32(MsgLen(r)), [ResponseType(r)], PutI32(BodyLen(r)), Encoded(r) + Body(r));
      ResponseTypeByte(r);
    }
  }

  // ---- regrouping concatenations ----

  lemma Append2(o: seq<Byte>, a: seq<Byte>, b: seq<Byte>)
    ensures o + a + b == o + (a + b)
  {
  }

  lemma Append3(o: seq<Byte>, a: seq<Byte>, b: seq<Byte>, c: seq<Byte>)
    ensures o + a + b + c == o + (a + (b + c))
  {
  }

  lemma Append6(o: seq<Byte>, a: seq<Byte>, b: seq<Byte>, c: seq<Byte>, d: seq<Byte>, e: seq<Byte>, f: seq<Byte>)
    ensures o + a + b + c + d + e + f == o + (a + (b + (c + (d + (e + f)))))
  {
    Append3(o + a + b + c, d, e, f);
    Append3(o, a, b, c);
    assert o + (a + (b + c)) + (d + (e + f)) == o + (a + (b + (c + (d + (e + f)))));
  }

  lemma StatusShape(r: Response, o: seq<Byte>)
    ensures o + (PutI64(r.requestId) + (PutI32(r.statusCode) + PutI32(WrapI32(|r.message|)))) + r.message == o + PutStatus(r)
  {
    var a, b, c, d := PutI64(r.requestId), PutI32(r.statusCode), PutI32(WrapI32(|r.message|)), r.message;
    assert o + (a + (b + c)) + d == o + (a + (b + (c + d)));
  }

  lemma FrameShape(o: seq<Byte>, a: seq<Byte>, b: seq<Byte>, c: seq<Byte>, d: seq<Byte>)
    ensures o + (a + (b + c)) + d == o + (a + (b + (c + d)))
  {
  }

  lemma EncodeNext<T>(items: seq<T>, i: nat, put: T -> seq<Byte>)
    requires i < |items|
    ensures Records.Encode(items[..i + 1], put) == Records.Encode(items[..i], put) + put(items[i])
  {
    Records.EncodeSnoc(items[..i], items[i], put);
    assert items[..i + 1] == items[..i] + [items[i]];
  }
}
