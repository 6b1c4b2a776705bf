/** Which frames the parser reads from their own bytes alone. The parser is given the whole receive
    buffer, and nothing keeps it within the length the header declares. */
module Confinement {
  import opened Bytes
  import opened Blocks
  import opened Wire
  import opened Commands

  // ---- a reader that ends within a prefix has looked at nothing behind it ----

  lemma SamePrefix(s: seq<Byte>, a: seq<Byte>, p: nat, q: nat)
    requires a <= s && p <= q <= |a|
    ensures a[p..q] == s[p..q]
  {
  }

  lemma CutI32(s: seq<Byte>, a: seq<Byte>, p: nat)
    requires a <= s && GetI32At(s, p).Ok?
    ensures p <= GetI32At(s, p).pos && (GetI32At(s, p).pos <= |a| ==> GetI32At(a, p) == GetI32At(s, p))
  {
    if p + 4 <= |a| {
      SamePrefix(s, a, p, p + 4);
    }
  }

  lemma CutI64(s: seq<Byte>, a: seq<Byte>, p: nat)
    requires a <= s && GetI64At(s, p).Ok?
    ensures p <= GetI64At(s, p).pos && (GetI64At(s, p).pos <= |a| ==> GetI64At(a, p) == GetI64At(s, p))
  {
    if p + 8 <= |a| {
      SamePrefix(s, a, p, p + 8);
    }
  }

  lemma CutBytes(s: seq<Byte>, a: seq<Byte>, p: nat)
    requires a <= s && GetBytesAt(s, p).Ok?
    ensures p <= GetBytesAt(s, p).pos && (GetBytesAt(s, p).pos <= |a| ==> GetBytesAt(a, p) == GetBytesAt(s, p))
  {
    CutI32(s, a, p);
    var len, q := GetI32At(s, p).value, GetI32At(s, p).pos;
    if len > 0 && q + len <= |a| {
      SamePrefix(s, a, q, q + len);
    }
  }

  lemma CutString(s: seq<Byte>, a: seq<Byte>, p: nat)
    requires a <= s && GetStringAt(s, p).Ok?
    ensures p <= GetStringAt(s, p).pos && (GetStringAt(s, p).pos <= |a| ==> GetStringAt(a, p) == GetStringAt(s, p))
  {
    CutI32(s, a, p);
    var len, q := GetI32At(s, p).value, GetI32At(s, p).pos;
    if len > 0 && q + len <= |a| {
      SamePrefix(s, a, q, q + len);
    }
  }

  /** The item reader moves forward and is confined to the prefix whenever it ends there. */
  ghost predicate Cuts<T(!new)>(one: (seq<Byte>, nat) -> Parsed<T>, s: seq<Byte>, a: seq<Byte>) {
    forall p: nat :: one(s, p).Ok? ==> p <= one(s, p).pos && (one(s, p).pos <= |a| ==> one(a, p) == one(s, p))
  }

  lemma {:induction false} CutRepeat<T(!new)>(
    s: seq<Byte>, a: seq<Byte>, p: nat, n: int, one: (seq<Byte>, nat) -> Parsed<T>, acc: seq<T>)
    requires Cuts(one, s, a) && RepeatAt(s, p, n, one, acc).Ok?
    ensures p <= RepeatAt(s, p, n, one, acc).pos
    ensures RepeatAt(s, p, n, one, acc).pos <= |a| ==> RepeatAt(a, p, n, one, acc) == RepeatAt(s, p, n, one, acc)
    decreases n
  {
    if n > 0 {
      var r := one(s, p);
      assert p <= r.pos && (r.pos <= |a| ==> one(a, p) == r);
      CutRepeat(s, a, r.pos, n - 1, one, acc + [r.value]);
    }
  }

  lemma CutServer(s: seq<Byte>, a: seq<Byte>, p: nat)
    requires a <= s && ServerAt(s, p).Ok?
    ensures p <= ServerAt(s, p).pos && (ServerAt(s, p).pos <= |a| ==> ServerAt(a, p) == ServerAt(s, p))
  {
    CutString(s, a, p);
    var p1 := GetStringAt(s, p).pos;
    CutString(s, a, p1);
    var p2 := GetStringAt(s, p1).pos;
    CutI32(s, a, p2);
    var p3 := GetI32At(s, p2).pos;
    CutI32(s, a, p3);
  }

  lemma CutServers(s: seq<Byte>, a: seq<Byte>)
    requires a <= s
    ensures Cuts(ServerAt, s, a)
  {
    forall p: nat | ServerAt(s, p).Ok?
      ensures p <= ServerAt(s, p).pos && (ServerAt(s, p).pos <= |a| ==> ServerAt(a, p) == ServerAt(s, p))
    {
      CutServer(s, a, p);
    }
  }

  lemma CutBlock(s: seq<Byte>, a: seq<Byte>, p: nat)
    requires a <= s && BlockAt(s, p).Ok?
    ensures p <= BlockAt(s, p).pos && (BlockAt(s, p).pos <= |a| ==> BlockAt(a, p) == BlockAt(s, p))
  {
    CutI32(s, a, p);
    var p1 := GetI32At(s, p).pos;
    CutI64(s, a, p1);
    var p2 := GetI64At(s, p1).pos;
    CutI32(s, a, p2);
    var p3 := GetI32At(s, p2).pos;
    CutI32(s, a, p3);
    var p4 := GetI32At(s, p3).pos;
    CutI64(s, a, p4);
    var p5 := GetI64At(s, p4).pos;
    CutI64(s, a, p5);
    var p6 := GetI64At(s, p5).pos;
    CutBytes(s, a, p6);
    var p7 := GetBytesAt(s, p6).pos;
    CutI32(s, a, p7);
    var servers, p8 := GetI32At(s, p7).value, GetI32At(s, p7).pos;
    CutServers(s, a);
    CutRepeat(s, a, p8, servers, ServerAt, []);
    var p9 := RepeatAt(s, p8, servers, ServerAt, []).pos;
    CutI32(s, a, p9);
    CutI64(s, a, GetI32At(s, p9).pos);
  }

  lemma CutBlocks(s: seq<Byte>, a: seq<Byte>)
    requires a <= s
    ensures Cuts(BlockAt, s, a)
  {
    forall p: nat | BlockAt(s, p).Ok?
      ensures p <= BlockAt(s, p).pos && (BlockAt(s, p).pos <= |a| ==> BlockAt(a, p) == BlockAt(s, p))
    {
      CutBlock(s, a, p);
    }
  }

  lemma CutPartition(s: seq<Byte>, a: seq<Byte>, p: nat)
    requires a <= s && PartitionAt(s, p).Ok?
    ensures p <= PartitionAt(s, p).pos && (PartitionAt(s, p).pos <= |a| ==> PartitionAt(a, p) == PartitionAt(s, p))
  {
    CutI32(s, a, p);
    var p1 := GetI32At(s, p).pos;
    CutI32(s, a, p1);
    CutBlocks(s, a);
    CutRepeat(s, a, GetI32At(s, p1).pos, GetI32At(s, p1).value, BlockAt, []);
  }

  lemma CutPartitions(s: seq<Byte>, a: seq<Byte>)
    requires a <= s
    ensures Cuts(PartitionAt, s, a)
  {
    forall p: nat | PartitionAt(s, p).Ok?
      ensures p <= PartitionAt(s, p).pos && (PartitionAt(s, p).pos <= |a| ==> PartitionAt(a, p) == PartitionAt(s, p))
    {
      CutPartition(s, a, p);
    }
  }

  lemma CutSend(s: seq<Byte>, a: seq<Byte>, p: nat)
    requires a <= s && SendAt(s, p).Ok?
    ensures p <= SendAt(s, p).pos && (SendAt(s, p).pos <= |a| ==> SendAt(a, p) == SendAt(s, p))
  {
    CutI64(s, a, p);
    var p1 := GetI64At(s, p).pos;
    CutString(s, a, p1);
    var p2 := GetStringAt(s, p1).pos;
    CutI32(s, a, p2);
    var p3 := GetI32At(s, p2).pos;
    CutI64(s, a, p3);
    var p4 := GetI64At(s, p3).pos;
    CutI32(s, a, p4);
    var count, p5 := GetI32At(s, p4).value, GetI32At(s, p4).pos;
    CutPartitions(s, a);
    CutRepeat(s, a, p5, count, PartitionAt, []);
    CutI64(s, a, RepeatAt(s, p5, count, PartitionAt, []).pos);
  }

  lemma CutLocalData(s: seq<Byte>, a: seq<Byte>, p: nat)
    requires a <= s && LocalDataAt(s, p).Ok?
    ensures p <= LocalDataAt(s, p).pos && (LocalDataAt(s, p).pos <= |a| ==> LocalDataAt(a, p) == LocalDataAt(s, p))
  {
    CutI64(s, a, p);
    var p1 := GetI64At(s, p).pos;
    CutString(s, a, p1);
    var p2 := GetStringAt(s, p1).pos;
    CutI32(s, a, p2);
    var p3 := GetI32At(s, p2).pos;
    CutI32(s, a, p3);
    var p4 := GetI32At(s, p3).pos;
    CutI32(s, a, p4);
    var p5 := GetI32At(s, p4).pos;
    CutI32(s, a, p5);
    var p6 := GetI32At(s, p5).pos;
    CutI64(s, a, p6);
    var p7 := GetI64At(s, p6).pos;
    CutI32(s, a, p7);
    var p8 := GetI32At(s, p7).pos;
    CutI64(s, a, p8);
  }

  lemma CutLocalIndex(s: seq<Byte>, a: seq<Byte>, p: nat)
    requires a <= s && LocalIndexAt(s, p).Ok?
    ensures p <= LocalIndexAt(s, p).pos && (LocalIndexAt(s, p).pos <= |a| ==> LocalIndexAt(a, p) == LocalIndexAt(s, p))
  {
    CutI64(s, a, p);
    var p1 := GetI64At(s, p).pos;
    CutString(s, a, p1);
    var p2 := GetStringAt(s, p1).pos;
    CutI32(s, a, p2);
    var p3 := GetI32At(s, p2).pos;
    CutI32(s, a, p3);
    var p4 := GetI32At(s, p3).pos;
    CutI32(s, a, p4);
    var p5 := GetI32At(s, p4).pos;
    CutI32(s, a, p5);
  }

  lemma CutMemoryData(s: seq<Byte>, a: seq<Byte>, p: nat)
    requires a <= s && MemoryDataAt(s, p).Ok?
    ensures p <= MemoryDataAt(s, p).pos && (MemoryDataAt(s, p).pos <= |a| ==> MemoryDataAt(a, p) == MemoryDataAt(s, p))
  {
    CutI64(s, a, p);
    var p1 := GetI64At(s, p).pos;
    CutString(s, a, p1);
    var p2 := GetStringAt(s, p1).pos;
    CutI32(s, a, p2);
    var p3 := GetI32At(s, p2).pos;
    CutI32(s, a, p3);
    var p4 := GetI32At(s, p3).pos;
    CutI64(s, a, p4);
    var p5 := GetI64At(s, p4).pos;
    CutI32(s, a, p5);
    var p6 := GetI32At(s, p5).pos;
    CutI64(s, a, p6);
    var p7 := GetI64At(s, p6).pos;
    CutBytes(s, a, p7);
  }

  lemma CutRpcResponse(s: seq<Byte>, a: seq<Byte>, p: nat)
    requires a <= s && RpcResponseAt(s, p).Ok?
    ensures p <= RpcResponseAt(s, p).pos && (RpcResponseAt(s, p).pos <= |a| ==> RpcResponseAt(a, p) == RpcResponseAt(s, p))
  {
    CutI64(s, a, p);
    var p1 := GetI64At(s, p).pos;
    CutI32(s, a, p1);
    var p2 := GetI32At(s, p1).pos;
    CutString(s, a, p2);
  }

  lemma CutCommand(s: seq<Byte>, a: seq<Byte>, p: nat, ty: Byte)
    requires a <= s && CommandAt(s, p, ty).Ok? && CommandAt(s, p, ty).pos <= |a|
    ensures CommandAt(a, p, ty) == CommandAt(s, p, ty)
  {
    if ty == GET_LOCAL_DATA {
      CutLocalData(s, a, p);
    } else if ty == GET_LOCAL_DATA_INDEX {
      CutLocalIndex(s, a, p);
    } else if ty == GET_MEMORY_DATA {
      CutMemoryData(s, a, p);
    } else if ty == SEND_SHUFFLE_DATA {
      CutSend(s, a, p);
    } else {
      CutRpcResponse(s, a, p);
    }
  }

  /** For all bytes that start with a complete frame: the parser takes a command from the frame and stays
      inside it if and only if the frame's own bytes, cut at the declared length, parse. */
  lemma ParseConfinedIff(s: seq<Byte>)
    requires Check(s).Ok?
    ensures HEADER_LEN <= Check(s).pos <= |s|
    ensures var frame := s[..Check(s).pos];
            && (Parse(s).Ok? && Parse(s).pos <= |frame| <==> Parse(frame).Ok?)
            && (Parse(frame).Ok? ==> Parse(s) == Parse(frame))
  {
    CheckIsStable(s, []);
    var n := Check(s).pos;
    var frame := s[..n];
    assert frame + s[n..] == s;
    StableHeader(frame, s[n..]);
    if Parse(frame).Ok? {
      ParseIsStable(frame, s[n..]);
    } else if Parse(s).Ok? && Parse(s).pos <= n {
      CutCommand(s, frame, HEADER_LEN, HeaderAt(s, 0).value.ty);
    }
  }

  // ---- the same on the declared lengths ----

  // A walk skips fields by their sizes and the lengths and counts they declare; it builds nothing, and says
  // where the message ends, or that it does not fit the bytes.

  /** Fields of a fixed size. */
  function Past(s: seq<Byte>, p: nat, n: nat): Option<nat> { if p + n <= |s| then Some(p + n) else None }

  /** A text: its length is not negative, and its bytes are UTF-8. */
  function PastText(s: seq<Byte>, p: nat): Option<nat> {
    if p + 4 > |s| then None else
      var len := GetI32(s[p..p + 4]);
      if 0 <= len <= |s| - p - 4 && ValidUtf8(s[p + 4..p + 4 + len]) then Some(p + 4 + len) else None
  }

  /** A byte array: a length of zero or less stands for none. */
  function PastBytes(s: seq<Byte>, p: nat): Option<nat> {
    if p + 4 > |s| then None else
      var len := GetI32(s[p..p + 4]);
      if len <= 0 then Some(p + 4) else Past(s, p + 4, len)
  }

  function Then(at: Option<nat>, next: nat -> Option<nat>): Option<nat> { if at.Some? then next(at.value) else None }

  /** As many items as a count says; zero or less stands for none. */
  function PastMany(s: seq<Byte>, p: nat, n: int, one: (seq<Byte>, nat) -> Option<nat>): Option<nat>
    decreases n
  {
    if n <= 0 then Some(p) else
      match one(s, p)
      case Some(q) => PastMany(s, q, n - 1, one)
      case None => None
  }

  /** Host, id and two ports. */
  function PastServer(s: seq<Byte>, p: nat): Option<nat> {
    match PastText(s, p)
    case None => None
    case Some(p1) =>
      match PastText(s, p1)
      case None => None
      case Some(p2) => Past(s, p2, 8)
  }

  /** 36 bytes, the data, the counted servers, 12 bytes. */
  function PastBlock(s: seq<Byte>, p: nat): Option<nat> {
    match PastBytes(s, p + 36)
    case None => None
    case Some(p1) =>
      if p1 + 4 > |s| then None else
        match PastMany(s, p1 + 4, GetI32(s[p1..p1 + 4]), PastServer)
        case None => None
        case Some(p2) => Past(s, p2, 12)
  }

  /** The id, and the counted blocks; the count is not negative. */
  function PastPartition(s: seq<Byte>, p: nat): Option<nat> {
    if p + 8 > |s| || GetI32(s[p + 4..p + 8]) < 0 then None
    else PastMany(s, p + 8, GetI32(s[p + 4..p + 8]), PastBlock)
  }

  /** Shuffle id and ticket, the counted partitions, 8 bytes. */
  function PastPartitions(s: seq<Byte>, p: nat): Option<nat> {
    if p + 16 > |s| then None else
      match PastMany(s, p + 16, GetI32(s[p + 12..p + 16]), PastPartition)
      case None => None
      case Some(q) => Past(s, q, 8)
  }

  function PastSend(s: seq<Byte>, p: nat): Option<nat> {
    match PastText(s, p + 8)
    case None => None
    case Some(q) => PastPartitions(s, q)
  }

  function PastMemory(s: seq<Byte>, p: nat): Option<nat> {
    match PastText(s, p + 8)
    case None => None
    case Some(p1) => PastBytes(s, p1 + 28)
  }

  /** Where a message of this type ends. */
  function PastMessage(s: seq<Byte>, p: nat, ty: Byte): Option<nat> {
    if ty == GET_LOCAL_DATA then Then(PastText(s, p + 8), q => Past(s, q, 36))
    else if ty == GET_LOCAL_DATA_INDEX then Then(PastText(s, p + 8), q => Past(s, q, 16))
    else if ty == GET_MEMORY_DATA then PastMemory(s, p)
    else if ty == SEND_SHUFFLE_DATA then PastSend(s, p)
    else if ty == RPC_RESPONSE then PastText(s, p + 12)
    else None
  }

  /** The walk and the reader agree on whether the field is there and where it ends. */
  predicate Agree<T>(walked: Option<nat>, read: Parsed<T>) {
    (walked.Some? <==> read.Ok?) && (walked.Some? ==> walked.value == read.pos)
  }

  lemma TextAgrees(s: seq<Byte>, p: nat)
    ensures Agree(PastText(s, p), GetStringAt(s, p))
  {
    if p + 4 <= |s| && GetI32(s[p..p + 4]) == 0 {
      assert s[p + 4..p + 4] == [];
    }
  }

  lemma BytesAgree(s: seq<Byte>, p: nat)
    ensures Agree(PastBytes(s, p), GetBytesAt(s, p))
  {
  }

  ghost predicate AllAgree<T(!new)>(one: (seq<Byte>, nat) -> Option<nat>, read: (seq<Byte>, nat) -> Parsed<T>, s: seq<Byte>) {
    forall p: nat :: Agree(one(s, p), read(s, p))
  }

  lemma {:induction false} ManyAgree<T(!new)>(
    s: seq<Byte>, p: nat, n: int, one: (seq<Byte>, nat) -> Option<nat>, read: (seq<Byte>, nat) -> Parsed<T>, acc: seq<T>)
    requires AllAgree(one, read, s)
    ensures Agree(PastMany(s, p, n, one), RepeatAt(s, p, n, read, acc))
    decreases n
  {
    if n > 0 {
      assert Agree(one(s, p), read(s, p));
      if read(s, p).Ok? {
        ManyAgree(s, read(s, p).pos, n - 1, one, read, acc + [read(s, p).value]);
      }
    }
  }

  lemma ServerAgrees(s: seq<Byte>, p: nat)
    ensures Agree(PastServer(s, p), ServerAt(s, p))
  {
    TextAgrees(s, p);
    if PastText(s, p).Some? {
      TextAgrees(s, PastText(s, p).value);
    }
  }

  lemma ServersAgree(s: seq<Byte>)
    ensures AllAgree(PastServer, ServerAt, s)
  {
    forall p: nat ensures Agree(PastServer(s, p), ServerAt(s, p)) {
      ServerAgrees(s, p);
    }
  }

  /** The reader's fixed fields in front of the data, and where everything behind them ends. */
  function BlockEndAt(s: seq<Byte>, q: nat): Parsed<()> {
    var (_, p7) :- GetBytesAt(s, q);
    var (servers, p8) :- GetI32At(s, p7);
    var (_, p9) :- RepeatAt(s, p8, servers, ServerAt, []);
    var (_, p10) :- GetI32At(s, p9);
    var (_, p11) :- GetI64At(s, p10);
    Ok((), p11)
  }

  function BlockHalfAt(s: seq<Byte>, q: nat): Parsed<()> {
    var (_, p5) :- GetI64At(s, q);
    var (_, p6) :- GetI64At(s, p5);
    BlockEndAt(s, p6)
  }

  /** Reading goes on at `q` if the bytes reach so far, and ends where it ends from there. */
  predicate GoesOn<T, U>(s: seq<Byte>, q: nat, read: Parsed<T>, rest: Parsed<U>) {
    if q > |s| then read.Fail? else (read.Ok? <==> rest.Ok?) && (read.Ok? ==> read.pos == rest.pos)
  }

  lemma BlockFirst(s: seq<Byte>, p: nat)
    ensures GoesOn(s, p + 20, BlockAt(s, p), BlockHalfAt(s, p + 20))
  {
  }

  lemma BlockSecond(s: seq<Byte>, q: nat)
    ensures GoesOn(s, q + 16, BlockHalfAt(s, q), BlockEndAt(s, q + 16))
  {
  }

  lemma BlockEndAgrees(s: seq<Byte>, p: nat)
    ensures Agree(PastBlock(s, p), BlockEndAt(s, p + 36))
  {
    BytesAgree(s, p + 36);
    if PastBytes(s, p + 36).Some? {
      var p1 := PastBytes(s, p + 36).value;
      if p1 + 4 <= |s| {
        ServersAgree(s);
        ManyAgree(s, p1 + 4, GetI32(s[p1..p1 + 4]), PastServer, ServerAt, []);
      }
    }
  }

  lemma BlockAgrees(s: seq<Byte>, p: nat)
    ensures Agree(PastBlock(s, p), BlockAt(s, p))
  {
    BlockFirst(s, p);
    BlockSecond(s, p + 20);
    BlockEndAgrees(s, p);
  }

  lemma BlocksAgree(s: seq<Byte>)
    ensures AllAgree(PastBlock, BlockAt, s)
  {
    forall p: nat ensures Agree(PastBlock(s, p), BlockAt(s, p)) {
      BlockAgrees(s, p);
    }
  }

  lemma PartitionAgrees(s: seq<Byte>, p: nat)
    ensures Agree(PastPartition(s, p), PartitionAt(s, p))
  {
    if p + 8 <= |s| {
      BlocksAgree(s);
      ManyAgree(s, p + 8, GetI32(s[p + 4..p + 8]), PastBlock, BlockAt, []);
    }
  }

  lemma PartitionsAgree(s: seq<Byte>)
    ensures AllAgree(PastPartition, PartitionAt, s)
  {
    forall p: nat ensures Agree(PastPartition(s, p), PartitionAt(s, p)) {
      PartitionAgrees(s, p);
    }
  }

  /** The fields of a send request behind its application id. */
  function SendEndAt(s: seq<Byte>, q: nat): Parsed<()> {
    var (_, p3) :- GetI32At(s, q);
    var (_, p4) :- GetI64At(s, p3);
    var (count, p5) :- GetI32At(s, p4);
    var (_, p6) :- RepeatAt(s, p5, count, PartitionAt, []);
    var (_, p7) :- GetI64At(s, p6);
    Ok((), p7)
  }

  function MemoryEndAt(s: seq<Byte>, q: nat): Parsed<()> {
    var (_, p3) :- GetI32At(s, q);
    var (_, p4) :- GetI32At(s, p3);
    var (_, p5) :- GetI64At(s, p4);
    var (_, p6) :- GetI32At(s, p5);
    var (_, p7) :- GetI64At(s, p6);
    var (_, p8) :- GetBytesAt(s, p7);
    Ok((), p8)
  }

  function FourAt(s: seq<Byte>, q: nat): Parsed<()> {
    var (_, p3) :- GetI32At(s, q);
    var (_, p4) :- GetI32At(s, p3);
    var (_, p5) :- GetI32At(s, p4);
    var (_, p6) :- GetI32At(s, p5);
    Ok((), p6)
  }

  function LocalDataEndAt(s: seq<Byte>, q: nat): Parsed<()> {
    var (_, p6) :- FourAt(s, q);
    var (_, p7) :- GetI64At(s, p6);
    var (_, p8) :- GetI32At(s, p7);
    var (_, p9) :- GetI64At(s, p8);
    Ok((), p9)
  }

  /** The request id and the application id come first; then reading ends where the rest ends. */
  predicate Follows<T, U>(text: Parsed<seq<Byte>>, read: Parsed<T>, rest: nat -> Parsed<U>) {
    if text.Fail? then read.Fail?
    else (read.Ok? <==> rest(text.pos).Ok?) && (read.Ok? ==> read.pos == rest(text.pos).pos)
  }

  lemma SendFront(s: seq<Byte>, p: nat)
    ensures Follows(GetStringAt(s, p + 8), SendAt(s, p), q => SendEndAt(s, q))
  {
  }

  lemma MemoryFront(s: seq<Byte>, p: nat)
    ensures Follows(GetStringAt(s, p + 8), MemoryDataAt(s, p), q => MemoryEndAt(s, q))
  {
  }

  lemma LocalDataFront(s: seq<Byte>, p: nat)
    ensures Follows(GetStringAt(s, p + 8), LocalDataAt(s, p), q => LocalDataEndAt(s, q))
  {
  }

  lemma LocalIndexFront(s: seq<Byte>, p: nat)
    ensures Follows(GetStringAt(s, p + 8), LocalIndexAt(s, p), q => FourAt(s, q))
  {
  }

  lemma SendEnds(s: seq<Byte>, q: nat)
    ensures Agree(PastPartitions(s, q), SendEndAt(s, q))
  {
    if q + 16 <= |s| {
      PartitionsAgree(s);
      ManyAgree(s, q + 16, GetI32(s[q + 12..q + 16]), PastPartition, PartitionAt, []);
    }
  }

  lemma MemoryEnds(s: seq<Byte>, q: nat)
    ensures Agree(PastBytes(s, q + 28), MemoryEndAt(s, q))
  {
    BytesAgree(s, q + 28);
  }

  lemma LocalDataEnds(s: seq<Byte>, q: nat)
    ensures Agree(Past(s, q, 16), FourAt(s, q)) && Agree(Past(s, q, 36), LocalDataEndAt(s, q))
  {
  }

  lemma SendAgrees(s: seq<Byte>, p: nat)
    ensures Agree(PastSend(s, p), SendAt(s, p))
  {
    TextAgrees(s, p + 8);
    SendFront(s, p);
    if GetStringAt(s, p + 8).Ok? {
      SendEnds(s, GetStringAt(s, p + 8).pos);
    }
  }

  lemma MemoryAgrees(s: seq<Byte>, p: nat)
    ensures Agree(PastMemory(s, p), MemoryDataAt(s, p))
  {
    TextAgrees(s, p + 8);
    MemoryFront(s, p);
    if GetStringAt(s, p + 8).Ok? {
      MemoryEnds(s, GetStringAt(s, p + 8).pos);
    }
  }

  lemma LocalAgrees(s: seq<Byte>, p: nat)
    ensures Agree(Then(PastText(s, p + 8), q => Past(s, q, 36)), LocalDataAt(s, p))
    ensures Agree(Then(PastText(s, p + 8), q => Past(s, q, 16)), LocalIndexAt(s, p))
  {
    TextAgrees(s, p + 8);
    LocalDataFront(s, p);
    LocalIndexFront(s, p);
    if GetStringAt(s, p + 8).Ok? {
      LocalDataEnds(s, GetStringAt(s, p + 8).pos);
    }
  }

  lemma ResponseAgrees(s: seq<Byte>, p: nat)
    ensures Agree(PastText(s, p + 12), RpcResponseAt(s, p))
  {
    TextAgrees(s, p + 12);
  }

  /** For every type and all bytes the walk finds the end of a message exactly when the parser reads one, at
      the same place. */
  lemma MessageAgrees(s: seq<Byte>, p: nat, ty: Byte)
    ensures Agree(PastMessage(s, p, ty), CommandAt(s, p, ty))
  {
    if ty == GET_MEMORY_DATA {
      MemoryAgrees(s, p);
    } else if ty == SEND_SHUFFLE_DATA {
      SendAgrees(s, p);
    } else if ty == RPC_RESPONSE {
      ResponseAgrees(s, p);
    } else {
      LocalAgrees(s, p);
    }
  }

  lemma FrameParses(s: seq<Byte>, n: nat)
    requires Check(s) == Ok((), n) && n <= |s|
    ensures HeaderAt(s, 0).Ok? && Parse(s[..n]) == CommandAt(s[..n], HEADER_LEN, HeaderAt(s, 0).value.ty)
  {
    CheckIsStable(s, []);
    assert s[..n] + s[n..] == s;
    StableHeader(s[..n], s[n..]);
  }

  /** For all bytes that start with a complete frame, whatever its type: the parser takes a command and stays
      inside the frame if and only if the lengths and counts that its fields declare fit the content length. */
  lemma ConfinedByLengths(s: seq<Byte>)
    requires Check(s).Ok?
    ensures HEADER_LEN <= Check(s).pos <= |s| && HeaderAt(s, 0).Ok?
    ensures var n, ty := Check(s).pos, HeaderAt(s, 0).value.ty;
            Parse(s).Ok? && Parse(s).pos <= n <==> PastMessage(s[..n], HEADER_LEN, ty).Some?
  {
    var n := Check(s).pos;
    ParseConfinedIff(s);
    FrameParses(s, n);
    MessageAgrees(s[..n], HEADER_LEN, HeaderAt(s, 0).value.ty);
  }
}
