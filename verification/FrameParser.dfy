/** The urpc parser as the program runs it: a cursor over the received bytes, advanced by every read, and
    early returns on errors. Every method is tied to the function of the same name on positions. */
module FrameParser {
  import opened Bytes
  import opened Blocks
  import opened Wire
  import opened Commands

  datatype Result<+T> = Value(value: T) | Error(error: Wire.Error) {
    predicate IsFailure() { Error? }

    function PropagateFailure<U>(): Result<U>
      requires Error?
    {
      Error(error)
    }

    function Extract(): T
      requires Value?
    {
      value
    }
  }

  type Reader<T> = (seq<Byte>, nat) -> Parsed<T>

  /** The outcome and the new position agree with a reader's answer. */
  ghost predicate Agrees<T>(r: Result<T>, pos: nat, p: Parsed<T>) {
    match p
    case Ok(v, q) => r == Value(v) && pos == q
    case Fail(e) => r == Error(e)
  }

  ghost predicate AgreesMap(r: Result<map<I32, seq<Block>>>, pos: nat, p: Parsed<seq<(I32, seq<Block>)>>) {
    match p
    case Ok(parts, q) => r == Value(InsertAll(parts)) && pos == q
    case Fail(e) => r == Error(e)
  }

  class Cursor {
    const data: seq<Byte>
    var pos: nat

    constructor (data: seq<Byte>)
      ensures this.data == data && pos == 0
    {
      this.data, pos := data, 0;
    }

    method GetU8() returns (r: Result<Byte>)
      modifies this
      ensures Agrees(r, pos, GetU8At(data, old(pos)))
    {
      if pos >= |data| {
        return Error(Incorrect);
      }
      r := Value(data[pos]);
      pos := pos + 1;
    }

    method ReadI32() returns (r: Result<I32>)
      modifies this
      ensures Agrees(r, pos, GetI32At(data, old(pos)))
    {
      if pos >= |data| {
        return Error(Incorrect);
      }
      if pos + 4 > |data| {
        return Error(Panic);
      }
      r := Value(GetI32(data[pos..pos + 4]));
      pos := pos + 4;
    }

    method ReadI64() returns (r: Result<I64>)
      modifies this
      ensures Agrees(r, pos, GetI64At(data, old(pos)))
    {
      if pos >= |data| {
        return Error(Incorrect);
      }
      if pos + 8 > |data| {
        return Error(Panic);
      }
      r := Value(GetI64(data[pos..pos + 8]));
      pos := pos + 8;
    }

    method ReadBytes() returns (r: Result<Option<seq<Byte>>>)
      modifies this
      ensures Agrees(r, pos, GetBytesAt(data, old(pos)))
    {
      if pos >= |data| {
        return Error(Incorrect);
      }
      var len :- ReadI32();
      if len <= 0 {
        return Value(None);
      }
      if pos + len > |data| {
        return Error(Incorrect);
      }
      r := Value(Some(data[pos..pos + len]));
      pos := pos + len;
    }

    method ReadString() returns (r: Result<seq<Byte>>)
      modifies this
      ensures Agrees(r, pos, GetStringAt(data, old(pos)))
    {
      if pos >= |data| {
        return Error(Incorrect);
      }
      var len :- ReadI32();
      if len == 0 {
        return Value([]);
      }
      if len < 0 || pos + len > |data| {
        return Error(Incorrect);
      }
      var text := data[pos..pos + len];
      pos := pos + len;
      r := if ValidUtf8(text) then Value(text) else Error(BadUtf8);
    }

    method ParseLocalData() returns (r: Result<Frame>)
      modifies this
      ensures Agrees(r, pos, LocalDataAt(data, old(pos)))
    {
      var requestId :- ReadI64();
      var appId :- ReadString();
      var shuffleId :- ReadI32();
      var partitionId :- ReadI32();
      var numPerRange :- ReadI32();
      var partitionNum :- ReadI32();
      var offset :- ReadI64();
      var length :- ReadI32();
      var timestamp :- ReadI64();
      r := Value(GetLocalData(requestId, appId, shuffleId, partitionId, numPerRange, partitionNum, offset, length, timestamp));
    }

    method ParseLocalIndex() returns (r: Result<Frame>)
      modifies this
      ensures Agrees(r, pos, LocalIndexAt(data, old(pos)))
    {
      var requestId :- ReadI64();
      var appId :- ReadString();
      var shuffleId :- ReadI32();
      var partitionId :- ReadI32();
      var numPerRange :- ReadI32();
      var partitionNum :- ReadI32();
      r := Value(GetLocalDataIndex(requestId, appId, shuffleId, partitionId, numPerRange, partitionNum));
    }

    method ParseMemoryData() returns (r: Result<Frame>)
      modifies this
      ensures Agrees(r, pos, MemoryDataAt(data, old(pos)))
    {
      var requestId :- ReadI64();
      var appId :- ReadString();
      var shuffleId :- ReadI32();
      var partitionId :- ReadI32();
      var lastBlockId :- ReadI64();
      var readBufferSize :- ReadI32();
      var timestamp :- ReadI64();
      var bitmap :- ReadBytes();
      r := Value(GetMemoryData(requestId, appId, shuffleId, partitionId, lastBlockId, readBufferSize, timestamp, bitmap));
    }

    method ParseRpcResponse() returns (r: Result<Frame>)
      modifies this
      ensures Agrees(r, pos, RpcResponseAt(data, old(pos)))
    {
      var requestId :- ReadI64();
      var statusCode :- ReadI32();
      var message :- ReadString();
      r := Value(RpcResponse(requestId, statusCode, message));
    }

    method SkipServer() returns (r: Result<()>)
      modifies this
      ensures Agrees(r, pos, ServerAt(data, old(pos)))
    {
      var _ :- ReadString();
      var _ :- ReadString();
      var _ :- ReadI32();
      var _ :- ReadI32();
      r := Value(());
    }

    method SkipServerBy(ghost one: Reader<()>) returns (r: Result<()>)
      requires forall s, p: nat {:trigger ServerAt(s, p)} :: one(s, p) == ServerAt(s, p)
      modifies this
      ensures Agrees(r, pos, one(data, old(pos)))
    {
      r := SkipServer();
    }

    /** The loop over the attached server records, whose contents are thrown away. */
    method SkipServers(n: I32, ghost one: Reader<()>) returns (r: Result<seq<()>>)
      requires forall s, p: nat {:trigger ServerAt(s, p)} :: one(s, p) == ServerAt(s, p)
      modifies this
      ensures Agrees(r, pos, RepeatAt(data, old(pos), n, one, []))
    {
      var seen: seq<()> := [];
      var i := 0;
      while i < n
        invariant n > 0 ==> i <= n
        invariant RepeatAt(data, old(pos), n, one, []) == RepeatAt(data, pos, n - i, one, seen)
      {
        var server :- SkipServerBy(one);
        seen := seen + [server];
        i := i + 1;
      }
      r := Value(seen);
    }

    method ParseBlock() returns (r: Result<Block>)
      modifies this
      ensures Agrees(r, pos, BlockAt(data, old(pos)))
    {
      var _ :- ReadI32();
      var blockId :- ReadI64();
      var length :- ReadI32();
      var _ :- ReadI32();
      var crc :- ReadI64();
      var taskAttemptId :- ReadI64();
      var buffer :- ReadBytes();
      var servers :- ReadI32();
      var _ :- SkipServers(servers, ServerAt);
      var uncompressLength :- ReadI32();
      var _ :- ReadI64();
      r := Value(Block(blockId, length, uncompressLength, crc, DataOf(buffer), taskAttemptId));
    }

    method ParseBlockBy(ghost one: Reader<Block>) returns (r: Result<Block>)
      requires forall s, p: nat {:trigger BlockAt(s, p)} :: one(s, p) == BlockAt(s, p)
      modifies this
      ensures Agrees(r, pos, one(data, old(pos)))
    {
      r := ParseBlock();
    }

    method ParseBlocks(n: I32, ghost one: Reader<Block>) returns (r: Result<seq<Block>>)
      requires forall s, p: nat {:trigger BlockAt(s, p)} :: one(s, p) == BlockAt(s, p)
      modifies this
      ensures Agrees(r, pos, RepeatAt(data, old(pos), n, one, []))
    {
      var blocks: seq<Block> := [];
      var i := 0;
      while i < n
        invariant n > 0 ==> i <= n
        invariant RepeatAt(data, old(pos), n, one, []) == RepeatAt(data, pos, n - i, one, blocks)
      {
        var block :- ParseBlockBy(one);
        blocks := blocks + [block];
        i := i + 1;
      }
      r := Value(blocks);
    }

    method ParsePartition() returns (r: Result<(I32, seq<Block>)>)
      modifies this
      ensures Agrees(r, pos, PartitionAt(data, old(pos)))
    {
      var id :- ReadI32();
      var count :- ReadI32();
      if count < 0 {
        return Error(Panic);
      }
      var blocks :- ParseBlocks(count, BlockAt);
      r := Value((id, blocks));
    }

    method ParsePartitionBy(ghost one: Reader<(I32, seq<Block>)>) returns (r: Result<(I32, seq<Block>)>)
      requires forall s, p: nat {:trigger PartitionAt(s, p)} :: one(s, p) == PartitionAt(s, p)
      modifies this
      ensures Agrees(r, pos, one(data, old(pos)))
    {
      r := ParsePartition();
    }

    /** The loop that fills the map from partition to blocks. */
    method ParsePartitions(n: I32, ghost one: Reader<(I32, seq<Block>)>) returns (r: Result<map<I32, seq<Block>>>)
      requires forall s, p: nat {:trigger PartitionAt(s, p)} :: one(s, p) == PartitionAt(s, p)
      modifies this
      ensures AgreesMap(r, pos, RepeatAt(data, old(pos), n, one, []))
    {
      var blocksMap: map<I32, seq<Block>> := map[];
      ghost var parts: seq<(I32, seq<Block>)> := [];
      var i := 0;
      while i < n
        invariant n > 0 ==> i <= n
        invariant blocksMap == InsertAll(parts)
        invariant RepeatAt(data, old(pos), n, one, []) == RepeatAt(data, pos, n - i, one, parts)
      {
        var part :- ParsePartitionBy(one);
        InsertAllSnoc(parts, part);
        blocksMap := blocksMap[part.0 := part.1];
        parts := parts + [part];
        i := i + 1;
      }
      r := Value(blocksMap);
    }

    method ParseSend() returns (r: Result<Frame>)
      modifies this
      ensures Agrees(r, pos, SendAt(data, old(pos)))
    {
      var requestId :- ReadI64();
      var appId :- ReadString();
      var shuffleId :- ReadI32();
      var ticketId :- ReadI64();
      var count :- ReadI32();
      var blocks :- ParsePartitions(count, PartitionAt);
      var timestamp :- ReadI64();
      r := Value(SendShuffleData(requestId, appId, shuffleId, ticketId, blocks, timestamp));
    }

    method ParseCommand(ty: Byte) returns (r: Result<Frame>)
      modifies this
      ensures Agrees(r, pos, CommandAt(data, old(pos), ty))
    {
      if ty == GET_LOCAL_DATA {
        r := ParseLocalData();
      } else if ty == GET_LOCAL_DATA_INDEX {
        r := ParseLocalIndex();
      } else if ty == GET_MEMORY_DATA {
        r := ParseMemoryData();
      } else if ty == SEND_SHUFFLE_DATA {
        r := ParseSend();
      } else if ty == RPC_RESPONSE {
        r := ParseRpcResponse();
      } else if ty == GET_LOCAL_DATA_RESPONSE || ty == GET_LOCAL_DATA_INDEX_RESPONSE || ty == GET_MEMORY_DATA_RESPONSE {
        r := Error(Panic);
      } else {
        r := Error(TypeNotFound);
      }
    }

    method ReadHeader() returns (r: Result<Header>)
      modifies this
      ensures Agrees(r, pos, HeaderAt(data, old(pos)))
    {
      var msgLen :- ReadI32();
      var ty :- GetU8();
      var bodyLen :- ReadI32();
      r := Value(Header(msgLen, ty, bodyLen));
    }

    /** `parse`, from the beginning of the buffer. */
    method ParseFrame() returns (r: Result<Frame>)
      requires pos == 0
      modifies this
      ensures Agrees(r, pos, Parse(data))
    {
      var h :- ReadHeader();
      if |data| - pos < ContentLength(h.msgLen, h.bodyLen) {
        return Error(Abnormal);
      }
      r := ParseCommand(h.ty);
    }

    /** `check`: leaves the cursor after the frame. */
    method CheckFrame() returns (r: Result<()>)
      requires pos == 0
      modifies this
      ensures Agrees(r, pos, Check(data))
    {
      if |data| < HEADER_LEN {
        return Error(Incomplete);
      }
      var header := ReadHeader();
      match header
      case Error(e) => r := Error(e);
      case Value(h) =>
        if |data| - pos < ContentLength(h.msgLen, h.bodyLen) {
          return Error(Incomplete);
        }
        pos := pos + ContentLength(h.msgLen, h.bodyLen);
        r := Value(());
    }
  }

  lemma {:induction false} InsertAllSnoc(parts: seq<(I32, seq<Block>)>, part: (I32, seq<Block>))
    ensures InsertAll(parts + [part]) == InsertAll(parts)[part.0 := part.1]
  {
    assert (parts + [part])[..|parts|] == parts;
  }
}
