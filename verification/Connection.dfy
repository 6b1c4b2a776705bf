/** Reassembling frames from socket reads: the buffer grows by what each read delivers and shrinks by
    whole frames. */
module Connections {
  import opened Bytes
  import opened Blocks
  import opened Wire
  import opened Commands
  import opened Encoding
  import opened FrameParser

  datatype Answer = Got(frame: Frame) | End | Broken(error: Wire.Error)

  /** The bytes buffered so far and the reads still to come; a read without bytes, or no more reads, means that
      the peer has closed. */
  datatype Link = Link(buffer: seq<Byte>, incoming: seq<seq<Byte>>)

  /** `parse_frame`: a frame and the bytes after it, nothing yet, or an error. */
  function NextInBuffer(buffer: seq<Byte>): (Option<Answer>, seq<Byte>) {
    match Check(buffer)
    case Ok(_, len) =>
      (match Parse(buffer)
       case Ok(f, _) => if len <= |buffer| then (Some(Got(f)), buffer[len..]) else (None, buffer)
       case Fail(e) => (Some(Broken(e)), buffer))
    case Fail(_) => (None, buffer)
  }

  /** `read_frame`: parse, or read more and try again. */
  function ReadFrame(c: Link): (Answer, Link)
    decreases |c.incoming|
  {
    var (answer, buffer) := NextInBuffer(c.buffer);
    if answer.Some? then (answer.value, c.(buffer := buffer))
    else if c.incoming == [] || c.incoming[0] == [] then (if c.buffer == [] then End else Broken(Abnormal), c)
    else ReadFrame(Link(c.buffer + c.incoming[0], c.incoming[1..]))
  }

  /** The answers of that many successive calls. */
  function ReadMany(c: Link, n: nat): (answers: seq<Answer>)
    ensures |answers| == n
    decreases n
  {
    if n == 0 then [] else [ReadFrame(c).0] + ReadMany(ReadFrame(c).1, n - 1)
  }

  /** Every read delivers something. */
  ghost predicate Delivers(c: Link) { forall i | 0 <= i < |c.incoming| :: c.incoming[i] != [] }

  /** All bytes still to be consumed. */
  ghost function Remaining(c: Link): seq<Byte> { c.buffer + Flatten(c.incoming) }

  /** Bytes that are one whole frame. */
  ghost predicate WellFormed(bytes: seq<Byte>, f: Frame) {
    Check(bytes) == Ok((), |bytes|) && Parse(bytes).Ok? && Parse(bytes).value == f
  }

  /** A frame with anything behind it is found at once, and only the frame is consumed. */
  lemma FoundInBuffer(bytes: seq<Byte>, f: Frame, tail: seq<Byte>)
    requires WellFormed(bytes, f)
    ensures NextInBuffer(bytes + tail) == (Some(Got(f)), tail)
  {
    CheckIsStable(bytes, tail);
    ParseIsStable(bytes, tail);
    assert (bytes + tail)[|bytes|..] == tail;
  }

  /** A part of a frame is not taken for a frame. */
  lemma PartIsIncomplete(part: seq<Byte>, more: seq<Byte>, f: Frame)
    requires WellFormed(part + more, f) && more != []
    ensures Check(part) == Fail(Incomplete)
  {
    CheckIsStable(part, more);
  }

  lemma MoreReads(c: Link)
    requires c.incoming != [] && Delivers(c)
    ensures Delivers(Link(c.buffer + c.incoming[0], c.incoming[1..]))
    ensures Remaining(Link(c.buffer + c.incoming[0], c.incoming[1..])) == Remaining(c)
  {
    assert Flatten(c.incoming) == c.incoming[0] + Flatten(c.incoming[1..]);
  }

  /** The frame is buffered completely. */
  lemma FrameBuffered(c: Link, bytes: seq<Byte>, rest: seq<Byte>)
    requires Remaining(c) == bytes + rest && |c.buffer| >= |bytes|
    ensures c.buffer == bytes + c.buffer[|bytes|..] && c.buffer[|bytes|..] + Flatten(c.incoming) == rest
  {
    var tail := c.buffer[|bytes|..];
    assert Remaining(c)[..|bytes|] == c.buffer[..|bytes|] && (bytes + rest)[..|bytes|] == bytes;
    assert Remaining(c)[|bytes|..] == tail + Flatten(c.incoming) && (bytes + rest)[|bytes|..] == rest;
  }

  /** Part of the frame is still to come, so another read is. */
  lemma FrameToCome(c: Link, bytes: seq<Byte>, rest: seq<Byte>)
    requires Remaining(c) == bytes + rest && |c.buffer| < |bytes|
    ensures bytes == c.buffer + bytes[|c.buffer|..] && c.incoming != []
  {
    assert Remaining(c)[..|c.buffer|] == c.buffer && (bytes + rest)[..|c.buffer|] == bytes[..|c.buffer|];
    assert |Flatten(c.incoming)| > 0;
  }

  /** However the bytes are cut into reads, the next frame comes out and nothing else is consumed. */
  lemma {:induction false} NextFrameArrives(c: Link, bytes: seq<Byte>, f: Frame, rest: seq<Byte>)
    requires Delivers(c) && Remaining(c) == bytes + rest && WellFormed(bytes, f)
    ensures ReadFrame(c).0 == Got(f) && Remaining(ReadFrame(c).1) == rest && Delivers(ReadFrame(c).1)
    decreases |c.incoming|
  {
    if |c.buffer| >= |bytes| {
      FrameBuffered(c, bytes, rest);
      FoundInBuffer(bytes, f, c.buffer[|bytes|..]);
    } else {
      FrameToCome(c, bytes, rest);
      PartIsIncomplete(c.buffer, bytes[|c.buffer|..], f);
      MoreReads(c);
      NextFrameArrives(Link(c.buffer + c.incoming[0], c.incoming[1..]), bytes, f, rest);
    }
  }

  /** When what is left never becomes a frame, the stream ends: cleanly if nothing is left. */
  lemma {:induction false} StreamEnds(c: Link)
    requires Delivers(c) && Check(Remaining(c)).Fail?
    ensures ReadFrame(c).0 == if Remaining(c) == [] then End else Broken(Abnormal)
    ensures Remaining(ReadFrame(c).1) == Remaining(c)
    decreases |c.incoming|
  {
    CheckIsStable(c.buffer, Flatten(c.incoming));
    if c.incoming != [] {
      MoreReads(c);
      StreamEnds(Link(c.buffer + c.incoming[0], c.incoming[1..]));
    } else {
      assert Remaining(c) == c.buffer;
    }
  }

  /** The frames of a stream, one after the other. */
  ghost predicate AllWellFormed(parts: seq<seq<Byte>>, frames: seq<Frame>) {
    |parts| == |frames| && forall i | 0 <= i < |parts| :: WellFormed(parts[i], frames[i])
  }

  ghost function Answers(frames: seq<Frame>, last: Answer): seq<Answer> {
    if frames == [] then [last] else [Got(frames[0])] + Answers(frames[1..], last)
  }

  /** For every sequence of well-formed frames, every split of their bytes into reads and every incomplete
      tail: exactly those frames in order, then a clean end, or STREAM_ABNORMAL if a tail was left. */
  lemma {:induction false} StreamIsReassembled(c: Link, parts: seq<seq<Byte>>, frames: seq<Frame>, tail: seq<Byte>)
    requires Delivers(c) && AllWellFormed(parts, frames) && Check(tail).Fail? && Remaining(c) == Flatten(parts) + tail
    ensures ReadMany(c, |frames| + 1) == Answers(frames, if tail == [] then End else Broken(Abnormal))
    decreases |frames|
  {
    if frames == [] {
      assert Remaining(c) == tail;
      StreamEnds(c);
      ReadOneMore(c, 0);
    } else {
      var rest := Flatten(parts[1..]) + tail;
      Reassociate(parts[0], Flatten(parts[1..]), tail);
      NextFrameArrives(c, parts[0], frames[0], rest);
      StreamIsReassembled(ReadFrame(c).1, parts[1..], frames[1..], tail);
      ReadOneMore(c, |frames|);
    }
  }

  lemma {:induction false} ReadOneMore(c: Link, n: nat)
    ensures ReadMany(c, n + 1) == [ReadFrame(c).0] + ReadMany(ReadFrame(c).1, n)
  {
  }

  lemma Reassociate(a: seq<Byte>, b: seq<Byte>, c: seq<Byte>)
    ensures a + b + c == a + (b + c)
  {
  }

  lemma TruncatedIsIncomplete(last: seq<Byte>, f: Frame, n: nat)
    requires WellFormed(last, f) && n < |last|
    ensures Check(last[..n]).Fail?
  {
    assert last[..n] + last[n..] == last;
    PartIsIncomplete(last[..n], last[n..], f);
  }

  /** A truncated last frame is such a tail. */
  lemma {:induction false} TruncatedStreamIsAbnormal(c: Link, parts: seq<seq<Byte>>, frames: seq<Frame>, last: seq<Byte>, f: Frame, n: nat)
    requires Delivers(c) && AllWellFormed(parts, frames) && WellFormed(last, f) && 0 < n < |last|
    requires Remaining(c) == Flatten(parts) + last[..n]
    ensures ReadMany(c, |frames| + 1) == Answers(frames, Broken(Abnormal))
  {
    TruncatedIsIncomplete(last, f, n);
    StreamIsReassembled(c, parts, frames, last[..n]);
  }

  lemma {:induction false} CleanEnd(c: Link, parts: seq<seq<Byte>>, frames: seq<Frame>)
    requires Delivers(c) && AllWellFormed(parts, frames) && Remaining(c) == Flatten(parts)
    ensures ReadMany(c, |frames| + 1) == Answers(frames, End)
  {
    assert Flatten(parts) + [] == Flatten(parts);
    StreamIsReassembled(c, parts, frames, []);
  }

  // ---- which bytes are well formed ----

  /** Every encoded request is one well-formed frame. */
  lemma SendIsWellFormed(w: WireSend, msgLen: I32, bodyLen: I32)
    requires SendOk(w) && msgLen + bodyLen == |PutSend(w)| < 0x8000_0000
    ensures WellFormed(PutFrame(msgLen, SEND_SHUFFLE_DATA, bodyLen, PutSend(w)), CommandOf(w))
  {
    var bytes := PutFrame(msgLen, SEND_SHUFFLE_DATA, bodyLen, PutSend(w));
    SendRoundTrip(w, msgLen, bodyLen, []);
    assert bytes + [] == bytes;
  }

  lemma RequestIsWellFormed(f: Frame, msgLen: I32, bodyLen: I32)
    requires RequestOk(f) && msgLen + bodyLen == |PutRequest(f)| < 0x8000_0000
    ensures WellFormed(PutFrame(msgLen, TypeOf(f), bodyLen, PutRequest(f)), f)
  {
    var bytes := PutFrame(msgLen, TypeOf(f), bodyLen, PutRequest(f));
    RequestRoundTrip(f, msgLen, bodyLen, []);
    assert bytes + [] == bytes;
  }

  /** The parser is not confined to its frame: after an empty frame it takes its fields from the bytes behind,
      so the promise above is for well-formed frames only. */
  lemma EmptyFrameReadsOn(f: Frame)
    requires f.RpcResponse? && IsText(f.message)
    ensures var bytes := PutFrame(0, RPC_RESPONSE, 0, []);
      && Check(bytes) == Ok((), |bytes|) && Parse(bytes).Fail?
      && Parse(bytes + PutRpcResponse(f)).Ok? && Parse(bytes + PutRpcResponse(f)).pos > |bytes|
  {
    var bytes, t := PutFrame(0, RPC_RESPONSE, 0, []), PutRpcResponse(f);
    HeaderInverts(0, RPC_RESPONSE, 0, [], []);
    assert bytes + [] == bytes;
    HeaderInverts(0, RPC_RESPONSE, 0, [], t);
    var s := bytes + t;
    assert s[9..9 + |t|] == t;
    AtSlice(s, 9, t);
    RpcResponseInverts(s, 9, f);
  }

  // ---- the connection object ----

  class Connection {
    var buffer: seq<Byte>
    var incoming: seq<seq<Byte>>

    constructor (incoming: seq<seq<Byte>>)
      ensures View() == Link([], incoming)
    {
      buffer, this.incoming := [], incoming;
    }

    function View(): Link
      reads this
    {
      Link(buffer, incoming)
    }

    method ParseOne() returns (answer: Option<Answer>)
      modifies this`buffer
      ensures (answer, buffer) == old(NextInBuffer(buffer))
    {
      var cursor := new Cursor(buffer);
      var checked := cursor.CheckFrame();
      match checked
      case Error(_) => answer := None;
      case Value(_) =>
        CheckIsStable(buffer, []);
        var len := cursor.pos;
        cursor.pos := 0;
        var parsed := cursor.ParseFrame();
        match parsed {
          case Error(e) => answer := Some(Broken(e));
          case Value(f) =>
            buffer := buffer[len..];
            answer := Some(Got(f));
        }
    }

    /** Reads that deliver bytes come first; an empty answer means the peer has closed. */
    method ReadNext() returns (answer: Answer)
      modifies this
      ensures (answer, View()) == old(ReadFrame(View()))
    {
      ghost var goal := ReadFrame(View());
      while true
        invariant goal == ReadFrame(View())
        decreases |incoming|
      {
        var parsed := ParseOne();
        if parsed.Some? {
          return parsed.value;
        }
        if incoming == [] || incoming[0] == [] {
          return if buffer == [] then End else Broken(Abnormal);
        }
        buffer, incoming := buffer + incoming[0], incoming[1..];
      }
    }
  }
}
