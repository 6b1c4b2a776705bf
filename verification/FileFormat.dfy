/** The index/data file pair: how a batch of blocks is laid out (`generate_shuffle_file_format`) and
    what a reader of the two files gets back. */
module FileFormat {
  import opened Bytes
  import opened Blocks
  import opened Records

  /** A file that does not exist reads as empty. */
  function Contents(files: map<string, seq<Byte>>, path: string): seq<Byte> {
    if path in files then files[path] else []
  }

  const ENTRY_LEN: nat := 40

  datatype Entry = Entry(offset: I64, length: I32, uncompressLength: I32, crc: I64, blockId: I64, taskAttemptId: I64)

  function PutEntry(e: Entry): (s: seq<Byte>)
    ensures |s| == ENTRY_LEN
  {
    PutI64(e.offset) + PutI32(e.length) + PutI32(e.uncompressLength) + PutI64(e.crc) + PutI64(e.blockId) + PutI64(e.taskAttemptId)
  }

  /** The reads of the inspection tool: big-endian fields in this order. */
  function GetEntry(s: seq<Byte>): Entry {
    if |s| != ENTRY_LEN then Entry(0, 0, 0, 0, 0, 0) else
      Entry(GetI64(s[0..8]), GetI32(s[8..12]), GetI32(s[12..16]), GetI64(s[16..24]), GetI64(s[24..32]), GetI64(s[32..40]))
  }

  lemma EntryRoundTrip(e: Entry)
    ensures GetEntry(PutEntry(e)) == e
  {
    var s := PutEntry(e);
    assert GetI64(s[0..8]) == e.offset by { assert s[0..8] == PutI64(e.offset); I64RoundTrip(e.offset); }
    assert GetI32(s[8..12]) == e.length by { assert s[8..12] == PutI32(e.length); I32RoundTrip(e.length); }
    assert GetI32(s[12..16]) == e.uncompressLength by {
      assert s[12..16] == PutI32(e.uncompressLength);
      I32RoundTrip(e.uncompressLength);
    }
    assert GetI64(s[16..24]) == e.crc by { assert s[16..24] == PutI64(e.crc); I64RoundTrip(e.crc); }
    assert GetI64(s[24..32]) == e.blockId by { assert s[24..32] == PutI64(e.blockId); I64RoundTrip(e.blockId); }
    assert GetI64(s[32..40]) == e.taskAttemptId by {
      assert s[32..40] == PutI64(e.taskAttemptId);
      I64RoundTrip(e.taskAttemptId);
    }
  }

  function IndexBytes(entries: seq<Entry>): seq<Byte> { Encode(entries, PutEntry) }

  /** All complete entries of an index file; a torn tail is ignored. */
  function DecodeIndex(s: seq<Byte>): seq<Entry> { Decode(s, GetEntry, ENTRY_LEN) }

  lemma IndexBytesConcat(a: seq<Entry>, b: seq<Entry>)
    ensures IndexBytes(a + b) == IndexBytes(a) + IndexBytes(b)
  {
    EncodeConcat(a, b, PutEntry);
  }

  lemma EntryCodec()
    ensures Codec(PutEntry, GetEntry, ENTRY_LEN)
  {
    forall e: Entry ensures |PutEntry(e)| == ENTRY_LEN && GetEntry(PutEntry(e)) == e {
      EntryRoundTrip(e);
    }
  }

  lemma DecodeIndexBytes(entries: seq<Entry>, tail: seq<Byte>)
    ensures DecodeIndex(IndexBytes(entries) + tail) == entries + DecodeIndex(tail)
    ensures |IndexBytes(entries)| == ENTRY_LEN * |entries|
  {
    EntryCodec();
    DecodeEncode(entries, tail, PutEntry, GetEntry, ENTRY_LEN);
    EncodeLength(entries, PutEntry, GetEntry, ENTRY_LEN);
  }

  // ---- one batch ----

  function EntryOf(b: Block, offset: int): Entry {
    Entry(WrapI64(offset), b.length, b.uncompressLength, b.crc, b.blockId, b.taskAttemptId)
  }

  function Entries(blocks: seq<Block>, offset: int): (es: seq<Entry>)
    ensures |es| == |blocks|
  {
    if blocks == [] then [] else [EntryOf(blocks[0], offset)] + Entries(blocks[1..], offset + blocks[0].length)
  }

  function DataBytes(blocks: seq<Block>): seq<Byte> {
    if blocks == [] then [] else blocks[0].data + DataBytes(blocks[1..])
  }

  lemma {:induction false} EntriesConcat(a: seq<Block>, b: seq<Block>, offset: int)
    ensures Entries(a + b, offset) == Entries(a, offset) + Entries(b, offset + SumLength(a))
  {
    if a == [] {
      assert a + b == b;
    } else {
      assert (a + b)[1..] == a[1..] + b;
      EntriesConcat(a[1..], b, offset + a[0].length);
    }
  }

  lemma {:induction false} DataBytesConcat(a: seq<Block>, b: seq<Block>)
    ensures DataBytes(a + b) == DataBytes(a) + DataBytes(b)
  {
    if a == [] {
      assert a + b == b;
    } else {
      assert (a + b)[1..] == a[1..] + b;
      DataBytesConcat(a[1..], b);
    }
  }

  lemma {:induction false} EntriesSnoc(a: seq<Block>, b: Block, offset: int)
    ensures Entries(a + [b], offset) == Entries(a, offset) + [EntryOf(b, offset + SumLength(a))]
  {
    EntriesConcat(a, [b], offset);
    assert Entries([b], offset + SumLength(a)) == [EntryOf(b, offset + SumLength(a))];
  }

  lemma {:induction false} DataBytesSnoc(a: seq<Block>, b: Block)
    ensures DataBytes(a + [b]) == DataBytes(a) + b.data
  {
    DataBytesConcat(a, [b]);
    assert DataBytes([b]) == b.data + DataBytes([]);
  }

  lemma {:induction false} DataLength(blocks: seq<Block>)
    requires forall b | b in blocks :: Honest(b)
    ensures |DataBytes(blocks)| == SumLength(blocks)
  {
    if blocks != [] {
      assert blocks[0] in blocks;
      DataLength(blocks[1..]);
    }
  }

  lemma {:induction false} DataBytesSplit(blocks: seq<Block>, i: nat)
    requires i < |blocks|
    ensures DataBytes(blocks) == DataBytes(blocks[..i]) + blocks[i].data + DataBytes(blocks[i + 1..])
  {
    var a, c := blocks[..i], blocks[i..];
    assert DataBytes(c) == blocks[i].data + DataBytes(blocks[i + 1..]) by {
      assert c[1..] == blocks[i + 1..];
    }
    assert blocks == a + c;
    DataBytesConcat(a, c);
    Assoc(DataBytes(a), blocks[i].data, DataBytes(blocks[i + 1..]));
  }

  lemma {:induction false} EntryAt(blocks: seq<Block>, offset: int, i: nat)
    requires i < |blocks|
    ensures Entries(blocks, offset)[i] == EntryOf(blocks[i], offset + SumLength(blocks[..i]))
  {
    if i > 0 {
      EntryAt(blocks[1..], offset + blocks[0].length, i - 1);
      assert blocks[..i][1..] == blocks[1..][..i - 1];
    }
  }

  /** The entry describes the block, and the bytes it points at are the block's. */
  ghost predicate PointsAt(e: Entry, data: seq<Byte>, b: Block) {
    && e.length == b.length && e.uncompressLength == b.uncompressLength && e.crc == b.crc
    && e.blockId == b.blockId && e.taskAttemptId == b.taskAttemptId
    && 0 <= e.offset && e.length >= 0 && e.offset + e.length <= |data|
    && data[e.offset..e.offset + e.length] == b.data
  }

  lemma SliceInside(before: seq<Byte>, a: seq<Byte>, b: seq<Byte>, rest: seq<Byte>, after: seq<Byte>)
    ensures (before + (a + b + rest) + after)[|before| + |a|..|before| + |a| + |b|] == b
  {
    assert before + (a + b + rest) + after == before + a + b + (rest + after);
    Middle(before + a, b, rest + after);
  }

  lemma PointsAtSlice(b: Block, before: seq<Byte>, left: seq<Byte>, right: seq<Byte>, after: seq<Byte>)
    requires Honest(b) && |before| + |left| < 0x8000_0000_0000_0000
    ensures PointsAt(EntryOf(b, |before| + |left|), before + (left + b.data + right) + after, b)
  {
    SliceInside(before, left, b.data, right, after);
  }

  /** A batch laid out at the end of a data file points at its own bytes. */
  lemma {:induction false} BatchPointsAt(before: seq<Byte>, blocks: seq<Block>, after: seq<Byte>, i: nat)
    requires i < |blocks| && forall b | b in blocks :: Honest(b)
    requires |before| + |DataBytes(blocks)| < 0x8000_0000_0000_0000
    ensures PointsAt(Entries(blocks, |before|)[i], before + DataBytes(blocks) + after, blocks[i])
  {
    var left, right := DataBytes(blocks[..i]), DataBytes(blocks[i + 1..]);
    DataBytesSplit(blocks, i);
    DataLength(blocks[..i]);
    EntryAt(blocks, |before|, i);
    assert Honest(blocks[i]) by { assert blocks[i] in blocks; }
    PointsAtSlice(blocks[i], before, left, right, after);
  }

  /** Offsets that agree modulo 2^64 give the same entries. */
  lemma {:induction false} EntriesWrap(blocks: seq<Block>, offset: int)
    ensures Entries(blocks, WrapI64(offset)) == Entries(blocks, offset)
  {
    if blocks != [] {
      var n := blocks[0].length;
      WrapI64Add(offset, n);
      EntriesWrap(blocks[1..], offset + n);
      EntriesWrap(blocks[1..], WrapI64(offset) + n);
    }
  }

  /** Laying out a second batch where the first one ended gives the layout of both. */
  lemma {:induction false} LayoutConcat(a: seq<Block>, b: seq<Block>, offset: I64)
    requires offset == WrapI64(SumLength(a))
    ensures DataBytes(a + b) == DataBytes(a) + DataBytes(b)
    ensures IndexBytes(Entries(a + b, 0)) == IndexBytes(Entries(a, 0)) + IndexBytes(Entries(b, offset))
    ensures WrapI64(SumLength(a + b)) == WrapI64(offset + SumLength(b))
  {
    DataBytesConcat(a, b);
    SumLengthConcat(a, b);
    WrapI64Add(SumLength(a), SumLength(b));
    EntriesConcat(a, b, 0);
    EntriesWrap(b, SumLength(a));
    IndexBytesConcat(Entries(a, 0), Entries(b, SumLength(a)));
  }

  /** The i-th 40 bytes of an index file: where the block starts, then its own fields, at fixed places. */
  ghost predicate RecordAt(index: seq<Byte>, i: nat, offset: I64, b: Block) {
    && 40 * i + 40 <= |index|
    && GetI64(index[40 * i..40 * i + 8]) == offset
    && GetI32(index[40 * i + 8..40 * i + 12]) == b.length
    && GetI32(index[40 * i + 12..40 * i + 16]) == b.uncompressLength
    && GetI64(index[40 * i + 16..40 * i + 24]) == b.crc
    && GetI64(index[40 * i + 24..40 * i + 32]) == b.blockId
    && GetI64(index[40 * i + 32..40 * i + 40]) == b.taskAttemptId
  }

  /** Record for record, what a batch that starts at an offset leaves in the index file. */
  ghost predicate RecordsOf(index: seq<Byte>, blocks: seq<Block>, offset: int) {
    && |index| == 40 * |blocks|
    && forall i: nat | i < |blocks| :: RecordAt(index, i, WrapI64(offset + SumLength(blocks[..i])), blocks[i])
  }

  lemma RecordOfEntry(index: seq<Byte>, i: nat, b: Block, offset: int)
    requires 40 * i + 40 <= |index|
    requires index[40 * i..40 * i + 40] == PutEntry(EntryOf(b, offset))
    ensures RecordAt(index, i, WrapI64(offset), b)
  {
    var e := EntryOf(b, offset);
    EntryRoundTrip(e);
    var s, k := PutEntry(e), 40 * i;
    assert s == index[k..k + 40];
    SubSlice(index, k, 0, 8);
    SubSlice(index, k, 8, 12);
    SubSlice(index, k, 12, 16);
    SubSlice(index, k, 16, 24);
    SubSlice(index, k, 24, 32);
    SubSlice(index, k, 32, 40);
  }

  lemma SubSlice(s: seq<Byte>, k: nat, i: nat, j: nat)
    requires i <= j <= 40 && k + 40 <= |s|
    ensures s[k..k + 40][i..j] == s[k + i..k + j]
  {
    var t := s[k..k + 40];
    assert forall n | i <= n < j :: t[n] == s[k + n];
    assert forall n | 0 <= n < j - i :: t[i..j][n] == s[k + i..k + j][n];
  }

  lemma {:induction false} IndexRecord(blocks: seq<Block>, offset: int, i: nat)
    requires i < |blocks|
    ensures RecordAt(IndexBytes(Entries(blocks, offset)), i, WrapI64(offset + SumLength(blocks[..i])), blocks[i])
  {
    EntryCodec();
    EncodeAt(Entries(blocks, offset), PutEntry, GetEntry, ENTRY_LEN, i);
    EntryAt(blocks, offset, i);
    RecordOfEntry(IndexBytes(Entries(blocks, offset)), i, blocks[i], offset + SumLength(blocks[..i]));
  }

  lemma {:induction false} IndexRecords(blocks: seq<Block>, offset: int)
    ensures RecordsOf(IndexBytes(Entries(blocks, offset)), blocks, offset)
  {
    DecodeIndexBytes(Entries(blocks, offset), []);
    forall i: nat | i < |blocks|
      ensures RecordAt(IndexBytes(Entries(blocks, offset)), i, WrapI64(offset + SumLength(blocks[..i])), blocks[i])
    {
      IndexRecord(blocks, offset, i);
    }
  }

  datatype ShuffleFileFormat = ShuffleFileFormat(chunks: seq<seq<Byte>>, index: seq<Byte>, len: nat, offset: I64)

  method GenerateShuffleFileFormat(blocks: seq<Block>, offset: I64) returns (f: ShuffleFileFormat)
    ensures RecordsOf(f.index, blocks, offset)
    ensures f.index == IndexBytes(Entries(blocks, offset))
    ensures Flatten(f.chunks) == DataBytes(blocks)
    ensures f.offset == WrapI64(offset + SumLength(blocks)) && f.len == AsU64(SumLength(blocks))
  {
    f := ShuffleFileFormat([], [], 0, offset);
    for i := 0 to |blocks|
      invariant Formats(f, blocks[..i], offset)
    {
      assert blocks[..i + 1] == blocks[..i] + [blocks[i]];
      FormatsSnoc(f, blocks[..i], blocks[i], offset);
      f := PutBlock(f, blocks[i]);
    }
    assert blocks[..|blocks|] == blocks;
    IndexRecords(blocks, offset);
  }

  /** One turn of the loop: an entry, a chunk, and the two running totals. */
  function PutBlock(f: ShuffleFileFormat, b: Block): ShuffleFileFormat {
    ShuffleFileFormat(
      f.chunks + [b.data], f.index + PutEntry(EntryOf(b, f.offset)),
      AsU64(f.len + AsU64(b.length)), WrapI64(f.offset + b.length))
  }

  /** What the loop has produced for the blocks visited so far. */
  ghost predicate Formats(f: ShuffleFileFormat, blocks: seq<Block>, offset: I64) {
    && f.index == IndexBytes(Entries(blocks, offset))
    && Flatten(f.chunks) == DataBytes(blocks)
    && f.offset == WrapI64(offset + SumLength(blocks))
    && f.len == AsU64(SumLength(blocks))
  }

  lemma FormatsSnoc(f: ShuffleFileFormat, a: seq<Block>, b: Block, offset: I64)
    requires Formats(f, a, offset)
    ensures Formats(PutBlock(f, b), a + [b], offset)
  {
    TotalsSnoc(f, a, b, offset);
    IndexSnoc(a, b, offset);
  }

  lemma {:induction false} TotalsSnoc(f: ShuffleFileFormat, a: seq<Block>, b: Block, offset: I64)
    requires Formats(f, a, offset)
    ensures Flatten(f.chunks + [b.data]) == DataBytes(a + [b])
    ensures WrapI64(f.offset + b.length) == WrapI64(offset + SumLength(a + [b]))
    ensures AsU64(f.len + AsU64(b.length)) == AsU64(SumLength(a + [b]))
  {
    SumLengthSnoc(a, b);
    FlattenSnoc(f.chunks, b.data);
    DataBytesSnoc(a, b);
    WrapI64Add(offset + SumLength(a), b.length);
    AsU64Add(SumLength(a), b.length);
  }

  lemma {:induction false} IndexSnoc(a: seq<Block>, b: Block, offset: int)
    ensures IndexBytes(Entries(a + [b], offset))
         == IndexBytes(Entries(a, offset)) + PutEntry(EntryOf(b, WrapI64(offset + SumLength(a))))
  {
    EntriesSnoc(a, b, offset);
    EncodeSnoc(Entries(a, offset), EntryOf(b, offset + SumLength(a)), PutEntry);
  }

  // ---- stable order by task attempt id ----

  function InsertByTask(x: Block, s: seq<Block>): seq<Block> {
    if s == [] || x.taskAttemptId <= s[0].taskAttemptId then [x] + s else [s[0]] + InsertByTask(x, s[1..])
  }

  /** `sort_by_key(|block| block.task_attempt_id)`. */
  function SortByTask(s: seq<Block>): seq<Block> {
    if s == [] then [] else InsertByTask(s[0], SortByTask(s[1..]))
  }

  function OfTask(s: seq<Block>, t: I64): seq<Block> {
    if s == [] then [] else
      var rest := OfTask(s[1..], t);
      if s[0].taskAttemptId == t then [s[0]] + rest else rest
  }

  ghost predicate SortedByTask(s: seq<Block>) {
    forall i, j | 0 <= i < j < |s| :: s[i].taskAttemptId <= s[j].taskAttemptId
  }

  /** A stable arrangement of a batch: ordered by task, every task's blocks in their old order. */
  ghost predicate StableByTask(a: seq<Block>, s: seq<Block>) {
    SortedByTask(a) && forall t: I64 :: OfTask(a, t) == OfTask(s, t)
  }

  lemma {:induction false} InsertSorted(x: Block, s: seq<Block>)
    requires SortedByTask(s)
    ensures SortedByTask(InsertByTask(x, s))
    ensures forall b :: b in InsertByTask(x, s) <==> b == x || b in s
  {
    if s != [] && x.taskAttemptId > s[0].taskAttemptId {
      InsertSorted(x, s[1..]);
      var r := InsertByTask(x, s[1..]);
      forall j | 0 <= j < |r| ensures s[0].taskAttemptId <= r[j].taskAttemptId {
        assert r[j] in r;
      }
      assert s == [s[0]] + s[1..];
    }
  }

  lemma {:induction false} InsertOfTask(x: Block, s: seq<Block>, t: I64)
    requires SortedByTask(s)
    ensures OfTask(InsertByTask(x, s), t) == OfTask([x] + s, t)
  {
    assert ([x] + s)[1..] == s;
    if s != [] && x.taskAttemptId > s[0].taskAttemptId {
      InsertOfTask(x, s[1..], t);
      assert ([x] + s[1..])[1..] == s[1..];
      var r := InsertByTask(x, s);
      assert r[0] == s[0] && r[1..] == InsertByTask(x, s[1..]);
    }
  }

  lemma {:induction false} SortIsStable(s: seq<Block>)
    ensures StableByTask(SortByTask(s), s)
    ensures forall b :: b in SortByTask(s) <==> b in s
    ensures multiset(SortByTask(s)) == multiset(s)
  {
    if s != [] {
      var r := SortByTask(s[1..]);
      SortIsStable(s[1..]);
      InsertSorted(s[0], r);
      InsertMultiset(s[0], r);
      assert s == [s[0]] + s[1..];
      forall t: I64 ensures OfTask(SortByTask(s), t) == OfTask(s, t) {
        InsertOfTask(s[0], r, t);
        assert ([s[0]] + r)[1..] == r;
      }
    }
  }

  lemma {:induction false} InsertMultiset(x: Block, s: seq<Block>)
    ensures multiset(InsertByTask(x, s)) == multiset(s) + multiset{x}
  {
    if s != [] && x.taskAttemptId > s[0].taskAttemptId {
      InsertMultiset(x, s[1..]);
      assert s == [s[0]] + s[1..];
    }
  }

  lemma {:induction false} OfTaskHead(s: seq<Block>, t: I64)
    requires OfTask(s, t) != []
    ensures exists i | 0 <= i < |s| :: s[i].taskAttemptId == t
  {
    if forall i | 0 <= i < |s| :: s[i].taskAttemptId != t {
      OfTaskNone(s, t);
      assert false;
    }
  }

  lemma {:induction false} OfTaskNone(s: seq<Block>, t: I64)
    requires forall i | 0 <= i < |s| :: s[i].taskAttemptId != t
    ensures OfTask(s, t) == []
  {
    if s != [] {
      OfTaskNone(s[1..], t);
    }
  }

  /** There is only one stable arrangement, so this is what any stable sort returns. */
  lemma {:induction false} StableIsUnique(a: seq<Block>, b: seq<Block>)
    requires SortedByTask(a) && SortedByTask(b) && forall t: I64 :: OfTask(a, t) == OfTask(b, t)
    ensures a == b
    decreases |a|
  {
    if a == [] {
      assert b != [] ==> |OfTask(b, b[0].taskAttemptId)| > 0;
    } else {
      var t := a[0].taskAttemptId;
      assert OfTask(a, t) != [];
      OfTaskHead(b, t);
      OfTaskHead(a, b[0].taskAttemptId);
      assert b[0].taskAttemptId == t;
      assert OfTask(a, t)[0] == a[0] && OfTask(b, t)[0] == b[0];
      forall u: I64 ensures OfTask(a[1..], u) == OfTask(b[1..], u) {
        assert OfTask(a, u) == OfTask(b, u);
        if u == t {
          assert OfTask(a, u)[1..] == OfTask(a[1..], u) && OfTask(b, u)[1..] == OfTask(b[1..], u);
        }
      }
      StableIsUnique(a[1..], b[1..]);
    }
  }
}
