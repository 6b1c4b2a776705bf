/** The local-file store: one index/data file pair per partition, appended to under the partition's
    lock, with the next offset kept in memory. */
module LocalFile {
  import opened Bytes
  import opened Blocks
  import opened Records
  import opened FileFormat
  import opened Paths

  /** What an append did: everything, or an error after some prefix of the bytes. */
  datatype Append = Done | Failed(written: nat)

  /** What the checks before the appends found. */
  datatype Check = Fine | NoDisk | Refused

  /** `partition_locks` (the next offset of every known partition) and the files on disk. */
  datatype Local = Local(pointers: map<string, I64>, files: map<string, seq<Byte>>)

  /** One `spill_insert` and the outcome of its checks and appends. */
  datatype Op = Op(uid: Uid, batch: Batch, check: Check, data: Append, index: Append)

  datatype ReadResult = Data(bytes: seq<Byte>) | ReadError | DiskCorrupted

  const EMPTY := Local(map[], map[])

  function Written(bytes: seq<Byte>, a: Append): (w: seq<Byte>)
    ensures w <= bytes && (a.Done? ==> w == bytes) && (a.Failed? && a.written <= |bytes| ==> |w| == a.written)
  {
    if a.Failed? && a.written < |bytes| then bytes[..a.written] else bytes
  }

  function Appended(files: map<string, seq<Byte>>, path: string, bytes: seq<Byte>, a: Append): map<string, seq<Byte>> {
    files[path := Contents(files, path) + Written(bytes, a)]
  }

  function PointerAt(s: Local, key: string): I64 {
    if key in s.pointers then s.pointers[key] else 0
  }

  function Pointer(s: Local, uid: Uid): I64 { PointerAt(s, LocalDataFile(uid)) }

  function Order(batch: Batch): seq<Block> { SortByTask(Flatten(batch)) }

  /** Data first, then index, then the next offset; the first failure stops the sequence. */
  function AppendPair(
    s: Local, key: string, indexFile: string, bytes: seq<Byte>, entries: seq<Byte>, next: I64, data: Append, index: Append): (Local, bool)
  {
    var s1 := s.(files := Appended(s.files, key, bytes, data));
    if data.Failed? then (s1, false) else
      var s2 := s1.(files := Appended(s1.files, indexFile, entries, index));
      if index.Failed? then (s2, false) else
        (s2.(pointers := s2.pointers[key := next]), true)
  }

  /** `data_insert` on the ordered blocks, for the given pair of files. */
  function InsertAt(s: Local, key: string, indexFile: string, blocks: seq<Block>, check: Check, data: Append, index: Append): (Local, bool) {
    var at := PointerAt(s, key);
    if check.NoDisk? && key !in s.pointers then (s, false) else
      var s0 := s.(pointers := s.pointers[key := at]);
      if check.Refused? then (s0, false) else
        AppendPair(s0, key, indexFile, DataBytes(blocks), IndexBytes(Entries(blocks, at)), WrapI64(at + SumLength(blocks)), data, index)
  }

  function Perform(s: Local, op: Op): (Local, bool) {
    InsertAt(s, LocalDataFile(op.uid), LocalIndexFile(op.uid), Order(op.batch), op.check, op.data, op.index)
  }

  function After(s: Local, ops: seq<Op>): Local
    decreases |ops|
  {
    if ops == [] then s else Perform(After(s, ops[..|ops| - 1]), ops[|ops| - 1]).0
  }

  /** The disk is found: a partition that is already known keeps the disk it has. */
  predicate HasDisk(s: Local, op: Op) { op.check.NoDisk? ==> LocalDataFile(op.uid) in s.pointers }

  predicate Succeeds(s: Local, op: Op) { Perform(s, op).1 }

  /** The operation gives up before the first byte reaches the data file. */
  predicate Untouched(s: Local, op: Op) {
    !HasDisk(s, op) || op.check.Refused? || (op.data.Failed? && Written(DataBytes(Order(op.batch)), op.data) == [])
  }

  /** Every operation succeeds or leaves the files alone. */
  predicate Clean(ops: seq<Op>) {
    forall i: nat | i < |ops| :: SucceedsAt(ops, i) || Untouched(After(EMPTY, ops[..i]), ops[i])
  }

  /** What the operations that succeeded handed over to one partition, batch by batch. */
  function Kept(ops: seq<Op>, uid: Uid, of: Batch -> seq<Block>): seq<Block>
    decreases |ops|
  {
    if ops == [] then [] else
      var before, last := ops[..|ops| - 1], ops[|ops| - 1];
      Kept(before, uid, of) + (if last.uid == uid && Succeeds(After(EMPTY, before), last) then of(last.batch) else [])
  }

  /** The blocks of the successful batches of one partition, in file order. */
  function Stored(ops: seq<Op>, uid: Uid): seq<Block> { Kept(ops, uid, Order) }

  /** A pair of files is exactly the layout of the given blocks. */
  ghost predicate HoldsAt(s: Local, key: string, indexFile: string, blocks: seq<Block>) {
    && Contents(s.files, key) == DataBytes(blocks)
    && Contents(s.files, indexFile) == IndexBytes(Entries(blocks, 0))
    && PointerAt(s, key) == WrapI64(SumLength(blocks))
    && (blocks != [] ==> key in s.pointers)
  }

  ghost predicate Holds(s: Local, uid: Uid, blocks: seq<Block>) {
    HoldsAt(s, LocalDataFile(uid), LocalIndexFile(uid), blocks)
  }

  // ---- every clean run ----

  lemma InsertExtends(s: Local, key: string, indexFile: string, blocks: seq<Block>, more: seq<Block>, check: Check, data: Append, index: Append)
    requires key != indexFile && HoldsAt(s, key, indexFile, blocks)
    requires InsertAt(s, key, indexFile, more, check, data, index).1
    ensures HoldsAt(InsertAt(s, key, indexFile, more, check, data, index).0, key, indexFile, blocks + more)
  {
    LayoutConcat(blocks, more, PointerAt(s, key));
  }

  lemma InsertFrame(s: Local, key: string, indexFile: string, blocks: seq<Block>, check: Check, data: Append, index: Append, k: string, x: string)
    requires k != key && k != indexFile && x != key && x != indexFile
    ensures var t := InsertAt(s, key, indexFile, blocks, check, data, index).0;
      && Contents(t.files, k) == Contents(s.files, k) && Contents(t.files, x) == Contents(s.files, x)
      && PointerAt(t, k) == PointerAt(s, k)
  {
  }

  lemma {:induction false} InsertRefused(s: Local, key: string, indexFile: string, blocks: seq<Block>, more: seq<Block>, check: Check, data: Append, index: Append)
    requires key != indexFile && HoldsAt(s, key, indexFile, blocks)
    requires (check.NoDisk? && key !in s.pointers) || check.Refused? || (data.Failed? && Written(DataBytes(more), data) == [])
    ensures var r := InsertAt(s, key, indexFile, more, check, data, index);
      !r.1 && HoldsAt(r.0, key, indexFile, blocks)
  {
  }

  lemma CleanPrefix(ops: seq<Op>)
    requires Clean(ops) && ops != []
    ensures Clean(ops[..|ops| - 1])
  {
    var before := ops[..|ops| - 1];
    forall i: nat | i < |before| ensures SucceedsAt(before, i) || Untouched(After(EMPTY, before[..i]), before[i]) {
      assert before[..i] == ops[..i] && before[i] == ops[i];
      assert SucceedsAt(ops, i) || Untouched(After(EMPTY, ops[..i]), ops[i]);
    }
  }

  lemma {:induction false} CleanRunHolds(ops: seq<Op>, uid: Uid)
    requires Clean(ops)
    ensures Holds(After(EMPTY, ops), uid, Stored(ops, uid))
    decreases |ops|
  {
    if ops != [] {
      var before := ops[..|ops| - 1];
      CleanPrefix(ops);
      CleanRunHolds(before, uid);
      assert SucceedsAt(ops, |ops| - 1) || Untouched(After(EMPTY, before), ops[|ops| - 1]);
      CleanStepHolds(After(EMPTY, before), ops[|ops| - 1], uid, Stored(before, uid));
    }
  }

  lemma CleanStepHolds(s: Local, op: Op, uid: Uid, blocks: seq<Block>)
    requires Holds(s, uid, blocks) && (Succeeds(s, op) || Untouched(s, op))
    ensures Holds(Perform(s, op).0, uid, blocks + (if op.uid == uid && Succeeds(s, op) then Order(op.batch) else []))
  {
    var key, x, more := LocalDataFile(op.uid), LocalIndexFile(op.uid), Order(op.batch);
    LocalFilesInjective(uid, op.uid);
    LocalFilesInjective(op.uid, uid);
    if op.uid == uid && Succeeds(s, op) {
      InsertExtends(s, key, x, blocks, more, op.check, op.data, op.index);
    } else {
      assert blocks + [] == blocks;
      if op.uid == uid {
        InsertRefused(s, key, x, blocks, more, op.check, op.data, op.index);
      } else {
        InsertFrame(s, key, x, more, op.check, op.data, op.index, LocalDataFile(uid), LocalIndexFile(uid));
      }
    }
  }

  // ---- what a reader gets ----

  /** `get`: the slice of the data file; short reads are errors. */
  function Read(s: Local, key: string, offset: I64, len: I64): ReadResult {
    if len == 0 || key !in s.pointers then Data([])
    else if key !in s.files || offset < 0 || len < 0 || offset + len > |s.files[key]| then ReadError
    else Data(s.files[key][offset..offset + len])
  }

  /** `get_index`: the raw index file and the recorded length of the data file. */
  function ReadIndex(s: Local, key: string, indexFile: string): (ReadResult, I64) {
    if key !in s.pointers then (Data([]), 0)
    else if indexFile !in s.files then (ReadError, PointerAt(s, key))
    else (Data(s.files[indexFile]), PointerAt(s, key))
  }

  /** Entries that cover a range of the data file from left to right without gap or overlap. */
  ghost predicate Tiles(entries: seq<Entry>, from: int, to: int) {
    if entries == [] then from == to else
      entries[0].offset == from && entries[0].length >= 0 && Tiles(entries[1..], from + entries[0].length, to)
  }

  lemma {:induction false} EntriesTile(blocks: seq<Block>, from: nat)
    requires forall b | b in blocks :: Honest(b)
    requires from + SumLength(blocks) < 0x8000_0000_0000_0000
    ensures Tiles(Entries(blocks, from), from, from + SumLength(blocks))
  {
    if blocks != [] {
      assert blocks[0] in blocks;
      DataLength(blocks[1..]);
      EntriesTile(blocks[1..], from + blocks[0].length);
      assert Entries(blocks, from)[1..] == Entries(blocks[1..], from + blocks[0].length);
    }
  }

  lemma DecodeHeld(entries: seq<Entry>)
    ensures DecodeIndex(IndexBytes(entries)) == entries && |IndexBytes(entries)| == ENTRY_LEN * |entries|
  {
    DecodeIndexBytes(entries, []);
    assert IndexBytes(entries) + [] == IndexBytes(entries);
    assert entries + DecodeIndex([]) == entries;
  }

  /** The entry's read returns the block's bytes. */
  lemma {:induction false} ReadsBack(s: Local, key: string, indexFile: string, blocks: seq<Block>, i: nat)
    requires HoldsAt(s, key, indexFile, blocks) && i < |blocks|
    requires (forall b | b in blocks :: Honest(b)) && |DataBytes(blocks)| < 0x8000_0000_0000_0000
    ensures var e := Entries(blocks, 0)[i];
      PointsAt(e, DataBytes(blocks), blocks[i]) && Read(s, key, e.offset, e.length) == Data(blocks[i].data)
  {
    BatchPointsAt([], blocks, [], i);
    assert [] + DataBytes(blocks) + [] == DataBytes(blocks);
    ReadAt(s, key, Entries(blocks, 0)[i], blocks[i]);
  }

  lemma ReadAt(s: Local, key: string, e: Entry, b: Block)
    requires PointsAt(e, Contents(s.files, key), b) && Honest(b) && key in s.pointers
    ensures Read(s, key, e.offset, e.length) == Data(b.data)
  {
  }

  /** What a reader of one partition's files is promised. */
  ghost predicate Readable(s: Local, key: string, indexFile: string, blocks: seq<Block>) {
    var data, entries := Contents(s.files, key), DecodeIndex(Contents(s.files, indexFile));
    && |entries| == |blocks| && |Contents(s.files, indexFile)| == ENTRY_LEN * |entries|
    && (forall i | 0 <= i < |blocks| :: PointsAt(entries[i], data, blocks[i]))
    && (forall i | 0 <= i < |blocks| :: Read(s, key, entries[i].offset, entries[i].length) == Data(blocks[i].data))
    && Tiles(entries, 0, |data|) && PointerAt(s, key) == |data|
  }

  lemma {:induction false} HeldIsReadable(s: Local, key: string, indexFile: string, blocks: seq<Block>)
    requires HoldsAt(s, key, indexFile, blocks)
    requires (forall b | b in blocks :: Honest(b)) && SumLength(blocks) < 0x8000_0000_0000_0000
    ensures Readable(s, key, indexFile, blocks)
  {
    DecodeHeld(Entries(blocks, 0));
    DataLength(blocks);
    EntriesTile(blocks, 0);
    forall i | 0 <= i < |blocks|
      ensures PointsAt(Entries(blocks, 0)[i], DataBytes(blocks), blocks[i])
      ensures Read(s, key, Entries(blocks, 0)[i].offset, Entries(blocks, 0)[i].length) == Data(blocks[i].data)
    {
      ReadsBack(s, key, indexFile, blocks, i);
    }
  }

  /** After any number of clean batches, over any number of partitions, the index decodes to one entry
      per stored block, every entry's read returns that block's bytes, the entries tile the data file and
      the recorded next offset is its length. */
  lemma {:induction false} LocalFilesReadBack(ops: seq<Op>, uid: Uid)
    requires Clean(ops)
    requires forall b | b in Stored(ops, uid) :: Honest(b)
    requires SumLength(Stored(ops, uid)) < 0x8000_0000_0000_0000
    ensures Readable(After(EMPTY, ops), LocalDataFile(uid), LocalIndexFile(uid), Stored(ops, uid))
  {
    CleanRunHolds(ops, uid);
    HeldIsReadable(After(EMPTY, ops), LocalDataFile(uid), LocalIndexFile(uid), Stored(ops, uid));
  }

  /** After every clean run `get_index` hands out the index file: one record per stored block, each
      pointing at its block in the data file, together with the data file's length. */
  lemma {:induction false} IndexReadBack(ops: seq<Op>, uid: Uid)
    requires Clean(ops) && Stored(ops, uid) != []
    requires forall b | b in Stored(ops, uid) :: Honest(b)
    requires SumLength(Stored(ops, uid)) < 0x8000_0000_0000_0000
    ensures var s, blocks := After(EMPTY, ops), Stored(ops, uid);
            var (r, n) := ReadIndex(s, LocalDataFile(uid), LocalIndexFile(uid));
            && r.Data? && |r.bytes| == 40 * |blocks| == 40 * |DecodeIndex(r.bytes)|
            && n == |Contents(s.files, LocalDataFile(uid))|
            && forall i | 0 <= i < |blocks| ::
                 PointsAt(DecodeIndex(r.bytes)[i], Contents(s.files, LocalDataFile(uid)), blocks[i])
  {
    CleanRunHolds(ops, uid);
    LocalFilesReadBack(ops, uid);
  }

  lemma InsertRemembers(s: Local, key: string, indexFile: string, blocks: seq<Block>, check: Check, data: Append, index: Append, k: string)
    ensures k in InsertAt(s, key, indexFile, blocks, check, data, index).0.pointers
            <==> k in s.pointers || (k == key && !check.NoDisk?)
  {
  }

  lemma PerformRemembers(s: Local, op: Op, uid: Uid)
    ensures LocalDataFile(uid) in Perform(s, op).0.pointers
            <==> LocalDataFile(uid) in s.pointers || (op.uid == uid && !op.check.NoDisk?)
  {
    LocalFilesInjective(uid, op.uid);
    InsertRemembers(s, LocalDataFile(op.uid), LocalIndexFile(op.uid), Order(op.batch), op.check, op.data, op.index,
                    LocalDataFile(uid));
  }

  /** Some insert of the partition has found a disk. */
  predicate FoundDisk(ops: seq<Op>, uid: Uid)
    decreases |ops|
  {
    ops != [] && (FoundDisk(ops[..|ops| - 1], uid) || (ops[|ops| - 1].uid == uid && !ops[|ops| - 1].check.NoDisk?))
  }

  lemma {:induction false} FoundDiskAt(ops: seq<Op>, uid: Uid)
    ensures FoundDisk(ops, uid) <==> exists i | 0 <= i < |ops| :: ops[i].uid == uid && !ops[i].check.NoDisk?
    decreases |ops|
  {
    if ops != [] {
      var before := ops[..|ops| - 1];
      FoundDiskAt(before, uid);
      assert forall i | 0 <= i < |before| :: before[i] == ops[i];
    }
  }

  /** A partition is known exactly from then on. */
  lemma {:induction false} KnownPartition(ops: seq<Op>, uid: Uid)
    ensures LocalDataFile(uid) in After(EMPTY, ops).pointers <==> FoundDisk(ops, uid)
    decreases |ops|
  {
    if ops != [] {
      var before := ops[..|ops| - 1];
      KnownPartition(before, uid);
      PerformRemembers(After(EMPTY, before), ops[|ops| - 1], uid);
    }
  }

  /** Until then both reads answer with nothing, and the index answer gives the length 0. */
  lemma {:induction false} UnknownReadsEmpty(ops: seq<Op>, uid: Uid, offset: I64, len: I64)
    requires forall i | 0 <= i < |ops| && ops[i].uid == uid :: ops[i].check.NoDisk?
    ensures var s := After(EMPTY, ops);
      && ReadIndex(s, LocalDataFile(uid), LocalIndexFile(uid)) == (Data([]), 0)
      && Read(s, LocalDataFile(uid), offset, len) == Data([])
  {
    FoundDiskAt(ops, uid);
    KnownPartition(ops, uid);
  }

  /** The stored blocks are those of the successful batches, each batch stably ordered by task. */
  lemma {:induction false} BatchOrder(batch: Batch)
    ensures StableByTask(Order(batch), Flatten(batch)) && multiset(Order(batch)) == multiset(Flatten(batch))
  {
    SortIsStable(Flatten(batch));
  }

  /** The files hold exactly what the successful batches of the partition handed over. */
  lemma {:induction false} StoredIsHanded(ops: seq<Op>, uid: Uid)
    ensures multiset(Stored(ops, uid)) == multiset(Kept(ops, uid, Flatten))
    decreases |ops|
  {
    if ops != [] {
      StoredIsHanded(ops[..|ops| - 1], uid);
      BatchOrder(ops[|ops| - 1].batch);
    }
  }

  lemma {:induction false} OrderMember(batch: Batch, x: Block)
    ensures x in Order(batch) <==> x in Flatten(batch)
  {
    BatchOrder(batch);
    assert x in multiset(Order(batch)) <==> x in multiset(Flatten(batch));
  }

  predicate SucceedsAt(ops: seq<Op>, i: nat) { i < |ops| && Succeeds(After(EMPTY, ops[..i]), ops[i]) }

  lemma StoredGrows(ops: seq<Op>, uid: Uid, x: Block)
    requires ops != []
    ensures x in Stored(ops[..|ops| - 1], uid) ==> x in Stored(ops, uid)
  {
  }

  lemma StoredLast(ops: seq<Op>, x: Block)
    requires ops != [] && SucceedsAt(ops, |ops| - 1) && x in Flatten(ops[|ops| - 1].batch)
    ensures x in Stored(ops, ops[|ops| - 1].uid)
  {
    OrderMember(ops[|ops| - 1].batch, x);
  }

  lemma SucceedsBefore(ops: seq<Op>, i: nat)
    requires SucceedsAt(ops, i) && i < |ops| - 1
    ensures SucceedsAt(ops[..|ops| - 1], i) && ops[..|ops| - 1][i] == ops[i]
  {
    assert ops[..|ops| - 1][..i] == ops[..i];
  }

  /** Every block of a successful batch is among the blocks in the files. */
  lemma {:induction false} SuccessIsStored(ops: seq<Op>, i: nat, x: Block)
    requires SucceedsAt(ops, i) && x in Flatten(ops[i].batch)
    ensures x in Stored(ops, ops[i].uid)
    decreases |ops|
  {
    if i == |ops| - 1 {
      StoredLast(ops, x);
    } else {
      SucceedsBefore(ops, i);
      SuccessIsStored(ops[..|ops| - 1], i, x);
      StoredGrows(ops, ops[i].uid, x);
    }
  }

  // ---- the inspection tool ----

  /** The complete entries of an index account for every byte of the data file. */
  function RecordedLength(entries: seq<Entry>): int {
    if entries == [] then 0 else entries[0].length + RecordedLength(entries[1..])
  }

  lemma {:induction false} TilesLength(entries: seq<Entry>, from: int, to: int)
    requires Tiles(entries, from, to)
    ensures RecordedLength(entries) == to - from
  {
    if entries != [] {
      TilesLength(entries[1..], from + entries[0].length, to);
    }
  }

  lemma {:induction false} RecordedSnoc(entries: seq<Entry>, i: nat)
    requires i < |entries|
    ensures RecordedLength(entries[..i + 1]) == RecordedLength(entries[..i]) + entries[i].length
  {
    if i > 0 {
      RecordedSnoc(entries[1..], i - 1);
      assert entries[..i + 1][1..] == entries[1..][..i] && entries[..i][1..] == entries[1..][..i - 1];
    }
  }

  datatype Verdict = LengthMismatch(recorded: nat, actual: nat) | OutOfRange | Checked(badCrc: seq<nat>)

  predicate InRange(e: Entry, data: seq<Byte>) { 0 <= e.offset <= e.offset + e.length <= |data| }

  predicate BadCrc(e: Entry, data: seq<Byte>, crc: seq<Byte> -> I64) {
    InRange(e, data) && crc(data[e.offset..e.offset + e.length]) != e.crc
  }

  /** The tool's first pass: the recorded lengths, summed as `usize`. */
  method SumRecorded(entries: seq<Entry>) returns (expected: nat)
    ensures expected == AsU64(RecordedLength(entries))
  {
    expected := 0;
    for i := 0 to |entries|
      invariant expected == AsU64(RecordedLength(entries[..i]))
    {
      RecordedSnoc(entries, i);
      AsU64Add(RecordedLength(entries[..i]), entries[i].length);
      expected := AsU64(expected + AsU64(entries[i].length));
    }
    assert entries[..|entries|] == entries;
  }

  /** The tool's second pass: the positions of the entries whose slice has another checksum. */
  method CompareChecksums(entries: seq<Entry>, data: seq<Byte>, crc: seq<Byte> -> I64) returns (v: Verdict)
    ensures v.Checked? || v.OutOfRange?
    ensures v.Checked? ==> forall i: nat :: i in v.badCrc <==> i < |entries| && BadCrc(entries[i], data, crc)
    ensures v.Checked? ==> forall i: nat | i < |entries| ::
      var e := entries[i];
      && 0 <= e.offset <= e.offset + e.length <= |data|
      && (i in v.badCrc <==> crc(data[e.offset..e.offset + e.length]) != e.crc)
    ensures v.OutOfRange? <==> exists i :: 0 <= i < |entries| && !InRange(entries[i], data)
  {
    var bad: seq<nat> := [];
    for i := 0 to |entries|
      invariant forall k: nat :: k in bad <==> k < i && BadCrc(entries[k], data, crc)
      invariant forall k | 0 <= k < i :: InRange(entries[k], data)
    {
      if !InRange(entries[i], data) {
        return OutOfRange;
      }
      if BadCrc(entries[i], data, crc) {
        bad := bad + [i];
      }
    }
    v := Checked(bad);
  }

  method CheckFiles(index: seq<Byte>, data: seq<Byte>, crc: seq<Byte> -> I64) returns (v: Verdict)
    ensures v.LengthMismatch? <==> AsU64(RecordedLength(DecodeIndex(index))) != |data|
    ensures v.Checked? ==> forall i: nat :: i in v.badCrc <==> i < |DecodeIndex(index)| && BadCrc(DecodeIndex(index)[i], data, crc)
    ensures v.Checked? ==> forall i: nat | i < |DecodeIndex(index)| ::
      var e := DecodeIndex(index)[i];
      && 0 <= e.offset <= e.offset + e.length <= |data|
      && (i in v.badCrc <==> crc(data[e.offset..e.offset + e.length]) != e.crc)
    ensures !v.LengthMismatch? ==>
      (v.OutOfRange? <==> exists i :: 0 <= i < |DecodeIndex(index)| && !InRange(DecodeIndex(index)[i], data))
  {
    var entries := DecodeIndex(index);
    var expected := SumRecorded(entries);
    if expected != |data| {
      return LengthMismatch(expected, |data|);
    }
    v := CompareChecksums(entries, data, crc);
  }

  /** The tool finds nothing wrong with the files of a clean run whose blocks carry true checksums. */
  lemma {:induction false} ToolAcceptsCleanFiles(ops: seq<Op>, uid: Uid, crc: seq<Byte> -> I64)
    requires Clean(ops) && SumLength(Stored(ops, uid)) < 0x8000_0000_0000_0000
    requires forall b | b in Stored(ops, uid) :: Honest(b) && b.crc == crc(b.data)
    ensures
      var s := After(EMPTY, ops);
      var data, entries := Contents(s.files, LocalDataFile(uid)), DecodeIndex(Contents(s.files, LocalIndexFile(uid)));
      && AsU64(RecordedLength(entries)) == |data|
      && forall i | 0 <= i < |entries| :: InRange(entries[i], data) && !BadCrc(entries[i], data, crc)
  {
    LocalFilesReadBack(ops, uid);
    var s, blocks := After(EMPTY, ops), Stored(ops, uid);
    var data, entries := Contents(s.files, LocalDataFile(uid)), DecodeIndex(Contents(s.files, LocalIndexFile(uid)));
    TilesLength(entries, 0, |data|);
    forall i | 0 <= i < |entries| ensures InRange(entries[i], data) && !BadCrc(entries[i], data, crc) {
      assert PointsAt(entries[i], data, blocks[i]) && blocks[i] in blocks;
    }
  }

  // ---- half-failed appends ----

  /** The recorded next offset is the end of the data file. */
  ghost predicate Aligned(s: Local, uid: Uid) { Pointer(s, uid) == |Contents(s.files, LocalDataFile(uid))| }

  /** A failing insert leaves the next offset aligned exactly when no byte reached the data file. */
  lemma FailureAlignment(s: Local, op: Op)
    requires Aligned(s, op.uid) && !Perform(s, op).1
    ensures Aligned(Perform(s, op).0, op.uid)
            <==> !HasDisk(s, op) || op.check.Refused? || Written(DataBytes(Order(op.batch)), op.data) == []
  {
    LocalFilesInjective(op.uid, op.uid);
  }

  // ---- the store ----

  class LocalFileStore {
    var pointers: map<string, I64>
    var files: map<string, seq<Byte>>

    constructor ()
      ensures View() == EMPTY
    {
      pointers, files := map[], map[];
    }

    function View(): Local
      reads this
    {
      Local(pointers, files)
    }

    method DataInsert(uid: Uid, blocks: seq<Block>, check: Check, data: Append, index: Append) returns (ok: bool)
      modifies this
      ensures (View(), ok) == old(InsertAt(View(), LocalDataFile(uid), LocalIndexFile(uid), blocks, check, data, index))
    {
      ok := InsertUnderLock(LocalDataFile(uid), LocalIndexFile(uid), blocks, check, data, index);
    }

    method InsertUnderLock(dataPath: string, indexPath: string, blocks: seq<Block>, check: Check, data: Append, index: Append)
      returns (ok: bool)
      modifies this
      ensures (View(), ok) == old(InsertAt(View(), dataPath, indexPath, blocks, check, data, index))
    {
      if dataPath !in pointers {
        if check.NoDisk? {
          return false;
        }
        pointers := pointers[dataPath := 0];
      }
      var nextOffset := pointers[dataPath];
      assert pointers == old(pointers)[dataPath := nextOffset];
      if check.Refused? {
        return false;
      }
      ok := WriteBlocks(dataPath, indexPath, blocks, nextOffset, data, index);
    }

    method WriteBlocks(dataPath: string, indexPath: string, blocks: seq<Block>, at: I64, data: Append, index: Append)
      returns (ok: bool)
      modifies this
      ensures (View(), ok) == old(AppendPair(View(), dataPath, indexPath, DataBytes(blocks), IndexBytes(Entries(blocks, at)),
                                             WrapI64(at + SumLength(blocks)), data, index))
    {
      var format := GenerateShuffleFileFormat(blocks, at);
      ok := WritePair(dataPath, indexPath, Flatten(format.chunks), format.index, format.offset, data, index);
    }

    method WritePair(
      dataPath: string, indexPath: string, bytes: seq<Byte>, entries: seq<Byte>, next: I64, data: Append, index: Append)
      returns (ok: bool)
      modifies this
      ensures (View(), ok) == old(AppendPair(View(), dataPath, indexPath, bytes, entries, next, data, index))
    {
      files := Appended(files, dataPath, bytes, data);
      if data.Failed? {
        return false;
      }
      files := Appended(files, indexPath, entries, index);
      if index.Failed? {
        return false;
      }
      pointers := pointers[dataPath := next];
      return true;
    }

    /** `insert`: an empty request touches nothing, others keep the caller's order. */
    method Insert(uid: Uid, blocks: seq<Block>, check: Check, data: Append, index: Append) returns (ok: bool)
      modifies this
      ensures blocks == [] ==> ok && View() == old(View())
      ensures blocks != [] ==>
        (View(), ok) == old(InsertAt(View(), LocalDataFile(uid), LocalIndexFile(uid), blocks, check, data, index))
    {
      if |blocks| <= 0 {
        return true;
      }
      ok := DataInsert(uid, blocks, check, data, index);
    }

    method SpillInsert(op: Op) returns (ok: bool)
      modifies this
      ensures (View(), ok) == Perform(old(View()), op)
    {
      var data: seq<Block> := [];
      for i := 0 to |op.batch|
        invariant data == Flatten(op.batch[..i])
        invariant View() == old(View())
      {
        for j := 0 to |op.batch[i]|
          invariant data == Flatten(op.batch[..i]) + op.batch[i][..j]
        {
          data := data + [op.batch[i][j]];
        }
        FlattenTake(op.batch, i);
      }
      assert op.batch[..|op.batch|] == op.batch;
      ok := DataInsert(op.uid, SortByTask(data), op.check, op.data, op.index);
    }

    /** Returns the bytes asked for, an empty answer for an empty or unknown range, or an error. A known
        partition on a corrupted disk is not read. */
    method Get(uid: Uid, offset: I64, len: I64, corrupted: bool) returns (r: ReadResult)
      ensures r == if corrupted && len != 0 && LocalDataFile(uid) in pointers then DiskCorrupted
                   else Read(View(), LocalDataFile(uid), offset, len)
      ensures len != 0 && LocalDataFile(uid) in pointers && !corrupted ==>
                var file := Contents(files, LocalDataFile(uid));
                && (r.Data? <==> 0 <= offset && 0 < len && offset + len <= |file|)
                && (r.Data? ==> |r.bytes| == len && forall i | 0 <= i < len :: r.bytes[i] == file[offset + i])
    {
      if len == 0 {
        return Data([]);
      }
      var path := LocalDataFile(uid);
      if path !in pointers {
        return Data([]);
      }
      if corrupted {
        return DiskCorrupted;
      }
      if path !in files || offset < 0 || len < 0 || offset + len > |files[path]| {
        return ReadError;
      }
      r := Data(files[path][offset..offset + len]);
    }

    method GetIndex(uid: Uid, corrupted: bool) returns (r: ReadResult, len: I64)
      ensures (r, len) == if corrupted && LocalDataFile(uid) in pointers then (DiskCorrupted, 0)
                          else ReadIndex(View(), LocalDataFile(uid), LocalIndexFile(uid))
      ensures LocalDataFile(uid) !in pointers ==> r == Data([]) && len == 0
      ensures LocalDataFile(uid) in pointers && !corrupted ==>
        && len == pointers[LocalDataFile(uid)]
        && r == (if LocalIndexFile(uid) in files then Data(files[LocalIndexFile(uid)]) else ReadError)
    {
      if LocalDataFile(uid) !in pointers {
        return Data([]), 0;
      }
      if corrupted {
        return DiskCorrupted, 0;
      }
      len := pointers[LocalDataFile(uid)];
      r := if LocalIndexFile(uid) in files then Data(files[LocalIndexFile(uid)]) else ReadError;
    }
  }
}
