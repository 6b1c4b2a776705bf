/** Whole runs of the concurrent HDFS writers: files only grow, every index entry tells the truth, a pair
    that saw a failure is never written again, and an acknowledged batch stays readable. */
module HdfsRuns {
  import opened Bytes
  import opened Blocks
  import opened Records
  import opened FileFormat
  import opened HdfsProtocol
  import opened HdfsSeats
  import opened HdfsInvariant
  import opened HdfsSteps

  // ---- dispatch ----

  /** A step on a lock changes only the lock and one idle writer. */
  lemma LockShape(s: State, a: Action)
    requires Enabled(s, a) && OnLock(a)
    ensures var t := Step(s, a);
      && t.pairs == s.pairs && t.meta == s.meta && a.w in t.writers && t.writers == s.writers[a.w := t.writers[a.w]]
      && !Busy(s.writers[a.w].phase) && WriterOk(t, t.writers[a.w])
  {
  }

  lemma LockActionKeepsContent(s: State, a: Action)
    requires Content(s) && Enabled(s, a) && OnLock(a)
    ensures Content(Step(s, a))
  {
    LockShape(s, a);
    IdleStep(s, Step(s, a), a.w);
  }

  lemma TouchActionKeepsContent(s: State, a: Action)
    requires Content(s) && Exclusive(s) && Enabled(s, a)
    requires Touches(a)
    ensures Content(Step(s, a))
  {
    var me := s.writers[a.w];
    var p := me.phase;
    TouchedPairIsFresh(s, a.w);
    assert WriterOk(s, me);
    match a
    case TouchData(w) => TouchKeeps(s, w, DataTouched(p.idx), PairId(SlotOf(me), 0));
    case TouchIndex(w) => TouchKeeps(s, w, FilesTouched(p.idx), PairId(SlotOf(me), 0));
    case RetouchData(w) => TouchKeeps(s, w, Retouched(p.idx, p.retry), PairId(SlotOf(me), p.retry));
    case RetouchIndex(w) => TouchKeeps(s, w, Leaving(p.idx, false), PairId(SlotOf(me), p.retry));
  }

  lemma MetaActionKeepsContent(s: State, a: Action)
    requires Content(s) && Exclusive(s) && Enabled(s, a)
    requires a.InsertMeta? || a.StoreOffset? || a.Rotate?
    ensures Content(Step(s, a))
  {
    match a
    case InsertMeta(w) => InsertMetaKeeps(s, w);
    case StoreOffset(w) => StoreOffsetKeeps(s, w);
    case Rotate(w) => RotateKeeps(s, w);
  }

  lemma AppendActionKeepsContent(s: State, a: Action)
    requires Content(s) && Exclusive(s) && Enabled(s, a) && Appends(a)
    ensures Content(Step(s, a))
  {
    match a
    case AppendData(w, n, ok) => AppendDataKeeps(s, w, n, ok);
    case AppendIndex(w, n, ok) => AppendIndexKeeps(s, w, n, ok);
  }

  lemma StartKeepsContent(s: State, w: nat, uid: Uid, blocks: seq<Block>)
    requires Content(s) && w !in s.writers
    ensures Content(StepStart(s, w, uid, blocks))
  {
    IdleStep(s, StepStart(s, w, uid, blocks), w);
  }

  lemma AbortKeepsContent(s: State, w: nat)
    requires Content(s) && Exclusive(s) && w in s.writers && Abortable(s.writers[w].phase)
    ensures Content(SetPhase(s, w, Leaving(s.writers[w].phase.idx, false)))
  {
    QuietStep(s, SetPhase(s, w, Leaving(s.writers[w].phase.idx, false)), w);
  }

  lemma PhaseActionKeepsContent(s: State, a: Action)
    requires Content(s) && Exclusive(s) && Enabled(s, a) && (a.Abort? || a.ReadMeta? || a.Start?)
    ensures Content(Step(s, a))
  {
    match a
    case Start(w, uid, blocks) => StartKeepsContent(s, w, uid, blocks);
    case Abort(w) => AbortKeepsContent(s, w);
    case ReadMeta(w) => ReadMetaKeeps(s, w);
  }

  predicate Touches(a: Action) { a.TouchData? || a.TouchIndex? || a.RetouchData? || a.RetouchIndex? }

  lemma StepKeepsContent(s: State, a: Action)
    requires Seats(s) && Content(s) && Enabled(s, a)
    ensures Content(Step(s, a))
  {
    SeatsExclude(s);
    if OnLock(a) {
      LockActionKeepsContent(s, a);
    } else if Touches(a) {
      TouchActionKeepsContent(s, a);
    } else if Appends(a) {
      AppendActionKeepsContent(s, a);
    } else if a.Abort? || a.ReadMeta? || a.Start? {
      PhaseActionKeepsContent(s, a);
    } else {
      MetaActionKeepsContent(s, a);
    }
  }

  // ---- files only grow ----

  ghost predicate Grows(p: Pair, q: Pair) {
    p.data <= q.data && p.index <= q.index && p.log <= q.log && (p.failed ==> q == p)
  }

  /** No append is ever aimed at a pair that has failed. */
  lemma TargetNotFailed(s: State, a: Action)
    requires Content(s) && Enabled(s, a) && Appends(a)
    ensures !PairOf(s, Target(s, a)).failed
  {
    assert WriterOk(s, s.writers[a.w]);
  }

  lemma QuietPairs(s: State, a: Action)
    requires Enabled(s, a) && !Appends(a) && !Touches(a)
    ensures Step(s, a).pairs == s.pairs
  {
  }

  lemma AppendPairs(s: State, a: Action)
    requires Enabled(s, a) && Appends(a)
    ensures var id, t := Target(s, a), Step(s, a);
      && t.pairs == s.pairs[id := PairOf(t, id)]
      && PairOf(s, id).data <= PairOf(t, id).data && PairOf(s, id).index <= PairOf(t, id).index
      && PairOf(s, id).log <= PairOf(t, id).log
  {
  }

  lemma TouchShape(s: State, a: Action)
    requires Enabled(s, a) && Touches(a)
    ensures Holder(s, a.w)
    ensures var p := s.writers[a.w].phase;
      && (p.Missing? || p.DataTouched? || p.Rotated? || p.Retouched?)
      && var id := PairId(SlotOf(s.writers[a.w]), RetryOf(p));
      Step(s, a).pairs == s.pairs[id := PairOf(s, id).(data := [])] || Step(s, a).pairs == s.pairs[id := PairOf(s, id).(index := [])]
  {
  }

  lemma TouchPairs(s: State, a: Action)
    requires Content(s) && Enabled(s, a) && Touches(a)
    ensures SamePairs(s, Step(s, a))
  {
    TouchShape(s, a);
    TouchedPairIsFresh(s, a.w);
  }

  /** One step only appends, and never to a pair that has failed. */
  lemma StepGrows(s: State, a: Action, id: PairId)
    requires Content(s) && Enabled(s, a)
    ensures Grows(PairOf(s, id), PairOf(Step(s, a), id))
  {
    if Appends(a) {
      TargetNotFailed(s, a);
      AppendPairs(s, a);
    } else if Touches(a) {
      TouchPairs(s, a);
    } else {
      QuietPairs(s, a);
    }
  }

  // ---- history ----

  /** The blocks sit in the log at this place and their index entries are complete. */
  ghost predicate Recorded(p: Pair, blocks: seq<Block>, at: nat) {
    && at + |blocks| <= |p.log| && p.log[at..at + |blocks|] == blocks
    && IndexBytes(Entries(p.log[..at + |blocks|], 0)) <= p.index
  }

  ghost predicate AckedOk(s: State, w: nat) {
    w in s.acked ==>
      && w in s.writers && s.acked[w].pair.slot.uid == s.writers[w].uid
      && Recorded(PairOf(s, s.acked[w].pair), s.writers[w].blocks, s.acked[w].at)
  }

  predicate Acknowledging(p: Phase) {
    p.IndexWritten? || ((p.Leaving? || p.Pushed? || p.Finished?) && p.ok)
  }

  /** The block was handed in by a writer of the slot's partition. */
  ghost predicate From(s: State, uid: Uid, b: Block) {
    exists w :: w in s.writers && s.writers[w].uid == uid && b in s.writers[w].blocks
  }

  ghost predicate LogOk(s: State, id: PairId) {
    forall i | 0 <= i < |PairOf(s, id).log| :: From(s, id.slot.uid, PairOf(s, id).log[i])
  }

  ghost predicate History(s: State) {
    && (forall w :: AckedOk(s, w))
    && (forall w | w in s.writers && Acknowledging(s.writers[w].phase) :: w in s.acked)
    && (forall id :: LogOk(s, id))
  }

  lemma RecordedGrows(p: Pair, q: Pair, blocks: seq<Block>, at: nat)
    requires Recorded(p, blocks, at) && Grows(p, q)
    ensures Recorded(q, blocks, at)
  {
    assert q.log[..at + |blocks|] == p.log[..at + |blocks|];
    assert q.log[at..at + |blocks|] == p.log[at..at + |blocks|];
  }

  /** Writers keep their partition and blocks. */
  lemma WritersStay(s: State, a: Action, w: nat)
    requires Enabled(s, a) && w in s.writers
    ensures w in Step(s, a).writers && Step(s, a).writers[w] == s.writers[w].(phase := Step(s, a).writers[w].phase)
  {
    if !a.Start? && !OnLock(a) {
      StepMoves(s, a);
    }
  }

  /** A whole pair records the batch it ends with. */
  lemma WholeRecords(p: Pair, blocks: seq<Block>, offset: I64)
    requires Whole(p) && EndsWith(p.log, blocks, offset)
    ensures Recorded(p, blocks, |p.log| - |blocks|)
  {
    assert p.log[..|p.log|] == p.log && p.log[|p.log| - |blocks|..] == blocks;
  }

  lemma AckMade(t: State, w: nat, id: PairId, at: nat)
    requires w in t.writers && w in t.acked && id.slot.uid == t.writers[w].uid && t.acked[w] == Place(id, at)
    requires Recorded(PairOf(t, id), t.writers[w].blocks, at)
    ensures AckedOk(t, w)
  {
  }

  /** What the step that completes the index records. */
  lemma NewAck(s: State, w: nat, n: nat)
    requires Content(s) && w in s.writers && IndexFits(s.writers[w], n, true)
    ensures var t := StepAppendIndex(s, w, n, true);
      w in t.acked && AckedOk(t, w) && t.acked == s.acked[w := t.acked[w]]
  {
    var me, t := s.writers[w], StepAppendIndex(s, w, n, true);
    var id := PairId(SlotOf(me), me.phase.retry);
    assert WriterOk(s, me);
    IndexShape(s, w, n, true);
    IndexMove(me, MetaOf(s, SlotOf(me)), PairOf(s, id), n, true);
    AckPlace(s, w, n);
    WholeRecords(PairOf(t, id), me.blocks, me.phase.offset);
    AckMade(t, w, id, |PairOf(t, id).log| - |me.blocks|);
  }

  lemma AckPlace(s: State, w: nat, n: nat)
    requires w in s.writers && IndexFits(s.writers[w], n, true)
    ensures var me, t := s.writers[w], StepAppendIndex(s, w, n, true);
      var id := PairId(SlotOf(me), me.phase.retry);
      |me.blocks| <= |PairOf(s, id).log| ==>
        t.acked == s.acked[w := Place(id, |PairOf(t, id).log| - |me.blocks|)]
  {
  }

  lemma AcksOnlyByIndex(s: State, a: Action)
    requires Enabled(s, a) && !(a.AppendIndex? && a.ok)
    ensures Step(s, a).acked == s.acked
  {
  }

  /** Nobody else starts to acknowledge. */
  lemma AcknowledgingStays(s: State, a: Action, w: nat)
    requires Enabled(s, a) && !(a.AppendIndex? && a.ok)
    requires w in Step(s, a).writers && Acknowledging(Step(s, a).writers[w].phase)
    ensures w in s.writers && Acknowledging(s.writers[w].phase)
  {
    if !a.Start? && !OnLock(a) && w != a.w {
      StepMoves(s, a);
    }
  }

  lemma StepKeepsAcks(s: State, a: Action, w: nat)
    requires Content(s) && History(s) && Enabled(s, a)
    ensures AckedOk(Step(s, a), w)
    ensures w in Step(s, a).writers && Acknowledging(Step(s, a).writers[w].phase) ==> w in Step(s, a).acked
  {
    assert AckedOk(s, w);
    if a.AppendIndex? && a.ok {
      NewAck(s, a.w, a.written);
    } else {
      AcksOnlyByIndex(s, a);
      if w in Step(s, a).writers && Acknowledging(Step(s, a).writers[w].phase) {
        AcknowledgingStays(s, a, w);
      }
    }
    if w in s.acked && !(a.AppendIndex? && a.ok && w == a.w) {
      WritersStay(s, a, w);
      StepGrows(s, a, s.acked[w].pair);
      RecordedGrows(PairOf(s, s.acked[w].pair), PairOf(Step(s, a), s.acked[w].pair), s.writers[w].blocks, s.acked[w].at);
    }
  }

  lemma FromStays(s: State, a: Action, uid: Uid, b: Block)
    requires Enabled(s, a) && From(s, uid, b)
    ensures From(Step(s, a), uid, b)
  {
    var w :| w in s.writers && s.writers[w].uid == uid && b in s.writers[w].blocks;
    WritersStay(s, a, w);
  }

  lemma AppendLog(s: State, a: Action, id: PairId)
    requires Enabled(s, a) && Appends(a)
    ensures var log := PairOf(Step(s, a), id).log;
      log == PairOf(s, id).log || (a.AppendData? && id.slot.uid == s.writers[a.w].uid && log == PairOf(s, id).log + s.writers[a.w].blocks)
  {
  }

  lemma TouchLog(s: State, a: Action, id: PairId)
    requires Enabled(s, a) && Touches(a)
    ensures PairOf(Step(s, a), id).log == PairOf(s, id).log
  {
    TouchShape(s, a);
  }

  lemma LogChange(s: State, a: Action, id: PairId)
    requires Enabled(s, a)
    ensures var log := PairOf(Step(s, a), id).log;
      log == PairOf(s, id).log || (a.AppendData? && id.slot.uid == s.writers[a.w].uid && log == PairOf(s, id).log + s.writers[a.w].blocks)
  {
    if Appends(a) {
      AppendLog(s, a, id);
    } else if Touches(a) {
      TouchLog(s, a, id);
    } else {
      QuietPairs(s, a);
    }
  }

  lemma StepKeepsLog(s: State, a: Action, id: PairId)
    requires LogOk(s, id) && Enabled(s, a)
    ensures LogOk(Step(s, a), id)
  {
    var before, after := PairOf(s, id).log, PairOf(Step(s, a), id).log;
    LogChange(s, a, id);
    forall i | 0 <= i < |after| ensures From(Step(s, a), id.slot.uid, after[i]) {
      if i < |before| {
        assert after[i] == before[i];
        FromStays(s, a, id.slot.uid, before[i]);
      } else {
        WritersStay(s, a, a.w);
        assert after[i] == s.writers[a.w].blocks[i - |before|];
      }
    }
  }

  lemma StepKeepsHistory(s: State, a: Action)
    requires Content(s) && History(s) && Enabled(s, a)
    ensures History(Step(s, a))
  {
    forall w ensures AckedOk(Step(s, a), w) {
      StepKeepsAcks(s, a, w);
    }
    forall w | w in Step(s, a).writers && Acknowledging(Step(s, a).writers[w].phase) ensures w in Step(s, a).acked {
      StepKeepsAcks(s, a, w);
    }
    forall id ensures LogOk(Step(s, a), id) {
      StepKeepsLog(s, a, id);
    }
  }

  // ---- runs ----

  ghost predicate Inv(s: State) { Seats(s) && Content(s) && History(s) }

  lemma InitInv(concurrency: nat)
    ensures Inv(Init(concurrency))
  {
    FreshSettled();
    assert forall id :: PairOf(Init(concurrency), id) == FRESH;
  }

  lemma {:induction false} RunKeepsInv(s: State, acts: seq<Action>)
    requires Inv(s) && Runs(s, acts)
    ensures Inv(After(s, acts))
    decreases |acts|
  {
    if acts != [] {
      StepKeepsSeats(s, acts[0]);
      StepKeepsContent(s, acts[0]);
      StepKeepsHistory(s, acts[0]);
      RunKeepsInv(Step(s, acts[0]), acts[1..]);
    }
  }

  /** Complete entries of a torn index are the first entries of the log. */
  lemma SoundEntries(p: Pair)
    requires Sound(p)
    ensures DecodeIndex(p.index) <= Entries(p.log, 0)
  {
    var x := IndexBytes(Entries(p.log, 0));
    assert p.index == x[..|p.index|];
    EntryCodec();
    DecodePrefix(Entries(p.log, 0), |p.index|, PutEntry, GetEntry, ENTRY_LEN);
  }

  lemma {:induction false} LogPointsAt(log: seq<Block>, data: seq<Byte>, i: nat)
    requires i < |log| && DataBytes(log) <= data
    requires (forall b | b in log :: Honest(b)) && SumLength(log) < 0x8000_0000_0000_0000
    ensures PointsAt(Entries(log, 0)[i], data, log[i])
  {
    DataLength(log);
    var tail := data[|DataBytes(log)|..];
    BatchPointsAt([], log, tail, i);
    assert [] + DataBytes(log) + tail == data;
  }

  lemma SoundPointsAt(p: Pair, i: nat)
    requires Sound(p) && i < |DecodeIndex(p.index)|
    requires (forall b | b in p.log :: Honest(b)) && SumLength(p.log) < 0x8000_0000_0000_0000
    ensures i < |p.log| && PointsAt(DecodeIndex(p.index)[i], p.data, p.log[i])
  {
    SoundEntries(p);
    LogPointsAt(p.log, p.data, i);
  }

  /** Every complete entry of the index points at the bytes of the block it stands for. */
  ghost predicate EntriesPoint(index: seq<Byte>, data: seq<Byte>, log: seq<Block>) {
    var entries := DecodeIndex(index);
    forall i | 0 <= i < |entries| :: i < |log| && PointsAt(entries[i], data, log[i])
  }

  ghost predicate Truthful(s: State, id: PairId) {
    var p := PairOf(s, id);
    EntriesPoint(p.index, p.data, p.log) && LogOk(s, id)
  }

  /** In every interleaving, with any failures: every complete entry of every index file describes a block
      of the partition and points at exactly that block's bytes in the matching data file. */
  lemma {:induction false} HdfsIndexesTruthful(concurrency: nat, acts: seq<Action>, id: PairId)
    requires Runs(Init(concurrency), acts)
    requires var p := PairOf(After(Init(concurrency), acts), id);
      (forall b | b in p.log :: Honest(b)) && SumLength(p.log) < 0x8000_0000_0000_0000
    ensures Truthful(After(Init(concurrency), acts), id)
  {
    Reachable(concurrency, acts);
    InvTruthful(After(Init(concurrency), acts), id);
  }

  lemma {:induction false} Reachable(concurrency: nat, acts: seq<Action>)
    requires Runs(Init(concurrency), acts)
    ensures Inv(After(Init(concurrency), acts))
  {
    InitInv(concurrency);
    RunKeepsInv(Init(concurrency), acts);
  }

  lemma SoundEntriesPoint(p: Pair)
    requires Sound(p) && (forall b | b in p.log :: Honest(b)) && SumLength(p.log) < 0x8000_0000_0000_0000
    ensures EntriesPoint(p.index, p.data, p.log)
  {
    forall i | 0 <= i < |DecodeIndex(p.index)| ensures i < |p.log| && PointsAt(DecodeIndex(p.index)[i], p.data, p.log[i]) {
      SoundPointsAt(p, i);
    }
  }

  lemma InvTruthful(s: State, id: PairId)
    requires PairsOk(s) && History(s)
    requires (forall b | b in PairOf(s, id).log :: Honest(b)) && SumLength(PairOf(s, id).log) < 0x8000_0000_0000_0000
    ensures Truthful(s, id)
  {
    assert LogOk(s, id);
    SoundEntriesPoint(PairOf(s, id));
  }

  /** A pair that saw a failure is never the target of an append again... */
  lemma {:induction false} FailedNeverAppended(concurrency: nat, acts: seq<Action>, a: Action)
    requires Runs(Init(concurrency), acts)
    requires var s := After(Init(concurrency), acts); Enabled(s, a) && Appends(a)
    ensures var s := After(Init(concurrency), acts); !PairOf(s, Target(s, a)).failed
  {
    Reachable(concurrency, acts);
    TargetNotFailed(After(Init(concurrency), acts), a);
  }

  /** ...and no later step changes it; other pairs only grow. */
  lemma {:induction false} PairsOnlyGrow(s: State, acts: seq<Action>, id: PairId)
    requires Inv(s) && Runs(s, acts)
    ensures Grows(PairOf(s, id), PairOf(After(s, acts), id))
    decreases |acts|
  {
    if acts != [] {
      StepGrows(s, acts[0], id);
      StepKeepsSeats(s, acts[0]);
      StepKeepsContent(s, acts[0]);
      StepKeepsHistory(s, acts[0]);
      PairsOnlyGrow(Step(s, acts[0]), acts[1..], id);
    }
  }

  lemma RecordedEntries(p: Pair, blocks: seq<Block>, at: nat, j: nat)
    requires Sound(p) && Recorded(p, blocks, at) && j < |blocks|
    ensures at + j < |DecodeIndex(p.index)| && p.log[at + j] == blocks[j]
  {
    var first := Entries(p.log[..at + |blocks|], 0);
    DecodeIndexBytes(first, p.index[|IndexBytes(first)|..]);
    assert IndexBytes(first) + p.index[|IndexBytes(first)|..] == p.index;
    assert p.log[at..at + |blocks|][j] == p.log[at + j];
  }

  /** The writer's block has an entry that points at its bytes. */
  ghost predicate Readable(s: State, w: nat, j: nat) {
    && w in s.writers && w in s.acked && s.acked[w].pair.slot.uid == s.writers[w].uid
    && var p, i := PairOf(s, s.acked[w].pair), s.acked[w].at + j;
    && j < |s.writers[w].blocks| && i < |DecodeIndex(p.index)|
    && PointsAt(DecodeIndex(p.index)[i], p.data, s.writers[w].blocks[j])
  }

  lemma AckedIsReadable(s: State, w: nat, j: nat)
    requires AckedOk(s, w) && w in s.acked && PairsOk(s) && j < |s.writers[w].blocks|
    requires var log := PairOf(s, s.acked[w].pair).log;
      (forall b | b in log :: Honest(b)) && SumLength(log) < 0x8000_0000_0000_0000
    ensures Readable(s, w, j)
  {
    RecordedPointsAt(PairOf(s, s.acked[w].pair), s.writers[w].blocks, s.acked[w].at, j);
  }

  lemma RecordedPointsAt(p: Pair, blocks: seq<Block>, at: nat, j: nat)
    requires Sound(p) && Recorded(p, blocks, at) && j < |blocks|
    requires (forall b | b in p.log :: Honest(b)) && SumLength(p.log) < 0x8000_0000_0000_0000
    ensures at + j < |DecodeIndex(p.index)| && PointsAt(DecodeIndex(p.index)[at + j], p.data, blocks[j])
  {
    RecordedEntries(p, blocks, at, j);
    SoundPointsAt(p, at + j);
  }

  /** Once a writer has finished successfully, each of its blocks has an entry pointing at its bytes, in this
      and every later state. */
  lemma {:induction false} AcknowledgedIsReadable(concurrency: nat, acts: seq<Action>, w: nat, j: nat)
    requires Runs(Init(concurrency), acts)
    requires var s := After(Init(concurrency), acts);
      && w in s.writers && s.writers[w].phase == Finished(true) && j < |s.writers[w].blocks|
      && forall id :: (forall b | b in PairOf(s, id).log :: Honest(b)) && SumLength(PairOf(s, id).log) < 0x8000_0000_0000_0000
    ensures Readable(After(Init(concurrency), acts), w, j)
  {
    Reachable(concurrency, acts);
    var s := After(Init(concurrency), acts);
    assert AckedOk(s, w) && w in s.acked;
    AckedIsReadable(s, w, j);
  }
}
