/** What every step of the concurrent HDFS writers keeps. */
module HdfsInvariant {
  import opened Bytes
  import opened Blocks
  import opened FileFormat
  import opened HdfsProtocol
  import opened HdfsSeats

  ghost function MetaOf(s: State, slot: SlotId): Option<Meta> {
    if slot in s.meta then Some(s.meta[slot]) else None
  }

  // ---- one pair ----

  /** The data of every logged block is there; the index may be torn. */
  ghost predicate Sound(p: Pair) {
    DataBytes(p.log) <= p.data && p.index <= IndexBytes(Entries(p.log, 0))
  }

  /** Exactly the layout of the logged blocks. */
  ghost predicate Whole(p: Pair) {
    p.data == DataBytes(p.log) && p.index == IndexBytes(Entries(p.log, 0)) && !p.failed
  }

  ghost predicate EndsWith(log: seq<Block>, blocks: seq<Block>, offset: I64) {
    && |blocks| <= |log|
    && log == log[..|log| - |blocks|] + blocks
    && offset == WrapI64(SumLength(log[..|log| - |blocks|]))
  }

  /** The last batch has its data but not yet its index. */
  ghost predicate Pending(p: Pair, blocks: seq<Block>, offset: I64) {
    && EndsWith(p.log, blocks, offset)
    && p.data == DataBytes(p.log)
    && p.index == IndexBytes(Entries(p.log[..|p.log| - |blocks|], 0))
    && !p.failed
  }

  /** Appending a batch's data: in full it becomes pending, in part the pair stays sound. */
  lemma {:induction false} DataAppended(p: Pair, blocks: seq<Block>, offset: I64, n: nat)
    requires Whole(p) && offset == WrapI64(SumLength(p.log)) && n <= |DataBytes(blocks)|
    ensures var q := WithData(p, blocks, n, false); Sound(q) && q.failed
    ensures n == |DataBytes(blocks)| ==> var q := WithData(p, blocks, n, true); Sound(q) && Pending(q, blocks, offset)
  {
    if n == |DataBytes(blocks)| {
      var q := WithData(p, blocks, n, true);
      assert DataBytes(blocks)[..n] == DataBytes(blocks);
      assert q.log[..|q.log| - |blocks|] == p.log;
      LayoutConcat(p.log, blocks, offset);
    }
  }

  /** Appending a batch's index: in full the pair is whole again, in part it stays sound. */
  lemma {:induction false} IndexAppended(p: Pair, blocks: seq<Block>, offset: I64, n: nat)
    requires Pending(p, blocks, offset) && n <= |IndexBytes(Entries(blocks, offset))|
    ensures var q := WithIndex(p, IndexBytes(Entries(blocks, offset)), n, false); Sound(q) && q.failed
    ensures n == |IndexBytes(Entries(blocks, offset))| ==>
      var q := WithIndex(p, IndexBytes(Entries(blocks, offset)), n, true); Sound(q) && Whole(q)
  {
    var before, x := p.log[..|p.log| - |blocks|], IndexBytes(Entries(blocks, offset));
    LayoutConcat(before, blocks, offset);
    assert p.index + x == IndexBytes(Entries(p.log, 0));
    assert p.index + x[..n] == (p.index + x)[..|p.index| + n];
  }

  // ---- one writer ----

  /** What a writer's phase says about its slot's meta and the pair it works on. */
  ghost predicate Sits(me: Writer, m: Option<Meta>, p: Pair) {
    match me.phase
    case Missing(_) => m.None?
    case DataTouched(_) => m.None?
    case FilesTouched(_) => m.None?
    case Ready(_, offset, retry) => m == Some(Meta(offset, retry)) && Whole(p) && offset == WrapI64(SumLength(p.log))
    case DataWritten(_, offset, retry) => m == Some(Meta(offset, retry)) && Pending(p, me.blocks, offset)
    case IndexWritten(_, offset, retry) => m == Some(Meta(offset, retry)) && Whole(p) && EndsWith(p.log, me.blocks, offset)
    case Broken(_, retry) => m.Some? && m.value.retry == retry && p.failed
    case Rotated(_, retry) => m == Some(Meta(0, retry)) && p == FRESH
    case Retouched(_, retry) => m == Some(Meta(0, retry)) && p == FRESH
    case _ => true
  }

  ghost function RetryOf(p: Phase): nat {
    if p.Ready? || p.DataWritten? || p.IndexWritten? || p.Broken? || p.Rotated? || p.Retouched? then p.retry else 0
  }

  ghost predicate WriterOk(s: State, me: Writer) {
    HasIndex(me.phase) ==> Sits(me, MetaOf(s, SlotOf(me)), PairOf(s, PairId(SlotOf(me), RetryOf(me.phase))))
  }

  // ---- one slot ----

  predicate Busy(p: Phase) { p.DataWritten? || p.IndexWritten? || p.Broken? }

  ghost predicate BusyOn(s: State, w: nat, slot: SlotId) {
    w in s.writers && Busy(s.writers[w].phase) && SlotOf(s.writers[w]) == slot
  }

  ghost predicate Settled(m: Meta, p: Pair) { Whole(p) && m.dataLen == WrapI64(SumLength(p.log)) }

  /** Pairs from this one on are untouched. */
  ghost predicate FreshFrom(s: State, slot: SlotId, retry: nat) {
    forall r: nat | r >= retry :: PairOf(s, PairId(slot, r)) == FRESH
  }

  /** Pairs beyond the current one are untouched; the current one is settled unless its writer is busy. */
  ghost predicate SlotOk(s: State, slot: SlotId) {
    && (slot !in s.meta ==> FreshFrom(s, slot, 0))
    && (slot in s.meta ==>
      && FreshFrom(s, slot, s.meta[slot].retry + 1)
      && (Settled(s.meta[slot], PairOf(s, PairId(slot, s.meta[slot].retry))) || exists w :: BusyOn(s, w, slot)))
  }

  ghost predicate WritersOk(s: State) { forall w | w in s.writers :: WriterOk(s, s.writers[w]) }

  ghost predicate SlotsOk(s: State) { forall slot :: SlotOk(s, slot) }

  ghost predicate PairsOk(s: State) { forall id :: Sound(PairOf(s, id)) }

  ghost predicate Content(s: State) { WritersOk(s) && SlotsOk(s) && PairsOk(s) }

  // ---- steps inside a slot ----

  /** One holder moves to another phase of the same slot; the other writers stay. */
  ghost predicate Moves(s: State, t: State, w: nat)
    requires Holder(s, w)
  {
    && w in t.writers && t.writers == s.writers[w := s.writers[w].(phase := t.writers[w].phase)]
    && HasIndex(t.writers[w].phase) && t.writers[w].phase.idx == s.writers[w].phase.idx
  }

  /** Nothing outside the slot changes. */
  ghost predicate OnlySlot(s: State, t: State, slot: SlotId) {
    && (forall other | other != slot :: MetaOf(t, other) == MetaOf(s, other))
    && (forall id: PairId | id.slot != slot :: PairOf(t, id) == PairOf(s, id))
  }

  lemma OtherSlotOk(s: State, t: State, w: nat, slot: SlotId)
    requires Holder(s, w) && Moves(s, t, w) && OnlySlot(s, t, SlotOf(s.writers[w]))
    requires SlotOk(s, slot) && slot != SlotOf(s.writers[w])
    ensures SlotOk(t, slot)
  {
    assert MetaOf(t, slot) == MetaOf(s, slot);
    if slot in s.meta && !Settled(s.meta[slot], PairOf(s, PairId(slot, s.meta[slot].retry))) {
      var v :| BusyOn(s, v, slot);
      assert BusyOn(t, v, slot);
    }
  }

  lemma OtherWriterOk(s: State, t: State, me: Writer, slot: SlotId)
    requires WriterOk(s, me) && OnlySlot(s, t, slot) && (HasIndex(me.phase) ==> SlotOf(me) != slot)
    ensures WriterOk(t, me)
  {
  }

  lemma OtherWritersOk(s: State, t: State, w: nat)
    requires Exclusive(s) && WritersOk(s)
    requires Holder(s, w) && Moves(s, t, w) && OnlySlot(s, t, SlotOf(s.writers[w]))
    requires WriterOk(t, t.writers[w])
    ensures WritersOk(t)
  {
    forall v | v in t.writers ensures WriterOk(t, t.writers[v]) {
      if v != w {
        assert HasIndex(s.writers[v].phase) ==> Holder(s, v);
        OtherWriterOk(s, t, s.writers[v], SlotOf(s.writers[w]));
      }
    }
  }

  lemma SlotStep(s: State, t: State, w: nat)
    requires Content(s) && Exclusive(s) && Holder(s, w) && Moves(s, t, w) && OnlySlot(s, t, SlotOf(s.writers[w]))
    requires SlotOk(t, SlotOf(s.writers[w])) && WriterOk(t, t.writers[w])
    requires forall r: nat :: Sound(PairOf(t, PairId(SlotOf(s.writers[w]), r)))
    ensures Content(t)
  {
    OtherWritersOk(s, t, w);
    forall slot ensures SlotOk(t, slot) {
      if slot != SlotOf(s.writers[w]) {
        OtherSlotOk(s, t, w, slot);
      }
    }
    forall id ensures Sound(PairOf(t, id)) {
      if id.slot == SlotOf(s.writers[w]) {
        assert id == PairId(SlotOf(s.writers[w]), id.retry);
      }
    }
  }
}
