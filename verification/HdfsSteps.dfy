/** Step by step: what the pairs, metas and phases of the concurrent HDFS writers keep. */
module HdfsSteps {
  import opened Bytes
  import opened Blocks
  import opened FileFormat
  import opened HdfsProtocol
  import opened HdfsSeats
  import opened HdfsInvariant

  /** A slot whose holder is not busy is settled. */
  lemma HolderSettled(s: State, w: nat)
    requires SlotsOk(s) && Exclusive(s) && Holder(s, w) && !Busy(s.writers[w].phase)
    ensures var slot := SlotOf(s.writers[w]);
      slot in s.meta ==> Settled(s.meta[slot], PairOf(s, PairId(slot, s.meta[slot].retry)))
  {
    var slot := SlotOf(s.writers[w]);
    assert SlotOk(s, slot);
    forall v | BusyOn(s, v, slot) ensures false {
      assert Holder(s, v);
    }
  }

  // ---- quiet steps ----

  ghost predicate SamePairs(s: State, t: State) { forall id :: PairOf(t, id) == PairOf(s, id) }

  /** The holder moves on, and no pair and no meta changes. */
  lemma QuietStep(s: State, t: State, w: nat)
    requires Content(s) && Exclusive(s) && Holder(s, w) && Moves(s, t, w) && !Busy(s.writers[w].phase)
    requires SamePairs(s, t) && t.meta == s.meta
    requires WriterOk(t, t.writers[w])
    ensures Content(t)
  {
    var slot := SlotOf(s.writers[w]);
    assert SlotOk(s, slot);
    HolderSettled(s, w);
    assert forall r: nat :: Sound(PairOf(s, PairId(slot, r)));
    SlotStep(s, t, w);
  }

  /** A writer that holds no index, before or after, changes nothing here. */
  lemma IdleStep(s: State, t: State, w: nat)
    requires Content(s) && t.pairs == s.pairs && t.meta == s.meta
    requires w in t.writers && t.writers == s.writers[w := t.writers[w]]
    requires w in s.writers ==> !Busy(s.writers[w].phase)
    requires WriterOk(t, t.writers[w])
    ensures Content(t)
  {
    forall v | v in t.writers ensures WriterOk(t, t.writers[v]) {
      if v != w {
        assert WriterOk(s, s.writers[v]);
      }
    }
    forall slot ensures SlotOk(t, slot) {
      assert SlotOk(s, slot);
      if slot in s.meta && !Settled(s.meta[slot], PairOf(s, PairId(slot, s.meta[slot].retry))) {
        var v :| BusyOn(s, v, slot);
        assert BusyOn(t, v, slot);
      }
    }
    assert forall id :: PairOf(t, id) == PairOf(s, id);
  }

  lemma ReadMetaKeeps(s: State, w: nat)
    requires Content(s) && Exclusive(s) && w in s.writers && s.writers[w].phase.Picked?
    ensures Content(SetPhase(s, w, MetaPhase(s, SlotOf(s.writers[w]))))
  {
    HolderSettled(s, w);
    QuietStep(s, SetPhase(s, w, MetaPhase(s, SlotOf(s.writers[w]))), w);
  }

  /** The pair a writer is about to touch is fresh, so a touch never truncates data. */
  lemma TouchedPairIsFresh(s: State, w: nat)
    requires Content(s) && Holder(s, w)
    ensures var p := s.writers[w].phase;
      p.Missing? || p.DataTouched? || p.Rotated? || p.Retouched? ==>
        PairOf(s, PairId(SlotOf(s.writers[w]), RetryOf(p))) == FRESH
  {
    assert WriterOk(s, s.writers[w]) && SlotOk(s, SlotOf(s.writers[w]));
  }

  lemma TouchKeeps(s: State, w: nat, p: Phase, id: PairId)
    requires Content(s) && Exclusive(s) && Holder(s, w) && !Busy(s.writers[w].phase)
    requires HasIndex(p) && p.idx == s.writers[w].phase.idx && PairOf(s, id) == FRESH
    requires WriterOk(s, s.writers[w].(phase := p))
    ensures Content(TouchedData(SetPhase(s, w, p), id)) && Content(TouchedIndex(SetPhase(s, w, p), id))
  {
    QuietStep(s, TouchedData(SetPhase(s, w, p), id), w);
    QuietStep(s, TouchedIndex(SetPhase(s, w, p), id), w);
  }

  // ---- steps that change meta ----

  lemma FreshSettled()
    ensures Settled(Meta(0, 0), FRESH) && Sound(FRESH)
  {
  }

  /** The meta of the holder's slot changes; pairs do not. */
  lemma MetaStep(s: State, t: State, w: nat, m: Meta)
    requires Content(s) && Exclusive(s) && Holder(s, w) && Moves(s, t, w)
    requires t.meta == s.meta[SlotOf(s.writers[w]) := m] && t.pairs == s.pairs
    requires Settled(m, PairOf(s, PairId(SlotOf(s.writers[w]), m.retry)))
    requires FreshFrom(s, SlotOf(s.writers[w]), m.retry + 1)
    requires WriterOk(t, t.writers[w])
    ensures Content(t)
  {
    var slot := SlotOf(s.writers[w]);
    assert forall r: nat :: Sound(PairOf(s, PairId(slot, r)));
    assert forall id :: PairOf(t, id) == PairOf(s, id);
    assert SlotOk(t, slot);
    SlotStep(s, t, w);
  }

  lemma InsertMetaKeeps(s: State, w: nat)
    requires Content(s) && Exclusive(s) && w in s.writers && s.writers[w].phase.FilesTouched?
    ensures Content(StepInsertMeta(s, w))
  {
    assert WriterOk(s, s.writers[w]) && SlotOk(s, SlotOf(s.writers[w]));
    FreshSettled();
    MetaStep(s, StepInsertMeta(s, w), w, Meta(0, 0));
  }

  /** What a writer with a complete index knows about its slot. */
  lemma {:induction false} WrittenSettles(p: Pair, blocks: seq<Block>, offset: I64)
    requires Whole(p) && EndsWith(p.log, blocks, offset)
    ensures WrapI64(SumLength(p.log)) == WrapI64(offset + SumLength(blocks))
  {
    LayoutConcat(p.log[..|p.log| - |blocks|], blocks, offset);
  }

  lemma OffsetShape(s: State, w: nat)
    requires w in s.writers && s.writers[w].phase.IndexWritten? && SlotOf(s.writers[w]) in s.meta
    ensures var me, t := s.writers[w], StepStoreOffset(s, w);
      && Moves(s, t, w) && t.writers[w].phase == Leaving(me.phase.idx, true) && t.pairs == s.pairs
      && t.meta == s.meta[SlotOf(me) := s.meta[SlotOf(me)].(dataLen := WrapI64(me.phase.offset + SumLength(me.blocks)))]
  {
  }

  lemma OffsetSettles(s: State, w: nat)
    requires WritersOk(s) && SlotsOk(s) && w in s.writers && s.writers[w].phase.IndexWritten?
    ensures var me := s.writers[w];
      var slot, m := SlotOf(me), Meta(WrapI64(me.phase.offset + SumLength(me.blocks)), me.phase.retry);
      && slot in s.meta && s.meta[slot].(dataLen := m.dataLen) == m
      && Settled(m, PairOf(s, PairId(slot, m.retry))) && FreshFrom(s, slot, m.retry + 1)
  {
    var me := s.writers[w];
    assert WriterOk(s, me) && SlotOk(s, SlotOf(me));
    WrittenSettles(PairOf(s, PairId(SlotOf(me), me.phase.retry)), me.blocks, me.phase.offset);
  }

  lemma StoreOffsetKeeps(s: State, w: nat)
    requires Content(s) && Exclusive(s) && w in s.writers && s.writers[w].phase.IndexWritten?
    ensures Content(StepStoreOffset(s, w)) && StepStoreOffset(s, w).writers[w].phase == Leaving(s.writers[w].phase.idx, true)
  {
    var me := s.writers[w];
    OffsetSettles(s, w);
    OffsetShape(s, w);
    MetaStep(s, StepStoreOffset(s, w), w, Meta(WrapI64(me.phase.offset + SumLength(me.blocks)), me.phase.retry));
  }

  lemma RotateKeeps(s: State, w: nat)
    requires Content(s) && Exclusive(s) && w in s.writers && s.writers[w].phase.Broken?
    ensures Content(StepRotate(s, w))
  {
    var me := s.writers[w];
    assert WriterOk(s, me) && SlotOk(s, SlotOf(me));
    FreshSettled();
    MetaStep(s, StepRotate(s, w), w, Meta(0, me.phase.retry + 1));
  }

  // ---- appends ----

  /** One pair changes; its writer becomes busy with it. */
  lemma AppendStep(s: State, t: State, w: nat, pair: Pair)
    requires Content(s) && Exclusive(s) && Holder(s, w) && Moves(s, t, w) && Busy(t.writers[w].phase)
    requires t.pairs == s.pairs[PairId(SlotOf(s.writers[w]), t.writers[w].phase.retry) := pair] && t.meta == s.meta
    requires SlotOf(s.writers[w]) in s.meta && s.meta[SlotOf(s.writers[w])].retry == t.writers[w].phase.retry
    requires Sound(pair) && WriterOk(t, t.writers[w])
    ensures Content(t)
  {
    var slot := SlotOf(s.writers[w]);
    assert SlotOk(s, slot);
    assert BusyOn(t, w, slot);
    assert forall r: nat :: Sound(PairOf(s, PairId(slot, r)));
    assert SlotOk(t, slot);
    SlotStep(s, t, w);
  }

  lemma AppendDataKeeps(s: State, w: nat, n: nat, ok: bool)
    requires Content(s) && Exclusive(s) && w in s.writers && DataFits(s.writers[w], n, ok)
    ensures Content(StepAppendData(s, w, n, ok))
  {
    var me := s.writers[w];
    var p := PairOf(s, PairId(SlotOf(me), me.phase.retry));
    assert WriterOk(s, me);
    DataAppended(p, me.blocks, me.phase.offset, n);
    AppendStep(s, StepAppendData(s, w, n, ok), w, WithData(p, me.blocks, n, ok));
  }

  lemma AppendIndexKeeps(s: State, w: nat, n: nat, ok: bool)
    requires Content(s) && Exclusive(s) && w in s.writers && IndexFits(s.writers[w], n, ok)
    ensures Content(StepAppendIndex(s, w, n, ok))
  {
    var me, t := s.writers[w], StepAppendIndex(s, w, n, ok);
    var q := PairOf(t, PairId(SlotOf(me), me.phase.retry));
    IndexShape(s, w, n, ok);
    assert WriterOk(s, me);
    IndexMove(me, MetaOf(s, SlotOf(me)), PairOf(s, PairId(SlotOf(me), me.phase.retry)), n, ok);
    AppendStep(s, t, w, q);
  }

  /** The shape of the step: one pair, one phase. */
  lemma IndexShape(s: State, w: nat, n: nat, ok: bool)
    requires w in s.writers && IndexFits(s.writers[w], n, ok)
    ensures var me, t := s.writers[w], StepAppendIndex(s, w, n, ok);
      var id := PairId(SlotOf(me), me.phase.retry);
      && Moves(s, t, w) && Busy(t.writers[w].phase) && t.meta == s.meta
      && t.writers[w].phase.retry == me.phase.retry && t.pairs == s.pairs[id := PairOf(t, id)]
      && PairOf(t, id) == WithIndex(PairOf(s, id), IndexBytes(Entries(me.blocks, me.phase.offset)), n, ok)
      && t.writers[w] == IndexMoved(me, ok)
  {
  }

  ghost function IndexMoved(me: Writer, ok: bool): Writer
    requires me.phase.DataWritten?
  {
    var ph := me.phase;
    me.(phase := if ok then IndexWritten(ph.idx, ph.offset, ph.retry) else Broken(ph.idx, ph.retry))
  }

  lemma IndexMove(me: Writer, m: Option<Meta>, p: Pair, n: nat, ok: bool)
    requires IndexFits(me, n, ok) && Sits(me, m, p)
    ensures var q := WithIndex(p, IndexBytes(Entries(me.blocks, me.phase.offset)), n, ok);
      Sound(q) && Sits(IndexMoved(me, ok), m, q) && m.Some? && m.value.retry == me.phase.retry
  {
    IndexAppended(p, me.blocks, me.phase.offset, n);
  }
}
