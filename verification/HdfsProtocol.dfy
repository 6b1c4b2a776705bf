/** Concurrent writers of the HDFS store. Each writer takes an index from its partition's lock, which
    gives it a write slot of its own; it reads (or creates) the slot's cached meta, appends data and then
    index to the file pair the meta names, and on any failure moves the slot on to a new pair. Steps of
    different writers interleave freely, and every append may stop after any prefix of its bytes. */
module HdfsProtocol {
  import opened Bytes
  import opened Blocks
  import opened FileFormat
  import Lock = IndexSemaphore

  /** `WritingHandler`: the length of the current data file and the number of rotations so far. */
  datatype Meta = Meta(dataLen: I64, retry: nat)

  datatype Phase =
    | Queued
    | Permitted
    | Picked(idx: nat)
    | Missing(idx: nat)
    | DataTouched(idx: nat)
    | FilesTouched(idx: nat)
    | Ready(idx: nat, offset: I64, retry: nat)
    | DataWritten(idx: nat, offset: I64, retry: nat)
    | IndexWritten(idx: nat, offset: I64, retry: nat)
    | Broken(idx: nat, retry: nat)
    | Rotated(idx: nat, retry: nat)
    | Retouched(idx: nat, retry: nat)
    | Leaving(idx: nat, ok: bool)
    | Pushed(ok: bool)
    | Finished(ok: bool)

  datatype Writer = Writer(uid: Uid, blocks: seq<Block>, phase: Phase)

  /** A write slot: one index of one partition's lock. */
  datatype SlotId = SlotId(uid: Uid, idx: nat)

  /** One generation of a slot's files. */
  datatype PairId = PairId(slot: SlotId, retry: nat)

  /** A data file and its index file. `log` (the blocks whose data arrived completely) and `failed` (an
      append to the pair failed) record the pair's history. */
  datatype Pair = Pair(data: seq<Byte>, index: seq<Byte>, log: seq<Block>, failed: bool)

  /** Where a writer's blocks were logged. */
  datatype Place = Place(pair: PairId, at: nat)

  /** The store: its files, `partition_cached_meta`, `partition_file_locks` and the running writers; `acked`
      records where finished writers' blocks went. */
  datatype State = State(
    concurrency: nat, pairs: map<PairId, Pair>, meta: map<SlotId, Meta>, locks: map<Uid, Lock.Sem>,
    writers: map<nat, Writer>, acked: map<nat, Place>)

  const FRESH := Pair([], [], [], false)

  function Init(concurrency: nat): State { State(concurrency, map[], map[], map[], map[], map[]) }

  datatype Action =
    | Start(w: nat, uid: Uid, blocks: seq<Block>)
    | TakePermit(w: nat)
    | TakeIndex(w: nat)
    | Abort(w: nat)
    | ReadMeta(w: nat)
    | TouchData(w: nat)
    | TouchIndex(w: nat)
    | InsertMeta(w: nat)
    | AppendData(w: nat, written: nat, ok: bool)
    | AppendIndex(w: nat, written: nat, ok: bool)
    | StoreOffset(w: nat)
    | Rotate(w: nat)
    | RetouchData(w: nat)
    | RetouchIndex(w: nat)
    | PushBack(w: nat)
    | Release(w: nat)

  predicate HasIndex(p: Phase) { !(p.Queued? || p.Permitted? || p.Pushed? || p.Finished?) }

  function SlotOf(me: Writer): SlotId
    requires HasIndex(me.phase)
  {
    SlotId(me.uid, me.phase.idx)
  }

  function PairOf(s: State, id: PairId): Pair { if id in s.pairs then s.pairs[id] else FRESH }

  function SetPhase(s: State, w: nat, p: Phase): State
    requires w in s.writers
  {
    s.(writers := s.writers[w := s.writers[w].(phase := p)])
  }

  function SetPair(s: State, id: PairId, p: Pair): State { s.(pairs := s.pairs[id := p]) }

  /** A writer's own step on its partition's lock. */
  predicate LockEnabled(s: State, uid: Uid, a: Lock.Action) { uid in s.locks && Lock.Enabled(s.locks[uid], a) }

  function LockStep(s: State, uid: Uid, a: Lock.Action): State
    requires LockEnabled(s, uid, a)
  {
    s.(locks := s.locks[uid := Lock.Step(s.locks[uid], a)])
  }

  predicate Enabled(s: State, a: Action) {
    if a.Start? then a.w !in s.writers else
      a.w in s.writers &&
      var me := s.writers[a.w];
      var p := me.phase;
      match a
      case Start(_, _, _) => false
      case TakePermit(w) => p.Queued? && LockEnabled(s, me.uid, Lock.AcquirePermit(w))
      case TakeIndex(w) => p.Permitted? && LockEnabled(s, me.uid, Lock.PopIndex(w))
      case Abort(_) => Abortable(p)
      case ReadMeta(_) => p.Picked?
      case TouchData(_) => p.Missing?
      case TouchIndex(_) => p.DataTouched?
      case InsertMeta(_) => p.FilesTouched?
      case AppendData(_, n, ok) => DataFits(me, n, ok)
      case AppendIndex(_, n, ok) => IndexFits(me, n, ok)
      case StoreOffset(_) => p.IndexWritten?
      case Rotate(_) => p.Broken?
      case RetouchData(_) => p.Rotated?
      case RetouchIndex(_) => p.Retouched?
      case PushBack(w) => p.Leaving? && LockEnabled(s, me.uid, Lock.PushIndex(w))
      case Release(w) => p.Pushed? && LockEnabled(s, me.uid, Lock.ReleasePermit(w))
  }

  /** Where an error other than a failed append ends the writer. */
  predicate Abortable(p: Phase) {
    p.Picked? || p.Missing? || p.DataTouched? || p.FilesTouched? || p.Rotated? || p.Retouched?
  }

  /** A success wrote every byte; a failure wrote any prefix. */
  predicate DataFits(me: Writer, n: nat, ok: bool) {
    me.phase.Ready? && n <= |DataBytes(me.blocks)| && (ok ==> n == |DataBytes(me.blocks)|)
  }

  predicate IndexFits(me: Writer, n: nat, ok: bool) {
    && me.phase.DataWritten?
    && var len := |IndexBytes(Entries(me.blocks, me.phase.offset))|;
    n <= len && (ok ==> n == len)
  }

  /** The pair of files an appending action writes to. */
  predicate Appends(a: Action) { a.AppendData? || a.AppendIndex? }

  function Target(s: State, a: Action): PairId
    requires Appends(a) && Enabled(s, a)
  {
    PairId(SlotOf(s.writers[a.w]), s.writers[a.w].phase.retry)
  }

  function StepStart(s: State, w: nat, uid: Uid, blocks: seq<Block>): State {
    s.(writers := s.writers[w := Writer(uid, blocks, Queued)],
       locks := if uid in s.locks then s.locks else s.locks[uid := Lock.Init(s.concurrency)])
  }

  function StepLock(s: State, w: nat, a: Lock.Action, p: Phase): State
    requires w in s.writers && LockEnabled(s, s.writers[w].uid, a)
  {
    SetPhase(LockStep(s, s.writers[w].uid, a), w, p)
  }

  function IndexPhase(lock: Lock.Sem): Phase { if lock.deque == [] then Permitted else Picked(lock.deque[0]) }

  function MetaPhase(s: State, slot: SlotId): Phase {
    if slot in s.meta then Ready(slot.idx, s.meta[slot].dataLen, s.meta[slot].retry) else Missing(slot.idx)
  }

  /** `touch` creates the file or empties it. */
  function TouchedData(s: State, id: PairId): State { SetPair(s, id, PairOf(s, id).(data := [])) }

  function TouchedIndex(s: State, id: PairId): State { SetPair(s, id, PairOf(s, id).(index := [])) }

  function StepInsertMeta(s: State, w: nat): State
    requires w in s.writers && s.writers[w].phase.FilesTouched?
  {
    var slot := SlotOf(s.writers[w]);
    SetPhase(s, w, Ready(slot.idx, 0, 0)).(meta := s.meta[slot := Meta(0, 0)])
  }

  function WithData(p: Pair, blocks: seq<Block>, n: nat, ok: bool): Pair
    requires n <= |DataBytes(blocks)|
  {
    var grown := p.(data := p.data + DataBytes(blocks)[..n]);
    if ok then grown.(log := p.log + blocks) else grown.(failed := true)
  }

  function StepAppendData(s: State, w: nat, n: nat, ok: bool): State
    requires w in s.writers && DataFits(s.writers[w], n, ok)
  {
    var me := s.writers[w];
    var ph, id := me.phase, PairId(SlotOf(me), me.phase.retry);
    var p := if ok then DataWritten(ph.idx, ph.offset, ph.retry) else Broken(ph.idx, ph.retry);
    SetPair(SetPhase(s, w, p), id, WithData(PairOf(s, id), me.blocks, n, ok))
  }

  function WithIndex(p: Pair, entries: seq<Byte>, n: nat, ok: bool): Pair
    requires n <= |entries|
  {
    p.(index := p.index + entries[..n], failed := p.failed || !ok)
  }

  function StepAppendIndex(s: State, w: nat, n: nat, ok: bool): State
    requires w in s.writers && IndexFits(s.writers[w], n, ok)
  {
    var me := s.writers[w];
    var ph, id := me.phase, PairId(SlotOf(me), me.phase.retry);
    var pair := PairOf(s, id);
    var p := if ok then IndexWritten(ph.idx, ph.offset, ph.retry) else Broken(ph.idx, ph.retry);
    var t := SetPair(SetPhase(s, w, p), id, WithIndex(pair, IndexBytes(Entries(me.blocks, ph.offset)), n, ok));
    if ok && |me.blocks| <= |pair.log| then t.(acked := t.acked[w := Place(id, |pair.log| - |me.blocks|)]) else t
  }

  function StepStoreOffset(s: State, w: nat): State
    requires w in s.writers && s.writers[w].phase.IndexWritten?
  {
    var me := s.writers[w];
    var slot := SlotOf(me);
    if slot !in s.meta then SetPhase(s, w, Leaving(slot.idx, false)) else
      var m := s.meta[slot].(dataLen := WrapI64(me.phase.offset + SumLength(me.blocks)));
      SetPhase(s, w, Leaving(slot.idx, true)).(meta := s.meta[slot := m])
  }

  function StepRotate(s: State, w: nat): State
    requires w in s.writers && s.writers[w].phase.Broken?
  {
    var slot := SlotOf(s.writers[w]);
    if slot !in s.meta then SetPhase(s, w, Leaving(slot.idx, false)) else
      var m := Meta(0, s.meta[slot].retry + 1);
      SetPhase(s, w, Rotated(slot.idx, m.retry)).(meta := s.meta[slot := m])
  }

  function Step(s: State, a: Action): State
    requires Enabled(s, a)
  {
    if a.Start? then StepStart(s, a.w, a.uid, a.blocks) else
      var me := s.writers[a.w];
      var p := me.phase;
      match a
      case Start(_, _, _) => s
      case TakePermit(w) => StepLock(s, w, Lock.AcquirePermit(w), Permitted)
      case TakeIndex(w) => StepLock(s, w, Lock.PopIndex(w), IndexPhase(s.locks[me.uid]))
      case Abort(w) => SetPhase(s, w, Leaving(p.idx, false))
      case ReadMeta(w) => SetPhase(s, w, MetaPhase(s, SlotOf(me)))
      case TouchData(w) => TouchedData(SetPhase(s, w, DataTouched(p.idx)), PairId(SlotOf(me), 0))
      case TouchIndex(w) => TouchedIndex(SetPhase(s, w, FilesTouched(p.idx)), PairId(SlotOf(me), 0))
      case InsertMeta(w) => StepInsertMeta(s, w)
      case AppendData(w, n, ok) => StepAppendData(s, w, n, ok)
      case AppendIndex(w, n, ok) => StepAppendIndex(s, w, n, ok)
      case StoreOffset(w) => StepStoreOffset(s, w)
      case Rotate(w) => StepRotate(s, w)
      case RetouchData(w) => TouchedData(SetPhase(s, w, Retouched(p.idx, p.retry)), PairId(SlotOf(me), p.retry))
      case RetouchIndex(w) => TouchedIndex(SetPhase(s, w, Leaving(p.idx, false)), PairId(SlotOf(me), p.retry))
      case PushBack(w) => StepLock(s, w, Lock.PushIndex(w), Pushed(p.ok))
      case Release(w) => StepLock(s, w, Lock.ReleasePermit(w), Finished(p.ok))
  }

  ghost predicate Runs(s: State, acts: seq<Action>)
    decreases |acts|
  {
    acts == [] || (Enabled(s, acts[0]) && Runs(Step(s, acts[0]), acts[1..]))
  }

  ghost function After(s: State, acts: seq<Action>): State
    requires Runs(s, acts)
    decreases |acts|
  {
    if acts == [] then s else After(Step(s, acts[0]), acts[1..])
  }

  /** From the offset to the end of the write there is no way out: a writer appends data, then index, then records
      the new offset, and after a failed append it can only move its slot on. */
  lemma NoWayOut(s: State, a: Action)
    requires Enabled(s, a) && a.w in s.writers
    ensures match s.writers[a.w].phase
      case Ready(_, _, _) => a.AppendData?
      case DataWritten(_, _, _) => a.AppendIndex?
      case IndexWritten(_, _, _) => a.StoreOffset?
      case Broken(_, _) => a.Rotate?
      case Leaving(_, _) => a.PushBack?
      case Pushed(_) => a.Release?
      case Finished(_) => false
      case _ => true
  {
  }
}
