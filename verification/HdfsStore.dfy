/** The HDFS store as the program runs it: string-keyed lock, meta and file maps changed in place. One
    `DataInsert` is an uninterrupted run of one writer of the concurrent protocol. */
module HdfsStores {
  import opened Bytes
  import opened Blocks
  import opened FileFormat
  import opened Paths
  import opened HdfsProtocol
  import opened HdfsSeats
  import opened HdfsNames
  import opened HdfsPurge
  import HdfsRuns
  import Lock = IndexSemaphore

  /** What the file system answers during one insert; a failing append has written a prefix. */
  datatype Outcome = Outcome(
    dir: bool, touchData: bool, touchIndex: bool, dataWritten: nat, dataOk: bool, indexWritten: nat, indexOk: bool,
    outOfMemory: bool, retouchData: bool, retouchIndex: bool)

  /** A call that finds no free permit waits; the others answer. */
  datatype Answer = Waiting | Answered(ok: bool)

  /** How much of the bytes an append wrote. */
  function Reached(bytes: seq<Byte>, written: nat, ok: bool): (n: nat)
    ensures n <= |bytes| && (ok ==> n == |bytes|) && (!ok && written <= |bytes| ==> n == written)
  {
    if ok || written > |bytes| then |bytes| else written
  }

  /** The i-th state of a trace leads to the next one. */
  ghost predicate StepAt(trace: seq<State>, acts: seq<Action>, i: nat) {
    i < |acts| < |trace| && Enabled(trace[i], acts[i]) && trace[i + 1] == Step(trace[i], acts[i])
  }

  ghost predicate IsTrace(trace: seq<State>, acts: seq<Action>) {
    |trace| == |acts| + 1 && forall i: nat | i < |acts| :: StepAt(trace, acts, i)
  }

  lemma TraceSnoc(trace: seq<State>, acts: seq<Action>, a: Action)
    requires IsTrace(trace, acts) && Enabled(trace[|acts|], a)
    ensures IsTrace(trace + [Step(trace[|acts|], a)], acts + [a])
  {
    var t, b := trace + [Step(trace[|acts|], a)], acts + [a];
    forall i: nat | i < |b| ensures StepAt(t, b, i) {
      if i < |acts| {
        assert StepAt(trace, acts, i);
      }
    }
  }

  /** A trace is a run. */
  lemma {:induction false} TraceRuns(trace: seq<State>, acts: seq<Action>)
    requires IsTrace(trace, acts)
    ensures Runs(trace[0], acts) && After(trace[0], acts) == trace[|acts|]
    decreases |acts|
  {
    if acts != [] {
      assert StepAt(trace, acts, 0);
      forall i: nat | i < |acts[1..]| ensures StepAt(trace[1..], acts[1..], i) {
        assert StepAt(trace, acts, i + 1);
      }
      TraceRuns(trace[1..], acts[1..]);
    }
  }

  lemma {:induction false} TraceKeepsSeats(trace: seq<State>, acts: seq<Action>, i: nat)
    requires IsTrace(trace, acts) && Seats(trace[0]) && i <= |acts|
    ensures Seats(trace[i])
    decreases i
  {
    if i > 0 {
      TraceKeepsSeats(trace, acts, i - 1);
      assert StepAt(trace, acts, i - 1);
      StepKeepsSeats(trace[i - 1], acts[i - 1]);
    }
  }

  /** Inserts can go on after a purge: the run that starts with the purged state starts with sound locks. */
  lemma PurgeRestartsSound(trace: seq<State>, acts: seq<Action>, app: string, shuffle: Option<I32>, deleted: bool)
    requires IsTrace(trace, acts) && Seats(trace[0])
    ensures Seats(Purged(trace[|acts|], app, shuffle, deleted))
  {
    TraceKeepsSeats(trace, acts, |acts|);
    PurgedKeepsSeats(trace[|acts|], app, shuffle, deleted);
  }

  /** A sound lock with a free permit has an index for it. */
  lemma FreeHasIndex(lock: Lock.Sem, concurrency: nat)
    requires LockOk(lock, concurrency)
    ensures !lock.panicked && (lock.free > 0 ==> lock.deque != [])
  {
  }

  /** The files after some more bytes for one of them. */
  ghost function Grown(files: map<string, seq<Byte>>, path: string, more: seq<Byte>): map<string, seq<Byte>> {
    files[path := Contents(files, path) + more]
  }

  method Gather(batch: Batch) returns (data: seq<Block>)
    ensures data == Flatten(batch)
  {
    data := [];
    for i := 0 to |batch|
      invariant data == Flatten(batch[..i])
    {
      for j := 0 to |batch[i]|
        invariant data == Flatten(batch[..i]) + batch[i][..j]
      {
        data := data + [batch[i][j]];
      }
      FlattenTake(batch, i);
    }
    assert batch[..|batch|] == batch;
  }

  class HdfsStore {
    const worker: string
    const concurrency: nat
    const lockName: Uid -> string
    const slotName: SlotId -> string
    const fileName: FileId -> string
    var clients: set<string>
    var locks: map<string, Lock.Sem>
    var meta: map<string, Meta>
    var files: map<string, seq<Byte>>
    var health: bool
    ghost var model: State
    ghost var trace: seq<State>
    ghost var acts: seq<Action>

    /** The string-keyed maps hold what the protocol's state says. */
    ghost predicate Coupled()
      reads this`model, this`locks, this`meta, this`files
    {
      && model.concurrency == concurrency
      && Injective(lockName) && Injective(slotName) && Injective(fileName)
      && Renders(locks, model.locks, lockName)
      && Renders(meta, model.meta, slotName)
      && RendersFiles(files, model.pairs, fileName)
    }

    /** Everything since the first state was a run of the protocol. */
    ghost predicate Traced()
      reads this`trace, this`acts, this`model
    {
      IsTrace(trace, acts) && model == trace[|acts|]
    }

    ghost predicate Valid()
      reads this`trace, this`acts, this`model, this`locks, this`meta, this`files
    {
      Coupled() && Traced()
    }

    constructor (worker: string, concurrency: nat)
      ensures Valid() && model == Init(concurrency) && trace == [model] && this.concurrency == concurrency
      ensures health && clients == {} && this.worker == worker
      ensures lockName == LockNamer(worker) && slotName == SlotNamer(worker) && fileName == FileNamer(worker)
    {
      this.worker, this.concurrency := worker, concurrency;
      lockName, slotName, fileName := LockNamer(worker), SlotNamer(worker), FileNamer(worker);
      NamesInjective(worker);
      clients, locks, meta, files, health := {}, map[], map[], map[], true;
      model, trace, acts := Init(concurrency), [Init(concurrency)], [];
    }

    /** Recording one more step of the run. */
    ghost method Record(a: Action)
      requires Traced() && Enabled(model, a)
      modifies this`model, this`trace, this`acts
      ensures Traced() && model == Step(old(model), a) && trace[0] == old(trace[0])
    {
      TraceSnoc(trace, acts, a);
      model := Step(model, a);
      trace, acts := trace + [model], acts + [a];
    }

    // ---- the maps ----

    /** `entry(key).or_insert_with(...)`. */
    method OpenLock(uid: Uid, ghost n: map<Uid, Lock.Sem>)
      requires Injective(lockName) && Renders(locks, n, lockName)
      modifies this`locks
      ensures Renders(locks, if uid in n then n else n[uid := Lock.Init(concurrency)], lockName)
    {
      MapPut(locks, n, lockName, uid, Lock.Init(concurrency));
      if lockName(uid) !in locks {
        locks := locks[lockName(uid) := Lock.Init(concurrency)];
      }
    }

    /** One step on a partition's semaphore; returns the semaphore as it was. */
    method MoveLock(uid: Uid, a: Lock.Action, ghost n: map<Uid, Lock.Sem>) returns (before: Lock.Sem)
      requires Injective(lockName) && Renders(locks, n, lockName) && uid in n && Lock.Enabled(n[uid], a)
      modifies this`locks
      ensures before == n[uid] && Renders(locks, n[uid := Lock.Step(n[uid], a)], lockName)
    {
      MapPut(locks, n, lockName, uid, Lock.Step(n[uid], a));
      before := locks[lockName(uid)];
      locks := locks[lockName(uid) := Lock.Step(before, a)];
    }

    method GetMeta(slot: SlotId, ghost n: map<SlotId, Meta>) returns (m: Option<Meta>)
      requires Injective(slotName) && Renders(meta, n, slotName)
      ensures m == if slot in n then Some(n[slot]) else None
    {
      MapPut(meta, n, slotName, slot, Meta(0, 0));
      var name := slotName(slot);
      m := if name in meta then Some(meta[name]) else None;
    }

    method PutMeta(slot: SlotId, m: Meta, ghost n: map<SlotId, Meta>)
      requires Injective(slotName) && Renders(meta, n, slotName)
      modifies this`meta
      ensures Renders(meta, n[slot := m], slotName)
    {
      MapPut(meta, n, slotName, slot, m);
      meta := meta[slotName(slot) := m];
    }

    /** `touch`. */
    method Touch(f: FileId, ghost pairs: map<PairId, Pair>)
      requires Injective(fileName) && RendersFiles(files, pairs, fileName)
      modifies this`files
      ensures RendersFiles(files, WithFile(pairs, f, []), fileName)
    {
      FilePut(files, pairs, fileName, f, []);
      files := files[fileName(f) := []];
    }

    /** `append`, reaching only a prefix when it fails. */
    method Append(f: FileId, bytes: seq<Byte>, n: nat, ghost pairs: map<PairId, Pair>)
      requires Injective(fileName) && RendersFiles(files, pairs, fileName) && n <= |bytes|
      modifies this`files
      ensures RendersFiles(files, WithFile(pairs, f, BytesOf(pairs, f) + bytes[..n]), fileName)
      ensures files == Grown(old(files), fileName(f), bytes[..n])
    {
      FilePut(files, pairs, fileName, f, BytesOf(pairs, f) + bytes[..n]);
      var path := fileName(f);
      files := files[path := Contents(files, path) + bytes[..n]];
    }

    // ---- the phases of one insert ----

    /** The number has not been given to a writer yet. */
    ghost predicate NewId(w: nat)
      reads this`model
    {
      w !in model.writers && forall uid | uid in model.locks :: Outside(w, model.locks[uid])
    }

    ghost predicate Outside(w: nat, lock: Lock.Sem) {
      w !in lock.permitted && w !in lock.holding && w !in lock.returned
    }

    /** The writer waits at its partition's lock. */
    ghost predicate AtDoor(w: nat, uid: Uid, blocks: seq<Block>)
      reads this`model
    {
      && w in model.writers && model.writers[w] == Writer(uid, blocks, Queued)
      && uid in model.locks && Outside(w, model.locks[uid])
    }

    /** The writer is in this phase and holds the index. */
    ghost predicate At(w: nat, uid: Uid, blocks: seq<Block>, p: Phase)
      reads this`model
    {
      && w in model.writers && model.writers[w] == Writer(uid, blocks, p)
      && uid in model.locks && w in model.locks[uid].holding && !model.locks[uid].panicked
    }

    method Begin(w: nat, uid: Uid, blocks: seq<Block>)
      requires Valid() && NewId(w)
      modifies this`locks, this`model, this`trace, this`acts
      ensures Valid() && trace[0] == old(trace[0]) && AtDoor(w, uid, blocks)
    {
      OpenLock(uid, model.locks);
      Record(Start(w, uid, blocks));
    }

    lemma DoorLock(w: nat, uid: Uid, blocks: seq<Block>)
      requires Traced() && Seats(trace[0]) && AtDoor(w, uid, blocks)
      ensures var lock := model.locks[uid];
              && (lock.free > 0 ==> LockEnabled(model, uid, Lock.AcquirePermit(w)) && lock.deque != [])
              && (lock.free == 0 ==> !Lock.Enabled(lock, Lock.AcquirePermit(w)))
    {
      TraceKeepsSeats(trace, acts, |acts|);
      assert LockOk(model.locks[uid], model.concurrency);
      FreeHasIndex(model.locks[uid], model.concurrency);
    }

    method FreePermits(uid: Uid, ghost n: map<Uid, Lock.Sem>) returns (free: nat)
      requires Injective(lockName) && Renders(locks, n, lockName) && uid in n
      ensures free == n[uid].free
    {
      MapPut(locks, n, lockName, uid, n[uid]);
      free := locks[lockName(uid)].free;
    }

    method TakePermitStep(w: nat, uid: Uid, ghost blocks: seq<Block>)
      requires Valid() && w in model.writers && model.writers[w] == Writer(uid, blocks, Queued)
      requires LockEnabled(model, uid, Lock.AcquirePermit(w)) && model.locks[uid].deque != []
      modifies this`locks, this`model, this`trace, this`acts
      ensures Valid() && trace[0] == old(trace[0]) && w in model.writers && model.writers[w] == Writer(uid, blocks, Permitted)
      ensures LockEnabled(model, uid, Lock.PopIndex(w)) && model.locks[uid].deque != []
    {
      var _ := MoveLock(uid, Lock.AcquirePermit(w), model.locks);
      Record(TakePermit(w));
    }

    method TakeIndexStep(w: nat, uid: Uid, ghost blocks: seq<Block>) returns (idx: nat)
      requires Valid() && w in model.writers && model.writers[w] == Writer(uid, blocks, Permitted)
      requires LockEnabled(model, uid, Lock.PopIndex(w)) && model.locks[uid].deque != []
      modifies this`locks, this`model, this`trace, this`acts
      ensures Valid() && trace[0] == old(trace[0]) && At(w, uid, blocks, Picked(idx))
    {
      var lock := MoveLock(uid, Lock.PopIndex(w), model.locks);
      Record(TakeIndex(w));
      idx := lock.deque[0];
    }

    method PushBackStep(w: nat, uid: Uid, ghost blocks: seq<Block>, ghost idx: nat, ghost ok: bool)
      requires Valid() && At(w, uid, blocks, Leaving(idx, ok))
      modifies this`locks, this`model, this`trace, this`acts
      ensures Valid() && trace[0] == old(trace[0]) && w in model.writers && model.writers[w] == Writer(uid, blocks, Pushed(ok))
      ensures LockEnabled(model, uid, Lock.ReleasePermit(w))
    {
      var _ := MoveLock(uid, Lock.PushIndex(w), model.locks);
      Record(PushBack(w));
    }

    method ReleaseStep(w: nat, uid: Uid, ghost blocks: seq<Block>, ghost ok: bool)
      requires Valid() && w in model.writers && model.writers[w] == Writer(uid, blocks, Pushed(ok))
      requires LockEnabled(model, uid, Lock.ReleasePermit(w))
      modifies this`locks, this`model, this`trace, this`acts
      ensures Valid() && trace[0] == old(trace[0]) && w in model.writers && model.writers[w] == Writer(uid, blocks, Finished(ok))
    {
      var _ := MoveLock(uid, Lock.ReleasePermit(w), model.locks);
      Record(Release(w));
    }

    /** `acquire`: a permit and an index, if a permit is free. */
    method Enter(w: nat, uid: Uid, ghost blocks: seq<Block>) returns (ok: bool, idx: nat)
      requires Valid() && Seats(trace[0]) && AtDoor(w, uid, blocks)
      modifies this`locks, this`model, this`trace, this`acts
      ensures Valid() && trace[0] == old(trace[0]) && ok == (old(model.locks[uid]).free > 0)
      ensures if ok then At(w, uid, blocks, Picked(idx)) else model == old(model)
    {
      DoorLock(w, uid, blocks);
      var free := FreePermits(uid, model.locks);
      if free == 0 {
        return false, 0;
      }
      TakePermitStep(w, uid, blocks);
      idx := TakeIndexStep(w, uid, blocks);
      ok := true;
    }

    /** Dropping the permit: first the index goes back, then the permit. */
    method Leave(w: nat, uid: Uid, ghost blocks: seq<Block>, ghost idx: nat, ghost ok: bool)
      requires Valid() && At(w, uid, blocks, Leaving(idx, ok))
      modifies this`locks, this`model, this`trace, this`acts
      ensures Valid() && trace[0] == old(trace[0]) && w in model.writers && model.writers[w] == Writer(uid, blocks, Finished(ok))
    {
      PushBackStep(w, uid, blocks, idx, ok);
      ReleaseStep(w, uid, blocks, ok);
    }

    /** `touch` on the data file of a pair, by a writer that is about to use the pair. */
    method TouchDataStep(w: nat, slot: SlotId, ghost blocks: seq<Block>, retry: nat, ghost act: Action, ghost p: Phase, ghost q: Phase)
      requires Valid() && At(w, slot.uid, blocks, p)
      requires || (act == TouchData(w) && retry == 0 && p == Missing(slot.idx) && q == DataTouched(slot.idx))
               || (act == RetouchData(w) && p == Rotated(slot.idx, retry) && q == Retouched(slot.idx, retry))
      modifies this`files, this`model, this`trace, this`acts
      ensures Valid() && trace[0] == old(trace[0]) && At(w, slot.uid, blocks, q)
      ensures model.meta == old(model.meta) && BytesOf(model.pairs, DataOf(PairId(slot, retry))) == []
    {
      Touch(DataOf(PairId(slot, retry)), model.pairs);
      Record(act);
    }

    method TouchIndexStep(w: nat, slot: SlotId, ghost blocks: seq<Block>, retry: nat, ghost act: Action, ghost p: Phase, ghost q: Phase)
      requires Valid() && At(w, slot.uid, blocks, p)
      requires || (act == TouchIndex(w) && retry == 0 && p == DataTouched(slot.idx) && q == FilesTouched(slot.idx))
               || (act == RetouchIndex(w) && p == Retouched(slot.idx, retry) && q == Leaving(slot.idx, false))
      modifies this`files, this`model, this`trace, this`acts
      ensures Valid() && trace[0] == old(trace[0]) && At(w, slot.uid, blocks, q)
      ensures model.meta == old(model.meta) && BytesOf(model.pairs, IndexOf(PairId(slot, retry))) == []
      ensures BytesOf(model.pairs, DataOf(PairId(slot, retry))) == old(BytesOf(model.pairs, DataOf(PairId(slot, retry))))
    {
      Touch(IndexOf(PairId(slot, retry)), model.pairs);
      Record(act);
    }

    ghost method AbortStep(w: nat, uid: Uid, blocks: seq<Block>, p: Phase)
      requires Valid() && At(w, uid, blocks, p) && Abortable(p)
      modifies this`model, this`trace, this`acts
      ensures Valid() && trace[0] == old(trace[0]) && At(w, uid, blocks, Leaving(p.idx, false)) && OnlyMoved(old(model))
    {
      Record(Abort(w));
    }

    method InsertMetaStep(w: nat, slot: SlotId, ghost blocks: seq<Block>)
      requires Valid() && At(w, slot.uid, blocks, FilesTouched(slot.idx))
      modifies this`meta, this`model, this`trace, this`acts
      ensures Valid() && trace[0] == old(trace[0]) && At(w, slot.uid, blocks, Ready(slot.idx, 0, 0))
      ensures Noted(old(model), slot, Meta(0, 0))
    {
      PutMeta(slot, Meta(0, 0), model.meta);
      Record(InsertMeta(w));
    }

    /** Both files of the pair exist and are empty. */
    ghost predicate NewFiles(id: PairId)
      reads this`model
    {
      BytesOf(model.pairs, DataOf(id)) == [] && BytesOf(model.pairs, IndexOf(id)) == []
    }

    /** A missing meta means a new slot: create the directory and both files, then remember the slot. */
    method CreateSlot(w: nat, slot: SlotId, ghost blocks: seq<Block>, o: Outcome) returns (ok: bool)
      requires Valid() && At(w, slot.uid, blocks, Missing(slot.idx))
      modifies this`meta, this`files, this`model, this`trace, this`acts
      ensures Valid() && trace[0] == old(trace[0])
      ensures At(w, slot.uid, blocks, if ok then Ready(slot.idx, 0, 0) else Leaving(slot.idx, false))
      ensures ok == (o.dir && o.touchData && o.touchIndex)
      ensures model.meta == if ok then old(model.meta)[slot := Meta(0, 0)] else old(model.meta)
      ensures ok ==> NewFiles(PairId(slot, 0))
    {
      if !o.dir || !o.touchData {
        AbortStep(w, slot.uid, blocks, Missing(slot.idx));
        return false;
      }
      TouchDataStep(w, slot, blocks, 0, TouchData(w), Missing(slot.idx), DataTouched(slot.idx));
      if !o.touchIndex {
        AbortStep(w, slot.uid, blocks, DataTouched(slot.idx));
        return false;
      }
      TouchIndexStep(w, slot, blocks, 0, TouchIndex(w), DataTouched(slot.idx), FilesTouched(slot.idx));
      InsertMetaStep(w, slot, blocks);
      return true;
    }

    /** The slot's new meta, all else as before. */
    ghost predicate Noted(s: State, slot: SlotId, m: Meta)
      reads this`model
    {
      && model.meta == s.meta[slot := m]
      && model.locks == s.locks && model.pairs == s.pairs && model.concurrency == s.concurrency
    }

    ghost predicate OnlyMoved(s: State)
      reads this`model
    {
      model.meta == s.meta && model.locks == s.locks && model.pairs == s.pairs && model.concurrency == s.concurrency
    }

    ghost method RecordRotate(w: nat, slot: SlotId, blocks: seq<Block>, retry: nat)
      requires Traced() && At(w, slot.uid, blocks, Broken(slot.idx, retry))
      modifies this`model, this`trace, this`acts
      ensures Traced() && trace[0] == old(trace[0])
      ensures old(slot !in model.meta) ==> OnlyMoved(old(model)) && At(w, slot.uid, blocks, Leaving(slot.idx, false))
      ensures old(slot in model.meta) ==>
        var next := old(model).meta[slot].retry + 1;
        Noted(old(model), slot, Meta(0, next)) && At(w, slot.uid, blocks, Rotated(slot.idx, next))
    {
      Record(Rotate(w));
    }

    ghost method RecordOffset(w: nat, slot: SlotId, blocks: seq<Block>, offset: I64, retry: nat)
      requires Traced() && At(w, slot.uid, blocks, IndexWritten(slot.idx, offset, retry))
      modifies this`model, this`trace, this`acts
      ensures Traced() && trace[0] == old(trace[0])
      ensures old(slot !in model.meta) ==> OnlyMoved(old(model)) && At(w, slot.uid, blocks, Leaving(slot.idx, false))
      ensures old(slot in model.meta) ==>
        && Noted(old(model), slot, old(model).meta[slot].(dataLen := WrapI64(offset + SumLength(blocks))))
        && At(w, slot.uid, blocks, Leaving(slot.idx, true))
    {
      Record(StoreOffset(w));
    }

    method RotateStep(w: nat, slot: SlotId, ghost blocks: seq<Block>, ghost retry: nat) returns (next: Option<nat>)
      requires Valid() && At(w, slot.uid, blocks, Broken(slot.idx, retry))
      modifies this`meta, this`model, this`trace, this`acts
      ensures Valid() && trace[0] == old(trace[0])
      ensures At(w, slot.uid, blocks, if next.Some? then Rotated(slot.idx, next.value) else Leaving(slot.idx, false))
      ensures next == if slot in old(model.meta) then Some(old(model.meta)[slot].retry + 1) else None
      ensures model.meta == if next.Some? then old(model.meta)[slot := Meta(0, next.value)] else old(model.meta)
    {
      var found := GetMeta(slot, model.meta);
      if found.None? {
        RecordRotate(w, slot, blocks, retry);
        return None;
      }
      next := Some(found.value.retry + 1);
      PutMeta(slot, Meta(0, next.value), model.meta);
      RecordRotate(w, slot, blocks, retry);
    }

    /** After a failed append the slot moves on to a fresh pair. */
    method MoveOn(w: nat, slot: SlotId, ghost blocks: seq<Block>, ghost retry: nat, o: Outcome)
      requires Valid() && At(w, slot.uid, blocks, Broken(slot.idx, retry))
      modifies this`meta, this`files, this`model, this`trace, this`acts
      ensures Valid() && trace[0] == old(trace[0]) && At(w, slot.uid, blocks, Leaving(slot.idx, false))
      ensures slot !in old(model.meta) ==> model.meta == old(model.meta)
      ensures slot in old(model.meta) ==>
        var r := old(model.meta)[slot].retry + 1;
        && model.meta == old(model.meta)[slot := Meta(0, r)]
        && (o.retouchData && o.retouchIndex ==> NewFiles(PairId(slot, r)))
    {
      var next := RotateStep(w, slot, blocks, retry);
      if next.None? {
        return;
      }
      var r := next.value;
      if !o.retouchData {
        AbortStep(w, slot.uid, blocks, Rotated(slot.idx, r));
        return;
      }
      TouchDataStep(w, slot, blocks, r, RetouchData(w), Rotated(slot.idx, r), Retouched(slot.idx, r));
      if !o.retouchIndex {
        AbortStep(w, slot.uid, blocks, Retouched(slot.idx, r));
        return;
      }
      TouchIndexStep(w, slot, blocks, r, RetouchIndex(w), Retouched(slot.idx, r), Leaving(slot.idx, false));
    }

    /** The file's new bytes, all else as before. */
    ghost predicate Wrote(s: State, f: FileId, more: seq<Byte>)
      reads this`model
    {
      && model.locks == s.locks && model.meta == s.meta && model.concurrency == s.concurrency
      && SameBytes(WithFile(s.pairs, f, BytesOf(s.pairs, f) + more), model.pairs)
    }

    ghost method RecordData(w: nat, slot: SlotId, blocks: seq<Block>, offset: I64, retry: nat, n: nat, ok: bool)
      requires Traced() && At(w, slot.uid, blocks, Ready(slot.idx, offset, retry))
      requires n <= |DataBytes(blocks)| && (ok ==> n == |DataBytes(blocks)|)
      modifies this`model, this`trace, this`acts
      ensures Traced() && trace[0] == old(trace[0]) && Wrote(old(model), DataOf(PairId(slot, retry)), DataBytes(blocks)[..n])
      ensures At(w, slot.uid, blocks, if ok then DataWritten(slot.idx, offset, retry) else Broken(slot.idx, retry))
    {
      Record(AppendData(w, n, ok));
    }

    ghost method RecordIndex(w: nat, slot: SlotId, blocks: seq<Block>, offset: I64, retry: nat, n: nat, ok: bool)
      requires Traced() && At(w, slot.uid, blocks, DataWritten(slot.idx, offset, retry))
      requires n <= |IndexBytes(Entries(blocks, offset))| && (ok ==> n == |IndexBytes(Entries(blocks, offset))|)
      modifies this`model, this`trace, this`acts
      ensures Traced() && trace[0] == old(trace[0])
      ensures Wrote(old(model), IndexOf(PairId(slot, retry)), IndexBytes(Entries(blocks, offset))[..n])
      ensures At(w, slot.uid, blocks, if ok then IndexWritten(slot.idx, offset, retry) else Broken(slot.idx, retry))
    {
      Record(AppendIndex(w, n, ok));
    }

    /** Appending to one file and moving the writer on. */
    method AppendDataStep(w: nat, slot: SlotId, blocks: seq<Block>, ghost offset: I64, retry: nat, data: seq<Byte>, written: nat, ok: bool)
      requires Valid() && At(w, slot.uid, blocks, Ready(slot.idx, offset, retry)) && data == DataBytes(blocks)
      modifies this`files, this`model, this`trace, this`acts
      ensures Valid() && trace[0] == old(trace[0])
      ensures At(w, slot.uid, blocks, if ok then DataWritten(slot.idx, offset, retry) else Broken(slot.idx, retry))
      ensures model.meta == old(model.meta)
      ensures files == Grown(old(files), fileName(DataOf(PairId(slot, retry))), data[..Reached(data, written, ok)])
    {
      var n, f := Reached(data, written, ok), DataOf(PairId(slot, retry));
      ghost var pairs := model.pairs;
      Append(f, data, n, pairs);
      RecordData(w, slot, blocks, offset, retry, n, ok);
      FilesSame(files, WithFile(pairs, f, BytesOf(pairs, f) + data[..n]), model.pairs, fileName);
    }

    method AppendIndexStep(w: nat, slot: SlotId, ghost blocks: seq<Block>, ghost offset: I64, retry: nat, index: seq<Byte>, written: nat, ok: bool)
      requires Valid() && At(w, slot.uid, blocks, DataWritten(slot.idx, offset, retry)) && index == IndexBytes(Entries(blocks, offset))
      modifies this`files, this`model, this`trace, this`acts
      ensures Valid() && trace[0] == old(trace[0])
      ensures At(w, slot.uid, blocks, if ok then IndexWritten(slot.idx, offset, retry) else Broken(slot.idx, retry))
      ensures model.meta == old(model.meta)
      ensures files == Grown(old(files), fileName(IndexOf(PairId(slot, retry))), index[..Reached(index, written, ok)])
    {
      var n, f := Reached(index, written, ok), IndexOf(PairId(slot, retry));
      ghost var pairs := model.pairs;
      Append(f, index, n, pairs);
      RecordIndex(w, slot, blocks, offset, retry, n, ok);
      FilesSame(files, WithFile(pairs, f, BytesOf(pairs, f) + index[..n]), model.pairs, fileName);
    }

    /** `write_data_and_index`: data first, then index. */
    method WriteDataAndIndex(w: nat, slot: SlotId, blocks: seq<Block>, offset: I64, retry: nat, o: Outcome)
      returns (ok: bool, next: I64)
      requires Valid() && At(w, slot.uid, blocks, Ready(slot.idx, offset, retry))
      modifies this`files, this`model, this`trace, this`acts
      ensures Valid() && trace[0] == old(trace[0]) && next == WrapI64(offset + SumLength(blocks))
      ensures At(w, slot.uid, blocks, if ok then IndexWritten(slot.idx, offset, retry) else Broken(slot.idx, retry))
      ensures ok == (o.dataOk && o.indexOk) && model.meta == old(model.meta)
    {
      var format := GenerateShuffleFileFormat(blocks, offset);
      next := format.offset;
      AppendDataStep(w, slot, blocks, offset, retry, Flatten(format.chunks), o.dataWritten, o.dataOk);
      if !o.dataOk {
        return false, next;
      }
      AppendIndexStep(w, slot, blocks, offset, retry, format.index, o.indexWritten, o.indexOk);
      return o.indexOk, next;
    }

    method ReadMetaStep(w: nat, slot: SlotId, ghost blocks: seq<Block>) returns (found: Option<Meta>)
      requires Valid() && At(w, slot.uid, blocks, Picked(slot.idx))
      modifies this`model, this`trace, this`acts
      ensures Valid() && trace[0] == old(trace[0])
      ensures At(w, slot.uid, blocks,
                 if found.Some? then Ready(slot.idx, found.value.dataLen, found.value.retry) else Missing(slot.idx))
      ensures model.meta == old(model.meta) && found == if slot in model.meta then Some(model.meta[slot]) else None
    {
      found := GetMeta(slot, model.meta);
      Record(ReadMeta(w));
    }

    /** Write the batch to the current pair; a failure moves the slot on to the next pair. */
    method WriteBatch(w: nat, slot: SlotId, blocks: seq<Block>, offset: I64, retry: nat, o: Outcome) returns (ok: bool)
      requires Valid() && At(w, slot.uid, blocks, Ready(slot.idx, offset, retry)) && slot in model.meta
      modifies this`meta, this`files, this`health, this`model, this`trace, this`acts
      ensures Valid() && trace[0] == old(trace[0]) && At(w, slot.uid, blocks, Leaving(slot.idx, ok))
      ensures health == (old(health) && !(o.outOfMemory && !ok))
      ensures ok == (o.dataOk && o.indexOk) && slot in model.meta
      ensures var before := old(model.meta[slot]);
        model.meta[slot] == if ok then Meta(WrapI64(offset + SumLength(blocks)), before.retry) else Meta(0, before.retry + 1)
    {
      var written, next := WriteDataAndIndex(w, slot, blocks, offset, retry, o);
      ok := AfterWrite(w, slot, blocks, offset, retry, o, written, next);
    }

    /** A complete write records the next offset; any other moves the slot on. */
    method AfterWrite(w: nat, slot: SlotId, blocks: seq<Block>, ghost offset: I64, ghost retry: nat, o: Outcome, written: bool, next: I64)
      returns (ok: bool)
      requires Valid() && slot in model.meta && next == WrapI64(offset + SumLength(blocks))
      requires At(w, slot.uid, blocks, if written then IndexWritten(slot.idx, offset, retry) else Broken(slot.idx, retry))
      modifies this`meta, this`files, this`health, this`model, this`trace, this`acts
      ensures Valid() && trace[0] == old(trace[0]) && At(w, slot.uid, blocks, Leaving(slot.idx, ok)) && ok == written
      ensures health == (old(health) && !(o.outOfMemory && !ok))
      ensures ok ==> model.meta == old(model.meta)[slot := old(model.meta)[slot].(dataLen := next)]
      ensures !ok ==> model.meta == old(model.meta)[slot := Meta(0, old(model.meta)[slot].retry + 1)]
    {
      if !written {
        if o.outOfMemory {
          health := false;
        }
        MoveOn(w, slot, blocks, retry, o);
        return false;
      }
      ok := FinishInsert(w, slot, blocks, offset, retry, next);
    }

    /** Find the slot's meta, or create the slot. */
    method PrepareSlot(w: nat, slot: SlotId, ghost blocks: seq<Block>, o: Outcome) returns (ok: bool, offset: I64, retry: nat)
      requires Valid() && At(w, slot.uid, blocks, Picked(slot.idx))
      modifies this`meta, this`files, this`model, this`trace, this`acts
      ensures Valid() && trace[0] == old(trace[0])
      ensures At(w, slot.uid, blocks, if ok then Ready(slot.idx, offset, retry) else Leaving(slot.idx, false))
      ensures ok == (slot in old(model.meta) || (o.dir && o.touchData && o.touchIndex))
      ensures ok ==> slot in model.meta && model.meta[slot] == Meta(offset, retry)
      ensures slot in old(model.meta) ==> model.meta == old(model.meta)
    {
      var found := ReadMetaStep(w, slot, blocks);
      if found.Some? {
        return true, found.value.dataLen, found.value.retry;
      }
      offset, retry := 0, 0;
      ok := CreateSlot(w, slot, blocks, o);
    }

    /** With a file system client: find or create the slot, then write. */
    method InsertRegistered(w: nat, slot: SlotId, blocks: seq<Block>, o: Outcome) returns (ok: bool)
      requires Valid() && At(w, slot.uid, blocks, Picked(slot.idx))
      modifies this`meta, this`files, this`health, this`model, this`trace, this`acts
      ensures Valid() && trace[0] == old(trace[0]) && At(w, slot.uid, blocks, Leaving(slot.idx, ok))
      ensures ok == ((slot in old(model.meta) || (o.dir && o.touchData && o.touchIndex)) && o.dataOk && o.indexOk)
      ensures ok || !o.outOfMemory ==> health == old(health)
    {
      var ready, offset, retry := PrepareSlot(w, slot, blocks, o);
      if !ready {
        return false;
      }
      ok := WriteBatch(w, slot, blocks, offset, retry, o);
    }

    /** The part of `data_insert` between taking and dropping the permit. */
    method InsertUnderLock(w: nat, slot: SlotId, blocks: seq<Block>, o: Outcome) returns (ok: bool)
      requires Valid() && At(w, slot.uid, blocks, Picked(slot.idx))
      modifies this`meta, this`files, this`health, this`model, this`trace, this`acts
      ensures Valid() && trace[0] == old(trace[0]) && At(w, slot.uid, blocks, Leaving(slot.idx, ok))
      ensures ok <==>
        && slot.uid.appId in clients && (slot in old(model.meta) || (o.dir && o.touchData && o.touchIndex))
        && o.dataOk && o.indexOk
      ensures ok || !o.outOfMemory ==> health == old(health)
    {
      if slot.uid.appId !in clients {
        AbortStep(w, slot.uid, blocks, Picked(slot.idx));
        return false;
      }
      ok := InsertRegistered(w, slot, blocks, o);
    }

    method FinishInsert(w: nat, slot: SlotId, ghost blocks: seq<Block>, ghost offset: I64, ghost retry: nat, next: I64) returns (ok: bool)
      requires Valid() && At(w, slot.uid, blocks, IndexWritten(slot.idx, offset, retry))
      requires next == WrapI64(offset + SumLength(blocks))
      modifies this`meta, this`model, this`trace, this`acts
      ensures Valid() && trace[0] == old(trace[0]) && At(w, slot.uid, blocks, Leaving(slot.idx, ok))
      ensures ok == (slot in old(model.meta))
      ensures model.meta == if ok then old(model.meta)[slot := old(model.meta)[slot].(dataLen := next)] else old(model.meta)
    {
      var found := GetMeta(slot, model.meta);
      if found.None? {
        RecordOffset(w, slot, blocks, offset, retry);
        return false;
      }
      StoreOffsetStep(w, slot, blocks, offset, retry, found.value.(dataLen := next));
      return true;
    }

    method StoreOffsetStep(w: nat, slot: SlotId, ghost blocks: seq<Block>, ghost offset: I64, ghost retry: nat, m: Meta)
      requires Valid() && At(w, slot.uid, blocks, IndexWritten(slot.idx, offset, retry)) && slot in model.meta
      requires m == model.meta[slot].(dataLen := WrapI64(offset + SumLength(blocks)))
      modifies this`meta, this`model, this`trace, this`acts
      ensures Valid() && trace[0] == old(trace[0]) && At(w, slot.uid, blocks, Leaving(slot.idx, true))
      ensures model.meta == old(model.meta)[slot := m]
    {
      PutMeta(slot, m, model.meta);
      RecordOffset(w, slot, blocks, offset, retry);
    }

    /** The insert of a writer at its lock, up to its answer; without a free permit it keeps waiting. */
    method Proceed(w: nat, uid: Uid, blocks: seq<Block>, o: Outcome) returns (r: Answer)
      requires Valid() && Seats(trace[0]) && AtDoor(w, uid, blocks)
      modifies this`locks, this`meta, this`files, this`health, this`model, this`trace, this`acts
      ensures Valid() && trace[0] == old(trace[0])
      ensures r.Waiting? <==> old(model.locks[uid]).free == 0
      ensures r.Waiting? ==> model == old(model)
      ensures r.Answered? ==> w in model.writers && model.writers[w] == Writer(uid, blocks, Finished(r.ok))
      ensures r == Answered(true) ==> uid.appId in clients && o.dataOk && o.indexOk
      ensures r.Answered? && uid.appId in clients && o.dir && o.touchData && o.touchIndex && o.dataOk && o.indexOk ==> r.ok
      ensures r != Answered(false) || !o.outOfMemory ==> health == old(health)
    {
      var entered, idx := Enter(w, uid, blocks);
      if !entered {
        return Waiting;
      }
      var ok := InsertUnderLock(w, SlotId(uid, idx), blocks, o);
      Leave(w, uid, blocks, idx, ok);
      r := Answered(ok);
    }

    /** One whole insert is a run of one writer of the protocol, uninterrupted or waiting at the lock. */
    method DataInsert(w: nat, uid: Uid, blocks: seq<Block>, o: Outcome) returns (r: Answer)
      requires Valid() && Seats(trace[0]) && NewId(w)
      modifies this
      ensures Valid() && trace[0] == old(trace[0]) && clients == old(clients)
      ensures !old(health) ==> r == Answered(false) && model == old(model)
      ensures r.Waiting? ==> AtDoor(w, uid, blocks) && model.locks[uid].free == 0
      ensures old(health) && r.Answered? ==> w in model.writers && model.writers[w] == Writer(uid, blocks, Finished(r.ok))
      ensures r == Answered(true) ==> uid.appId in clients && o.dataOk && o.indexOk
      ensures old(health) && r.Answered? && uid.appId in clients && o.dir && o.touchData && o.touchIndex && o.dataOk && o.indexOk ==>
                r.ok
      ensures r != Answered(false) || !o.outOfMemory ==> health == old(health)
    {
      if !health {
        return Answered(false);
      }
      Begin(w, uid, blocks);
      r := Proceed(w, uid, blocks, o);
    }

    /** `spill_insert`: the blocks of all batches, stably ordered by task. */
    method SpillInsert(w: nat, uid: Uid, batch: Batch, o: Outcome) returns (r: Answer)
      requires Valid() && Seats(trace[0]) && NewId(w)
      modifies this
      ensures Valid() && trace[0] == old(trace[0]) && clients == old(clients)
      ensures !old(health) ==> r == Answered(false) && model == old(model)
      ensures r.Waiting? ==> AtDoor(w, uid, SortByTask(Flatten(batch))) && model.locks[uid].free == 0
      ensures old(health) && r.Answered? ==>
                w in model.writers && model.writers[w] == Writer(uid, SortByTask(Flatten(batch)), Finished(r.ok))
      ensures r == Answered(true) ==> uid.appId in clients && o.dataOk && o.indexOk
      ensures old(health) && r.Answered? && uid.appId in clients && o.dir && o.touchData && o.touchIndex && o.dataOk && o.indexOk ==>
                r.ok
    {
      var data := Gather(batch);
      r := DataInsert(w, uid, SortByTask(data), o);
    }

    /** `register_app`: without a remote storage configuration, or when no client can be made, an error; the
        first client stays. */
    method RegisterApp(app: string, configured: bool, created: bool) returns (ok: bool)
      requires Valid()
      modifies this`clients
      ensures Valid() && ok == (configured && created)
      ensures clients == if ok then old(clients) + {app} else old(clients)
    {
      if !configured || !created {
        return false;
      }
      clients := clients + {app};
      ok := true;
    }

    // ---- purge ----

    /** Forget every slot of one lock key, adding up the lengths they recorded. */
    method ForgetSlots(key: string, size: I64, ghost before: map<string, Meta>) returns (removed: I64)
      requires Accounts(before, meta, size)
      modifies this`meta
      ensures Accounts(before, meta, removed) && Survive(old(meta), meta, {key}, concurrency)
    {
      removed := size;
      SurviveNone(meta, {key}, 0);
      for idx := 0 to concurrency
        invariant Accounts(before, meta, removed) && Survive(old(meta), meta, {key}, idx)
      {
        var prefix := Slot(key, idx);
        SurviveNext(old(meta), meta, key, idx);
        if prefix in meta {
          AccountsRemove(before, meta, removed, prefix);
          removed := WrapI64(removed + meta[prefix].dataLen);
          meta := meta - {prefix};
        } else {
          assert meta - {prefix} == meta;
        }
      }
    }

    /** The loop over the keys to delete. */
    method ForgetLocks(keys: set<string>) returns (removed: I64)
      modifies this`locks, this`meta
      ensures locks == old(locks) - keys
      ensures Accounts(old(meta), meta, removed) && Survive(old(meta), meta, keys, concurrency)
    {
      removed := 0;
      var left := keys;
      SurviveNone(meta, keys - left, concurrency);
      while left != {}
        invariant left <= keys && locks == old(locks) - (keys - left)
        invariant Accounts(old(meta), meta, removed) && Survive(old(meta), meta, keys - left, concurrency)
        decreases |left|
      {
        var key :| key in left;
        StillLeft(keys, left, key);
        MinusBoth(old(locks), keys - left, key);
        ghost var was := meta;
        locks := locks - {key};
        removed := ForgetSlots(key, removed, old(meta));
        SurviveBoth(old(meta), was, meta, keys - left, key, concurrency);
        left := left - {key};
      }
      assert keys - left == keys;
    }

    /** Deleting the directory with everything below it. */
    method DeleteDir(dir: string)
      modifies this`files
      ensures files == map p | p in old(files) && !(dir <= p) :: old(files)[p]
    {
      files := map p | p in files && !(dir <= p) :: files[p];
    }

    /** `purge` of an application, or of one of its shuffles: returns the cached lengths it removed, or an
        error (`None`) when the directory cannot be deleted; locks and metas are gone by then. */
    method Purge(app: string, shuffle: Option<I32>, deleted: bool) returns (removed: Option<I64>)
      requires Valid() && Free('/', app) && AllSlashFree(model)
      requires lockName == LockNamer(worker) && slotName == SlotNamer(worker) && fileName == FileNamer(worker)
      modifies this`clients, this`locks, this`meta, this`files, this`model, this`trace, this`acts
      ensures Valid()
      ensures app !in old(clients) ==> removed == Some(0) && model == old(model) && clients == old(clients) && trace == old(trace)
      ensures app in old(clients) ==>
        && model == Purged(old(model), app, shuffle, deleted) && trace == [model]
        && clients == (if shuffle.None? then old(clients) - {app} else old(clients))
        && (removed.None? <==> PurgedLocks(old(model), app, shuffle) != {} && !deleted)
        && (removed.Some? ==> Accounts(old(meta), meta, removed.value))
    {
      if app !in clients {
        return Some(0);
      }
      if shuffle.None? {
        clients := clients - {app};
      }
      removed := PurgeKeys(app, shuffle, deleted, Purged(model, app, shuffle, deleted));
    }

    /** The run starts anew. */
    ghost method Restart(t: State)
      modifies this`model, this`trace, this`acts
      ensures Traced() && model == t && trace == [t]
    {
      model, trace, acts := t, [t], [];
    }

    /** Remove the matching locks and their metas, then the directory. */
    method PurgeKeys(app: string, shuffle: Option<I32>, deleted: bool, ghost t: State) returns (removed: Option<I64>)
      requires Valid() && Free('/', app) && AllSlashFree(model) && t == Purged(model, app, shuffle, deleted)
      requires lockName == LockNamer(worker) && slotName == SlotNamer(worker) && fileName == FileNamer(worker)
      modifies this`locks, this`meta, this`files, this`model, this`trace, this`acts
      ensures Valid() && model == t && trace == [t]
      ensures removed.None? <==> PurgedLocks(old(model), app, shuffle) != {} && !deleted
      ensures removed.Some? ==> Accounts(old(meta), meta, removed.value)
    {
      removed := RemoveKeys(app, shuffle, deleted, t);
      Restart(t);
    }

    method RemoveKeys(app: string, shuffle: Option<I32>, deleted: bool, ghost t: State) returns (removed: Option<I64>)
      requires Coupled() && Free('/', app) && AllSlashFree(model) && t == Purged(model, app, shuffle, deleted)
      requires lockName == LockNamer(worker) && slotName == SlotNamer(worker) && fileName == FileNamer(worker)
      modifies this`locks, this`meta, this`files
      ensures removed.None? <==> PurgedLocks(model, app, shuffle) != {} && !deleted
      ensures removed.Some? ==> Accounts(old(meta), meta, removed.value)
      ensures t.concurrency == model.concurrency
      ensures Renders(locks, t.locks, lockName) && Renders(meta, t.meta, slotName) && RendersFiles(files, t.pairs, fileName)
    {
      var dir := Dir(app, shuffle);
      var keys := set k | k in locks && dir <= k;
      assert keys == DirKeys(locks, dir);
      PurgeRenders(model, locks, meta, worker, app, shuffle);
      var size := ForgetLocks(keys);
      SurvivorsRender(old(meta), meta, keys, concurrency);
      removed := Some(size);
      if keys != {} {
        if !deleted {
          return None;
        }
        FilesPurged(model, files, worker, app, shuffle);
        DeleteDir(dir);
      }
    }
  }

  lemma PairByName(worker: string, files: map<string, seq<Byte>>, s: State, id: PairId)
    requires RendersFiles(files, s.pairs, FileNamer(worker))
    ensures Contents(files, FileName(worker, IndexOf(id))) == PairOf(s, id).index
    ensures Contents(files, FileName(worker, DataOf(id))) == PairOf(s, id).data
  {
    var name := FileNamer(worker);
    assert Contents(files, name(IndexOf(id))) == PairIn(s.pairs, id).index;
    assert Contents(files, name(DataOf(id))) == PairIn(s.pairs, id).data;
  }

  /** Read by name: in every store reached by inserts, each complete entry of a named index file points at
      its block's bytes in the data file of the same name. */
  lemma NamedFilesTruthful(
    worker: string, concurrency: nat, files: map<string, seq<Byte>>, trace: seq<State>, acts: seq<Action>, id: PairId)
    requires IsTrace(trace, acts) && trace[0] == Init(concurrency)
    requires RendersFiles(files, trace[|acts|].pairs, FileNamer(worker))
    requires var log := PairOf(trace[|acts|], id).log;
      (forall b | b in log :: Honest(b)) && SumLength(log) < 0x8000_0000_0000_0000
    ensures HdfsRuns.EntriesPoint(
      Contents(files, FileName(worker, IndexOf(id))), Contents(files, FileName(worker, DataOf(id))), PairOf(trace[|acts|], id).log)
  {
    PairByName(worker, files, trace[|acts|], id);
    TraceRuns(trace, acts);
    HdfsRuns.HdfsIndexesTruthful(concurrency, acts, id);
  }

  /** And read by file name: a writer that was answered with success finds each of its blocks in some pair. */
  lemma NamedAcknowledged(
    worker: string, concurrency: nat, files: map<string, seq<Byte>>, trace: seq<State>, acts: seq<Action>, w: nat, j: nat)
    returns (id: PairId, i: nat)
    requires IsTrace(trace, acts) && trace[0] == Init(concurrency)
    requires RendersFiles(files, trace[|acts|].pairs, FileNamer(worker))
    requires var s := trace[|acts|];
      && w in s.writers && s.writers[w].phase == Finished(true) && j < |s.writers[w].blocks|
      && forall p :: (forall b | b in PairOf(s, p).log :: Honest(b)) && SumLength(PairOf(s, p).log) < 0x8000_0000_0000_0000
    ensures id.slot.uid == trace[|acts|].writers[w].uid
    ensures var entries := DecodeIndex(Contents(files, FileName(worker, IndexOf(id))));
      i < |entries| && PointsAt(entries[i], Contents(files, FileName(worker, DataOf(id))), trace[|acts|].writers[w].blocks[j])
  {
    var s := trace[|acts|];
    TraceRuns(trace, acts);
    HdfsRuns.AcknowledgedIsReadable(concurrency, acts, w, j);
    id, i := s.acked[w].pair, s.acked[w].at + j;
    PairByName(worker, files, s, id);
  }
}
