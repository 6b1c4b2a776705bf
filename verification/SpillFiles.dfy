/** From the spill pipeline down to the files, as one system: the pipeline, the local file store and the
    writers of the HDFS store take their steps in any interleaving, and an insert of the pipeline succeeds
    exactly when the store it goes to performed it. So what the pipeline counts as stored can be read from
    the file pairs, as long as no local append failed half-way. */
module SpillFiles {
  import opened Bytes
  import opened Blocks
  import opened Buffer
  import opened FileFormat
  import opened Paths
  import opened SpillMessage
  import opened SpillProtocol
  import opened SpillRuns
  import Local = LocalFile
  import Hdfs = HdfsProtocol
  import HdfsRuns
  import HdfsSeats

  /** The pipeline, the operations the local store has performed, and the HDFS store. */
  datatype System = System(pipe: State, ops: seq<Local.Op>, hdfs: Hdfs.State)

  datatype Event =
    | Pipe(a: Action)                                                    // anything but an insert
    | LocalInsert(m: nat, op: Local.Op, error: WorkerError)
    | HdfsInsert(m: nat, w: nat, error: WorkerError)                     // the writer has returned
    | HdfsStep(h: Hdfs.Action)

  /** The step reaches `spill_insert`. */
  predicate Inserts(c: Config, s: State, a: Action) {
    a.Act? && a.m < |s.msgs| && a.step.Flush? && Attempts(c, s.msgs[a.m], a.step.flush)
  }

  /** The flush step of a message, with what its store answered. */
  function FlushWith(m: nat, ok: bool, error: WorkerError): Action {
    Act(m, Flush(FlushEnv(true, if ok then Inserted else InsertFailed(error))))
  }

  predicate GoesTo(c: Config, s: State, m: nat, store: StorageType) {
    && m < |s.msgs| && Can(s.msgs[m], Flush(FlushEnv(true, Inserted)))
    && Attempts(c, s.msgs[m], FlushEnv(true, Inserted))
    && WrittenStore(c, s.msgs[m].candidate.value) == Some(store)
  }

  predicate LocalOk(x: System, op: Local.Op) { Local.Succeeds(Local.After(Local.EMPTY, x.ops), op) }

  predicate CanDo(c: Config, x: System, e: Event) {
    match e
    case Pipe(a) => Enabled(x.pipe, a) && !Inserts(c, x.pipe, a)
    case LocalInsert(m, op, _) =>
      && GoesTo(c, x.pipe, m, LOCALFILE)
      && op.uid == x.pipe.msgs[m].uid && op.batch == x.pipe.msgs[m].blocks
    case HdfsInsert(m, w, _) =>
      && GoesTo(c, x.pipe, m, HDFS) && w in x.hdfs.writers && x.hdfs.writers[w].phase.Finished?
      && x.hdfs.writers[w].uid == x.pipe.msgs[m].uid
      && x.hdfs.writers[w].blocks == SortByTask(Flatten(x.pipe.msgs[m].blocks))
    case HdfsStep(h) => Hdfs.Enabled(x.hdfs, h)
  }

  function Do(c: Config, x: System, e: Event): System
    requires CanDo(c, x, e)
  {
    match e
    case Pipe(a) => x.(pipe := Step(c, x.pipe, a))
    case LocalInsert(m, op, error) =>
      x.(pipe := Step(c, x.pipe, FlushWith(m, LocalOk(x, op), error)), ops := x.ops + [op])
    case HdfsInsert(m, w, error) =>
      x.(pipe := Step(c, x.pipe, FlushWith(m, x.hdfs.writers[w].phase.ok, error)))
    case HdfsStep(h) => x.(hdfs := Hdfs.Step(x.hdfs, h))
  }

  ghost predicate Happens(c: Config, x: System, events: seq<Event>)
    decreases |events|
  {
    events == [] || (CanDo(c, x, events[0]) && Happens(c, Do(c, x, events[0]), events[1..]))
  }

  ghost function Now(c: Config, x: System, events: seq<Event>): System
    requires Happens(c, x, events)
    decreases |events|
  {
    if events == [] then x else Now(c, Do(c, x, events[0]), events[1..])
  }

  function Start(c: Config, concurrency: nat): System { System(Init(c), [], Hdfs.Init(concurrency)) }

  // ---- stored means performed ----

  ghost predicate LocalHas(ops: seq<Local.Op>, u: Uid, b: Block, i: nat) {
    Local.SucceedsAt(ops, i) && ops[i].uid == u && b in Flatten(ops[i].batch)
  }

  ghost predicate HdfsHas(h: Hdfs.State, u: Uid, b: Block, w: nat) {
    w in h.writers && h.writers[w].uid == u && b in h.writers[w].blocks && h.writers[w].phase == Hdfs.Finished(true)
  }

  /** The store that a stored block names has performed an insert with it. */
  ghost predicate Backed(x: System, s: StoredBlock) {
    match s.store
    case LOCALFILE => exists i: nat :: LocalHas(x.ops, s.uid, s.block, i)
    case HDFS => exists w: nat :: HdfsHas(x.hdfs, s.uid, s.block, w)
    case _ => false
  }

  ghost predicate AllBacked(x: System) { forall s | s in x.pipe.stored :: Backed(x, s) }

  ghost predicate SystemInv(c: Config, x: System) { Inv(c, x.pipe) && HdfsRuns.Inv(x.hdfs) && AllBacked(x) }

  lemma OpsGrow(ops: seq<Local.Op>, op: Local.Op, u: Uid, b: Block, i: nat)
    requires LocalHas(ops, u, b, i)
    ensures LocalHas(ops + [op], u, b, i)
  {
    assert (ops + [op])[..i] == ops[..i] && (ops + [op])[i] == ops[i];
  }

  lemma StaysFinished(h: Hdfs.State, a: Hdfs.Action, u: Uid, b: Block, w: nat)
    requires HdfsHas(h, u, b, w) && Hdfs.Enabled(h, a)
    ensures HdfsHas(Hdfs.Step(h, a), u, b, w)
  {
    HdfsRuns.WritersStay(h, a, w);
    if !a.Start? && !HdfsSeats.OnLock(a) {
      HdfsSeats.StepMoves(h, a);
    }
  }

  /** Performed inserts stay performed. */
  lemma BackedStays(x: System, y: System, s: StoredBlock, e: Event, c: Config)
    requires Backed(x, s) && CanDo(c, x, e) && y == Do(c, x, e)
    ensures Backed(y, s)
  {
    if s.store == LOCALFILE {
      var i: nat :| LocalHas(x.ops, s.uid, s.block, i);
      if e.LocalInsert? {
        OpsGrow(x.ops, e.op, s.uid, s.block, i);
      }
      assert LocalHas(y.ops, s.uid, s.block, i);
    } else {
      var w: nat :| HdfsHas(x.hdfs, s.uid, s.block, w);
      if e.HdfsStep? {
        StaysFinished(x.hdfs, e.h, s.uid, s.block, w);
      }
      assert HdfsHas(y.hdfs, s.uid, s.block, w);
    }
  }

  /** What a pipeline step stores. */
  lemma StepStores(c: Config, s: State, a: Action)
    requires Enabled(s, a)
    ensures Step(c, s, a).stored == s.stored + if a.Act? && a.step.Flush? then Persisted(c, s.msgs[a.m], a.step.flush) else {}
  {
    if a.Act? {
      var n := Advance(c, s.msgs[a.m], a.step);
      EffectsKeepMsgs(c, s.(msgs := s.msgs[a.m := n]), a.m, s.msgs[a.m], n, a.step);
    }
  }

  lemma OtherStores(c: Config, s: State, a: Action)
    requires Enabled(s, a) && !Inserts(c, s, a)
    ensures Step(c, s, a).stored == s.stored
  {
    StepStores(c, s, a);
  }

  lemma FlushStores(c: Config, s: State, m: nat, ok: bool, error: WorkerError, store: StorageType, b: StoredBlock)
    requires GoesTo(c, s, m, store)
    ensures Enabled(s, FlushWith(m, ok, error))
    ensures b in Step(c, s, FlushWith(m, ok, error)).stored ==>
              b in s.stored || (ok && b.store == store && b.uid == s.msgs[m].uid && b.block in Flatten(s.msgs[m].blocks))
  {
    StepStores(c, s, FlushWith(m, ok, error));
  }

  lemma LocalInsertBacked(c: Config, x: System, e: Event, b: StoredBlock)
    requires CanDo(c, x, e) && e.LocalInsert? && b in Do(c, x, e).pipe.stored && b !in x.pipe.stored
    ensures Backed(Do(c, x, e), b)
  {
    var y := Do(c, x, e);
    FlushStores(c, x.pipe, e.m, LocalOk(x, e.op), e.error, LOCALFILE, b);
    assert y.ops[..|x.ops|] == x.ops && y.ops[|x.ops|] == e.op;
    assert LocalHas(y.ops, b.uid, b.block, |x.ops|);
  }

  lemma HdfsInsertBacked(c: Config, x: System, e: Event, b: StoredBlock)
    requires CanDo(c, x, e) && e.HdfsInsert? && b in Do(c, x, e).pipe.stored && b !in x.pipe.stored
    ensures Backed(Do(c, x, e), b)
  {
    FlushStores(c, x.pipe, e.m, x.hdfs.writers[e.w].phase.ok, e.error, HDFS, b);
    SortIsStable(Flatten(x.pipe.msgs[e.m].blocks));
    assert HdfsHas(Do(c, x, e).hdfs, b.uid, b.block, e.w);
  }

  lemma DoKeepsBacked(c: Config, x: System, e: Event)
    requires AllBacked(x) && CanDo(c, x, e)
    ensures AllBacked(Do(c, x, e))
  {
    var y := Do(c, x, e);
    forall b | b in y.pipe.stored ensures Backed(y, b) {
      if b in x.pipe.stored {
        BackedStays(x, y, b, e, c);
      } else {
        match e
        case Pipe(a) => OtherStores(c, x.pipe, a);
        case LocalInsert(_, _, _) => LocalInsertBacked(c, x, e, b);
        case HdfsInsert(_, _, _) => HdfsInsertBacked(c, x, e, b);
        case HdfsStep(_) =>
      }
    }
  }

  lemma HdfsKeepsInv(h: Hdfs.State, a: Hdfs.Action)
    requires HdfsRuns.Inv(h) && Hdfs.Enabled(h, a)
    ensures HdfsRuns.Inv(Hdfs.Step(h, a))
  {
    HdfsSeats.StepKeepsSeats(h, a);
    HdfsRuns.StepKeepsContent(h, a);
    HdfsRuns.StepKeepsHistory(h, a);
  }

  lemma DoKeepsPipe(c: Config, x: System, e: Event)
    requires Persistent(c) && Inv(c, x.pipe) && CanDo(c, x, e)
    ensures Inv(c, Do(c, x, e).pipe)
  {
    match e
    case Pipe(a) => StepKeepsInv(c, x.pipe, a);
    case LocalInsert(m, op, error) => StepKeepsInv(c, x.pipe, FlushWith(m, LocalOk(x, op), error));
    case HdfsInsert(m, w, error) => StepKeepsInv(c, x.pipe, FlushWith(m, x.hdfs.writers[w].phase.ok, error));
    case HdfsStep(_) =>
  }

  lemma DoKeepsInv(c: Config, x: System, e: Event)
    requires Persistent(c) && SystemInv(c, x) && CanDo(c, x, e)
    ensures SystemInv(c, Do(c, x, e))
  {
    DoKeepsPipe(c, x, e);
    DoKeepsBacked(c, x, e);
    if e.HdfsStep? {
      HdfsKeepsInv(x.hdfs, e.h);
    }
  }

  /** In every run of the whole system, every block that the pipeline counts as stored was in an insert that
      the store it names performed with success. */
  lemma {:induction false} StoredIsPerformed(c: Config, x: System, events: seq<Event>)
    requires Persistent(c) && SystemInv(c, x) && Happens(c, x, events)
    ensures SystemInv(c, Now(c, x, events))
    decreases |events|
  {
    if events != [] {
      DoKeepsInv(c, x, events[0]);
      StoredIsPerformed(c, Do(c, x, events[0]), events[1..]);
    }
  }

  lemma StartInv(c: Config, concurrency: nat)
    ensures SystemInv(c, Start(c, concurrency))
  {
    InitInv(c);
    HdfsRuns.InitInv(concurrency);
  }

  // ---- what a reader of the files finds ----

  /** Lengths are true and files stay below 2^63 bytes. */
  ghost predicate Sane(x: System) {
    && (forall u :: Fits(Local.Stored(x.ops, u))) && (forall id :: Fits(Hdfs.PairOf(x.hdfs, id).log))
  }

  ghost predicate Fits(blocks: seq<Block>) {
    (forall b | b in blocks :: Honest(b)) && SumLength(blocks) < 0x8000_0000_0000_0000
  }

  ghost predicate InLocalAt(l: Local.Local, u: Uid, x: Block, i: nat) {
    var entries := DecodeIndex(Contents(l.files, LocalIndexFile(u)));
    && i < |entries| && PointsAt(entries[i], Contents(l.files, LocalDataFile(u)), x)
    && Local.Read(l, LocalDataFile(u), entries[i].offset, entries[i].length) == Local.Data(x.data)
  }

  ghost predicate InLocalFiles(l: Local.Local, u: Uid, x: Block) { exists i :: InLocalAt(l, u, x, i) }

  ghost predicate InHdfsAt(h: Hdfs.State, u: Uid, x: Block, id: Hdfs.PairId, i: nat) {
    var p := Hdfs.PairOf(h, id);
    id.slot.uid == u && i < |DecodeIndex(p.index)| && PointsAt(DecodeIndex(p.index)[i], p.data, x)
  }

  ghost predicate InHdfsFiles(h: Hdfs.State, u: Uid, x: Block) { exists id, i :: InHdfsAt(h, u, x, id, i) }

  /** Some index entry of the partition points at the block's bytes. */
  ghost predicate InFiles(x: System, u: Uid, b: Block) {
    InLocalFiles(Local.After(Local.EMPTY, x.ops), u, b) || InHdfsFiles(x.hdfs, u, b)
  }

  lemma {:induction false} LocalIsReadable(ops: seq<Local.Op>, u: Uid, b: Block, i: nat)
    requires Local.Clean(ops) && LocalHas(ops, u, b, i) && Fits(Local.Stored(ops, u))
    ensures InLocalFiles(Local.After(Local.EMPTY, ops), u, b)
  {
    Local.SuccessIsStored(ops, i, b);
    Local.LocalFilesReadBack(ops, u);
    var stored := Local.Stored(ops, u);
    var j :| 0 <= j < |stored| && stored[j] == b;
    assert InLocalAt(Local.After(Local.EMPTY, ops), u, b, j);
  }

  lemma HdfsIsReadable(h: Hdfs.State, u: Uid, b: Block, w: nat)
    requires HdfsRuns.Inv(h) && HdfsHas(h, u, b, w) && forall id :: Fits(Hdfs.PairOf(h, id).log)
    ensures InHdfsFiles(h, u, b)
  {
    var blocks := h.writers[w].blocks;
    var j :| 0 <= j < |blocks| && blocks[j] == b;
    assert HdfsRuns.AckedOk(h, w) && w in h.acked;
    HdfsRuns.AckedIsReadable(h, w, j);
    assert InHdfsAt(h, u, b, h.acked[w].pair, h.acked[w].at + j);
  }

  /** In every run of the whole system whose local appends succeed or write nothing, every stored block has an
      index entry that points at its bytes, in the local files or in those of the HDFS store. */
  lemma {:induction false} StoredIsInFiles(c: Config, concurrency: nat, events: seq<Event>, u: Uid, b: Block)
    requires Persistent(c) && Happens(c, Start(c, concurrency), events)
    requires var x := Now(c, Start(c, concurrency), events); IsStored(x.pipe, u, b) && Local.Clean(x.ops) && Sane(x)
    ensures InFiles(Now(c, Start(c, concurrency), events), u, b)
  {
    var x := Now(c, Start(c, concurrency), events);
    StartInv(c, concurrency);
    StoredIsPerformed(c, Start(c, concurrency), events);
    if StoredBlock(LOCALFILE, u, b) in x.pipe.stored {
      assert Backed(x, StoredBlock(LOCALFILE, u, b));
      var i: nat :| LocalHas(x.ops, u, b, i);
      LocalIsReadable(x.ops, u, b, i);
    } else {
      assert Backed(x, StoredBlock(HDFS, u, b));
      var w: nat :| HdfsHas(x.hdfs, u, b, w);
      HdfsIsReadable(x.hdfs, u, b, w);
    }
  }

  // ---- memory first, files later ----

  ghost predicate PipeGrows(s: State, t: State) {
    s.appended <= t.appended && s.stored <= t.stored && s.dropped <= t.dropped && s.purged <= t.purged
  }

  lemma DoGrows(c: Config, x: System, e: Event)
    requires CanDo(c, x, e)
    ensures PipeGrows(x.pipe, Do(c, x, e).pipe)
  {
    match e
    case Pipe(a) => StepGrows(c, x.pipe, a);
    case LocalInsert(m, op, error) => StepGrows(c, x.pipe, FlushWith(m, LocalOk(x, op), error));
    case HdfsInsert(m, w, error) => StepGrows(c, x.pipe, FlushWith(m, x.hdfs.writers[w].phase.ok, error));
    case HdfsStep(_) =>
  }

  lemma {:induction false} RunGrows(c: Config, x: System, events: seq<Event>)
    requires Happens(c, x, events)
    ensures PipeGrows(x.pipe, Now(c, x, events).pipe)
    decreases |events|
  {
    if events != [] {
      DoGrows(c, x, events[0]);
      RunGrows(c, Do(c, x, events[0]), events[1..]);
    }
  }

  lemma {:induction false} HappensConcat(c: Config, x: System, xs: seq<Event>, ys: seq<Event>)
    requires Happens(c, x, xs) && Happens(c, Now(c, x, xs), ys)
    ensures Happens(c, x, xs + ys) && Now(c, x, xs + ys) == Now(c, Now(c, x, xs), ys)
    decreases |xs|
  {
    if xs == [] {
      assert xs + ys == ys;
    } else {
      assert (xs + ys)[1..] == xs[1..] + ys;
      HappensConcat(c, Do(c, x, xs[0]), xs[1..], ys);
    }
  }

  /** A reader that looks at memory first and at the files later gets every block: one appended before, unless
      its partition was purged or its event dropped, is in the memory it saw, or the files it then reads
      have an entry pointing at its bytes. */
  lemma {:induction false} ReaderReadsEveryBlock(c: Config, concurrency: nat, write: seq<Event>, later: seq<Event>, u: Uid, b: Block)
    requires Persistent(c) && Happens(c, Start(c, concurrency), write)
    requires Happens(c, Now(c, Start(c, concurrency), write), later)
    requires (u, b) in Now(c, Start(c, concurrency), write).pipe.appended
    requires var end := Now(c, Now(c, Start(c, concurrency), write), later); Local.Clean(end.ops) && Sane(end)
    ensures var mid := Now(c, Start(c, concurrency), write);
            var end := Now(c, mid, later);
            || u in end.pipe.purged || (u, b) in end.pipe.dropped
            || (u in mid.pipe.buffers && mid.pipe.buffers[u].Valid() && b in mid.pipe.buffers[u].Flat())
            || InFiles(end, u, b)
  {
    var mid := Now(c, Start(c, concurrency), write);
    StartInv(c, concurrency);
    StoredIsPerformed(c, Start(c, concurrency), write);
    RunGrows(c, mid, later);
    if u !in mid.pipe.purged {
      assert Accounted(mid.pipe, u, b);
      if IsStored(mid.pipe, u, b) {
        HappensConcat(c, Start(c, concurrency), write, later);
        StoredIsInFiles(c, concurrency, write + later, u, b);
      } else if InMemory(mid.pipe.buffers[u], b) {
        FlatMember(mid.pipe.buffers[u], b);
      }
    }
  }
}
