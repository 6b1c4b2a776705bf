/** One spill message: storage selection, flush, retry and drop, seen from the message itself
    (`SpillMessage`, the select and flush handlers, the bus hooks). */
module SpillMessage {
  import opened Blocks

  datatype StorageType = MEMORY | LOCALFILE | MEMORY_LOCALFILE | HDFS | MEMORY_HDFS | MEMORY_LOCALFILE_HDFS

  function Code(t: StorageType): nat {
    match t
    case MEMORY => 1
    case LOCALFILE => 2
    case MEMORY_LOCALFILE => 3
    case HDFS => 4
    case MEMORY_HDFS => 5
    case MEMORY_LOCALFILE_HDFS => 7
  }

  // The bit tests of `contains_localfile` and `contains_hdfs`.
  predicate ContainsLocalfile(t: StorageType) { Code(t) / 2 % 2 == 1 }
  predicate ContainsHdfs(t: StorageType) { Code(t) / 4 % 2 == 1 }

  /** Persistent stores, named by what `name()` returns. */
  datatype Config = Config(
    warm: Option<StorageType>, cold: Option<StorageType>,
    coldThreshold: Option<nat>, hugeThreshold: nat,
    localLimit: nat, hdfsLimit: nat)

  /** `HybridStore::from`: local file first, HDFS second; warm and cold are popped off the front. */
  function Configure(t: StorageType, coldThreshold: Option<nat>, hugeThreshold: nat, localLimit: nat, hdfsLimit: nat): Config {
    var stores := (if ContainsLocalfile(t) then [LOCALFILE] else []) + (if ContainsHdfs(t) then [HDFS] else []);
    Config(if |stores| > 0 then Some(stores[0]) else None, if |stores| > 1 then Some(stores[1]) else None,
           coldThreshold, hugeThreshold, localLimit, hdfsLimit)
  }

  /** The configurations the server can be started with, apart from memory only, where nothing is spilled. */
  predicate Persistent(c: Config) {
    || (c.warm == Some(LOCALFILE) && (c.cold == None || c.cold == Some(HDFS)))
    || (c.warm == Some(HDFS) && c.cold == None)
  }

  lemma ConfigurePersistent(t: StorageType, coldThreshold: Option<nat>, hugeThreshold: nat, localLimit: nat, hdfsLimit: nat)
    ensures var c := Configure(t, coldThreshold, hugeThreshold, localLimit, hdfsLimit);
            Persistent(c) || c.warm == None
    ensures Configure(t, coldThreshold, hugeThreshold, localLimit, hdfsLimit) == match t
      case MEMORY => Config(None, None, coldThreshold, hugeThreshold, localLimit, hdfsLimit)
      case LOCALFILE => Config(Some(LOCALFILE), None, coldThreshold, hugeThreshold, localLimit, hdfsLimit)
      case MEMORY_LOCALFILE => Config(Some(LOCALFILE), None, coldThreshold, hugeThreshold, localLimit, hdfsLimit)
      case HDFS => Config(Some(HDFS), None, coldThreshold, hugeThreshold, localLimit, hdfsLimit)
      case MEMORY_HDFS => Config(Some(HDFS), None, coldThreshold, hugeThreshold, localLimit, hdfsLimit)
      case MEMORY_LOCALFILE_HDFS => Config(Some(LOCALFILE), Some(HDFS), coldThreshold, hugeThreshold, localLimit, hdfsLimit)
  {
    match t
    case MEMORY => case LOCALFILE => case MEMORY_LOCALFILE =>
    case HDFS => case MEMORY_HDFS => case MEMORY_LOCALFILE_HDFS =>
  }

  // ---- selection ----

  /** What the app manager says about the app of a message; `Known(None)` is a failing size lookup. */
  datatype AppView = NoManager | Unknown | Known(huge: Option<bool>)

  /** What selection finds around it; a health check may fail (`None`). */
  datatype SelectEnv = SelectEnv(appValid: bool, coldHealthy: Option<bool>, warmHealthy: Option<bool>, app: AppView)

  /** `select_storage_for_buffer`; `None` is any error. */
  function SelectStorage(c: Config, size: nat, retry: nat, env: SelectEnv): Option<StorageType> {
    if !env.appValid || c.warm.None? || env.coldHealthy.None? || env.warmHealthy.None? then None
    else
      var warm := c.warm.value;
      var cold := if !env.coldHealthy.value || c.cold.None? then warm else c.cold.value;
      var normal :=
        if env.warmHealthy.value && c.coldThreshold.Some? && c.coldThreshold.value < size then cold else warm;
      match env.app
      case Unknown => None
      case Known(None) => None
      case Known(Some(huge)) =>
        Some(if retry >= 1 || (huge && size > c.hugeThreshold) then cold else normal)
      case NoManager =>
        Some(if retry >= 1 then cold else normal)
  }

  /** The store that `flush_storage_for_buffer` writes for a candidate type. */
  function WrittenStore(c: Config, t: StorageType): Option<StorageType> {
    if c.warm.None? then None
    else if t == HDFS && c.cold.Some? then c.cold
    else c.warm
  }

  /** Whatever the health, sizes and retries, the selected type has a child bus and names the store
      that will be written. */
  lemma SelectedStoreIsWritten(c: Config, size: nat, retry: nat, env: SelectEnv)
    requires Persistent(c)
    ensures var t := SelectStorage(c, size, retry, env);
            t.Some? ==> (t.value == LOCALFILE || t.value == HDFS) && WrittenStore(c, t.value) == t
  {
  }

  /** Every question selection asks gets an answer. */
  predicate Answered(c: Config, env: SelectEnv) {
    && env.appValid && c.warm.Some? && env.coldHealthy.Some? && env.warmHealthy.Some?
    && !env.app.Unknown? && (env.app.Known? ==> env.app.huge.Some?)
  }

  /** With a local and a healthy HDFS store, HDFS is selected exactly on a retry, for a huge partition
      above its threshold, or for a large spill while the local store is healthy. */
  lemma ColdSelectedIff(c: Config, size: nat, retry: nat, env: SelectEnv)
    requires Persistent(c) && c.cold.Some?
    ensures SelectStorage(c, size, retry, env).Some? <==> Answered(c, env)
    ensures SelectStorage(c, size, retry, env) == Some(HDFS) <==>
            && Answered(c, env) && env.coldHealthy.value
            && (|| retry >= 1
                || (env.app.Known? && env.app.huge.value && size > c.hugeThreshold)
                || (env.warmHealthy.value && c.coldThreshold.Some? && c.coldThreshold.value < size))
  {
  }

  /** With a single store it is that store, whenever every question is answered. */
  lemma OnlyStoreSelected(c: Config, size: nat, retry: nat, env: SelectEnv)
    requires Persistent(c) && c.cold.None?
    ensures SelectStorage(c, size, retry, env) == if Answered(c, env) then c.warm else None
  {
  }

  /** An unhealthy local store is chosen again on a first attempt, whatever the size, unless the
      partition is huge; a healthy one is not, once the spill is above the cold threshold. */
  lemma UnhealthyWarmIsKept(c: Config, size: nat, env: SelectEnv)
    requires Persistent(c) && c.cold.Some? && Answered(c, env) && env.coldHealthy.value
    requires env.app.Known? ==> !env.app.huge.value
    requires c.coldThreshold.Some? && c.coldThreshold.value < size
    ensures SelectStorage(c, size, 0, env) == Some(LOCALFILE) <==> !env.warmHealthy.value
  {
    ColdSelectedIff(c, size, 0, env);
    SelectedStoreIsWritten(c, size, 0, env);
  }

  // ---- errors ----

  datatype WorkerError =
    | ExceedRetryLimit | PartialDataLost | LocalDiskUnhealthy | AppPurged | AppNotFound
    | NoCandidateStore | OtherError

  /** `handle_spill_failure`: the listed errors drop the event, all others let it be retried. */
  predicate CouldBeRetried(e: WorkerError) { e.NoCandidateStore? || e.OtherError? }

  /** The outcome of a `spill_insert`. */
  datatype InsertOutcome = Inserted | InsertFailed(error: WorkerError)

  datatype FlushEnv = FlushEnv(appValid: bool, outcome: InsertOutcome)

  datatype FlushResult = Flushed | FlushError(error: WorkerError)

  /** Does this flush reach `spill_insert`? */
  predicate Attempts(c: Config, m: Msg, env: FlushEnv) {
    env.appValid && m.retry < 3 && m.candidate.Some? && c.warm.Some?
  }

  /** `flush_storage_for_buffer`. */
  function FlushStorage(c: Config, m: Msg, env: FlushEnv): FlushResult {
    if !env.appValid then FlushError(AppNotFound)
    else if m.retry >= 3 then FlushError(ExceedRetryLimit)
    else if m.candidate.None? then FlushError(NoCandidateStore)
    else if c.warm.None? then FlushError(OtherError)
    else match env.outcome
      case Inserted => Flushed
      case InsertFailed(e) => FlushError(e)
  }

  // ---- the message and its steps ----

  datatype Bus = Parent | Local | Hdfs

  datatype Phase =
    | Created                        // blocks taken out of staging, message not yet sent
    | Queued(bus: Bus)
    | Received(bus: Bus)             // taken off the queue, waiting for a permit
    | Handling(bus: Bus)
    | Dropping(bus: Bus)             // in handle_spill_failure_whatever_error
    | Written(bus: Bus)              // in handle_spill_success
    | Finishing(bus: Bus)            // about to call finish_spill_event
    | Closing(bus: Bus)              // in finish_spill_event, between its two counters
    | Returned(bus: Bus, ok: bool)   // handler done, permit dropped, hook not yet run
    | Done
    | Swallowed                      // succeeded in the parent but handed to no child

  /** How far `start_spill_event` has come; the event is published first, so it may run late. */
  datatype Started = NotYet | EventCounted | BytesCounted

  /** The last four fields count calls: selections, flush handlings, `spill_insert` and `finish_spill_event`. */
  datatype Msg = Msg(
    uid: Uid, flightId: nat, size: nat, blocks: Batch,
    retry: nat, candidate: Option<StorageType>, phase: Phase, started: Started,
    selects: nat, flushes: nat, inserts: nat, finishes: nat)

  function NewMsg(uid: Uid, flightId: nat, size: nat, blocks: Batch): Msg {
    Msg(uid, flightId, size, blocks, 0, None, Created, NotYet, 0, 0, 0, 0)
  }

  datatype MsgStep =
    | Publish | StartEvent | StartBytes | Receive | Acquire
    | Select(select: SelectEnv)
    | Flush(flush: FlushEnv)
    | Drop(appValid: bool, order: seq<nat>)
    | Release(order: seq<nat>)
    | FinishEvent | FinishBytes
    | Hook

  /** The steps of `start_spill_event`, which leave the phase alone. */
  predicate IsStart(a: MsgStep) { a.StartEvent? || a.StartBytes? }

  predicate Can(m: Msg, a: MsgStep) {
    match a
    case Publish => m.phase.Created?
    case StartEvent => m.started.NotYet? && !m.phase.Created?
    case StartBytes => m.started.EventCounted?
    case Receive => m.phase.Queued?
    case Acquire => m.phase.Received?
    case Select(_) => m.phase == Handling(Parent)
    case Flush(_) => m.phase.Handling? && m.phase.bus != Parent
    case Drop(_, _) => m.phase.Dropping?
    case Release(_) => m.phase.Written?
    case FinishEvent => m.phase.Finishing?
    case FinishBytes => m.phase.Closing?
    case Hook => m.phase.Returned?
  }

  function Advance(c: Config, m: Msg, a: MsgStep): Msg
    requires Can(m, a)
  {
    match a
    case Publish => m.(phase := Queued(Parent))
    case StartEvent => m.(started := EventCounted)
    case StartBytes => m.(started := BytesCounted)
    case Receive => m.(phase := Received(m.phase.bus))
    case Acquire => m.(phase := Handling(m.phase.bus))
    case Select(env) =>
      var t := SelectStorage(c, m.size, m.retry, env);
      var n := m.(selects := m.selects + 1);
      if t.Some? then n.(candidate := t, phase := Returned(Parent, true)) else n.(phase := Dropping(Parent))
    case Flush(env) =>
      var n := m.(flushes := m.flushes + 1, inserts := m.inserts + if Attempts(c, m, env) then 1 else 0);
      match FlushStorage(c, m, env) {
        case Flushed => n.(phase := Written(m.phase.bus))
        case FlushError(e) =>
          n.(retry := m.retry + 1,
             phase := if CouldBeRetried(e) then Returned(m.phase.bus, false) else Dropping(m.phase.bus))
      }
    case Drop(_, _) => m.(phase := Finishing(m.phase.bus))
    case Release(_) => m.(phase := Finishing(m.phase.bus))
    case FinishEvent => m.(phase := Closing(m.phase.bus))
    case FinishBytes => m.(finishes := m.finishes + 1, phase := Returned(m.phase.bus, m.phase.bus != Parent))
    case Hook =>
      m.(phase :=
        if m.phase.bus == Parent then
          if !m.phase.ok then Done
          else if m.candidate == Some(LOCALFILE) then Queued(Local)
          else if m.candidate == Some(HDFS) then Queued(Hdfs)
          else Swallowed
        else if m.phase.ok then Done
        else Queued(Parent))
  }

  // ---- what every message keeps ----

  function TypeOf(b: Bus): StorageType { if b == Hdfs then HDFS else LOCALFILE }

  /** Has `finish_spill_event` been called? */
  predicate Over(p: Phase) { p.Done? || (p.Returned? && (p.bus == Parent <==> !p.ok)) }

  /** The calls made so far, by phase; `r` is the retry counter. */
  predicate CallsFit(m: Msg) {
    var r := m.retry;
    && m.inserts <= 3 && m.inserts <= m.flushes
    && match m.phase
       case Created => r == 0 && m.selects == 0 && m.flushes == 0
       case Queued(b) => r <= 3 && m.flushes == r && m.selects == (if b == Parent then r else r + 1)
       case Received(b) => r <= 3 && m.flushes == r && m.selects == (if b == Parent then r else r + 1)
       case Handling(b) => r <= 3 && m.flushes == r && m.selects == (if b == Parent then r else r + 1)
       case Dropping(b) =>
         if b == Parent then r <= 3 && m.flushes == r && m.selects == r + 1
         else r <= 4 && m.flushes == r && m.selects == r
       case Written(b) => b != Parent && r <= 2 && m.flushes == r + 1 && m.selects == r + 1
       case Returned(b, ok) =>
         if b == Parent && ok then r <= 3 && m.flushes == r && m.selects == r + 1
         else if b != Parent && !ok then r <= 3 && m.flushes == r && m.selects == r
         else m.selects <= 4 && m.flushes <= 4 && r <= 4
       case _ => m.selects <= 4 && m.flushes <= 4 && r <= 4
  }

  /** The candidate names a child bus, and the bus a message sits on is the one it names. */
  predicate RoutedWell(c: Config, m: Msg) {
    && m.phase != Swallowed
    && (m.phase == Returned(Parent, true) ==> m.candidate == Some(LOCALFILE) || m.candidate == Some(HDFS))
    && ((m.phase.Queued? || m.phase.Received? || m.phase.Handling? || m.phase.Written?) && m.phase.bus != Parent
        ==> m.candidate == Some(TypeOf(m.phase.bus)))
    && (m.candidate.Some? ==> WrittenStore(c, m.candidate.value) == m.candidate)
  }

  predicate MsgOk(c: Config, m: Msg) {
    CallsFit(m) && RoutedWell(c, m) && m.finishes == if Over(m.phase) then 1 else 0
  }

  lemma AdvanceKeepsCalls(c: Config, m: Msg, a: MsgStep)
    requires CallsFit(m) && Can(m, a)
    ensures CallsFit(Advance(c, m, a))
  {
  }

  lemma AdvanceKeepsRoute(c: Config, m: Msg, a: MsgStep)
    requires Persistent(c) && RoutedWell(c, m) && Can(m, a)
    ensures RoutedWell(c, Advance(c, m, a))
  {
    if a.Select? {
      SelectedStoreIsWritten(c, m.size, m.retry, a.select);
    }
  }

  lemma AdvanceKeepsMsgOk(c: Config, m: Msg, a: MsgStep)
    requires Persistent(c) && MsgOk(c, m) && Can(m, a)
    ensures MsgOk(c, Advance(c, m, a))
  {
    AdvanceKeepsCalls(c, m, a);
    AdvanceKeepsRoute(c, m, a);
    AdvanceFinishesOnce(c, m, a);
  }

  lemma AdvanceFinishesOnce(c: Config, m: Msg, a: MsgStep)
    requires Can(m, a) && m.finishes == (if Over(m.phase) then 1 else 0)
    ensures Advance(c, m, a).finishes == if Over(Advance(c, m, a).phase) then 1 else 0
  {
  }

  /** At most 4 selections, 4 flush handlings and 3 writes; the event is finished once, when the
      message is over, and never before. */
  lemma CallBounds(c: Config, m: Msg)
    requires MsgOk(c, m)
    ensures m.selects <= 4 && m.flushes <= 4 && m.inserts <= 3 && m.finishes <= 1
    ensures m.phase.Done? ==> m.finishes == 1
  {
  }

  /** Every step but the start of the event brings the message closer to its end. */
  function Distance(m: Msg): int {
    (if m.retry <= 4 then 16 * (4 - m.retry) else 0) +
    match m.phase
    case Created => 13
    case Queued(b) => if b == Parent then 12 else 8
    case Received(b) => if b == Parent then 11 else 7
    case Handling(b) => if b == Parent then 10 else 6
    case Returned(b, ok) => if Over(m.phase) then 2 else if b == Parent then 9 else 13
    case Dropping(_) => 5
    case Written(_) => 5
    case Finishing(_) => 4
    case Closing(_) => 3
    case Done => 1
    case Swallowed => 0
  }

  lemma AdvanceComesCloser(c: Config, m: Msg, a: MsgStep)
    requires Persistent(c) && MsgOk(c, m) && Can(m, a)
    ensures 0 <= Distance(Advance(c, m, a))
    ensures if IsStart(a) then Distance(Advance(c, m, a)) == Distance(m)
            else Distance(Advance(c, m, a)) < Distance(m)
  {
  }
}
