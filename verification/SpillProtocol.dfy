/** The spill pipeline as a system of atomic steps: appends, spills and purges of buffers, and the
    steps of every spill message through the parent and child buses, in any interleaving. Store
    outcomes, health and app existence are chosen freely by the environment. */
module SpillProtocol {
  import opened Bytes
  import opened Blocks
  import opened Buffer
  import opened Sums
  import opened SpillMessage

  /** One value per bus. */
  datatype PerBus<T> = PerBus(parent: T, local: T, hdfs: T) {
    function Get(b: Bus): T {
      match b case Parent => parent case Local => local case Hdfs => hdfs
    }
    function Set(b: Bus, x: T): PerBus<T> {
      match b case Parent => this.(parent := x) case Local => this.(local := x) case Hdfs => this.(hdfs := x)
    }
  }

  /** A block of a partition in a persistent store. */
  datatype StoredBlock = StoredBlock(store: StorageType, uid: Uid, block: Block)

  datatype State = State(
    buffers: map<Uid, BufferState>,
    msgs: seq<Msg>,
    queues: PerBus<seq<nat>>,          // message numbers, oldest first
    permits: PerBus<int>,              // free permits of the concurrency limiters
    eventNum: nat, inFlightBytes: nat, // atomic u64 counters
    stored: set<StoredBlock>,          // blocks of successful inserts
    // history
    appended: set<(Uid, Block)>, dropped: set<(Uid, Block)>, purged: set<Uid>)

  function Limits(c: Config): PerBus<int> {
    PerBus(c.localLimit + c.hdfsLimit, c.localLimit, c.hdfsLimit)
  }

  function Init(c: Config): State {
    State(map[], [], PerBus([], [], []), Limits(c), 0, 0, {}, {}, {}, {})
  }

  datatype Action =
    | AppendBlocks(uid: Uid, blocks: seq<Block>, size: nat)
    | SpillBuffer(uid: Uid, order: seq<nat>)
    | PurgeBuffer(uid: Uid)
    | Act(m: nat, step: MsgStep)

  function BlocksOf(b: Batch): set<Block> { set x | x in Flatten(b) }

  function Tagged(uid: Uid, blocks: set<Block>): set<(Uid, Block)> { set x | x in blocks :: (uid, x) }

  predicate ClearOrder(s: State, m: Msg, order: seq<nat>) {
    m.uid in s.buffers ==> IsOrder(order, s.buffers[m.uid].flights.Keys - {m.flightId})
  }

  predicate Enabled(s: State, a: Action) {
    match a
    case AppendBlocks(_, _, _) => true
    case SpillBuffer(uid, order) =>
      uid in s.buffers && s.buffers[uid].stagingSize >= 0
      && IsOrder(order, s.buffers[uid].flights.Keys + {s.buffers[uid].counter})
    case PurgeBuffer(_) => true
    case Act(m, step) =>
      && m < |s.msgs| && Can(s.msgs[m], step)
      && match step
         case Receive =>
           var b := s.msgs[m].phase.bus;
           && |s.queues.Get(b)| > 0 && s.queues.Get(b)[0] == m
           && forall k | 0 <= k < |s.msgs| :: s.msgs[k].phase != Received(b)
         case Acquire => s.permits.Get(s.msgs[m].phase.bus) > 0
         case Drop(appValid, order) => appValid ==> ClearOrder(s, s.msgs[m], order)
         case Release(order) => ClearOrder(s, s.msgs[m], order)
         case _ => true
  }

  /** `clear_spilled_buffer`; a missing buffer is an error that the callers ignore. */
  function Cleared(s: State, m: Msg, order: seq<nat>): map<Uid, BufferState> {
    if m.uid in s.buffers then s.buffers[m.uid := Clear(s.buffers[m.uid], m.flightId, m.size, order)] else s.buffers
  }

  /** The blocks whose insert succeeds; what a failing insert may have written is not counted on. */
  function Persisted(c: Config, m: Msg, env: FlushEnv): set<StoredBlock> {
    if Attempts(c, m, env) && env.outcome.Inserted?
    then set x | x in BlocksOf(m.blocks) :: StoredBlock(WrittenStore(c, m.candidate.value).value, m.uid, x)
    else {}
  }

  function Step(c: Config, s: State, a: Action): State
    requires Enabled(s, a)
  {
    match a
    case AppendBlocks(uid, blocks, size) =>
      var b := if uid in s.buffers then s.buffers[uid] else EMPTY;
      s.(buffers := s.buffers[uid := Append(b, blocks, size)],
         appended := s.appended + Tagged(uid, set x | x in blocks))
    case SpillBuffer(uid, order) =>
      var b := s.buffers[uid];
      s.(buffers := s.buffers[uid := Spill(b, order)],
         msgs := s.msgs + [NewMsg(uid, b.counter, b.stagingSize, b.staging)])
    case PurgeBuffer(uid) =>
      s.(buffers := s.buffers - {uid}, purged := s.purged + {uid})
    case Act(k, step) =>
      var m := s.msgs[k];
      var n := Advance(c, m, step);
      Effects(c, s.(msgs := s.msgs[k := n]), k, m, n, step)
  }

  /** What a message step does outside the message. */
  function Effects(c: Config, s: State, k: nat, m: Msg, n: Msg, step: MsgStep): State
    requires Can(m, step)
    requires step.Receive? ==> |s.queues.Get(m.phase.bus)| > 0
  {
    var s := if n.phase.Returned? && !m.phase.Returned? then Unpermit(s, m.phase) else s;
    match step
    case Publish => Enqueue(s, Parent, k)
    case StartEvent => s.(eventNum := (s.eventNum + 1) % TWO64)
    case StartBytes => s.(inFlightBytes := (s.inFlightBytes + m.size) % TWO64)
    case Receive => s.(queues := s.queues.Set(m.phase.bus, s.queues.Get(m.phase.bus)[1..]))
    case Acquire => s.(permits := s.permits.Set(m.phase.bus, s.permits.Get(m.phase.bus) - 1))
    case Select(_) => s
    case Flush(env) => s.(stored := s.stored + Persisted(c, m, env))
    case Drop(appValid, order) =>
      var t := s.(dropped := s.dropped + Tagged(m.uid, BlocksOf(m.blocks)));
      if appValid then t.(buffers := Cleared(s, m, order)) else t
    case Release(order) => s.(buffers := Cleared(s, m, order))
    case FinishEvent => s.(eventNum := (s.eventNum - 1) % TWO64)
    case FinishBytes => s.(inFlightBytes := (s.inFlightBytes - m.size) % TWO64)
    case Hook => if n.phase.Queued? then Enqueue(s, n.phase.bus, k) else s
  }

  function Enqueue(s: State, b: Bus, k: nat): State {
    s.(queues := s.queues.Set(b, s.queues.Get(b) + [k]))
  }

  function Unpermit(s: State, p: Phase): State {
    if p.Handling? || p.Closing? then s.(permits := s.permits.Set(p.bus, s.permits.Get(p.bus) + 1)) else s
  }

  ghost predicate Runs(c: Config, s: State, acts: seq<Action>)
    decreases |acts|
  {
    acts == [] || (Enabled(s, acts[0]) && Runs(c, Step(c, s, acts[0]), acts[1..]))
  }

  ghost function After(c: Config, s: State, acts: seq<Action>): State
    requires Runs(c, s, acts)
    decreases |acts|
  {
    if acts == [] then s else After(c, Step(c, s, acts[0]), acts[1..])
  }

  // ---- every message, in every run ----

  ghost predicate MessagesOk(c: Config, s: State) {
    forall k | 0 <= k < |s.msgs| :: MsgOk(c, s.msgs[k])
  }

  lemma EffectsKeepMsgs(c: Config, s: State, k: nat, m: Msg, n: Msg, step: MsgStep)
    requires Can(m, step) && (step.Receive? ==> |s.queues.Get(m.phase.bus)| > 0)
    ensures Effects(c, s, k, m, n, step).msgs == s.msgs
    ensures Effects(c, s, k, m, n, step).appended == s.appended && Effects(c, s, k, m, n, step).purged == s.purged
    ensures !step.Drop? && !step.Release? ==> Effects(c, s, k, m, n, step).buffers == s.buffers
    ensures !step.Flush? ==> Effects(c, s, k, m, n, step).stored == s.stored
    ensures !step.Drop? ==> Effects(c, s, k, m, n, step).dropped == s.dropped
    ensures !step.StartEvent? && !step.FinishEvent? ==> Effects(c, s, k, m, n, step).eventNum == s.eventNum
    ensures !step.StartBytes? && !step.FinishBytes? ==> Effects(c, s, k, m, n, step).inFlightBytes == s.inFlightBytes
  {
  }

  lemma ActMsgs(c: Config, s: State, k: nat, step: MsgStep)
    requires Enabled(s, Act(k, step))
    ensures Step(c, s, Act(k, step)).msgs == s.msgs[k := Advance(c, s.msgs[k], step)]
  {
    var n := Advance(c, s.msgs[k], step);
    EffectsKeepMsgs(c, s.(msgs := s.msgs[k := n]), k, s.msgs[k], n, step);
  }

  lemma StepKeepsMessages(c: Config, s: State, a: Action)
    requires Persistent(c) && MessagesOk(c, s) && Enabled(s, a)
    ensures MessagesOk(c, Step(c, s, a))
  {
    if a.Act? {
      AdvanceKeepsMsgOk(c, s.msgs[a.m], a.step);
      ActMsgs(c, s, a.m, a.step);
    }
  }

  // ---- counters ----

  function StartedEvents(m: Msg): int { if m.started.NotYet? then 0 else 1 }
  function StartedBytes(m: Msg): int { if m.started.BytesCounted? then m.size else 0 }
  function FinishedEvents(m: Msg): int { m.finishes + if m.phase.Closing? then 1 else 0 }
  function FinishedBytes(m: Msg): int { if m.finishes > 0 then m.size else 0 }

  /** `started - finished`, which is negative while a finish overtakes its start. */
  function EventBalance(s: State): int { Sum(s.msgs, StartedEvents) - Sum(s.msgs, FinishedEvents) }
  function ByteBalance(s: State): int { Sum(s.msgs, StartedBytes) - Sum(s.msgs, FinishedBytes) }

  ghost predicate CountersExact(s: State) {
    s.eventNum == EventBalance(s) % TWO64 && s.inFlightBytes == ByteBalance(s) % TWO64
  }

  lemma WrapAdd(x: int, y: int)
    ensures (x % TWO64 + y) % TWO64 == (x + y) % TWO64
  {
  }

  lemma UpdateBalances(s: State, k: nat, n: Msg)
    requires k < |s.msgs|
    ensures var t := s.(msgs := s.msgs[k := n]);
            var m := s.msgs[k];
            && EventBalance(t) == EventBalance(s) - StartedEvents(m) + StartedEvents(n) + FinishedEvents(m) - FinishedEvents(n)
            && ByteBalance(t) == ByteBalance(s) - StartedBytes(m) + StartedBytes(n) + FinishedBytes(m) - FinishedBytes(n)
  {
    SumUpdate(s.msgs, k, n, StartedEvents);
    SumUpdate(s.msgs, k, n, StartedBytes);
    SumUpdate(s.msgs, k, n, FinishedEvents);
    SumUpdate(s.msgs, k, n, FinishedBytes);
  }

  lemma EventKeepsCounters(c: Config, s: State, k: nat, step: MsgStep)
    requires CountersExact(s) && Enabled(s, Act(k, step)) && (step.StartEvent? || step.FinishEvent?)
    ensures CountersExact(Step(c, s, Act(k, step)))
  {
    UpdateBalances(s, k, Advance(c, s.msgs[k], step));
    WrapAdd(EventBalance(s), if step.StartEvent? then 1 else -1);
  }

  lemma BytesKeepCounters(c: Config, s: State, k: nat, step: MsgStep)
    requires MessagesOk(c, s) && CountersExact(s) && Enabled(s, Act(k, step)) && (step.StartBytes? || step.FinishBytes?)
    ensures CountersExact(Step(c, s, Act(k, step)))
  {
    var m := s.msgs[k];
    assert MsgOk(c, m);
    UpdateBalances(s, k, Advance(c, m, step));
    WrapAdd(ByteBalance(s), if step.StartBytes? then m.size else 0 - m.size);
  }

  lemma OtherKeepsCounters(c: Config, s: State, k: nat, step: MsgStep)
    requires CountersExact(s) && Enabled(s, Act(k, step)) && !IsStart(step) && !step.FinishEvent? && !step.FinishBytes?
    ensures CountersExact(Step(c, s, Act(k, step)))
  {
    var m := s.msgs[k];
    var n := Advance(c, m, step);
    assert (n.started, n.finishes, n.size) == (m.started, m.finishes, m.size) && !n.phase.Closing? && !m.phase.Closing?;
    UpdateBalances(s, k, n);
    EffectsKeepMsgs(c, s.(msgs := s.msgs[k := n]), k, m, n, step);
  }

  lemma StepKeepsCounters(c: Config, s: State, a: Action)
    requires MessagesOk(c, s) && CountersExact(s) && Enabled(s, a)
    ensures CountersExact(Step(c, s, a))
  {
    match a {
      case SpillBuffer(uid, order) =>
        var n := Step(c, s, a).msgs[|s.msgs|];
        SumSnoc(s.msgs, n, StartedEvents);
        SumSnoc(s.msgs, n, StartedBytes);
        SumSnoc(s.msgs, n, FinishedEvents);
        SumSnoc(s.msgs, n, FinishedBytes);
      case Act(k, step) =>
        if step.StartEvent? || step.FinishEvent? {
          EventKeepsCounters(c, s, k, step);
        } else if step.StartBytes? || step.FinishBytes? {
          BytesKeepCounters(c, s, k, step);
        } else {
          OtherKeepsCounters(c, s, k, step);
        }
      case _ =>
    }
  }

  // ---- queues ----

  /** A queue holds exactly the messages that wait in it, each once. */
  ghost predicate QueueOk(msgs: seq<Msg>, q: seq<nat>, b: Bus) {
    && (forall i | 0 <= i < |q| :: q[i] < |msgs| && msgs[q[i]].phase == Queued(b))
    && (forall i, j | 0 <= i < j < |q| :: q[i] != q[j])
    && (forall k | 0 <= k < |msgs| && msgs[k].phase == Queued(b) :: exists i | 0 <= i < |q| :: q[i] == k)
  }

  ghost predicate QueuesOk(s: State) {
    && (forall b :: QueueOk(s.msgs, s.queues.Get(b), b))
    && (forall b, i, j | 0 <= i < j < |s.msgs| :: !(s.msgs[i].phase == Received(b) && s.msgs[j].phase == Received(b)))
  }

  lemma QueueSame(msgs: seq<Msg>, q: seq<nat>, b: Bus, k: nat, n: Msg)
    requires QueueOk(msgs, q, b) && k < |msgs| && msgs[k].phase != Queued(b) && n.phase != Queued(b)
    ensures QueueOk(msgs[k := n], q, b)
  {
  }

  lemma QueuePush(msgs: seq<Msg>, q: seq<nat>, b: Bus, k: nat, n: Msg)
    requires QueueOk(msgs, q, b) && k < |msgs| && msgs[k].phase != Queued(b) && n.phase == Queued(b)
    ensures QueueOk(msgs[k := n], q + [k], b)
  {
    var q', msgs' := q + [k], msgs[k := n];
    forall j | 0 <= j < |msgs'| && msgs'[j].phase == Queued(b) ensures exists i | 0 <= i < |q'| :: q'[i] == j {
      if j == k {
        assert q'[|q|] == k;
      } else {
        var i :| 0 <= i < |q| && q[i] == j;
        assert q'[i] == j;
      }
    }
  }

  lemma QueuePop(msgs: seq<Msg>, q: seq<nat>, b: Bus, n: Msg)
    requires QueueOk(msgs, q, b) && |q| > 0 && n.phase != Queued(b)
    ensures QueueOk(msgs[q[0] := n], q[1..], b)
  {
    var q', msgs' := q[1..], msgs[q[0] := n];
    forall j | 0 <= j < |msgs'| && msgs'[j].phase == Queued(b) ensures exists i | 0 <= i < |q'| :: q'[i] == j {
      var i :| 0 <= i < |q| && q[i] == j;
      assert q'[i - 1] == j;
    }
  }

  lemma EffectsQueues(c: Config, s: State, k: nat, m: Msg, step: MsgStep, b: Bus)
    requires Can(m, step) && (step.Receive? ==> |s.queues.Get(m.phase.bus)| > 0)
    ensures var n := Advance(c, m, step);
            var q := s.queues.Get(b);
            var q' := Effects(c, s, k, m, n, step).queues.Get(b);
            if step.Receive? && m.phase.bus == b then q' == q[1..]
            else if n.phase == Queued(b) && m.phase != Queued(b) then q' == q + [k]
            else q' == q
    ensures m.phase.Queued? && !IsStart(step) ==> step.Receive?
    ensures IsStart(step) ==> Advance(c, m, step).phase == m.phase
  {
  }

  lemma StartKeepsQueues(c: Config, s: State, k: nat, step: MsgStep)
    requires QueuesOk(s) && Enabled(s, Act(k, step)) && IsStart(step)
    ensures QueuesOk(Step(c, s, Act(k, step)))
  {
    var t := Step(c, s, Act(k, step));
    assert t.queues == s.queues;
    assert forall j | 0 <= j < |s.msgs| :: t.msgs[j].phase == s.msgs[j].phase;
    forall b ensures QueueOk(t.msgs, t.queues.Get(b), b) {
      assert QueueOk(s.msgs, s.queues.Get(b), b);
    }
  }

  lemma ActKeepsQueues(c: Config, s: State, k: nat, step: MsgStep)
    requires QueuesOk(s) && Enabled(s, Act(k, step)) && !IsStart(step)
    ensures QueuesOk(Step(c, s, Act(k, step)))
  {
    var m := s.msgs[k];
    var n := Advance(c, m, step);
    var mid := s.(msgs := s.msgs[k := n]);
    var t := Step(c, s, Act(k, step));
    ActMsgs(c, s, k, step);
    forall b ensures QueueOk(t.msgs, t.queues.Get(b), b) {
      assert QueueOk(s.msgs, s.queues.Get(b), b);
      EffectsQueues(c, mid, k, m, step, b);
      if m.phase == Queued(b) {
        QueuePop(s.msgs, s.queues.Get(b), b, n);
      } else if n.phase == Queued(b) {
        QueuePush(s.msgs, s.queues.Get(b), b, k, n);
      } else {
        QueueSame(s.msgs, s.queues.Get(b), b, k, n);
      }
    }
  }

  lemma SpillKeepsQueues(c: Config, s: State, uid: Uid, order: seq<nat>)
    requires QueuesOk(s) && Enabled(s, SpillBuffer(uid, order))
    ensures QueuesOk(Step(c, s, SpillBuffer(uid, order)))
  {
    var t := Step(c, s, SpillBuffer(uid, order));
    forall b ensures QueueOk(t.msgs, t.queues.Get(b), b) {
      assert QueueOk(s.msgs, s.queues.Get(b), b);
    }
  }

  lemma StepKeepsQueues(c: Config, s: State, a: Action)
    requires QueuesOk(s) && Enabled(s, a)
    ensures QueuesOk(Step(c, s, a))
  {
    match a {
      case Act(k, step) =>
        if IsStart(step) { StartKeepsQueues(c, s, k, step); } else { ActKeepsQueues(c, s, k, step); }
      case SpillBuffer(uid, order) => SpillKeepsQueues(c, s, uid, order);
      case _ =>
    }
  }

  // ---- permits ----

  predicate RunsOn(p: Phase, b: Bus) {
    (p.Handling? || p.Dropping? || p.Written? || p.Finishing? || p.Closing?) && p.bus == b
  }
  function OnParent(m: Msg): int { if RunsOn(m.phase, Parent) then 1 else 0 }
  function OnLocal(m: Msg): int { if RunsOn(m.phase, Local) then 1 else 0 }
  function OnHdfs(m: Msg): int { if RunsOn(m.phase, Hdfs) then 1 else 0 }

  function Running(msgs: seq<Msg>, b: Bus): int {
    match b
    case Parent => Sum(msgs, OnParent)
    case Local => Sum(msgs, OnLocal)
    case Hdfs => Sum(msgs, OnHdfs)
  }

  /** No permit is lost or invented: the free ones and the running handlers make up the limit. */
  ghost predicate PermitsOk(c: Config, s: State) {
    forall b :: 0 <= s.permits.Get(b) && s.permits.Get(b) + Running(s.msgs, b) == Limits(c).Get(b)
  }

  /** The parent bus runs at most as many handlers as both children together, each child at most its own limit. */
  lemma BusLimits(c: Config, s: State)
    requires PermitsOk(c, s)
    ensures s.permits.parent + Running(s.msgs, Parent) == c.localLimit + c.hdfsLimit && s.permits.parent >= 0
    ensures s.permits.local + Running(s.msgs, Local) == c.localLimit && s.permits.local >= 0
    ensures s.permits.hdfs + Running(s.msgs, Hdfs) == c.hdfsLimit && s.permits.hdfs >= 0
  {
    forall b ensures 0 <= s.permits.Get(b) && s.permits.Get(b) + Running(s.msgs, b) == Limits(c).Get(b) {
    }
    assert s.permits.Get(Parent) + Running(s.msgs, Parent) == Limits(c).Get(Parent);
    assert s.permits.Get(Local) + Running(s.msgs, Local) == Limits(c).Get(Local);
    assert s.permits.Get(Hdfs) + Running(s.msgs, Hdfs) == Limits(c).Get(Hdfs);
  }

  lemma RunningUpdate(msgs: seq<Msg>, k: nat, n: Msg, b: Bus)
    requires k < |msgs|
    ensures Running(msgs[k := n], b)
         == Running(msgs, b) - (if RunsOn(msgs[k].phase, b) then 1 else 0) + if RunsOn(n.phase, b) then 1 else 0
  {
    match b
    case Parent => SumUpdate(msgs, k, n, OnParent);
    case Local => SumUpdate(msgs, k, n, OnLocal);
    case Hdfs => SumUpdate(msgs, k, n, OnHdfs);
  }

  lemma EffectsPermits(c: Config, s: State, k: nat, m: Msg, step: MsgStep, b: Bus)
    requires Can(m, step) && (step.Receive? ==> |s.queues.Get(m.phase.bus)| > 0)
    ensures Effects(c, s, k, m, Advance(c, m, step), step).permits.Get(b)
         == s.permits.Get(b) + (if RunsOn(m.phase, b) then 1 else 0)
          - if RunsOn(Advance(c, m, step).phase, b) then 1 else 0
    ensures !RunsOn(m.phase, b) && RunsOn(Advance(c, m, step).phase, b) ==> step.Acquire? && m.phase.bus == b
  {
  }

  lemma StepKeepsPermits(c: Config, s: State, a: Action)
    requires PermitsOk(c, s) && Enabled(s, a)
    ensures PermitsOk(c, Step(c, s, a))
  {
    var t := Step(c, s, a);
    forall b ensures 0 <= t.permits.Get(b) && t.permits.Get(b) + Running(t.msgs, b) == Limits(c).Get(b) {
      assert 0 <= s.permits.Get(b) && s.permits.Get(b) + Running(s.msgs, b) == Limits(c).Get(b);
      match a {
        case Act(k, step) =>
          ActMsgs(c, s, k, step);
          RunningUpdate(s.msgs, k, t.msgs[k], b);
          EffectsPermits(c, s.(msgs := t.msgs), k, s.msgs[k], step, b);
        case SpillBuffer(uid, order) =>
          var n := t.msgs[|s.msgs|];
          SumSnoc(s.msgs, n, OnParent);
          SumSnoc(s.msgs, n, OnLocal);
          SumSnoc(s.msgs, n, OnHdfs);
        case _ =>
      }
    }
  }
}
