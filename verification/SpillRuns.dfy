/** What holds over whole runs of the spill pipeline: no block is lost, every event is finished
    exactly once, everything drains, and the in-flight counters are right. */
module SpillRuns {
  import opened Bytes
  import opened Blocks
  import opened Buffer
  import opened Sums
  import opened SpillMessage
  import opened SpillProtocol

  // ---- where every block is ----

  predicate InMemory(b: BufferState, x: Block) {
    x in Flatten(b.staging) || exists f | f in b.flights :: x in Flatten(b.flights[f])
  }

  /** An insert of the block into a persistent store succeeded. */
  predicate IsStored(s: State, uid: Uid, x: Block) {
    StoredBlock(LOCALFILE, uid, x) in s.stored || StoredBlock(HDFS, uid, x) in s.stored
  }

  /** A message and its flight carry the same blocks, as long as the partition is not purged. */
  ghost predicate Carries(s: State, m: Msg) {
    m.uid !in s.purged ==>
      && m.uid in s.buffers
      && m.flightId < s.buffers[m.uid].counter
      && (m.flightId in s.buffers[m.uid].flights ==> s.buffers[m.uid].flights[m.flightId] == m.blocks)
      && (m.phase.Written? ==> forall x | x in Flatten(m.blocks) :: IsStored(s, m.uid, x))
  }

  ghost predicate FlightsOk(s: State) {
    && (forall u | u in s.buffers :: s.buffers[u].Valid())
    && (forall k | 0 <= k < |s.msgs| :: Carries(s, s.msgs[k]))
    && (forall i, j | 0 <= i < j < |s.msgs| && s.msgs[i].uid == s.msgs[j].uid && s.msgs[i].uid !in s.purged ::
          s.msgs[i].flightId != s.msgs[j].flightId)
  }

  ghost predicate Accounted(s: State, u: Uid, x: Block) {
    u in s.buffers && (InMemory(s.buffers[u], x) || IsStored(s, u, x) || (u, x) in s.dropped)
  }

  /** Every block ever appended is in memory, in a persistent store, or was in a dropped event. */
  ghost predicate NoneLost(s: State) {
    forall u, x | (u, x) in s.appended && u !in s.purged :: Accounted(s, u, x)
  }

  lemma AppendMemory(b: BufferState, blocks: seq<Block>, size: nat, x: Block)
    ensures InMemory(Append(b, blocks, size), x) <==> InMemory(b, x) || x in blocks
  {
    FlattenSnoc(b.staging, blocks);
  }

  lemma SpillMemory(b: BufferState, order: seq<nat>, x: Block)
    requires b.Valid() && InMemory(b, x)
    ensures InMemory(Spill(b, order), x)
  {
    var t := Spill(b, order);
    if x in Flatten(b.staging) {
      assert x in Flatten(t.flights[b.counter]);
    } else {
      var f :| f in b.flights && x in Flatten(b.flights[f]);
      assert f in t.flights && t.flights[f] == b.flights[f];
    }
  }

  lemma ClearMemory(b: BufferState, f: nat, size: nat, order: seq<nat>, x: Block)
    requires InMemory(b, x)
    ensures InMemory(Clear(b, f, size, order), x) || (f in b.flights && x in Flatten(b.flights[f]))
  {
    if f in b.flights && x !in Flatten(b.staging) && x !in Flatten(b.flights[f]) {
      var g :| g in b.flights && x in Flatten(b.flights[g]);
      var t := Clear(b, f, size, order);
      assert g in t.flights && t.flights[g] == b.flights[g];
    }
  }

  lemma AppendKeepsBlocks(c: Config, s: State, uid: Uid, blocks: seq<Block>, size: nat)
    requires FlightsOk(s) && NoneLost(s)
    ensures var t := Step(c, s, AppendBlocks(uid, blocks, size)); FlightsOk(t) && NoneLost(t)
  {
    var t := Step(c, s, AppendBlocks(uid, blocks, size));
    var b := if uid in s.buffers then s.buffers[uid] else EMPTY;
    forall k | 0 <= k < |t.msgs| ensures Carries(t, t.msgs[k]) {
      assert Carries(s, s.msgs[k]);
    }
    forall u, x | (u, x) in t.appended && u !in t.purged ensures Accounted(t, u, x) {
      AppendMemory(b, blocks, size, x);
      assert (u, x) in s.appended ==> Accounted(s, u, x);
    }
  }

  lemma SpillKeepsFlights(c: Config, s: State, uid: Uid, order: seq<nat>)
    requires FlightsOk(s) && Enabled(s, SpillBuffer(uid, order))
    ensures FlightsOk(Step(c, s, SpillBuffer(uid, order)))
  {
    var t := Step(c, s, SpillBuffer(uid, order));
    SpillKeepsValid(s.buffers[uid], order);
    forall k | 0 <= k < |t.msgs| ensures Carries(t, t.msgs[k]) {
      if k < |s.msgs| {
        assert Carries(s, s.msgs[k]);
      }
    }
    forall i, j | 0 <= i < j < |t.msgs| && t.msgs[i].uid == t.msgs[j].uid && t.msgs[i].uid !in t.purged
      ensures t.msgs[i].flightId != t.msgs[j].flightId
    {
      assert Carries(s, s.msgs[i]);
    }
  }

  lemma SpillKeepsBlocks(c: Config, s: State, uid: Uid, order: seq<nat>)
    requires FlightsOk(s) && NoneLost(s) && Enabled(s, SpillBuffer(uid, order))
    ensures NoneLost(Step(c, s, SpillBuffer(uid, order)))
  {
    var t := Step(c, s, SpillBuffer(uid, order));
    forall u, x | (u, x) in t.appended && u !in t.purged ensures Accounted(t, u, x) {
      assert Accounted(s, u, x);
      if u == uid && InMemory(s.buffers[u], x) {
        SpillMemory(s.buffers[u], order, x);
      }
    }
  }

  lemma PurgeKeepsBlocks(c: Config, s: State, uid: Uid)
    requires FlightsOk(s) && NoneLost(s)
    ensures var t := Step(c, s, PurgeBuffer(uid)); FlightsOk(t) && NoneLost(t)
  {
    var t := Step(c, s, PurgeBuffer(uid));
    forall k | 0 <= k < |t.msgs| ensures Carries(t, t.msgs[k]) {
      assert Carries(s, s.msgs[k]);
    }
    forall u, x | (u, x) in t.appended && u !in t.purged ensures Accounted(t, u, x) {
      assert Accounted(s, u, x);
    }
  }

  /** The relation between the states before and after a message step, as far as blocks go. */
  ghost predicate OnlyMessage(c: Config, s: State, t: State, k: nat, n: Msg) {
    && k < |s.msgs| && t.msgs == s.msgs[k := n]
    && (n.uid, n.flightId, n.blocks) == (s.msgs[k].uid, s.msgs[k].flightId, s.msgs[k].blocks)
    && t.appended == s.appended && t.purged == s.purged
    && s.stored <= t.stored && s.dropped <= t.dropped
  }

  lemma ActOnlyMessage(c: Config, s: State, k: nat, step: MsgStep)
    requires Enabled(s, Act(k, step))
    ensures OnlyMessage(c, s, Step(c, s, Act(k, step)), k, Advance(c, s.msgs[k], step))
    ensures !step.Drop? && !step.Release? ==> Step(c, s, Act(k, step)).buffers == s.buffers
  {
    var n := Advance(c, s.msgs[k], step);
    EffectsKeepMsgs(c, s.(msgs := s.msgs[k := n]), k, s.msgs[k], n, step);
  }

  lemma SameBuffersKeepBlocks(c: Config, s: State, t: State, k: nat, n: Msg)
    requires FlightsOk(s) && NoneLost(s) && OnlyMessage(c, s, t, k, n) && t.buffers == s.buffers
    requires n.phase.Written? && n.uid !in s.purged ==> forall x | x in Flatten(n.blocks) :: IsStored(t, n.uid, x)
    ensures FlightsOk(t) && NoneLost(t)
  {
    forall j | 0 <= j < |t.msgs| ensures Carries(t, t.msgs[j]) {
      assert Carries(s, s.msgs[j]);
    }
    forall u, x | (u, x) in t.appended && u !in t.purged ensures Accounted(t, u, x) {
      assert Accounted(s, u, x);
    }
  }

  /** Clearing the flight of a message whose blocks are stored or given up loses nothing. */
  lemma ClearKeepsBlocks(c: Config, s: State, t: State, k: nat, n: Msg, order: seq<nat>)
    requires FlightsOk(s) && NoneLost(s) && OnlyMessage(c, s, t, k, n)
    requires ClearOrder(s, s.msgs[k], order) && t.buffers == Cleared(s, s.msgs[k], order)
    requires n.phase.Finishing?
    requires n.uid !in s.purged ==>
               forall x | x in Flatten(n.blocks) :: IsStored(t, n.uid, x) || (n.uid, x) in t.dropped
    ensures FlightsOk(t) && NoneLost(t)
  {
    var m := s.msgs[k];
    if m.uid in s.buffers {
      ClearKeepsValid(s.buffers[m.uid], m.flightId, m.size, order);
    }
    forall j | 0 <= j < |t.msgs| ensures Carries(t, t.msgs[j]) {
      assert Carries(s, s.msgs[j]);
    }
    forall u, x | (u, x) in t.appended && u !in t.purged ensures Accounted(t, u, x) {
      assert Accounted(s, u, x);
      if u == m.uid && InMemory(s.buffers[u], x) {
        assert Carries(s, m);
        ClearMemory(s.buffers[u], m.flightId, m.size, order, x);
      }
    }
  }

  lemma FlushPersists(c: Config, s: State, k: nat, env: FlushEnv)
    requires Persistent(c) && MessagesOk(c, s) && Enabled(s, Act(k, Flush(env)))
    requires Advance(c, s.msgs[k], Flush(env)).phase.Written?
    ensures forall x | x in Flatten(s.msgs[k].blocks) :: IsStored(Step(c, s, Act(k, Flush(env))), s.msgs[k].uid, x)
  {
    var m := s.msgs[k];
    assert MsgOk(c, m);
    assert Attempts(c, m, env) && env.outcome.Inserted?;
    forall x | x in Flatten(m.blocks) ensures IsStored(Step(c, s, Act(k, Flush(env))), m.uid, x) {
      assert x in BlocksOf(m.blocks);
      assert StoredBlock(m.candidate.value, m.uid, x) in Persisted(c, m, env);
    }
  }

  lemma ActKeepsBlocks(c: Config, s: State, k: nat, step: MsgStep)
    requires Persistent(c) && MessagesOk(c, s) && FlightsOk(s) && NoneLost(s) && Enabled(s, Act(k, step))
    ensures var t := Step(c, s, Act(k, step)); FlightsOk(t) && NoneLost(t)
  {
    var t := Step(c, s, Act(k, step));
    var m := s.msgs[k];
    var n := Advance(c, m, step);
    ActOnlyMessage(c, s, k, step);
    assert Carries(s, m);
    match step {
      case Drop(appValid, order) =>
        forall x | x in Flatten(n.blocks) ensures (n.uid, x) in t.dropped {
          assert x in BlocksOf(m.blocks);
        }
        if appValid {
          ClearKeepsBlocks(c, s, t, k, n, order);
        } else {
          SameBuffersKeepBlocks(c, s, t, k, n);
        }
      case Release(order) =>
        ClearKeepsBlocks(c, s, t, k, n, order);
      case Flush(env) =>
        if n.phase.Written? {
          FlushPersists(c, s, k, env);
        }
        SameBuffersKeepBlocks(c, s, t, k, n);
      case _ =>
        SameBuffersKeepBlocks(c, s, t, k, n);
    }
  }

  // ---- all invariants together ----

  ghost predicate Inv(c: Config, s: State) {
    MessagesOk(c, s) && CountersExact(s) && QueuesOk(s) && PermitsOk(c, s) && FlightsOk(s) && NoneLost(s)
  }

  lemma InitInv(c: Config)
    ensures Inv(c, Init(c))
  {
    var s := Init(c);
    forall b ensures QueueOk(s.msgs, s.queues.Get(b), b) {
    }
  }

  lemma StepKeepsInv(c: Config, s: State, a: Action)
    requires Persistent(c) && Inv(c, s) && Enabled(s, a)
    ensures Inv(c, Step(c, s, a))
  {
    StepKeepsMessages(c, s, a);
    StepKeepsCounters(c, s, a);
    StepKeepsQueues(c, s, a);
    StepKeepsPermits(c, s, a);
    match a
    case AppendBlocks(uid, blocks, size) => AppendKeepsBlocks(c, s, uid, blocks, size);
    case SpillBuffer(uid, order) =>
      SpillKeepsFlights(c, s, uid, order);
      SpillKeepsBlocks(c, s, uid, order);
    case PurgeBuffer(uid) => PurgeKeepsBlocks(c, s, uid);
    case Act(k, step) => ActKeepsBlocks(c, s, k, step);
  }

  lemma {:induction false} RunKeepsInv(c: Config, s: State, acts: seq<Action>)
    requires Persistent(c) && Inv(c, s) && Runs(c, s, acts)
    ensures Inv(c, After(c, s, acts))
    decreases |acts|
  {
    if acts != [] {
      StepKeepsInv(c, s, acts[0]);
      RunKeepsInv(c, Step(c, s, acts[0]), acts[1..]);
    }
  }

  // ---- a reader that looks at memory first and at the files later misses nothing ----

  lemma StepGrows(c: Config, s: State, a: Action)
    requires Enabled(s, a)
    ensures var t := Step(c, s, a);
            s.appended <= t.appended && s.stored <= t.stored && s.dropped <= t.dropped && s.purged <= t.purged
  {
    if a.Act? {
      ActOnlyMessage(c, s, a.m, a.step);
    }
  }

  lemma {:induction false} RunGrows(c: Config, s: State, acts: seq<Action>)
    requires Runs(c, s, acts)
    ensures var t := After(c, s, acts);
            s.appended <= t.appended && s.stored <= t.stored && s.dropped <= t.dropped && s.purged <= t.purged
    decreases |acts|
  {
    if acts != [] {
      StepGrows(c, s, acts[0]);
      RunGrows(c, Step(c, s, acts[0]), acts[1..]);
    }
  }

  /** Three moments of any run: a block is appended by the first, memory is read at the second and the
      persistent stores at the third. Unless the partition was purged or an event was dropped, the
      block is in one of the two readings. */
  lemma {:induction false} ReaderSeesEveryBlock(c: Config, write: seq<Action>, more: seq<Action>, later: seq<Action>, u: Uid, x: Block)
    requires Persistent(c)
    requires Runs(c, Init(c), write) && Runs(c, After(c, Init(c), write), more)
    requires Runs(c, After(c, After(c, Init(c), write), more), later)
    requires (u, x) in After(c, Init(c), write).appended
    ensures var mid := After(c, After(c, Init(c), write), more);
            var end := After(c, mid, later);
            u in end.purged || (u, x) in end.dropped || IsStored(end, u, x)
            || (u in mid.buffers && mid.buffers[u].Valid() && x in mid.buffers[u].Flat())
  {
    var first := After(c, Init(c), write);
    var mid := After(c, first, more);
    InitInv(c);
    RunKeepsInv(c, Init(c), write);
    RunKeepsInv(c, first, more);
    RunGrows(c, first, more);
    RunGrows(c, mid, later);
    if u !in mid.purged {
      assert Accounted(mid, u, x);
      FlatMember(mid.buffers[u], x);
    }
  }

  // ---- the in-flight counters ----

  /** The counters are read as signed numbers; while the true difference fits, that is what is read. */
  lemma {:induction false} CountersReadExactly(c: Config, acts: seq<Action>)
    requires Persistent(c) && Runs(c, Init(c), acts)
    ensures var s := After(c, Init(c), acts);
            && (-0x8000_0000_0000_0000 <= ByteBalance(s) < 0x8000_0000_0000_0000 ==>
                  WrapI64(s.inFlightBytes) == ByteBalance(s))
            && (-0x8000_0000_0000_0000 <= EventBalance(s) < 0x8000_0000_0000_0000 ==>
                  WrapI64(s.eventNum) == EventBalance(s))
  {
    InitInv(c);
    RunKeepsInv(c, Init(c), acts);
    var s := After(c, Init(c), acts);
    SignedReading(ByteBalance(s));
    SignedReading(EventBalance(s));
  }

  lemma SignedReading(x: int)
    ensures -0x8000_0000_0000_0000 <= x < 0x8000_0000_0000_0000 ==> WrapI64(x % TWO64) == x
  {
  }

  // ---- every event reaches its end ----

  function Unstarted(m: Msg): int { if m.started.NotYet? then 2 else if m.started.EventCounted? then 1 else 0 }

  /** How many message steps are left at most. */
  function StepsLeft(s: State): int { Sum(s.msgs, Distance) + Sum(s.msgs, Unstarted) }

  lemma StepsLeftNonNegative(s: State)
    ensures 0 <= StepsLeft(s)
  {
    SumNonNegative(s.msgs, Distance);
    SumNonNegative(s.msgs, Unstarted);
  }

  lemma ActUsesAStep(c: Config, s: State, k: nat, step: MsgStep)
    requires Persistent(c) && MessagesOk(c, s) && Enabled(s, Act(k, step))
    ensures StepsLeft(Step(c, s, Act(k, step))) < StepsLeft(s)
  {
    var m := s.msgs[k];
    var n := Advance(c, m, step);
    assert MsgOk(c, m);
    ActMsgs(c, s, k, step);
    AdvanceComesCloser(c, m, step);
    SumUpdate(s.msgs, k, n, Distance);
    SumUpdate(s.msgs, k, n, Unstarted);
  }

  lemma {:induction false} DrainIsBounded(c: Config, s: State, acts: seq<Action>)
    requires Persistent(c) && Inv(c, s) && Runs(c, s, acts) && forall i | 0 <= i < |acts| :: acts[i].Act?
    ensures |acts| + StepsLeft(After(c, s, acts)) <= StepsLeft(s)
    decreases |acts|
  {
    if acts != [] {
      ActUsesAStep(c, s, acts[0].m, acts[0].step);
      StepKeepsInv(c, s, acts[0]);
      DrainIsBounded(c, Step(c, s, acts[0]), acts[1..]);
    }
  }

  /** A message inside a handler or between a handler and its hook can always go on. */
  lemma BusyCanGoOn(c: Config, s: State, k: nat) returns (step: MsgStep)
    requires Inv(c, s) && k < |s.msgs|
    requires var p := s.msgs[k].phase;
             p.Created? || p.Handling? || p.Dropping? || p.Written? || p.Finishing? || p.Closing? || p.Returned?
    ensures Enabled(s, Act(k, step))
  {
    var m := s.msgs[k];
    match m.phase {
      case Created => step := Publish;
      case Handling(b) =>
        if b == Parent {
          step := Select(SelectEnv(false, None, None, NoManager));
        } else {
          step := Flush(FlushEnv(true, Inserted));
        }
      case Dropping(_) => step := Drop(false, []);
      case Written(_) =>
        var order := [];
        if m.uid in s.buffers {
          order := OrderWithout(s.buffers[m.uid], m.flightId);
        }
        step := Release(order);
      case Finishing(_) => step := FinishEvent;
      case Closing(_) => step := FinishBytes;
      case Returned(_, _) => step := Hook;
    }
  }

  lemma OrderWithout(b: BufferState, f: nat) returns (order: seq<nat>)
    requires b.Valid()
    ensures IsOrder(order, b.flights.Keys - {f})
  {
    if f in b.flights {
      var i :| 0 <= i < |b.order| && b.order[i] == f;
      order := b.order[..i] + b.order[i + 1..];
      OrderDrop(b.order, b.flights.Keys, i);
    } else {
      order := b.order;
    }
  }

  /** A bus without free permits has a running handler. */
  lemma FullBusIsBusy(c: Config, s: State, b: Bus) returns (k: nat)
    requires PermitsOk(c, s) && s.permits.Get(b) == 0 && c.localLimit > 0 && c.hdfsLimit > 0
    ensures k < |s.msgs| && RunsOn(s.msgs[k].phase, b)
  {
    assert s.permits.Get(b) + Running(s.msgs, b) == Limits(c).Get(b);
    if forall j | 0 <= j < |s.msgs| :: !RunsOn(s.msgs[j].phase, b) {
      match b
      case Parent => SumZero(s.msgs, OnParent);
      case Local => SumZero(s.msgs, OnLocal);
      case Hdfs => SumZero(s.msgs, OnHdfs);
      assert false;
    }
    k :| 0 <= k < |s.msgs| && RunsOn(s.msgs[k].phase, b);
  }

  lemma ReceivedCanGoOn(c: Config, s: State, k: nat) returns (a: Action)
    requires Inv(c, s) && c.localLimit > 0 && c.hdfsLimit > 0 && k < |s.msgs| && s.msgs[k].phase.Received?
    ensures a.Act? && Enabled(s, a)
  {
    var b := s.msgs[k].phase.bus;
    if s.permits.Get(b) > 0 {
      a := Act(k, Acquire);
    } else {
      assert s.permits.Get(b) == 0;
      var j := FullBusIsBusy(c, s, b);
      var step := BusyCanGoOn(c, s, j);
      a := Act(j, step);
    }
  }

  /** The pipeline never gets stuck: while some message is not done, some message can take a step. */
  lemma NeverStuck(c: Config, s: State, k: nat) returns (a: Action)
    requires Inv(c, s) && c.localLimit > 0 && c.hdfsLimit > 0
    requires k < |s.msgs| && !(s.msgs[k].phase.Done? && s.msgs[k].started.BytesCounted?)
    ensures a.Act? && Enabled(s, a)
  {
    assert MsgOk(c, s.msgs[k]);
    if s.msgs[k].phase.Done? {
      a := Act(k, if s.msgs[k].started.NotYet? then StartEvent else StartBytes);
    } else if s.msgs[k].phase.Received? {
      a := ReceivedCanGoOn(c, s, k);
    } else if s.msgs[k].phase.Queued? {
      var b := s.msgs[k].phase.bus;
      if j :| 0 <= j < |s.msgs| && s.msgs[j].phase == Received(b) {
        a := ReceivedCanGoOn(c, s, j);
      } else {
        assert QueueOk(s.msgs, s.queues.Get(b), b);
        var i :| 0 <= i < |s.queues.Get(b)| && s.queues.Get(b)[i] == k;
        a := Act(s.queues.Get(b)[0], Receive);
      }
    } else {
      var step := BusyCanGoOn(c, s, k);
      a := Act(k, step);
    }
  }

  ghost predicate Drained(s: State) {
    forall k | 0 <= k < |s.msgs| ::
      s.msgs[k].phase.Done? && s.msgs[k].started.BytesCounted? && s.msgs[k].finishes == 1
      && s.msgs[k].selects <= 4 && s.msgs[k].flushes <= 4 && s.msgs[k].inserts <= 3
  }

  /** From any reachable state, message steps alone come to an end, within the bound; and when no
      message step is left, every event was started and finished exactly once, no queue holds a
      message, and both counters are back to zero. */
  lemma {:induction false} EveryEventFinishes(c: Config, past: seq<Action>, acts: seq<Action>)
    requires Persistent(c) && c.localLimit > 0 && c.hdfsLimit > 0
    requires Runs(c, Init(c), past) && Runs(c, After(c, Init(c), past), acts)
    requires forall i | 0 <= i < |acts| :: acts[i].Act?
    ensures |acts| <= StepsLeft(After(c, Init(c), past))
    ensures var end := After(c, After(c, Init(c), past), acts);
            (forall k, step :: !Enabled(end, Act(k, step))) ==>
              && Drained(end) && end.eventNum == 0 && end.inFlightBytes == 0
              && end.queues == PerBus([], [], [])
  {
    var s := After(c, Init(c), past);
    var end := After(c, s, acts);
    InitInv(c);
    RunKeepsInv(c, Init(c), past);
    RunKeepsInv(c, s, acts);
    DrainIsBounded(c, s, acts);
    StepsLeftNonNegative(end);
    if forall k, step :: !Enabled(end, Act(k, step)) {
      StuckIsDrained(c, end);
    }
  }

  lemma StuckIsDrained(c: Config, s: State)
    requires Inv(c, s) && c.localLimit > 0 && c.hdfsLimit > 0 && forall k, step :: !Enabled(s, Act(k, step))
    ensures Drained(s) && s.eventNum == 0 && s.inFlightBytes == 0 && s.queues == PerBus([], [], [])
  {
    forall k | 0 <= k < |s.msgs| ensures s.msgs[k].phase.Done? && s.msgs[k].started.BytesCounted? && MsgOk(c, s.msgs[k]) {
      if !(s.msgs[k].phase.Done? && s.msgs[k].started.BytesCounted?) {
        var a := NeverStuck(c, s, k);
        assert false;
      }
    }
    DrainedCounters(s);
    forall b ensures s.queues.Get(b) == [] {
      QueueHead(s, b);
    }
    assert s.queues.Get(Parent) == [] && s.queues.Get(Local) == [] && s.queues.Get(Hdfs) == [];
  }

  lemma QueueHead(s: State, b: Bus)
    requires QueuesOk(s)
    ensures s.queues.Get(b) == []
         || (s.queues.Get(b)[0] < |s.msgs| && s.msgs[s.queues.Get(b)[0]].phase == Queued(b))
  {
    assert QueueOk(s.msgs, s.queues.Get(b), b);
  }

  lemma DrainedCounters(s: State)
    requires CountersExact(s)
    requires forall k | 0 <= k < |s.msgs| :: s.msgs[k].phase.Done? && s.msgs[k].started.BytesCounted? && s.msgs[k].finishes == 1
    ensures s.eventNum == 0 && s.inFlightBytes == 0
  {
    SumEqual(s.msgs, StartedEvents, FinishedEvents);
    SumEqual(s.msgs, StartedBytes, FinishedBytes);
  }
}
