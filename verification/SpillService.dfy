/** The spill pipeline as the program runs it: counters, buffers, queues and permits changed in place by
    the hybrid store, the event buses and the two handlers. The object carries the run that brought it
    where it is, every method extends that run, and so what the protocol promises of all runs holds of
    the object after any calls in any order. */
module SpillService {
  import opened Bytes
  import opened Blocks
  import opened Buffer
  import opened SpillMessage
  import opened SpillProtocol
  import opened SpillRuns
  import opened SpillTraces

  // ---- what the steps of one handler leave to the next ----

  /** The blocks of a message as they stand in a store. */
  ghost function InStore(t: StorageType, m: Msg): set<StoredBlock> { set x | x in Flatten(m.blocks) :: StoredBlock(t, m.uid, x) }

  lemma PersistedExactly(c: Config, m: Msg, env: FlushEnv)
    ensures env.appValid && m.retry < 3 && m.candidate.Some? && c.warm.Some? && env.outcome.Inserted? ==>
      Persisted(c, m, env) == InStore(if m.candidate == Some(HDFS) && c.cold.Some? then c.cold.value else c.warm.value, m)
    ensures !(env.appValid && m.retry < 3 && m.candidate.Some? && c.warm.Some? && env.outcome.Inserted?) ==>
      Persisted(c, m, env) == {}
  {
    if env.appValid && m.retry < 3 && m.candidate.Some? && c.warm.Some? && env.outcome.Inserted? {
      var store := if m.candidate == Some(HDFS) && c.cold.Some? then c.cold.value else c.warm.value;
      assert WrittenStore(c, m.candidate.value) == Some(store);
      assert forall y :: y in Persisted(c, m, env) <==> y in InStore(store, m);
    }
  }

  ghost predicate AllStored(s: State, m: Msg) { forall x | x in Flatten(m.blocks) :: IsStored(s, m.uid, x) }

  lemma FlushStep(c: Config, s: State, k: nat, env: FlushEnv)
    requires Enabled(s, Act(k, Flush(env)))
    ensures var m, t := s.msgs[k], Step(c, s, Act(k, Flush(env)));
      var n := m.(flushes := m.flushes + 1, inserts := m.inserts + if Attempts(c, m, env) then 1 else 0);
      && t.buffers == s.buffers && t.queues == s.queues && t.eventNum == s.eventNum && t.inFlightBytes == s.inFlightBytes
      && t.appended == s.appended && t.dropped == s.dropped && t.purged == s.purged && t.stored == s.stored + Persisted(c, m, env)
      && match FlushStorage(c, m, env)
         case Flushed => t.msgs == s.msgs[k := n.(phase := Written(m.phase.bus))] && t.permits == s.permits
         case FlushError(e) =>
           if CouldBeRetried(e) then
             && t.msgs == s.msgs[k := n.(retry := m.retry + 1, phase := Returned(m.phase.bus, false))]
             && t.permits == s.permits.Set(m.phase.bus, s.permits.Get(m.phase.bus) + 1)
           else t.msgs == s.msgs[k := n.(retry := m.retry + 1, phase := Dropping(m.phase.bus))] && t.permits == s.permits
  {
  }

  /** The handler reports a failure exactly when the flush may be tried again. */
  lemma RetriedExactly(c: Config, m: Msg, env: FlushEnv)
    requires env.appValid && m.retry < 3 && m.candidate.Some? && c.warm.Some? && env.outcome.InsertFailed?
    ensures FlushStorage(c, m, env).FlushError?
    ensures CouldBeRetried(FlushStorage(c, m, env).error)
            <==> env.outcome.error !in {ExceedRetryLimit, PartialDataLost, LocalDiskUnhealthy, AppPurged, AppNotFound}
  {
  }

  /** One flush, case by case: what becomes of the message, of its retry counter, and of the stores. */
  lemma FlushOutcome(c: Config, s: State, k: nat, env: FlushEnv)
    requires Enabled(s, Act(k, Flush(env)))
    ensures var m, t, bus := s.msgs[k], Step(c, s, Act(k, Flush(env))), s.msgs[k].phase.bus;
      var attempted := env.appValid && m.retry < 3 && m.candidate.Some? && c.warm.Some?;
      var n := t.msgs[k];
      && |t.msgs| == |s.msgs| && n.flushes == m.flushes + 1 && n.inserts == m.inserts + (if attempted then 1 else 0)
      && (attempted && env.outcome.Inserted? ==>
            && n.phase == Written(bus) && n.retry == m.retry
            && t.stored == s.stored + InStore(if m.candidate == Some(HDFS) && c.cold.Some? then c.cold.value else c.warm.value, m))
      && (attempted && env.outcome.InsertFailed? ==>
            var e := env.outcome.error;
            && n.retry == m.retry + 1 && t.stored == s.stored
            && n.phase == if e.ExceedRetryLimit? || e.PartialDataLost? || e.LocalDiskUnhealthy? || e.AppPurged? || e.AppNotFound?
                          then Dropping(bus) else Returned(bus, false))
      && (!attempted ==>
            && n.retry == m.retry + 1 && t.stored == s.stored
            && n.phase == if !env.appValid || m.retry >= 3 then Dropping(bus) else Returned(bus, false))
  {
    PersistedExactly(c, s.msgs[k], env);
  }

  /** The flight of the message is gone and its size is taken off the totals, if the buffer still holds it;
      everything else is as before. */
  ghost predicate Forgets(before: map<Uid, BufferState>, after: map<Uid, BufferState>, m: Msg) {
    if m.uid in before && m.flightId in before[m.uid].flights then
      var b := before[m.uid];
      && m.uid in after && after == before[m.uid := after[m.uid]]
      && after[m.uid].flights == b.flights - {m.flightId} && after[m.uid].staging == b.staging
      && after[m.uid].totalSize == b.totalSize - m.size && after[m.uid].flightSize == b.flightSize - m.size
    else after == before
  }

  /** Everything staged is in flight under the next flight id; the total does not change. */
  ghost predicate Moves(before: map<Uid, BufferState>, after: map<Uid, BufferState>, uid: Uid)
    requires uid in before
  {
    var b := before[uid];
    && uid in after && after == before[uid := after[uid]]
    && after[uid].staging == [] && after[uid].stagingSize == 0 && after[uid].totalSize == b.totalSize
    && after[uid].flights == b.flights[b.counter := b.staging] && after[uid].counter == b.counter + 1
  }

  /** The message that carries what was staged in a buffer. */
  ghost function Taken(uid: Uid, b: BufferState, phase: Phase, started: Started): Msg
    requires b.stagingSize >= 0
  {
    Msg(uid, b.counter, b.stagingSize, b.staging, 0, None, phase, started, 0, 0, 0, 0)
  }

  lemma FlushShape(c: Config, s: State, k: nat, env: FlushEnv, order: seq<nat>)
    requires Enabled(s, Act(k, Flush(env))) && ClearOrder(s, s.msgs[k], order)
    ensures var t, r := Step(c, s, Act(k, Flush(env))), FlushStorage(c, s.msgs[k], env);
            && |t.msgs| == |s.msgs| && ClearOrder(t, t.msgs[k], order) && s.msgs[k].phase.bus != Parent
            && t.msgs[k].phase == if r.Flushed? then Written(s.msgs[k].phase.bus)
                                  else if CouldBeRetried(r.error) then Returned(s.msgs[k].phase.bus, false)
                                  else Dropping(s.msgs[k].phase.bus)
  {
  }

  lemma SelectShape(c: Config, s: State, k: nat, env: SelectEnv, order: seq<nat>)
    requires Enabled(s, Act(k, Select(env))) && ClearOrder(s, s.msgs[k], order)
    ensures var t, r := Step(c, s, Act(k, Select(env))), SelectStorage(c, s.msgs[k].size, s.msgs[k].retry, env);
            && |t.msgs| == |s.msgs| && ClearOrder(t, t.msgs[k], order)
            && t.msgs[k].phase == (if r.Some? then Returned(Parent, true) else Dropping(Parent))
            && (r.Some? ==> t.msgs[k].candidate == r)
  {
  }

  class HybridStore {
    const config: Config
    var buffers: map<Uid, BufferState>
    var msgs: seq<Msg>
    var queues: PerBus<seq<nat>>
    var permits: PerBus<int>
    var memorySpillEventNum: nat
    var inFlightBytesSize: nat
    var stored: set<StoredBlock>
    ghost var appended: set<(Uid, Block)>
    ghost var dropped: set<(Uid, Block)>
    ghost var purged: set<Uid>
    ghost var acts: seq<Action>
    ghost var trace: seq<State>

    ghost function View(): State
      reads this
    {
      State(buffers, msgs, queues, permits, memorySpillEventNum, inFlightBytesSize, stored, appended, dropped, purged)
    }

    ghost predicate Valid()
      reads this
    {
      IsTrace(config, trace, acts) && View() == trace[|acts|]
    }

    constructor (config: Config)
      ensures Valid() && this.config == config && acts == []
      ensures permits == PerBus(config.localLimit + config.hdfsLimit, config.localLimit, config.hdfsLimit)
      ensures buffers == map[] && msgs == [] && queues == PerBus([], [], []) && memorySpillEventNum == 0 && inFlightBytesSize == 0
    {
      this.config := config;
      buffers, msgs, queues, permits := map[], [], PerBus([], [], []), Limits(config);
      memorySpillEventNum, inFlightBytesSize, stored := 0, 0, {};
      appended, dropped, purged := {}, {}, {};
      acts, trace := [], [Init(config)];
    }

    // ---- what holds of the object, whatever was called on it ----

    lemma Reachable()
      requires Valid()
      ensures Runs(config, Init(config), acts) && View() == After(config, Init(config), acts)
    {
      TraceRuns(config, trace, acts);
    }

    lemma Sound()
      requires Valid() && Persistent(config)
      ensures Inv(config, View())
    {
      Reachable();
      InitInv(config);
      RunKeepsInv(config, Init(config), acts);
    }

    /** A block handed to the store is in memory, in a persistent store, or in a dropped event, unless its
        partition was purged. */
    lemma NothingIsLost(u: Uid, x: Block)
      requires Valid() && Persistent(config) && (u, x) in appended && u !in purged
      ensures u in buffers && buffers[u].Valid()
      ensures x in buffers[u].Flat() || IsStored(View(), u, x) || (u, x) in dropped
    {
      Sound();
      assert Accounted(View(), u, x);
      FlatMember(buffers[u], x);
    }

    /** A dropped block was carried by a message that was given up for one of the reasons of `GivesUp`. */
    lemma DroppedForAReason(u: Uid, x: Block) returns (k: nat, i: nat)
      requires Valid() && Persistent(config) && (u, x) in dropped
      ensures k < |msgs| && msgs[k].uid == u && x in Flatten(msgs[k].blocks)
      ensures i < |acts| && GivesUpAt(config, acts, i, k)
    {
      k, i := SpillTraces.DroppedForAReason(config, trace, acts, u, x);
    }

    /** When no message can move, every event was started and finished exactly once, and both counters are zero. */
    lemma QuietIsDrained()
      requires Valid() && Persistent(config) && config.localLimit > 0 && config.hdfsLimit > 0
      requires forall k, step :: !Enabled(View(), Act(k, step))
      ensures Drained(View()) && memorySpillEventNum == 0 && inFlightBytesSize == 0
    {
      Sound();
      StuckIsDrained(config, View());
    }

    method GetInFlightSize() returns (n: nat)
      requires Valid() && Persistent(config)
      ensures n == ByteBalance(View()) % TWO64
    {
      Sound();
      n := inFlightBytesSize;
    }

    method GetSpillEventNum() returns (n: nat)
      requires Valid() && Persistent(config)
      ensures n == EventBalance(View()) % TWO64
    {
      Sound();
      n := memorySpillEventNum;
    }

    ghost method Record(a: Action)
      requires IsTrace(config, trace, acts) && Enabled(trace[|acts|], a) && View() == Step(config, trace[|acts|], a)
      modifies this`acts, this`trace
      ensures Valid() && acts == old(acts) + [a]
    {
      TraceSnoc(config, trace, acts, a, View());
      acts, trace := acts + [a], trace + [View()];
    }

    // ---- single steps ----

    method Insert(uid: Uid, blocks: seq<Block>, size: nat)
      requires Valid()
      modifies this`buffers, this`appended, this`acts, this`trace
      ensures Valid() && acts == old(acts) + [AppendBlocks(uid, blocks, size)]
      ensures View() == Step(config, old(View()), AppendBlocks(uid, blocks, size))
      ensures buffers.Keys == old(buffers).Keys + {uid} && forall u | u in old(buffers) && u != uid :: buffers[u] == old(buffers)[u]
      ensures var before := if uid in old(buffers) then old(buffers)[uid] else EMPTY;
              && buffers[uid].staging == before.staging + [blocks]
              && buffers[uid].stagingSize == before.stagingSize + size && buffers[uid].totalSize == before.totalSize + size
    {
      var b := if uid in buffers then buffers[uid] else EMPTY;
      buffers := buffers[uid := Append(b, blocks, size)];
      appended := appended + Tagged(uid, set x | x in blocks);
      Record(AppendBlocks(uid, blocks, size));
    }

    /** One partition of a purge in the memory store. */
    method ForgetBuffer(uid: Uid)
      requires Valid()
      modifies this`buffers, this`purged, this`acts, this`trace
      ensures Valid() && acts == old(acts) + [PurgeBuffer(uid)]
      ensures View() == Step(config, old(View()), PurgeBuffer(uid))
      ensures buffers == old(buffers) - {uid}
    {
      buffers := buffers - {uid};
      purged := purged + {uid};
      Record(PurgeBuffer(uid));
    }

    /** `start_spill_event`: two counters, one after the other. */
    method StartSpillEvent(k: nat)
      requires Valid() && Enabled(View(), Act(k, StartEvent))
      modifies this`memorySpillEventNum, this`inFlightBytesSize, this`msgs, this`acts, this`trace
      ensures Valid() && acts == old(acts) + [Act(k, StartEvent), Act(k, StartBytes)]
      ensures msgs == old(msgs)[k := old(msgs[k]).(started := BytesCounted)]
      ensures memorySpillEventNum == (old(memorySpillEventNum) + 1) % TWO64
      ensures inFlightBytesSize == (old(inFlightBytesSize) + old(msgs[k]).size) % TWO64
    {
      CountEvent(k);
      CountBytes(k);
    }

    method CountEvent(k: nat)
      requires Valid() && Enabled(View(), Act(k, StartEvent))
      modifies this`memorySpillEventNum, this`msgs, this`acts, this`trace
      ensures Valid() && acts == old(acts) + [Act(k, StartEvent)]
      ensures msgs == old(msgs)[k := old(msgs[k]).(started := EventCounted)]
      ensures memorySpillEventNum == (old(memorySpillEventNum) + 1) % TWO64
    {
      memorySpillEventNum := (memorySpillEventNum + 1) % TWO64;
      msgs := msgs[k := msgs[k].(started := EventCounted)];
      Record(Act(k, StartEvent));
    }

    method CountBytes(k: nat)
      requires Valid() && Enabled(View(), Act(k, StartBytes))
      modifies this`inFlightBytesSize, this`msgs, this`acts, this`trace
      ensures Valid() && acts == old(acts) + [Act(k, StartBytes)]
      ensures msgs == old(msgs)[k := old(msgs[k]).(started := BytesCounted)]
      ensures inFlightBytesSize == (old(inFlightBytesSize) + old(msgs[k]).size) % TWO64
    {
      inFlightBytesSize := (inFlightBytesSize + msgs[k].size) % TWO64;
      msgs := msgs[k := msgs[k].(started := BytesCounted)];
      Record(Act(k, StartBytes));
    }

    lemma NotFinishedBefore(k: nat)
      requires Valid() && Persistent(config) && k < |msgs| && msgs[k].phase.Finishing?
      ensures msgs[k].finishes == 0
    {
      Sound();
      assert MsgOk(config, View().msgs[k]);
    }

    /** `finish_spill_event`, called once for every event. */
    method FinishSpillEvent(k: nat)
      requires Valid() && Persistent(config) && Enabled(View(), Act(k, FinishEvent))
      modifies this`memorySpillEventNum, this`inFlightBytesSize, this`msgs, this`permits, this`acts, this`trace
      ensures Valid() && acts == old(acts) + [Act(k, FinishEvent), Act(k, FinishBytes)]
      ensures var bus := old(msgs[k]).phase.bus;
              && msgs == old(msgs)[k := old(msgs[k]).(finishes := 1, phase := Returned(bus, bus != Parent))]
              && permits == old(permits).Set(bus, old(permits).Get(bus) + 1)
      ensures memorySpillEventNum == (old(memorySpillEventNum) - 1) % TWO64
      ensures inFlightBytesSize == (old(inFlightBytesSize) - old(msgs[k]).size) % TWO64
    {
      NotFinishedBefore(k);
      UncountEvent(k);
      CloseSpillEvent(k);
    }

    method UncountEvent(k: nat)
      requires Valid() && Enabled(View(), Act(k, FinishEvent))
      modifies this`memorySpillEventNum, this`msgs, this`acts, this`trace
      ensures Valid() && acts == old(acts) + [Act(k, FinishEvent)]
      ensures msgs == old(msgs)[k := old(msgs[k]).(phase := Closing(old(msgs[k]).phase.bus))]
      ensures memorySpillEventNum == (old(memorySpillEventNum) - 1) % TWO64
    {
      memorySpillEventNum := (memorySpillEventNum - 1) % TWO64;
      msgs := msgs[k := msgs[k].(phase := Closing(msgs[k].phase.bus))];
      Record(Act(k, FinishEvent));
    }

    method CloseSpillEvent(k: nat)
      requires Valid() && Enabled(View(), Act(k, FinishBytes))
      modifies this`inFlightBytesSize, this`msgs, this`permits, this`acts, this`trace
      ensures Valid() && acts == old(acts) + [Act(k, FinishBytes)]
      ensures var bus, m := old(msgs[k]).phase.bus, old(msgs[k]);
              && msgs == old(msgs)[k := m.(finishes := m.finishes + 1, phase := Returned(bus, bus != Parent))]
              && permits == old(permits).Set(bus, old(permits).Get(bus) + 1)
      ensures inFlightBytesSize == (old(inFlightBytesSize) - old(msgs[k]).size) % TWO64
    {
      var bus := msgs[k].phase.bus;
      inFlightBytesSize := (inFlightBytesSize - msgs[k].size) % TWO64;
      msgs := msgs[k := msgs[k].(finishes := msgs[k].finishes + 1, phase := Returned(bus, bus != Parent))];
      permits := permits.Set(bus, permits.Get(bus) + 1);
      Record(Act(k, FinishBytes));
    }

    method Publish(k: nat)
      requires Valid() && Enabled(View(), Act(k, MsgStep.Publish))
      modifies this`queues, this`msgs, this`acts, this`trace
      ensures Valid() && acts == old(acts) + [Act(k, MsgStep.Publish)]
      ensures msgs == old(msgs)[k := old(msgs[k]).(phase := Queued(Parent))]
      ensures queues == old(queues).(parent := old(queues).parent + [k])
    {
      queues := queues.Set(Parent, queues.Get(Parent) + [k]);
      msgs := msgs[k := msgs[k].(phase := Queued(Parent))];
      Record(Act(k, MsgStep.Publish));
    }

    /** `buffer_spill_impl`: take the staging blocks, publish the message, and only then start the event. */
    method BufferSpillImpl(uid: Uid, order: seq<nat>) returns (flightLen: int)
      requires Valid() && Enabled(View(), SpillBuffer(uid, order))
      modifies this`buffers, this`msgs, this`queues, this`memorySpillEventNum, this`inFlightBytesSize, this`acts, this`trace
      ensures Valid() && flightLen == old(buffers[uid].stagingSize) && |msgs| == old(|msgs|) + 1
      ensures var k := old(|msgs|);
              acts == old(acts) + [SpillBuffer(uid, order), Act(k, MsgStep.Publish), Act(k, StartEvent), Act(k, StartBytes)]
      ensures msgs == old(msgs) + [Taken(uid, old(buffers[uid]), Queued(Parent), BytesCounted)] && queues == old(queues).(parent := old(queues).parent + [old(|msgs|)])
      ensures Moves(old(buffers), buffers, uid)
    {
      var k := |msgs|;
      flightLen := TakeStaging(uid, order);
      Publish(k);
      StartSpillEvent(k);
    }

    /** The staging blocks become a flight and a message. */
    method TakeStaging(uid: Uid, order: seq<nat>) returns (flightLen: int)
      requires Valid() && Enabled(View(), SpillBuffer(uid, order))
      modifies this`buffers, this`msgs, this`acts, this`trace
      ensures Valid() && flightLen == old(buffers[uid].stagingSize) && acts == old(acts) + [SpillBuffer(uid, order)]
      ensures msgs == old(msgs) + [Taken(uid, old(buffers[uid]), Created, NotYet)]
      ensures Moves(old(buffers), buffers, uid)
    {
      var b := buffers[uid];
      flightLen := b.stagingSize;
      buffers := buffers[uid := Spill(b, order)];
      msgs := msgs + [NewMsg(uid, b.counter, b.stagingSize, b.staging)];
      Record(SpillBuffer(uid, order));
    }

    /** `release_memory_buffer`: an absent buffer is an error that the callers only log. */
    method ReleaseMemoryBuffer(m: Msg, order: seq<nat>)
      requires ClearOrder(View(), m, order)
      modifies this`buffers
      ensures buffers == Cleared(old(View()), m, order)
      ensures Forgets(old(buffers), buffers, m)
    {
      if m.uid in buffers {
        buffers := buffers[m.uid := Clear(buffers[m.uid], m.flightId, m.size, order)];
      }
    }

    /** `handle_spill_failure_whatever_error`. */
    method HandleFailureWhateverError(k: nat, appValid: bool, order: seq<nat>)
      requires Valid() && Persistent(config) && Enabled(View(), Act(k, Drop(appValid, order)))
      modifies this`buffers, this`dropped, this`memorySpillEventNum, this`inFlightBytesSize, this`msgs, this`permits, this`acts, this`trace
      ensures Valid() && acts == old(acts) + [Act(k, Drop(appValid, order)), Act(k, FinishEvent), Act(k, FinishBytes)]
      ensures var bus := old(msgs[k]).phase.bus;
              && msgs == old(msgs)[k := old(msgs[k]).(finishes := 1, phase := Returned(bus, bus != Parent))]
              && permits == old(permits).Set(bus, old(permits).Get(bus) + 1)
      ensures dropped == old(dropped) + set x | x in Flatten(old(msgs[k]).blocks) :: (old(msgs[k]).uid, x)
      ensures if appValid then Forgets(old(buffers), buffers, old(msgs[k])) else buffers == old(buffers)
    {
      DropMessage(k, appValid, order);
      FinishSpillEvent(k);
    }

    method DropMessage(k: nat, appValid: bool, order: seq<nat>)
      requires Valid() && Enabled(View(), Act(k, Drop(appValid, order)))
      modifies this`buffers, this`dropped, this`msgs, this`acts, this`trace
      ensures Valid() && acts == old(acts) + [Act(k, Drop(appValid, order))]
      ensures msgs == old(msgs)[k := old(msgs[k]).(phase := Finishing(old(msgs[k]).phase.bus))]
      ensures dropped == old(dropped) + set x | x in Flatten(old(msgs[k]).blocks) :: (old(msgs[k]).uid, x)
      ensures if appValid then Forgets(old(buffers), buffers, old(msgs[k])) else buffers == old(buffers)
    {
      var m := msgs[k];
      dropped := dropped + Tagged(m.uid, BlocksOf(m.blocks));
      if appValid {
        ReleaseMemoryBuffer(m, order);
      }
      msgs := msgs[k := m.(phase := Finishing(m.phase.bus))];
      Record(Act(k, Drop(appValid, order)));
    }

    lemma WrittenIsStored(k: nat)
      requires Valid() && Persistent(config) && k < |msgs| && msgs[k].phase.Written? && msgs[k].uid !in purged
      ensures AllStored(View(), msgs[k])
    {
      Sound();
      assert Carries(View(), msgs[k]);
    }

    /** `handle_spill_success`: nothing of the message stays in memory, because its blocks are stored. */
    method HandleSuccess(k: nat, order: seq<nat>)
      requires Valid() && Persistent(config) && Enabled(View(), Act(k, Release(order)))
      modifies this`buffers, this`memorySpillEventNum, this`inFlightBytesSize, this`msgs, this`permits, this`acts, this`trace
      ensures Valid() && acts == old(acts) + [Act(k, Release(order)), Act(k, FinishEvent), Act(k, FinishBytes)]
      ensures var bus := old(msgs[k]).phase.bus;
              && msgs == old(msgs)[k := old(msgs[k]).(finishes := 1, phase := Returned(bus, bus != Parent))]
              && permits == old(permits).Set(bus, old(permits).Get(bus) + 1)
      ensures Forgets(old(buffers), buffers, old(msgs[k]))
      ensures old(msgs[k]).uid !in old(purged) ==> AllStored(old(View()), old(msgs[k]))
    {
      ReleaseMessage(k, order);
      FinishSpillEvent(k);
    }

    method ReleaseMessage(k: nat, order: seq<nat>)
      requires Valid() && Persistent(config) && Enabled(View(), Act(k, Release(order)))
      modifies this`buffers, this`msgs, this`acts, this`trace
      ensures Valid() && acts == old(acts) + [Act(k, Release(order))]
      ensures old(msgs[k]).uid !in old(purged) ==> AllStored(old(View()), old(msgs[k]))
      ensures msgs == old(msgs)[k := old(msgs[k]).(phase := Finishing(old(msgs[k]).phase.bus))]
      ensures Forgets(old(buffers), buffers, old(msgs[k]))
    {
      if msgs[k].uid !in purged { WrittenIsStored(k); }
      var m := msgs[k];
      ReleaseMemoryBuffer(m, order);
      msgs := msgs[k := m.(phase := Finishing(m.phase.bus))];
      Record(Act(k, Release(order)));
    }

    /** `StorageSelectHandler::on_event`: true hands the message to a child bus, false ends it. */
    method SelectOnEvent(k: nat, env: SelectEnv, appValid: bool, order: seq<nat>) returns (ok: bool)
      requires Valid() && Persistent(config) && Enabled(View(), Act(k, Select(env))) && ClearOrder(View(), msgs[k], order)
      modifies this
      ensures Valid() && |msgs| == old(|msgs|) && msgs[k].phase == Returned(Parent, ok)
      ensures ok <==> SelectStorage(config, old(msgs[k]).size, old(msgs[k]).retry, env).Some?
      ensures ok ==> msgs[k].candidate == SelectStorage(config, old(msgs[k]).size, old(msgs[k]).retry, env)
      ensures !ok ==> msgs[k].finishes == 1
      ensures acts == old(acts) + [Act(k, Select(env))] +
                if ok then [] else [Act(k, Drop(appValid, order)), Act(k, FinishEvent), Act(k, FinishBytes)]
    {
      SelectShape(config, View(), k, env, order);
      ok := SelectOnce(k, env);
      if !ok {
        HandleFailureWhateverError(k, appValid, order);
      }
    }

    /** The selection itself. */
    method SelectOnce(k: nat, env: SelectEnv) returns (ok: bool)
      requires Valid() && Enabled(View(), Act(k, Select(env)))
      modifies this`msgs, this`permits, this`acts, this`trace
      ensures Valid() && acts == old(acts) + [Act(k, Select(env))]
      ensures View() == Step(config, old(View()), Act(k, Select(env)))
      ensures ok <==> SelectStorage(config, old(msgs[k]).size, old(msgs[k]).retry, env).Some?
    {
      var m := msgs[k];
      var selected := SelectStorage(config, m.size, m.retry, env);
      ok := selected.Some?;
      if ok {
        msgs := msgs[k := m.(selects := m.selects + 1, candidate := selected, phase := Returned(Parent, true))];
        permits := permits.Set(Parent, permits.Get(Parent) + 1);
      } else {
        msgs := msgs[k := m.(selects := m.selects + 1, phase := Dropping(Parent))];
      }
      Record(Act(k, Select(env)));
    }

    /** `flush_storage_for_buffer`: on success everything is in the candidate store. */
    method FlushStorageForBuffer(m: Msg, env: FlushEnv) returns (r: FlushResult)
      modifies this`stored
      ensures r == FlushStorage(config, m, env)
      ensures stored == old(stored) + Persisted(config, m, env)
    {
      if !env.appValid {
        return FlushError(AppNotFound);
      }
      if m.retry >= 3 {
        return FlushError(ExceedRetryLimit);
      }
      if m.candidate.None? {
        return FlushError(NoCandidateStore);
      }
      if config.warm.None? {
        return FlushError(OtherError);
      }
      var store := WrittenStore(config, m.candidate.value).value;
      match env.outcome {
        case Inserted =>
          stored := stored + set x | x in BlocksOf(m.blocks) :: StoredBlock(store, m.uid, x);
          r := Flushed;
        case InsertFailed(e) =>
          r := FlushError(e);
      }
    }

    /** The flush itself, with the retry counter moved on when it failed. */
    method FlushOnce(k: nat, env: FlushEnv) returns (result: FlushResult)
      requires Valid() && Enabled(View(), Act(k, Flush(env)))
      modifies this`msgs, this`permits, this`stored, this`acts, this`trace
      ensures Valid() && acts == old(acts) + [Act(k, Flush(env))]
      ensures View() == Step(config, old(View()), Act(k, Flush(env)))
      ensures result == FlushStorage(config, old(msgs[k]), env)
    {
      result := FlushStorageForBuffer(msgs[k], env);
      Settle(k, env, result);
    }

    /** The message moves on with the result of its flush. */
    method Settle(k: nat, env: FlushEnv, result: FlushResult)
      requires IsTrace(config, trace, acts) && Enabled(trace[|acts|], Act(k, Flush(env)))
      requires var s := trace[|acts|];
        View() == s.(stored := s.stored + Persisted(config, s.msgs[k], env)) && result == FlushStorage(config, s.msgs[k], env)
      modifies this`msgs, this`permits, this`acts, this`trace
      ensures Valid() && acts == old(acts) + [Act(k, Flush(env))]
      ensures View() == Step(config, old(trace[|acts|]), Act(k, Flush(env)))
    {
      var m := msgs[k];
      var bus := m.phase.bus;
      FlushStep(config, trace[|acts|], k, env);
      var n := m.(flushes := m.flushes + 1, inserts := m.inserts + if Attempts(config, m, env) then 1 else 0);
      if result.Flushed? {
        msgs := msgs[k := n.(phase := Written(bus))];
      } else if CouldBeRetried(result.error) {
        msgs := msgs[k := n.(retry := m.retry + 1, phase := Returned(bus, false))];
        permits := permits.Set(bus, permits.Get(bus) + 1);
      } else {
        msgs := msgs[k := n.(retry := m.retry + 1, phase := Dropping(bus))];
      }
      Record(Act(k, Flush(env)));
    }

    /** `StorageFlushHandler::on_event`: false sends the message back to the parent bus. */
    method FlushOnEvent(k: nat, env: FlushEnv, appValid: bool, order: seq<nat>) returns (ok: bool)
      requires Valid() && Persistent(config) && Enabled(View(), Act(k, Flush(env))) && ClearOrder(View(), msgs[k], order)
      modifies this
      ensures Valid() && |msgs| == old(|msgs|) && msgs[k].phase == Returned(old(msgs[k]).phase.bus, ok)
      ensures ok <==> var r := FlushStorage(config, old(msgs[k]), env); r.FlushError? ==> !CouldBeRetried(r.error)
      ensures env.appValid && old(msgs[k]).retry < 3 && old(msgs[k]).candidate.Some? && env.outcome.InsertFailed? ==>
                && msgs[k].retry == old(msgs[k]).retry + 1
                && (!ok <==> env.outcome.error !in {ExceedRetryLimit, PartialDataLost, LocalDiskUnhealthy, AppPurged, AppNotFound})
      ensures ok ==> msgs[k].finishes == 1
      ensures acts == old(acts) + [Act(k, Flush(env))] +
                if !ok then []
                else if FlushStorage(config, old(msgs[k]), env).Flushed? then [Act(k, Release(order)), Act(k, FinishEvent), Act(k, FinishBytes)]
                else [Act(k, Drop(appValid, order)), Act(k, FinishEvent), Act(k, FinishBytes)]
    {
      FlushShape(config, View(), k, env, order);
      FlushStep(config, View(), k, env);
      if env.appValid && msgs[k].retry < 3 && msgs[k].candidate.Some? && env.outcome.InsertFailed? {
        RetriedExactly(config, msgs[k], env);
      }
      var result := FlushOnce(k, env);
      if result.Flushed? {
        HandleSuccess(k, order);
        ok := true;
      } else if CouldBeRetried(result.error) {
        ok := false;
      } else {
        HandleFailureWhateverError(k, appValid, order);
        ok := true;
      }
    }

    /** The dispatch loop takes the oldest message off the queue, unless it still waits with an earlier one. */
    method ReceiveNext(bus: Bus) returns (k: Option<nat>)
      requires Valid() && Persistent(config)
      modifies this`msgs, this`queues, this`acts, this`trace
      ensures Valid() && |msgs| == old(|msgs|)
      ensures k.None? <==> old(queues.Get(bus)) == [] || exists j | 0 <= j < |msgs| :: old(msgs)[j].phase == Received(bus)
      ensures k.None? ==> View() == old(View()) && acts == old(acts)
      ensures k.Some? ==> k.value == old(queues.Get(bus)[0]) < |msgs| && acts == old(acts) + [Act(k.value, Receive)]
      ensures k.Some? ==> msgs == old(msgs)[k.value := old(msgs)[k.value].(phase := Received(bus))]
      ensures k.Some? ==> queues == old(queues).Set(bus, old(queues.Get(bus)[1..]))
    {
      if queues.Get(bus) == [] || exists j | 0 <= j < |msgs| :: msgs[j].phase == Received(bus) {
        return None;
      }
      HeadIsQueued(bus);
      k := Some(queues.Get(bus)[0]);
      TakeHead(bus);
    }

    lemma HeadIsQueued(bus: Bus)
      requires Valid() && Persistent(config) && queues.Get(bus) != []
      ensures queues.Get(bus)[0] < |msgs| && msgs[queues.Get(bus)[0]].phase == Queued(bus)
    {
      Sound();
      QueueHead(View(), bus);
    }

    method TakeHead(bus: Bus)
      requires Valid() && queues.Get(bus) != []
      requires queues.Get(bus)[0] < |msgs| && msgs[queues.Get(bus)[0]].phase == Queued(bus)
      requires forall j | 0 <= j < |msgs| :: msgs[j].phase != Received(bus)
      modifies this`msgs, this`queues, this`acts, this`trace
      ensures Valid() && acts == old(acts) + [Act(old(queues.Get(bus)[0]), Receive)] && |msgs| == old(|msgs|)
      ensures var k := old(queues.Get(bus)[0]); msgs == old(msgs)[k := old(msgs)[k].(phase := Received(bus))]
      ensures queues == old(queues).Set(bus, old(queues.Get(bus)[1..]))
    {
      var k := queues.Get(bus)[0];
      queues := queues.Set(bus, queues.Get(bus)[1..]);
      msgs := msgs[k := msgs[k].(phase := Received(bus))];
      Record(Act(k, Receive));
    }

    /** A received message is handled as soon as a permit is free; until then it waits. */
    method AcquirePermit(k: nat) returns (ok: bool)
      requires Valid() && k < |msgs| && msgs[k].phase.Received?
      modifies this`msgs, this`permits, this`acts, this`trace
      ensures Valid() && |msgs| == old(|msgs|)
      ensures ok <==> old(permits.Get(msgs[k].phase.bus)) > 0
      ensures !ok ==> View() == old(View()) && acts == old(acts)
      ensures ok ==> acts == old(acts) + [Act(k, Acquire)]
      ensures ok ==> var bus := old(msgs[k]).phase.bus;
                && msgs == old(msgs)[k := old(msgs[k]).(phase := Handling(bus))]
                && permits == old(permits).Set(bus, old(permits).Get(bus) - 1)
    {
      var bus := msgs[k].phase.bus;
      if permits.Get(bus) <= 0 {
        return false;
      }
      permits := permits.Set(bus, permits.Get(bus) - 1);
      msgs := msgs[k := msgs[k].(phase := Handling(bus))];
      Record(Act(k, Acquire));
      ok := true;
    }

    /** The two hooks of the hierarchical bus: dispatch to the child of the candidate type, or resend. No
        message is ever handed to nobody. */
    method RunHook(k: nat)
      requires Valid() && Persistent(config) && Enabled(View(), Act(k, Hook))
      modifies this`msgs, this`queues, this`acts, this`trace
      ensures Valid() && acts == old(acts) + [Act(k, Hook)]
      ensures View() == Step(config, old(View()), Act(k, Hook)) && |msgs| == old(|msgs|)
      ensures msgs[k].phase == if Over(old(msgs[k]).phase) then Done
                               else if old(msgs[k]).phase.bus != Parent then Queued(Parent)
                               else Queued(if old(msgs[k]).candidate == Some(HDFS) then Hdfs else Local)
    {
      Sound();
      assert MsgOk(config, msgs[k]);
      HookStep(k);
    }

    method HookStep(k: nat)
      requires Valid() && Enabled(View(), Act(k, Hook))
      modifies this`msgs, this`queues, this`acts, this`trace
      ensures Valid() && acts == old(acts) + [Act(k, Hook)]
      ensures View() == Step(config, old(View()), Act(k, Hook)) && |msgs| == old(|msgs|)
      ensures msgs[k] == Advance(config, old(msgs[k]), Hook)
    {
      var m := msgs[k];
      var next := Done;
      if m.phase.bus == Parent {
        if m.phase.ok {
          next := Swallowed;
          match m.candidate {
            case Some(LOCALFILE) => next := Queued(Local);
            case Some(HDFS) => next := Queued(Hdfs);
            case _ =>
          }
        }
      } else if !m.phase.ok {
        next := Queued(Parent);
      }
      if next.Queued? {
        queues := queues.Set(next.bus, queues.Get(next.bus) + [k]);
      }
      msgs := msgs[k := m.(phase := next)];
      Record(Act(k, Hook));
    }
  }
}
