/** The lock side of the concurrent HDFS writers: a writer's phase always agrees with its place in its
    partition's lock, so no two writers ever work on the same slot. */
module HdfsSeats {
  import opened Blocks
  import opened HdfsProtocol
  import Lock = IndexSemaphore

  ghost predicate LockOk(lock: Lock.Sem, concurrency: nat) { Lock.Inv(lock) && lock.permits == concurrency }

  /** A writer's phase agrees with its place in the lock. */
  ghost predicate Seated(locks: map<Uid, Lock.Sem>, w: nat, me: Writer) {
    && me.uid in locks
    && (me.phase.Permitted? ==> w in locks[me.uid].permitted)
    && (HasIndex(me.phase) ==> w in locks[me.uid].holding && locks[me.uid].holding[w] == me.phase.idx)
    && (me.phase.Pushed? ==> w in locks[me.uid].returned)
  }

  ghost predicate LocksFine(locks: map<Uid, Lock.Sem>, concurrency: nat) {
    forall uid | uid in locks :: LockOk(locks[uid], concurrency)
  }

  ghost predicate AllSeated(locks: map<Uid, Lock.Sem>, writers: map<nat, Writer>) {
    forall w | w in writers :: Seated(locks, w, writers[w])
  }

  ghost predicate Seats(s: State) { LocksFine(s.locks, s.concurrency) && AllSeated(s.locks, s.writers) }

  ghost predicate Holder(s: State, w: nat) { w in s.writers && HasIndex(s.writers[w].phase) }

  /** No two writers ever work on the same slot. */
  ghost predicate Exclusive(s: State) {
    forall v, w | Holder(s, v) && Holder(s, w) && v != w :: SlotOf(s.writers[v]) != SlotOf(s.writers[w])
  }

  lemma SeatsExclude(s: State)
    requires Seats(s)
    ensures Exclusive(s)
  {
    forall v, w | Holder(s, v) && Holder(s, w) && v != w ensures SlotOf(s.writers[v]) != SlotOf(s.writers[w]) {
      assert Seated(s.locks, v, s.writers[v]) && Seated(s.locks, w, s.writers[w]);
      if s.writers[v].uid == s.writers[w].uid {
        HoldersDiffer(s.locks[s.writers[v].uid], s.concurrency, v, w);
      }
    }
  }

  lemma HoldersDiffer(lock: Lock.Sem, concurrency: nat, v: nat, w: nat)
    requires LockOk(lock, concurrency) && v in lock.holding && w in lock.holding && v != w
    ensures lock.holding[v] != lock.holding[w]
  {
  }

  lemma LockStepOk(lock: Lock.Sem, concurrency: nat, a: Lock.Action)
    requires LockOk(lock, concurrency) && Lock.Enabled(lock, a)
    ensures LockOk(Lock.Step(lock, a), concurrency)
    ensures a.PopIndex? ==> lock.deque != []
  {
    Lock.StepKeepsInv(lock, a);
    if a.PopIndex? {
      Lock.PopFindsIndex(lock, a.task);
    }
  }

  /** A task has the same place in both locks. */
  ghost predicate SamePlace(n: Lock.Sem, lock: Lock.Sem, v: nat) {
    && (v in n.permitted <==> v in lock.permitted) && (v in n.returned <==> v in lock.returned)
    && (v in n.holding <==> v in lock.holding) && (v in n.holding ==> n.holding[v] == lock.holding[v])
  }

  /** A lock step moves only its taker. */
  lemma OthersStay(lock: Lock.Sem, a: Lock.Action)
    requires Lock.Enabled(lock, a)
    ensures forall v | v != a.task :: SamePlace(Lock.Step(lock, a), lock, v)
  {
  }

  lemma LocksReplaced(locks: map<Uid, Lock.Sem>, uid: Uid, n: Lock.Sem, concurrency: nat)
    requires LocksFine(locks, concurrency) && LockOk(n, concurrency)
    ensures LocksFine(locks[uid := n], concurrency)
  {
  }

  lemma SeatKept(locks: map<Uid, Lock.Sem>, uid: Uid, n: Lock.Sem, v: nat, me: Writer)
    requires Seated(locks, v, me) && uid in locks && SamePlace(n, locks[uid], v)
    ensures Seated(locks[uid := n], v, me)
  {
  }

  lemma SeatsReplaced(locks: map<Uid, Lock.Sem>, uid: Uid, n: Lock.Sem, writers: map<nat, Writer>, w: nat, me: Writer)
    requires AllSeated(locks, writers) && uid in locks && forall v | v != w :: SamePlace(n, locks[uid], v)
    requires Seated(locks[uid := n], w, me)
    ensures AllSeated(locks[uid := n], writers[w := me])
  {
    forall v | v in writers && v != w ensures Seated(locks[uid := n], v, writers[v]) {
      SeatKept(locks, uid, n, v, writers[v]);
    }
  }

  lemma StepLockKeepsSeats(s: State, w: nat, a: Lock.Action, p: Phase)
    requires Seats(s) && w in s.writers && LockEnabled(s, s.writers[w].uid, a) && a.task == w
    requires Seated(LockStep(s, s.writers[w].uid, a).locks, w, s.writers[w].(phase := p))
    ensures Seats(StepLock(s, w, a, p))
  {
    var uid := s.writers[w].uid;
    var lock := s.locks[uid];
    LockStepOk(lock, s.concurrency, a);
    OthersStay(lock, a);
    LocksReplaced(s.locks, uid, Lock.Step(lock, a), s.concurrency);
    SeatsReplaced(s.locks, uid, Lock.Step(lock, a), s.writers, w, s.writers[w].(phase := p));
  }

  lemma NewLockKeepsSeats(locks: map<Uid, Lock.Sem>, uid: Uid, n: Lock.Sem, writers: map<nat, Writer>)
    requires AllSeated(locks, writers) && uid !in locks
    ensures AllSeated(locks[uid := n], writers)
  {
    forall v | v in writers ensures Seated(locks[uid := n], v, writers[v]) {
      assert Seated(locks, v, writers[v]);
    }
  }

  lemma StartKeepsSeats(s: State, w: nat, uid: Uid, blocks: seq<Block>)
    requires Seats(s) && w !in s.writers
    ensures Seats(StepStart(s, w, uid, blocks))
  {
    if uid !in s.locks {
      Lock.InitInv(s.concurrency);
      LocksReplaced(s.locks, uid, Lock.Init(s.concurrency), s.concurrency);
      NewLockKeepsSeats(s.locks, uid, Lock.Init(s.concurrency), s.writers);
    }
  }

  /** Other steps keep the locks, and the writer keeps its index. */
  lemma MoveKeepsSeats(s: State, t: State, w: nat)
    requires Seats(s) && Holder(s, w) && t.locks == s.locks && t.concurrency == s.concurrency
    requires w in t.writers && t.writers == s.writers[w := s.writers[w].(phase := t.writers[w].phase)]
    requires HasIndex(t.writers[w].phase) && t.writers[w].phase.idx == s.writers[w].phase.idx
    ensures Seats(t)
  {
    forall v | v in t.writers ensures Seated(t.locks, v, t.writers[v]) {
      assert Seated(s.locks, v, s.writers[v]);
    }
  }

  predicate OnLock(a: Action) { a.TakePermit? || a.TakeIndex? || a.PushBack? || a.Release? }

  /** The writer keeps its index, and nobody else moves. */
  ghost predicate MovesOnly(s: State, t: State, w: nat) {
    && Holder(s, w) && t.locks == s.locks && t.concurrency == s.concurrency
    && w in t.writers && t.writers == s.writers[w := s.writers[w].(phase := t.writers[w].phase)]
    && HasIndex(t.writers[w].phase) && t.writers[w].phase.idx == s.writers[w].phase.idx
  }

  lemma AppendMoves(s: State, a: Action)
    requires Enabled(s, a) && Appends(a)
    ensures MovesOnly(s, Step(s, a), a.w)
  {
  }

  lemma StepMoves(s: State, a: Action)
    requires Enabled(s, a) && !a.Start? && !OnLock(a)
    ensures MovesOnly(s, Step(s, a), a.w)
  {
    if Appends(a) {
      AppendMoves(s, a);
    }
  }

  lemma AcquireKeepsSeats(s: State, w: nat)
    requires Seats(s) && Enabled(s, TakePermit(w))
    ensures Seats(StepLock(s, w, Lock.AcquirePermit(w), Permitted))
  {
    StepLockKeepsSeats(s, w, Lock.AcquirePermit(w), Permitted);
  }

  lemma PopKeepsSeats(s: State, w: nat)
    requires Seats(s) && Enabled(s, TakeIndex(w))
    ensures Seats(StepLock(s, w, Lock.PopIndex(w), IndexPhase(s.locks[s.writers[w].uid])))
  {
    var lock := s.locks[s.writers[w].uid];
    LockStepOk(lock, s.concurrency, Lock.PopIndex(w));
    StepLockKeepsSeats(s, w, Lock.PopIndex(w), IndexPhase(lock));
  }

  lemma PushKeepsSeats(s: State, w: nat)
    requires Seats(s) && Enabled(s, PushBack(w))
    ensures Seats(StepLock(s, w, Lock.PushIndex(w), Pushed(s.writers[w].phase.ok)))
  {
    StepLockKeepsSeats(s, w, Lock.PushIndex(w), Pushed(s.writers[w].phase.ok));
  }

  lemma ReleaseKeepsSeats(s: State, w: nat)
    requires Seats(s) && Enabled(s, Release(w))
    ensures Seats(StepLock(s, w, Lock.ReleasePermit(w), Finished(s.writers[w].phase.ok)))
  {
    StepLockKeepsSeats(s, w, Lock.ReleasePermit(w), Finished(s.writers[w].phase.ok));
  }

  lemma LockActionKeepsSeats(s: State, a: Action)
    requires Seats(s) && Enabled(s, a) && OnLock(a)
    ensures Seats(Step(s, a))
  {
    match a
    case TakePermit(w) => AcquireKeepsSeats(s, w);
    case TakeIndex(w) => PopKeepsSeats(s, w);
    case PushBack(w) => PushKeepsSeats(s, w);
    case Release(w) => ReleaseKeepsSeats(s, w);
  }

  lemma StepKeepsSeats(s: State, a: Action)
    requires Seats(s) && Enabled(s, a)
    ensures Seats(Step(s, a))
  {
    if a.Start? {
      StartKeepsSeats(s, a.w, a.uid, a.blocks);
    } else if OnLock(a) {
      LockActionKeepsSeats(s, a);
    } else {
      StepMoves(s, a);
      MoveKeepsSeats(s, Step(s, a), a.w);
    }
  }
}
