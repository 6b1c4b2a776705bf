/** `SemaphoreWithIndex`: a semaphore whose holders also own distinct small indexes. Acquiring takes a
    permit and then pops an index; dropping pushes the index back and then returns the permit. The four
    steps of different tasks interleave freely. */
module IndexSemaphore {
  /** `free` permits and the index deque are the real state; the rest records where each task is. */
  datatype Sem = Sem(
    permits: nat, free: nat, deque: seq<nat>,
    permitted: set<nat>, holding: map<nat, nat>, returned: set<nat>, panicked: bool)

  datatype Action = AcquirePermit(task: nat) | PopIndex(task: nat) | PushIndex(task: nat) | ReleasePermit(task: nat)

  function Indexes(n: nat): (s: seq<nat>)
    ensures |s| == n && forall i | 0 <= i < n :: s[i] == i
  {
    if n == 0 then [] else Indexes(n - 1) + [n - 1]
  }

  function Init(permits: nat): Sem { Sem(permits, permits, Indexes(permits), {}, map[], {}, false) }

  predicate Enabled(s: Sem, a: Action) {
    !s.panicked && match a
      case AcquirePermit(t) => s.free > 0 && t !in s.permitted && t !in s.holding && t !in s.returned
      case PopIndex(t) => t in s.permitted
      case PushIndex(t) => t in s.holding
      case ReleasePermit(t) => t in s.returned
  }

  function Step(s: Sem, a: Action): Sem
    requires Enabled(s, a)
  {
    match a
    case AcquirePermit(t) => s.(free := s.free - 1, permitted := s.permitted + {t})
    case PopIndex(t) =>
      if s.deque == [] then s.(panicked := true) else
        s.(permitted := s.permitted - {t}, holding := s.holding[t := s.deque[0]], deque := s.deque[1..])
    case PushIndex(t) =>
      s.(holding := s.holding - {t}, returned := s.returned + {t}, deque := [s.holding[t]] + s.deque)
    case ReleasePermit(t) => s.(returned := s.returned - {t}, free := s.free + 1)
  }

  ghost predicate Runs(s: Sem, acts: seq<Action>)
    decreases |acts|
  {
    acts == [] || (Enabled(s, acts[0]) && Runs(Step(s, acts[0]), acts[1..]))
  }

  ghost function After(s: Sem, acts: seq<Action>): Sem
    requires Runs(s, acts)
    decreases |acts|
  {
    if acts == [] then s else After(Step(s, acts[0]), acts[1..])
  }

  ghost predicate Distinct(s: seq<nat>) { forall i, j | 0 <= i < j < |s| :: s[i] != s[j] }

  /** Free and held indexes are exactly `0..permits`, each in one place. */
  ghost predicate Partitioned(s: Sem) {
    && Distinct(s.deque)
    && (forall i | 0 <= i < |s.deque| :: s.deque[i] < s.permits)
    && (forall t | t in s.holding :: s.holding[t] < s.permits && s.holding[t] !in s.deque)
    && (forall t, u | t in s.holding && u in s.holding && t != u :: s.holding[t] != s.holding[u])
    && (forall i: nat | i < s.permits :: i in s.deque || Held(s, i))
  }

  ghost predicate Held(s: Sem, i: nat) { exists t :: t in s.holding && s.holding[t] == i }

  ghost predicate Counted(s: Sem) {
    && s.free + |s.permitted| + |s.holding| + |s.returned| == s.permits
    && |s.deque| + |s.holding| == s.permits
    && s.permitted !! s.holding.Keys && s.permitted !! s.returned && s.holding.Keys !! s.returned
  }

  ghost predicate Inv(s: Sem) { Counted(s) && Partitioned(s) && !s.panicked }

  lemma InitInv(permits: nat)
    ensures Inv(Init(permits))
  {
    forall i: nat | i < permits ensures i in Init(permits).deque {
      assert Indexes(permits)[i] == i;
    }
  }

  lemma DomainGrows(m: map<nat, nat>, t: nat, i: nat)
    requires t !in m
    ensures |m[t := i]| == |m| + 1
  {
    assert m[t := i].Keys == m.Keys + {t};
  }

  lemma DomainShrinks(m: map<nat, nat>, t: nat)
    requires t in m
    ensures |m - {t}| == |m| - 1
  {
    assert (m - {t}).Keys == m.Keys - {t};
  }

  /** A task with a permit always finds an index. */
  lemma PopFindsIndex(s: Sem, t: nat)
    requires Counted(s) && t in s.permitted
    ensures s.deque != []
  {
    assert |s.permitted| > 0;
  }

  lemma PopKeeps(s: Sem, t: nat)
    requires Inv(s) && t in s.permitted
    ensures Inv(Step(s, PopIndex(t)))
  {
    PopFindsIndex(s, t);
    PopCovers(s, t);
    PopSeparates(s, t);
    DomainGrows(s.holding, t, s.deque[0]);
    assert Step(s, PopIndex(t)).holding.Keys == s.holding.Keys + {t};
  }

  lemma PopSeparates(s: Sem, t: nat)
    requires Inv(s) && t in s.permitted && s.deque != []
    ensures var n := Step(s, PopIndex(t));
      && Distinct(n.deque) && (forall i | 0 <= i < |n.deque| :: n.deque[i] < n.permits)
      && (forall u | u in n.holding :: n.holding[u] < n.permits && n.holding[u] !in n.deque)
  {
    var n := Step(s, PopIndex(t));
    assert forall i | 0 <= i < |n.deque| :: n.deque[i] == s.deque[i + 1];
  }

  lemma PopCovers(s: Sem, t: nat)
    requires Inv(s) && t in s.permitted && s.deque != []
    ensures var n := Step(s, PopIndex(t)); forall i: nat | i < s.permits :: i in n.deque || Held(n, i)
  {
    var n := Step(s, PopIndex(t));
    forall i: nat | i < s.permits ensures i in n.deque || Held(n, i) {
      if i in s.deque {
        if i == s.deque[0] {
          assert n.holding[t] == i;
        } else {
          assert i in s.deque[1..];
        }
      } else {
        var u :| u in s.holding && s.holding[u] == i;
        assert u in n.holding && n.holding[u] == i;
      }
    }
  }

  lemma PushKeeps(s: Sem, t: nat)
    requires Inv(s) && t in s.holding
    ensures Inv(Step(s, PushIndex(t)))
  {
    PushCovers(s, t);
    PushSeparates(s, t);
    DomainShrinks(s.holding, t);
    assert Step(s, PushIndex(t)).holding.Keys == s.holding.Keys - {t};
  }

  lemma PushSeparates(s: Sem, t: nat)
    requires Inv(s) && t in s.holding
    ensures var n := Step(s, PushIndex(t));
      && Distinct(n.deque) && (forall i | 0 <= i < |n.deque| :: n.deque[i] < n.permits)
      && (forall u | u in n.holding :: n.holding[u] !in n.deque)
  {
    var n := Step(s, PushIndex(t));
    assert n.deque[1..] == s.deque;
    forall u | u in n.holding ensures n.holding[u] !in n.deque {
      assert n.holding[u] != n.deque[0] && n.holding[u] !in s.deque;
    }
  }

  lemma PushCovers(s: Sem, t: nat)
    requires Inv(s) && t in s.holding
    ensures var n := Step(s, PushIndex(t)); forall i: nat | i < s.permits :: i in n.deque || Held(n, i)
  {
    var n := Step(s, PushIndex(t));
    forall i: nat | i < s.permits ensures i in n.deque || Held(n, i) {
      if i in s.deque {
        assert i in n.deque[1..];
      } else {
        var u :| u in s.holding && s.holding[u] == i;
        if u == t {
          assert n.deque[0] == i;
        } else {
          assert u in n.holding && n.holding[u] == i;
        }
      }
    }
  }

  lemma HeldSame(s: Sem, n: Sem)
    requires s.holding == n.holding && s.deque == n.deque && s.permits == n.permits && Partitioned(s)
    ensures Partitioned(n)
  {
    forall i: nat | i < n.permits ensures i in n.deque || Held(n, i) {
      assert i in s.deque || Held(s, i);
    }
  }

  lemma StepKeepsInv(s: Sem, a: Action)
    requires Inv(s) && Enabled(s, a)
    ensures Inv(Step(s, a)) && Step(s, a).permits == s.permits
  {
    match a
    case AcquirePermit(t) => HeldSame(s, Step(s, a));
    case PopIndex(t) => PopKeeps(s, t);
    case PushIndex(t) => PushKeeps(s, t);
    case ReleasePermit(t) => HeldSame(s, Step(s, a));
  }

  /** In every interleaving the deque is never popped empty, held indexes are pairwise distinct, and free
      plus held indexes are exactly `0..permits`. */
  lemma {:induction false} EveryRunKeepsInv(s: Sem, acts: seq<Action>)
    requires Inv(s) && Runs(s, acts)
    ensures Inv(After(s, acts)) && After(s, acts).permits == s.permits
    decreases |acts|
  {
    if acts != [] {
      StepKeepsInv(s, acts[0]);
      EveryRunKeepsInv(Step(s, acts[0]), acts[1..]);
    }
  }

  lemma {:induction false} IndexesStayApart(permits: nat, acts: seq<Action>)
    requires Runs(Init(permits), acts)
    ensures var s := After(Init(permits), acts);
      && !s.panicked
      && (forall t | t in s.permitted :: s.deque != [])
      && (forall t, u | t in s.holding && u in s.holding && t != u :: s.holding[t] != s.holding[u])
      && (forall i: nat :: i < permits <==> i in s.deque || Held(s, i))
      && (forall i: nat :: !(i in s.deque && Held(s, i)))
  {
    InitInv(permits);
    EveryRunKeepsInv(Init(permits), acts);
    var s := After(Init(permits), acts);
    forall t | t in s.permitted ensures s.deque != [] {
      PopFindsIndex(s, t);
    }
  }

  /** The object itself: its fields, and one whole acquire or drop by a single task. */
  class SemaphoreWithIndex {
    const permits: nat
    var free: nat
    var deque: seq<nat>
    ghost var permitted: set<nat>
    ghost var holding: map<nat, nat>
    ghost var returned: set<nat>

    ghost function View(): Sem
      reads this
    {
      Sem(permits, free, deque, permitted, holding, returned, false)
    }

    constructor (permits: nat)
      ensures View() == Init(permits) && Inv(View())
    {
      this.permits := permits;
      free := permits;
      var container: seq<nat> := [];
      for idx := 0 to permits
        invariant container == Indexes(idx)
      {
        container := container + [idx];
      }
      deque := container;
      permitted, holding, returned := {}, map[], {};
      InitInv(permits);
    }

    /** `acquire` by a task that is not in the semaphore yet; `false` means that it has to wait. */
    method Acquire(ghost task: nat) returns (ok: bool, index: nat)
      requires Inv(View()) && task !in permitted && task !in holding && task !in returned
      modifies this
      ensures Inv(View()) && ok == (old(free) > 0)
      ensures !ok ==> View() == old(View())
      ensures ok ==> View() == Step(Step(old(View()), AcquirePermit(task)), PopIndex(task))
      ensures ok ==> old(deque) == [index] + deque && free == old(free) - 1
      ensures ok ==> task in holding && holding[task] == index && forall t | t in old(holding) :: old(holding)[t] != index
    {
      if free == 0 {
        return false, 0;
      }
      ok := true;
      StepKeepsInv(View(), AcquirePermit(task));
      free := free - 1;
      permitted := permitted + {task};
      PopFindsIndex(View(), task);
      StepKeepsInv(View(), PopIndex(task));
      index := deque[0];
      deque := deque[1..];
      permitted := permitted - {task};
      holding := holding[task := index];
    }

    /** Dropping a permit first pushes its index to the front... */
    method PushFront(ghost task: nat, index: nat)
      requires Inv(View()) && task in holding && holding[task] == index
      modifies this
      ensures Inv(View()) && View() == Step(old(View()), PushIndex(task))
      ensures deque == [index] + old(deque) && free == old(free)
    {
      StepKeepsInv(View(), PushIndex(task));
      deque := [index] + deque;
      holding := holding - {task};
      returned := returned + {task};
    }

    /** ...and then gives the inner permit back. */
    method ReturnPermit(ghost task: nat)
      requires Inv(View()) && task in returned
      modifies this
      ensures Inv(View()) && View() == Step(old(View()), ReleasePermit(task))
      ensures deque == old(deque) && free == old(free) + 1
    {
      StepKeepsInv(View(), ReleasePermit(task));
      returned := returned - {task};
      free := free + 1;
    }
  }
}
