/** The three ledgers of the memory store - tickets, budget, buffer sizes - as a system of atomic
    steps taken in any interleaving by requests, sends, the ticket evictor, spills and flushes.

    `evictor == None` is `MemoryStore::new`, where the evictor frees the store's own budget;
    `evictor == Some(_)` is `MemoryStore::from`, which hands the evictor a budget of its own. */
module Ledger {
  import opened Bytes
  import opened Blocks
  import opened Buffer
  import opened Budget
  import opened Sums

  /** The life of the i-th ticket ever granted (ticket id i + 1). */
  datatype TicketState =
    | Granted(size: nat)                                // reserved, not yet in the ticket store
    | Live(size: nat)
    | Sending(size: nat, inserted: nat, moved: bool)    // released by a send that is still inserting
    | Settled(size: nat, inserted: nat)
    | Evicting(size: nat)                               // removed by the evictor, not yet freed
    | Evicted(size: nat)

  datatype Place = Staging | InFlight(f: nat) | Gone

  /** Bytes appended by one send to one partition, and where they are. */
  datatype Chunk = Chunk(owner: nat, uid: Uid, size: nat, place: Place)

  datatype State = State(
    budget: BudgetState, evictor: Option<BudgetState>,
    store: map<nat, nat>, evicting: nat,
    buffers: map<Uid, BufferState>,
    spills: map<(Uid, nat), nat>,      // size carried by the spill message of each flight
    decs: seq<nat>,                    // flights cleared whose bytes are not yet taken off `used`
    tickets: seq<TicketState>, chunks: seq<Chunk>, lost: nat)

  function Init(capacity: nat, shared: bool): State {
    var b := BudgetState(capacity, 0, 0, 0);
    State(b, if shared then None else Some(b), map[], 0, map[], map[], [], [], [], 0)
  }

  datatype Action =
    | RequireBuffer(size: nat)
    | RecordTicket(i: nat)
    | ReleaseTicket(i: nat)
    | InsertBlocks(i: nat, uid: Uid, blocks: seq<Block>, size: nat)
    | MoveInserted(i: nat)
    | SettleUnused(i: nat)
    | EvictTicket(i: nat)
    | EvictFree
    | SpillBuffer(uid: Uid, order: seq<nat>)
    | ClearFlight(uid: Uid, f: nat, order: seq<nat>)
    | FreeUsed(k: nat)

  function BufferOf(s: State, uid: Uid): BufferState {
    if uid in s.buffers then s.buffers[uid] else EMPTY
  }

  /** The one assumption on clients: what a send inserts fits in its ticket. */
  predicate Enabled(s: State, a: Action) {
    match a
    case RequireBuffer(_) => true
    case RecordTicket(i) => i < |s.tickets| && s.tickets[i].Granted?
    case ReleaseTicket(i) => i < |s.tickets| && i + 1 in s.store
    case InsertBlocks(i, uid, blocks, size) =>
      && i < |s.tickets| && s.tickets[i].Sending? && !s.tickets[i].moved
      && s.tickets[i].inserted + size <= s.tickets[i].size
      && size == DataSize(blocks) && size < 0x8000_0000
    case MoveInserted(i) => i < |s.tickets| && s.tickets[i].Sending? && !s.tickets[i].moved
    case SettleUnused(i) => i < |s.tickets| && s.tickets[i].Sending? && s.tickets[i].moved
    case EvictTicket(i) => i < |s.tickets| && i + 1 in s.store
    case EvictFree => true
    case SpillBuffer(uid, order) =>
      uid in s.buffers && s.buffers[uid].stagingSize >= 0
      && IsOrder(order, s.buffers[uid].flights.Keys + {s.buffers[uid].counter})
    case ClearFlight(uid, f, order) =>
      (uid, f) in s.spills && uid in s.buffers && IsOrder(order, s.buffers[uid].flights.Keys - {f})
    case FreeUsed(k) => k < |s.decs|
  }

  function Relabel(chunks: seq<Chunk>, uid: Uid, from: Place, to: Place): (r: seq<Chunk>)
    ensures |r| == |chunks|
    ensures forall k | 0 <= k < |r| ::
              r[k] == if chunks[k].uid == uid && chunks[k].place == from then chunks[k].(place := to) else chunks[k]
  {
    seq(|chunks|, k requires 0 <= k < |chunks| =>
      if chunks[k].uid == uid && chunks[k].place == from then chunks[k].(place := to) else chunks[k])
  }

  function AllEvicted(tickets: seq<TicketState>): (r: seq<TicketState>)
    ensures |r| == |tickets|
    ensures forall i | 0 <= i < |r| :: r[i] == if tickets[i].Evicting? then Evicted(tickets[i].size) else tickets[i]
  {
    seq(|tickets|, i requires 0 <= i < |tickets| =>
      if tickets[i].Evicting? then Evicted(tickets[i].size) else tickets[i])
  }

  function Step(s: State, a: Action): State
    requires Enabled(s, a)
  {
    match a
    case RequireBuffer(size) =>
      if Grants(s.budget, size)
      then s.(budget := Require(s.budget, size), tickets := s.tickets + [Granted(size)])
      else s
    case RecordTicket(i) =>
      s.(store := s.store[i + 1 := s.tickets[i].size], tickets := s.tickets[i := Live(s.tickets[i].size)])
    case ReleaseTicket(i) =>
      s.(store := s.store - {i + 1}, tickets := s.tickets[i := Sending(s.store[i + 1], 0, false)])
    case InsertBlocks(i, uid, blocks, size) =>
      s.(buffers := s.buffers[uid := Append(BufferOf(s, uid), blocks, size)],
         tickets := s.tickets[i := s.tickets[i].(inserted := s.tickets[i].inserted + size)],
         chunks := s.chunks + [Chunk(i, uid, size, Staging)])
    case MoveInserted(i) =>
      s.(budget := MoveToUsed(s.budget, s.tickets[i].inserted), tickets := s.tickets[i := s.tickets[i].(moved := true)])
    case SettleUnused(i) =>
      var unused := s.tickets[i].size - s.tickets[i].inserted;
      s.(budget := if unused != 0 then DecAllocated(s.budget, unused) else s.budget,
         tickets := s.tickets[i := Settled(s.tickets[i].size, s.tickets[i].inserted)])
    case EvictTicket(i) =>
      s.(store := s.store - {i + 1}, evicting := s.evicting + s.store[i + 1],
         tickets := s.tickets[i := Evicting(s.store[i + 1])])
    case EvictFree =>
      var t := s.(evicting := 0, tickets := AllEvicted(s.tickets));
      if s.evicting == 0 then t
      else if s.evictor.None? then t.(budget := DecAllocated(s.budget, s.evicting))
      else t.(evictor := Some(DecAllocated(s.evictor.value, s.evicting)))
    case SpillBuffer(uid, order) =>
      var b := s.buffers[uid];
      s.(buffers := s.buffers[uid := Spill(b, order)], spills := s.spills[(uid, b.counter) := b.stagingSize],
         chunks := Relabel(s.chunks, uid, Staging, InFlight(b.counter)))
    case ClearFlight(uid, f, order) =>
      s.(buffers := s.buffers[uid := Clear(s.buffers[uid], f, s.spills[(uid, f)], order)],
         spills := s.spills - {(uid, f)}, decs := s.decs + [s.spills[(uid, f)]],
         chunks := Relabel(s.chunks, uid, InFlight(f), Gone))
    case FreeUsed(k) =>
      s.(budget := Budget.DecUsed(s.budget, s.decs[k]), decs := s.decs[..k] + s.decs[k + 1..],
         lost := s.lost + if s.budget.used < s.decs[k] then s.decs[k] - s.budget.used else 0)
  }

  ghost predicate Runs(s: State, acts: seq<Action>)
    decreases |acts|
  {
    acts == [] || (Enabled(s, acts[0]) && Runs(Step(s, acts[0]), acts[1..]))
  }

  ghost function After(s: State, acts: seq<Action>): State
    requires Runs(s, acts)
    decreases |acts|
  {
    if acts == [] then s else After(Step(s, acts[0]), acts[1..])
  }

  // ---- sums over tickets ----

  function Held(t: TicketState): int {
    match t
    case Granted(n) => n
    case Live(n) => n
    case Sending(n, inserted, moved) => if !moved then n else if inserted <= n then n - inserted else 0
    case Evicting(n) => n
    case _ => 0
  }
  function Unmoved(t: TicketState): int { if t.Sending? && !t.moved then t.inserted else 0 }
  function EvictingSize(t: TicketState): int { if t.Evicting? then t.size else 0 }
  function EvictedSize(t: TicketState): int { if t.Evicted? then t.size else 0 }

  lemma {:induction false} SumEvict(ts: seq<TicketState>)
    ensures Sum(AllEvicted(ts), Held) + Sum(ts, EvictingSize) == Sum(ts, Held)
    ensures Sum(AllEvicted(ts), EvictedSize) == Sum(ts, EvictedSize) + Sum(ts, EvictingSize)
    ensures Sum(AllEvicted(ts), EvictingSize) == 0
    ensures Sum(AllEvicted(ts), Unmoved) == Sum(ts, Unmoved)
  {
    if ts != [] {
      assert AllEvicted(ts)[1..] == AllEvicted(ts[1..]);
      SumEvict(ts[1..]);
    }
  }

  // ---- tickets, allocation and capacity ----

  ghost predicate StoreMatches(store: map<nat, nat>, tickets: seq<TicketState>) {
    && (forall id | id in store :: 1 <= id <= |tickets|)
    && (forall i | 0 <= i < |tickets| :: i + 1 in store <==> tickets[i].Live?)
    && (forall i | 0 <= i < |tickets| && tickets[i].Live? :: store[i + 1] == tickets[i].size)
  }

  /** Allocation is exactly what some ticket still holds; with a separate evictor budget it is too
      large by exactly what was ever evicted. Nothing exceeds the capacity. */
  ghost predicate AllocationExact(s: State) {
    && s.budget.counter == |s.tickets|
    && StoreMatches(s.store, s.tickets)
    && (forall i | 0 <= i < |s.tickets| && (s.tickets[i].Sending? || s.tickets[i].Settled?) ::
          s.tickets[i].inserted <= s.tickets[i].size)
    && s.evicting == Sum(s.tickets, EvictingSize)
    && s.budget.alloc == Sum(s.tickets, Held) + (if s.evictor.None? then 0 else Sum(s.tickets, EvictedSize))
    && (s.evictor.Some? ==> s.evictor.value.alloc == 0)
    && 0 <= s.budget.used && s.budget.alloc + s.budget.used <= s.budget.capacity
  }

  lemma UpdateSums(ts: seq<TicketState>, i: nat, t: TicketState)
    requires i < |ts|
    ensures Sum(ts[i := t], Held) == Sum(ts, Held) - Held(ts[i]) + Held(t)
    ensures Sum(ts[i := t], EvictingSize) == Sum(ts, EvictingSize) - EvictingSize(ts[i]) + EvictingSize(t)
    ensures Sum(ts[i := t], EvictedSize) == Sum(ts, EvictedSize) - EvictedSize(ts[i]) + EvictedSize(t)
    ensures Sum(ts[i := t], Unmoved) == Sum(ts, Unmoved) - Unmoved(ts[i]) + Unmoved(t)
    ensures Held(ts[i]) <= Sum(ts, Held) && 0 <= Sum(ts, EvictedSize)
  {
    SumUpdate(ts, i, t, Held);
    SumUpdate(ts, i, t, EvictingSize);
    SumUpdate(ts, i, t, EvictedSize);
    SumUpdate(ts, i, t, Unmoved);
    SumNonNegative(ts, Held);
    SumNonNegative(ts, EvictedSize);
  }

  lemma RequireKeepsAllocation(s: State, size: nat)
    requires AllocationExact(s)
    ensures AllocationExact(Step(s, RequireBuffer(size)))
  {
    SumSnoc(s.tickets, Granted(size), Held);
    SumSnoc(s.tickets, Granted(size), EvictingSize);
    SumSnoc(s.tickets, Granted(size), EvictedSize);
  }

  lemma StoreUpdate(store: map<nat, nat>, tickets: seq<TicketState>, i: nat, store': map<nat, nat>, t: TicketState)
    requires StoreMatches(store, tickets) && i < |tickets|
    requires store' == (if t.Live? then store[i + 1 := t.size] else store - {i + 1})
    ensures StoreMatches(store', tickets[i := t])
  {
  }

  /** The steps that change one ticket and, at most, the ticket store. */
  lemma TicketKeepsAllocation(s: State, a: Action)
    requires AllocationExact(s) && Enabled(s, a)
    requires a.RecordTicket? || a.ReleaseTicket? || a.EvictTicket?
    ensures AllocationExact(Step(s, a))
  {
    var t := Step(s, a).tickets[a.i];
    UpdateSums(s.tickets, a.i, t);
    StoreUpdate(s.store, s.tickets, a.i, Step(s, a).store, t);
  }

  lemma GrowKeepsAllocation(s: State, i: nat, size: nat, t: State)
    requires AllocationExact(s) && i < |s.tickets| && s.tickets[i].Sending? && !s.tickets[i].moved
    requires s.tickets[i].inserted + size <= s.tickets[i].size
    requires t.tickets == s.tickets[i := s.tickets[i].(inserted := s.tickets[i].inserted + size)]
    requires (t.budget, t.evictor, t.store, t.evicting) == (s.budget, s.evictor, s.store, s.evicting)
    ensures AllocationExact(t)
  {
    UpdateSums(s.tickets, i, t.tickets[i]);
    StoreUpdate(s.store, s.tickets, i, s.store - {i + 1}, t.tickets[i]);
    assert s.store - {i + 1} == s.store;
  }

  lemma MoveKeepsAllocation(s: State, i: nat)
    requires AllocationExact(s) && Enabled(s, MoveInserted(i))
    ensures AllocationExact(Step(s, MoveInserted(i)))
    ensures Step(s, MoveInserted(i)).budget.used == s.budget.used + s.tickets[i].inserted
  {
    var t := s.tickets[i].(moved := true);
    UpdateSums(s.tickets, i, t);
    StoreUpdate(s.store, s.tickets, i, s.store - {i + 1}, t);
    assert s.store - {i + 1} == s.store;
  }

  lemma SettleKeepsAllocation(s: State, i: nat)
    requires AllocationExact(s) && Enabled(s, SettleUnused(i))
    ensures AllocationExact(Step(s, SettleUnused(i)))
  {
    var t := Settled(s.tickets[i].size, s.tickets[i].inserted);
    UpdateSums(s.tickets, i, t);
    StoreUpdate(s.store, s.tickets, i, s.store - {i + 1}, t);
    assert s.store - {i + 1} == s.store;
  }

  lemma EvictionKeepsStore(store: map<nat, nat>, tickets: seq<TicketState>)
    requires StoreMatches(store, tickets)
    ensures StoreMatches(store, AllEvicted(tickets))
  {
    var after := AllEvicted(tickets);
    assert forall i | 0 <= i < |after| :: after[i].Live? <==> tickets[i].Live?;
    assert forall i | 0 <= i < |after| && after[i].Live? :: after[i] == tickets[i];
  }

  lemma EvictFreeKeepsAllocation(s: State)
    requires AllocationExact(s)
    ensures AllocationExact(Step(s, EvictFree))
  {
    SumEvict(s.tickets);
    EvictionKeepsStore(s.store, s.tickets);
    var after := AllEvicted(s.tickets);
    SumNonNegative(after, Held);
    SumNonNegative(s.tickets, EvictedSize);
    assert forall i | 0 <= i < |after| && (after[i].Sending? || after[i].Settled?) :: after[i] == s.tickets[i];
  }

  lemma OtherKeepsAllocation(s: State, t: State)
    requires AllocationExact(s)
    requires (t.tickets, t.evictor, t.store, t.evicting) == (s.tickets, s.evictor, s.store, s.evicting)
    requires t.budget == s.budget.(used := t.budget.used) && 0 <= t.budget.used <= s.budget.used
    ensures AllocationExact(t)
  {
  }

  lemma BytesKeepAllocation(s: State, a: Action)
    requires AllocationExact(s) && Enabled(s, a) && (a.SpillBuffer? || a.ClearFlight? || a.FreeUsed?)
    ensures AllocationExact(Step(s, a))
  {
    OtherKeepsAllocation(s, Step(s, a));
  }

  lemma InsertKeepsAllocation(s: State, a: Action)
    requires AllocationExact(s) && Enabled(s, a) && a.InsertBlocks?
    ensures AllocationExact(Step(s, a))
  {
    GrowKeepsAllocation(s, a.i, a.size, Step(s, a));
  }

  lemma StepKeepsAllocation(s: State, a: Action)
    requires AllocationExact(s) && Enabled(s, a)
    ensures AllocationExact(Step(s, a))
  {
    match a {
      case RequireBuffer(size) => RequireKeepsAllocation(s, size);
      case InsertBlocks(_, _, _, _) => InsertKeepsAllocation(s, a);
      case MoveInserted(i) => MoveKeepsAllocation(s, i);
      case SettleUnused(i) => SettleKeepsAllocation(s, i);
      case EvictFree => EvictFreeKeepsAllocation(s);
      case SpillBuffer(_, _) => BytesKeepAllocation(s, a);
      case ClearFlight(_, _, _) => BytesKeepAllocation(s, a);
      case FreeUsed(_) => BytesKeepAllocation(s, a);
      case _ => TicketKeepsAllocation(s, a);
    }
  }

  // ---- used bytes and buffer sizes ----

  function Totals(m: map<Uid, BufferState>): map<Uid, int> { map u | u in m :: m[u].totalSize }

  ghost function SumTotals(m: map<Uid, BufferState>): int { SetSum(m.Keys, Totals(m)) }

  lemma SumTotalsRemove(m: map<Uid, BufferState>, u: Uid)
    requires u in m
    ensures SumTotals(m) == m[u].totalSize + SumTotals(m - {u})
  {
    SetSumRemove(m.Keys, Totals(m), u);
    assert (m - {u}).Keys == m.Keys - {u};
    SetSumEqual(m.Keys - {u}, Totals(m), Totals(m - {u}));
  }

  lemma SumTotalsUpdate(m: map<Uid, BufferState>, u: Uid, b: BufferState)
    ensures SumTotals(m[u := b]) == SumTotals(m) + b.totalSize - if u in m then m[u].totalSize else 0
  {
    SumTotalsRemove(m[u := b], u);
    if u in m {
      SumTotalsRemove(m, u);
      assert m[u := b] - {u} == m - {u};
    } else {
      assert m[u := b] - {u} == m;
    }
  }

  function SumSeq(s: seq<nat>): nat {
    if s == [] then 0 else s[0] + SumSeq(s[1..])
  }

  lemma {:induction false} SumSeqRemove(s: seq<nat>, k: nat)
    requires k < |s|
    ensures SumSeq(s) == s[k] + SumSeq(s[..k] + s[k + 1..])
  {
    if k == 0 {
      assert s[..0] + s[1..] == s[1..];
    } else {
      SumSeqRemove(s[1..], k - 1);
      assert (s[..k] + s[k + 1..])[1..] == s[1..][..k - 1] + s[1..][k..];
    }
  }

  lemma {:induction false} SumSeqSnoc(s: seq<nat>, x: nat)
    ensures SumSeq(s + [x]) == SumSeq(s) + x
  {
    SumSeqRemove(s + [x], |s|);
    assert (s + [x])[..|s|] + (s + [x])[|s| + 1..] == s;
  }

  /** Conservation: the bytes in `used`, plus those a send has appended but not yet moved there, are the
      bytes in the buffers plus those of cleared flights not yet taken off - plus whatever the clamp
      at zero swallowed. */
  ghost predicate UsedConserved(s: State) {
    && (forall u | u in s.buffers :: s.buffers[u].Valid() && s.buffers[u].stagingSize >= 0)
    && (forall u, f | (u, f) in s.spills :: u in s.buffers && f in s.buffers[u].flights)
    && s.budget.used + Sum(s.tickets, Unmoved) == SumTotals(s.buffers) + SumSeq(s.decs) + s.lost
  }

  lemma BufferKeepsUsed(s: State, a: Action)
    requires UsedConserved(s) && Enabled(s, a) && (a.SpillBuffer? || a.ClearFlight?)
    ensures UsedConserved(Step(s, a))
  {
    var t := Step(s, a);
    if a.SpillBuffer? {
      SpillKeepsValid(s.buffers[a.uid], a.order);
    } else {
      var size := s.spills[(a.uid, a.f)];
      ClearKeepsValid(s.buffers[a.uid], a.f, size, a.order);
      SumSeqSnoc(s.decs, size);
    }
    SumTotalsUpdate(s.buffers, a.uid, t.buffers[a.uid]);
  }

  /** A buffer grows by as much as a ticket has inserted more. */
  lemma GrowKeepsUsed(s: State, i: nat, uid: Uid, b: BufferState, t: State)
    requires UsedConserved(s) && i < |s.tickets| && |t.tickets| == |s.tickets| && t.tickets == s.tickets[i := t.tickets[i]]
    requires b.Valid() && b.stagingSize >= 0 && b.flights == BufferOf(s, uid).flights
    requires b.totalSize - BufferOf(s, uid).totalSize == Unmoved(t.tickets[i]) - Unmoved(s.tickets[i])
    requires t.buffers == s.buffers[uid := b]
    requires (t.budget, t.spills, t.decs, t.lost) == (s.budget, s.spills, s.decs, s.lost)
    ensures UsedConserved(t)
  {
    UpdateSums(s.tickets, i, t.tickets[i]);
    SumTotalsUpdate(s.buffers, uid, b);
  }

  lemma InsertKeepsUsed(s: State, i: nat, uid: Uid, blocks: seq<Block>, size: nat)
    requires UsedConserved(s) && Enabled(s, InsertBlocks(i, uid, blocks, size))
    ensures UsedConserved(Step(s, InsertBlocks(i, uid, blocks, size)))
  {
    var b := Append(BufferOf(s, uid), blocks, size);
    GrowKeepsUsed(s, i, uid, b, Step(s, InsertBlocks(i, uid, blocks, size)));
  }

  lemma TicketKeepsUsed(s: State, a: Action)
    requires AllocationExact(s) && UsedConserved(s) && Enabled(s, a)
    requires a.RecordTicket? || a.ReleaseTicket? || a.EvictTicket? || a.SettleUnused? || a.MoveInserted?
    ensures UsedConserved(Step(s, a))
  {
    UpdateSums(s.tickets, a.i, Step(s, a).tickets[a.i]);
    if a.MoveInserted? {
      MoveKeepsAllocation(s, a.i);
    }
  }

  lemma RequireKeepsUsed(s: State, size: nat)
    requires UsedConserved(s)
    ensures UsedConserved(Step(s, RequireBuffer(size)))
  {
    SumSnoc(s.tickets, Granted(size), Unmoved);
  }

  lemma EvictFreeShape(s: State)
    ensures var t := Step(s, EvictFree);
            && t.budget.used == s.budget.used && t.tickets == AllEvicted(s.tickets)
            && (t.buffers, t.spills, t.decs, t.lost) == (s.buffers, s.spills, s.decs, s.lost)
  {
  }

  lemma SameUsed(s: State, t: State)
    requires UsedConserved(s) && t.budget.used == s.budget.used && Sum(t.tickets, Unmoved) == Sum(s.tickets, Unmoved)
    requires (t.buffers, t.spills, t.decs, t.lost) == (s.buffers, s.spills, s.decs, s.lost)
    ensures UsedConserved(t)
  {
  }

  lemma EvictFreeKeepsUsed(s: State)
    requires UsedConserved(s)
    ensures UsedConserved(Step(s, EvictFree))
  {
    SumEvict(s.tickets);
    EvictFreeShape(s);
    SameUsed(s, Step(s, EvictFree));
  }

  lemma FreeKeepsUsed(s: State, k: nat)
    requires UsedConserved(s) && k < |s.decs|
    ensures UsedConserved(Step(s, FreeUsed(k)))
  {
    SumSeqRemove(s.decs, k);
  }

  lemma StepKeepsUsed(s: State, a: Action)
    requires AllocationExact(s) && UsedConserved(s) && Enabled(s, a)
    ensures UsedConserved(Step(s, a))
  {
    match a {
      case RequireBuffer(size) => RequireKeepsUsed(s, size);
      case EvictFree => EvictFreeKeepsUsed(s);
      case InsertBlocks(i, uid, blocks, size) => InsertKeepsUsed(s, i, uid, blocks, size);
      case SpillBuffer(_, _) => BufferKeepsUsed(s, a);
      case ClearFlight(_, _, _) => BufferKeepsUsed(s, a);
      case FreeUsed(k) => FreeKeepsUsed(s, k);
      case _ => TicketKeepsUsed(s, a);
    }
  }

  // ---- buffer sizes are the lengths of the blocks held ----

  ghost predicate BufferSized(b: BufferState) { b.Valid() && Sized(b) }

  ghost predicate SpillSized(b: BufferState, f: nat, size: nat) {
    f in b.flights && size == SumLength(Flatten(b.flights[f]))
  }

  /** Every buffer's total is staging plus flight, both are the lengths of the blocks there, and every
      spill message carries the length of its flight. */
  ghost predicate AllSized(buffers: map<Uid, BufferState>, spills: map<(Uid, nat), nat>) {
    && (forall u | u in buffers :: BufferSized(buffers[u]))
    && (forall u, f | (u, f) in spills :: u in buffers && SpillSized(buffers[u], f, spills[(u, f)]))
  }

  ghost predicate BuffersSized(s: State) { AllSized(s.buffers, s.spills) }

  lemma OneBufferKeepsSized(buffers: map<Uid, BufferState>, spills: map<(Uid, nat), nat>, uid: Uid, b: BufferState,
                            after: map<(Uid, nat), nat>)
    requires AllSized(buffers, spills) && BufferSized(b)
    requires forall u, f | (u, f) in after && u != uid :: (u, f) in spills && spills[(u, f)] == after[(u, f)]
    requires forall f | (uid, f) in after :: SpillSized(b, f, after[(uid, f)])
    ensures AllSized(buffers[uid := b], after)
  {
  }

  /** The size of an insert is the lengths of its blocks: their 32-bit sum did not wrap. */
  predicate ExactInsert(a: Action) { a.InsertBlocks? ==> a.size == SumLength(a.blocks) }

  lemma ExactInsertIff(s: State, a: Action)
    requires Enabled(s, a) && a.InsertBlocks?
    ensures ExactInsert(a) <==> 0 <= SumLength(a.blocks) < 0x8000_0000
  {
    SizeWraps(a.blocks);
  }

  /** The 32-bit sum of the lengths, read as unsigned 64 bits: right below 2^31, close to 2^64 up to 2^32, and
      from there on too small. */
  lemma {:induction false} SizeWraps(blocks: seq<Block>)
    ensures var n := SumLength(blocks);
      && (0 <= n < 0x8000_0000 ==> DataSize(blocks) == n)
      && (0x8000_0000 <= n < TWO32 ==> DataSize(blocks) == TWO64 - TWO32 + n)
      && (TWO32 <= n < TWO32 + 0x8000_0000 ==> DataSize(blocks) == n - TWO32)
  {
  }

  lemma InsertKeepsSized(s: State, a: Action)
    requires BuffersSized(s) && Enabled(s, a) && a.InsertBlocks? && ExactInsert(a)
    ensures BuffersSized(Step(s, a))
  {
    var b := BufferOf(s, a.uid);
    AppendKeepsSized(b, a.blocks, a.size);
    OneBufferKeepsSized(s.buffers, s.spills, a.uid, Append(b, a.blocks, a.size), s.spills);
  }

  lemma SpilledIsSized(b: BufferState, order: seq<nat>)
    requires BufferSized(b) && IsOrder(order, b.flights.Keys + {b.counter})
    ensures BufferSized(Spill(b, order)) && b.stagingSize == SumLength(Flatten(b.staging))
  {
    SpillKeepsValid(b, order);
    SpillKeepsSized(b, order);
  }

  lemma SpillStepKeepsSized(s: State, a: Action)
    requires BuffersSized(s) && Enabled(s, a) && a.SpillBuffer?
    ensures BuffersSized(Step(s, a))
  {
    var b := s.buffers[a.uid];
    SpilledIsSized(b, a.order);
    var after := s.spills[(a.uid, b.counter) := b.stagingSize];
    forall f | (a.uid, f) in after ensures SpillSized(Spill(b, a.order), f, after[(a.uid, f)]) {
      if f != b.counter {
        assert SpillSized(b, f, s.spills[(a.uid, f)]);
      }
    }
    OneBufferKeepsSized(s.buffers, s.spills, a.uid, Spill(b, a.order), after);
  }

  lemma ClearedIsSized(b: BufferState, f: nat, size: nat, order: seq<nat>)
    requires BufferSized(b) && SpillSized(b, f, size) && IsOrder(order, b.flights.Keys - {f})
    ensures BufferSized(Clear(b, f, size, order))
  {
    ClearKeepsValid(b, f, size, order);
    ClearKeepsSized(b, f, size, order);
  }

  lemma ClearStepKeepsSized(s: State, a: Action)
    requires BuffersSized(s) && Enabled(s, a) && a.ClearFlight?
    ensures BuffersSized(Step(s, a))
  {
    var b, size := s.buffers[a.uid], s.spills[(a.uid, a.f)];
    ClearedIsSized(b, a.f, size, a.order);
    var after := s.spills - {(a.uid, a.f)};
    forall g | (a.uid, g) in after ensures SpillSized(Clear(b, a.f, size, a.order), g, after[(a.uid, g)]) {
      assert SpillSized(b, g, s.spills[(a.uid, g)]);
    }
    OneBufferKeepsSized(s.buffers, s.spills, a.uid, Clear(b, a.f, size, a.order), after);
  }

  lemma StepKeepsSized(s: State, a: Action)
    requires BuffersSized(s) && Enabled(s, a) && ExactInsert(a)
    ensures BuffersSized(Step(s, a))
  {
    match a {
      case InsertBlocks(_, _, _, _) => InsertKeepsSized(s, a);
      case SpillBuffer(_, _) => SpillStepKeepsSized(s, a);
      case ClearFlight(_, _, _) => ClearStepKeepsSized(s, a);
      case _ => assert (Step(s, a).buffers, Step(s, a).spills) == (s.buffers, s.spills);
    }
  }

  predicate AllValid(m: map<Uid, BufferState>) { forall u | u in m :: m[u].Valid() }

  function Lengths(m: map<Uid, BufferState>): map<Uid, int>
    requires AllValid(m)
  {
    map u | u in m :: SumLength(m[u].Flat())
  }

  /** The lengths of all blocks in all buffers. */
  ghost function SumHeld(m: map<Uid, BufferState>): int
    requires AllValid(m)
  {
    SetSum(m.Keys, Lengths(m))
  }

  lemma TotalsAreHeld(s: State)
    requires BuffersSized(s)
    ensures SumTotals(s.buffers) == SumHeld(s.buffers)
  {
    forall u | u in s.buffers ensures s.buffers[u].totalSize == SumLength(s.buffers[u].Flat()) {
      var b := s.buffers[u];
      SumLengthConcat(FlightBlocks(b.flights, b.order), Flatten(b.staging));
    }
    SetSumEqual(s.buffers.Keys, Totals(s.buffers), Lengths(s.buffers));
  }

  // ---- when the clamp swallows nothing ----

  function Moved(t: TicketState): bool { t.Settled? || (t.Sending? && t.moved) }
  function Inserted(t: TicketState): nat { if t.Sending? || t.Settled? then t.inserted else 0 }

  /** Selections of chunks whose sizes are summed. */
  datatype Selection = ByOwner(i: nat) | At(uid: Uid, place: Place) | HeldMoved(tickets: seq<TicketState>) {
    predicate Has(c: Chunk) {
      match this
      case ByOwner(i) => c.owner == i
      case At(uid, place) => c.uid == uid && c.place == place
      case HeldMoved(tickets) => c.place != Gone && c.owner < |tickets| && Moved(tickets[c.owner])
    }
  }

  function SumIf(cs: seq<Chunk>, p: Selection): nat {
    if cs == [] then 0 else (if p.Has(cs[0]) then cs[0].size else 0) + SumIf(cs[1..], p)
  }

  lemma {:induction false} SumIfSnoc(cs: seq<Chunk>, c: Chunk, p: Selection)
    ensures SumIf(cs + [c], p) == SumIf(cs, p) + if p.Has(c) then c.size else 0
  {
    if cs == [] {
      assert [c][1..] == [];
    } else {
      assert (cs + [c])[1..] == cs[1..] + [c];
      SumIfSnoc(cs[1..], c, p);
    }
  }

  ghost predicate SameSizes(cs: seq<Chunk>, ds: seq<Chunk>) {
    |cs| == |ds| && forall k | 0 <= k < |cs| :: cs[k].size == ds[k].size
  }

  lemma {:induction false} SumIfSame(cs: seq<Chunk>, p: Selection, ds: seq<Chunk>, q: Selection)
    requires SameSizes(cs, ds) && forall k | 0 <= k < |cs| :: p.Has(cs[k]) <==> q.Has(ds[k])
    ensures SumIf(cs, p) == SumIf(ds, q)
  {
    if cs != [] {
      SumIfSame(cs[1..], p, ds[1..], q);
    }
  }

  lemma {:induction false} SumIfSplit(cs: seq<Chunk>, p: Selection, q: Selection, ds: seq<Chunk>, whole: Selection)
    requires SameSizes(cs, ds)
    requires forall k | 0 <= k < |cs| :: whole.Has(ds[k]) <==> p.Has(cs[k]) || q.Has(cs[k])
    requires forall k | 0 <= k < |cs| :: !(p.Has(cs[k]) && q.Has(cs[k]))
    ensures SumIf(ds, whole) == SumIf(cs, p) + SumIf(cs, q)
  {
    if cs != [] {
      SumIfSplit(cs[1..], p, q, ds[1..], whole);
    }
  }

  lemma {:induction false} SumIfNone(cs: seq<Chunk>, p: Selection)
    requires forall k | 0 <= k < |cs| :: !p.Has(cs[k])
    ensures SumIf(cs, p) == 0
  {
    if cs != [] {
      SumIfNone(cs[1..], p);
    }
  }

  /** A flight is cleared only after every send with bytes in it has moved them to used. */
  ghost predicate Orderly(s: State, a: Action) {
    a.ClearFlight? ==>
      forall k | 0 <= k < |s.chunks| && At(a.uid, InFlight(a.f)).Has(s.chunks[k]) ::
        s.chunks[k].owner < |s.tickets| && Moved(s.tickets[s.chunks[k].owner])
  }

  /** Where every appended byte is, as long as clears are orderly. */
  ghost predicate Traced(s: State) {
    && (forall k | 0 <= k < |s.chunks| :: ChunkTraced(s, s.chunks[k]))
    && (forall i | 0 <= i < |s.tickets| :: SumIf(s.chunks, ByOwner(i)) == Inserted(s.tickets[i]))
    && (forall u | u in s.buffers :: SumIf(s.chunks, At(u, Staging)) == s.buffers[u].stagingSize)
    && (forall u, f | (u, f) in s.spills :: u in s.buffers && f < s.buffers[u].counter
                                            && SumIf(s.chunks, At(u, InFlight(f))) == s.spills[(u, f)])
  }

  ghost predicate ChunkTraced(s: State, c: Chunk) {
    && c.owner < |s.tickets| && (s.tickets[c.owner].Sending? || s.tickets[c.owner].Settled?)
    && c.uid in s.buffers
    && (c.place.InFlight? ==> c.place.f < s.buffers[c.uid].counter)
    && (c.place.Gone? ==> Moved(s.tickets[c.owner]))
  }

  ghost predicate NothingLost(s: State) {
    s.lost == 0 && s.budget.used == SumIf(s.chunks, HeldMoved(s.tickets)) + SumSeq(s.decs)
  }

  predicate Sent(t: TicketState) { t.Sending? || t.Settled? }

  /** A ticket taken by a send stays with it, and only a move makes its bytes count as moved. */
  lemma TicketEvolves(s: State, a: Action, i: nat)
    requires StoreMatches(s.store, s.tickets) && Enabled(s, a) && i < |s.tickets|
    ensures i < |Step(s, a).tickets|
    ensures Sent(s.tickets[i]) ==> Sent(Step(s, a).tickets[i])
    ensures Moved(s.tickets[i]) ==> Moved(Step(s, a).tickets[i])
    ensures a != MoveInserted(i) ==> (Moved(s.tickets[i]) <==> Moved(Step(s, a).tickets[i]))
    ensures !a.InsertBlocks? ==> Inserted(Step(s, a).tickets[i]) == Inserted(s.tickets[i])
  {
  }

  lemma NewTicket(s: State, a: Action, i: nat)
    requires Enabled(s, a) && |s.tickets| <= i < |Step(s, a).tickets|
    ensures i == |s.tickets| && Inserted(Step(s, a).tickets[i]) == 0
  {
  }

  lemma SameBytesKeepTraced(s: State, t: State)
    requires Traced(s)
    requires (t.chunks, t.buffers, t.spills) == (s.chunks, s.buffers, s.spills) && |s.tickets| <= |t.tickets|
    requires forall i | 0 <= i < |s.tickets| ::
               && Inserted(t.tickets[i]) == Inserted(s.tickets[i])
               && (Sent(s.tickets[i]) ==> Sent(t.tickets[i])) && (Moved(s.tickets[i]) ==> Moved(t.tickets[i]))
    requires forall i | |s.tickets| <= i < |t.tickets| :: Inserted(t.tickets[i]) == 0
    ensures Traced(t)
  {
    forall i | |s.tickets| <= i < |t.tickets| ensures SumIf(t.chunks, ByOwner(i)) == 0 {
      SumIfNone(s.chunks, ByOwner(i));
    }
    forall k | 0 <= k < |t.chunks| ensures ChunkTraced(t, t.chunks[k]) {
      assert ChunkTraced(s, s.chunks[k]);
    }
  }

  /** Steps that neither insert nor move bytes in the buffers leave the trace alone. */
  lemma TicketKeepsTraced(s: State, a: Action)
    requires AllocationExact(s) && Traced(s) && Enabled(s, a)
    requires !a.InsertBlocks? && !a.SpillBuffer? && !a.ClearFlight?
    ensures Traced(Step(s, a))
  {
    var t := Step(s, a);
    forall i | 0 <= i < |s.tickets|
      ensures i < |t.tickets| && Inserted(t.tickets[i]) == Inserted(s.tickets[i])
      ensures (Sent(s.tickets[i]) ==> Sent(t.tickets[i])) && (Moved(s.tickets[i]) ==> Moved(t.tickets[i]))
    {
      TicketEvolves(s, a, i);
    }
    forall i | |s.tickets| <= i < |t.tickets| ensures Inserted(t.tickets[i]) == 0 {
      NewTicket(s, a, i);
    }
    SameBytesKeepTraced(s, t);
  }

  lemma InsertKeepsTraced(s: State, i: nat, uid: Uid, blocks: seq<Block>, size: nat)
    requires Traced(s) && Enabled(s, InsertBlocks(i, uid, blocks, size))
    ensures Traced(Step(s, InsertBlocks(i, uid, blocks, size)))
  {
    var t := Step(s, InsertBlocks(i, uid, blocks, size));
    var c := Chunk(i, uid, size, Staging);
    forall k | 0 <= k < |t.chunks| ensures ChunkTraced(t, t.chunks[k]) {
      assert k < |s.chunks| ==> ChunkTraced(s, s.chunks[k]);
    }
    forall j | 0 <= j < |t.tickets| ensures SumIf(t.chunks, ByOwner(j)) == Inserted(t.tickets[j]) {
      SumIfSnoc(s.chunks, c, ByOwner(j));
    }
    forall u | u in t.buffers ensures SumIf(t.chunks, At(u, Staging)) == t.buffers[u].stagingSize {
      SumIfSnoc(s.chunks, c, At(u, Staging));
      if u !in s.buffers {
        SumIfNone(s.chunks, At(u, Staging));
      }
    }
    forall u, f | (u, f) in t.spills ensures SumIf(t.chunks, At(u, InFlight(f))) == t.spills[(u, f)] {
      SumIfSnoc(s.chunks, c, At(u, InFlight(f)));
    }
  }

  lemma SpillKeepsTraced(s: State, uid: Uid, order: seq<nat>)
    requires Traced(s) && Enabled(s, SpillBuffer(uid, order))
    ensures Traced(Step(s, SpillBuffer(uid, order)))
  {
    var t := Step(s, SpillBuffer(uid, order));
    var id := s.buffers[uid].counter;
    forall k | 0 <= k < |t.chunks| ensures ChunkTraced(t, t.chunks[k]) {
      assert ChunkTraced(s, s.chunks[k]);
    }
    forall i | 0 <= i < |t.tickets| ensures SumIf(t.chunks, ByOwner(i)) == Inserted(t.tickets[i]) {
      SumIfSame(s.chunks, ByOwner(i), t.chunks, ByOwner(i));
    }
    forall u | u in t.buffers ensures SumIf(t.chunks, At(u, Staging)) == t.buffers[u].stagingSize {
      if u == uid {
        SumIfNone(t.chunks, At(u, Staging));
      } else {
        SumIfSame(s.chunks, At(u, Staging), t.chunks, At(u, Staging));
      }
    }
    forall u, f | (u, f) in t.spills ensures SumIf(t.chunks, At(u, InFlight(f))) == t.spills[(u, f)] {
      if (u, f) == (uid, id) {
        forall k | 0 <= k < |s.chunks| ensures At(uid, Staging).Has(s.chunks[k]) <==> At(u, InFlight(f)).Has(t.chunks[k]) {
          assert ChunkTraced(s, s.chunks[k]);
        }
        SumIfSame(s.chunks, At(uid, Staging), t.chunks, At(u, InFlight(f)));
      } else {
        SumIfSame(s.chunks, At(u, InFlight(f)), t.chunks, At(u, InFlight(f)));
      }
    }
  }

  lemma ClearKeepsTraced(s: State, uid: Uid, f: nat, order: seq<nat>)
    requires Traced(s) && Enabled(s, ClearFlight(uid, f, order)) && Orderly(s, ClearFlight(uid, f, order))
    ensures Traced(Step(s, ClearFlight(uid, f, order)))
  {
    var t := Step(s, ClearFlight(uid, f, order));
    forall k | 0 <= k < |t.chunks| ensures ChunkTraced(t, t.chunks[k]) {
      assert ChunkTraced(s, s.chunks[k]);
      assert At(uid, InFlight(f)).Has(s.chunks[k]) ==> Moved(s.tickets[s.chunks[k].owner]);
    }
    forall i | 0 <= i < |t.tickets| ensures SumIf(t.chunks, ByOwner(i)) == Inserted(t.tickets[i]) {
      SumIfSame(s.chunks, ByOwner(i), t.chunks, ByOwner(i));
    }
    forall u | u in t.buffers ensures SumIf(t.chunks, At(u, Staging)) == t.buffers[u].stagingSize {
      SumIfSame(s.chunks, At(u, Staging), t.chunks, At(u, Staging));
    }
    forall u, g | (u, g) in t.spills ensures SumIf(t.chunks, At(u, InFlight(g))) == t.spills[(u, g)] {
      SumIfSame(s.chunks, At(u, InFlight(g)), t.chunks, At(u, InFlight(g)));
    }
  }

  /** Steps under which the moved bytes still held do not change. */
  lemma QuietHeldMoved(s: State, a: Action)
    requires AllocationExact(s) && Traced(s) && Enabled(s, a)
    requires !a.MoveInserted? && !a.ClearFlight? && !a.InsertBlocks?
    ensures SumIf(Step(s, a).chunks, HeldMoved(Step(s, a).tickets)) == SumIf(s.chunks, HeldMoved(s.tickets))
  {
    var t := Step(s, a);
    forall k | 0 <= k < |s.chunks|
      ensures HeldMoved(s.tickets).Has(s.chunks[k]) <==> HeldMoved(t.tickets).Has(t.chunks[k])
    {
      assert ChunkTraced(s, s.chunks[k]);
      TicketEvolves(s, a, s.chunks[k].owner);
    }
    SumIfSame(s.chunks, HeldMoved(s.tickets), t.chunks, HeldMoved(t.tickets));
  }

  lemma QuietKeepsNothingLost(s: State, a: Action)
    requires AllocationExact(s) && Traced(s) && NothingLost(s) && Enabled(s, a)
    requires !a.MoveInserted? && !a.ClearFlight? && !a.InsertBlocks?
    ensures NothingLost(Step(s, a))
  {
    QuietHeldMoved(s, a);
    if a.FreeUsed? {
      SumSeqRemove(s.decs, a.k);
    }
  }

  lemma InsertKeepsNothingLost(s: State, i: nat, uid: Uid, blocks: seq<Block>, size: nat)
    requires AllocationExact(s) && Traced(s) && NothingLost(s) && Enabled(s, InsertBlocks(i, uid, blocks, size))
    ensures NothingLost(Step(s, InsertBlocks(i, uid, blocks, size)))
  {
    var a := InsertBlocks(i, uid, blocks, size);
    var t := Step(s, a);
    SumIfSnoc(s.chunks, Chunk(i, uid, size, Staging), HeldMoved(t.tickets));
    forall k | 0 <= k < |s.chunks|
      ensures HeldMoved(s.tickets).Has(s.chunks[k]) <==> HeldMoved(t.tickets).Has(s.chunks[k])
    {
      assert ChunkTraced(s, s.chunks[k]);
      TicketEvolves(s, a, s.chunks[k].owner);
    }
    SumIfSame(s.chunks, HeldMoved(s.tickets), s.chunks, HeldMoved(t.tickets));
  }

  lemma MoveKeepsNothingLost(s: State, i: nat)
    requires AllocationExact(s) && Traced(s) && NothingLost(s) && Enabled(s, MoveInserted(i))
    ensures NothingLost(Step(s, MoveInserted(i)))
  {
    var t := Step(s, MoveInserted(i));
    MoveKeepsAllocation(s, i);
    forall k | 0 <= k < |s.chunks|
      ensures HeldMoved(t.tickets).Has(s.chunks[k]) <==> HeldMoved(s.tickets).Has(s.chunks[k]) || ByOwner(i).Has(s.chunks[k])
    {
      assert ChunkTraced(s, s.chunks[k]);
    }
    SumIfSplit(s.chunks, HeldMoved(s.tickets), ByOwner(i), s.chunks, HeldMoved(t.tickets));
  }

  lemma ClearKeepsNothingLost(s: State, uid: Uid, f: nat, order: seq<nat>)
    requires Traced(s) && NothingLost(s)
    requires Enabled(s, ClearFlight(uid, f, order)) && Orderly(s, ClearFlight(uid, f, order))
    ensures NothingLost(Step(s, ClearFlight(uid, f, order)))
  {
    var t := Step(s, ClearFlight(uid, f, order));
    forall k | 0 <= k < |s.chunks|
      ensures HeldMoved(s.tickets).Has(s.chunks[k])
         <==> HeldMoved(t.tickets).Has(t.chunks[k]) || At(uid, InFlight(f)).Has(s.chunks[k])
    {
      assert ChunkTraced(s, s.chunks[k]);
    }
    var cleared := At(uid, InFlight(f));
    SumIfRelabelled(s.chunks, t.chunks, HeldMoved(s.tickets), cleared);
    SumSeqSnoc(s.decs, s.spills[(uid, f)]);
  }

  lemma {:induction false} SumIfRelabelled(cs: seq<Chunk>, ds: seq<Chunk>, p: Selection, q: Selection)
    requires SameSizes(cs, ds)
    requires forall k | 0 <= k < |cs| :: p.Has(cs[k]) <==> p.Has(ds[k]) || q.Has(cs[k])
    requires forall k | 0 <= k < |cs| :: !(p.Has(ds[k]) && q.Has(cs[k]))
    ensures SumIf(cs, p) == SumIf(ds, p) + SumIf(cs, q)
  {
    if cs != [] {
      SumIfRelabelled(cs[1..], ds[1..], p, q);
    }
  }

  lemma StepKeepsNothingLost(s: State, a: Action)
    requires AllocationExact(s) && Traced(s) && NothingLost(s) && Enabled(s, a) && Orderly(s, a)
    ensures Traced(Step(s, a)) && NothingLost(Step(s, a))
  {
    match a {
      case InsertBlocks(i, uid, blocks, size) =>
        InsertKeepsTraced(s, i, uid, blocks, size);
        InsertKeepsNothingLost(s, i, uid, blocks, size);
      case SpillBuffer(uid, order) =>
        SpillKeepsTraced(s, uid, order);
        QuietKeepsNothingLost(s, a);
      case ClearFlight(uid, f, order) =>
        ClearKeepsTraced(s, uid, f, order);
        ClearKeepsNothingLost(s, uid, f, order);
      case MoveInserted(i) =>
        TicketKeepsTraced(s, a);
        MoveKeepsNothingLost(s, i);
      case _ =>
        TicketKeepsTraced(s, a);
        QuietKeepsNothingLost(s, a);
    }
  }

  // ---- whole runs ----

  /** What holds in every state of every run. */
  lemma {:induction false} RunInvariant(s: State, acts: seq<Action>)
    requires AllocationExact(s) && UsedConserved(s) && Runs(s, acts)
    ensures AllocationExact(After(s, acts)) && UsedConserved(After(s, acts))
    decreases |acts|
  {
    if acts != [] {
      StepKeepsAllocation(s, acts[0]);
      StepKeepsUsed(s, acts[0]);
      RunInvariant(Step(s, acts[0]), acts[1..]);
    }
  }

  predicate ExactInserts(acts: seq<Action>) { forall i | 0 <= i < |acts| :: ExactInsert(acts[i]) }

  /** In every run whose inserts are exact, every buffer counts exactly the blocks it holds. */
  lemma {:induction false} RunKeepsSized(s: State, acts: seq<Action>)
    requires BuffersSized(s) && Runs(s, acts) && ExactInserts(acts)
    ensures BuffersSized(After(s, acts))
    decreases |acts|
  {
    if acts != [] {
      StepKeepsSized(s, acts[0]);
      RunKeepsSized(Step(s, acts[0]), acts[1..]);
    }
  }

  /** No step of the run hits the guard `used < size` in `dec_used`. */
  ghost predicate NeverClamps(s: State, acts: seq<Action>)
    requires Runs(s, acts)
    decreases |acts|
  {
    acts == []
    || ((acts[0].FreeUsed? ==> s.decs[acts[0].k] <= s.budget.used) && NeverClamps(Step(s, acts[0]), acts[1..]))
  }

  lemma {:induction false} LostIffClamped(s: State, acts: seq<Action>)
    requires Runs(s, acts)
    ensures s.lost <= After(s, acts).lost
    ensures After(s, acts).lost == s.lost <==> NeverClamps(s, acts)
    decreases |acts|
  {
    if acts != [] {
      LostIffClamped(Step(s, acts[0]), acts[1..]);
    }
  }

  /** In every run: allocation is exact, capacity is respected, the buffers never hold more than is
      accounted for, and they hold exactly that much if and only if the clamp was never hit. */
  lemma {:induction false} LedgersAgree(capacity: nat, shared: bool, acts: seq<Action>)
    requires Runs(Init(capacity, shared), acts)
    ensures var s := After(Init(capacity, shared), acts);
            && AllocationExact(s) && UsedConserved(s)
            && s.budget.used + Sum(s.tickets, Unmoved) >= SumTotals(s.buffers) + SumSeq(s.decs)
            && (s.budget.used + Sum(s.tickets, Unmoved) == SumTotals(s.buffers) + SumSeq(s.decs)
                <==> NeverClamps(Init(capacity, shared), acts))
  {
    RunInvariant(Init(capacity, shared), acts);
    LostIffClamped(Init(capacity, shared), acts);
  }

  /** In every run with exact inserts, the same against the blocks themselves: every buffer's sizes are
      the lengths of the blocks it holds, the budget accounts for at least the lengths of all blocks in
      memory, and for exactly those if and only if the clamp was never hit. */
  lemma {:induction false} LedgersCountBlocks(capacity: nat, shared: bool, acts: seq<Action>)
    requires Runs(Init(capacity, shared), acts) && ExactInserts(acts)
    ensures var s := After(Init(capacity, shared), acts);
            && BuffersSized(s)
            && s.budget.used + Sum(s.tickets, Unmoved) >= SumHeld(s.buffers) + SumSeq(s.decs)
            && (s.budget.used + Sum(s.tickets, Unmoved) == SumHeld(s.buffers) + SumSeq(s.decs)
                <==> NeverClamps(Init(capacity, shared), acts))
  {
    LedgersAgree(capacity, shared, acts);
    RunKeepsSized(Init(capacity, shared), acts);
    TotalsAreHeld(After(Init(capacity, shared), acts));
  }

  ghost predicate OrderlyRun(s: State, acts: seq<Action>)
    decreases |acts|
  {
    acts == [] || (Enabled(s, acts[0]) && Orderly(s, acts[0]) && OrderlyRun(Step(s, acts[0]), acts[1..]))
  }

  lemma {:induction false} OrderlyInvariant(s: State, acts: seq<Action>)
    requires AllocationExact(s) && UsedConserved(s) && Traced(s) && NothingLost(s) && OrderlyRun(s, acts)
    ensures Runs(s, acts) && NothingLost(After(s, acts))
    decreases |acts|
  {
    if acts != [] {
      StepKeepsAllocation(s, acts[0]);
      StepKeepsUsed(s, acts[0]);
      StepKeepsNothingLost(s, acts[0]);
      OrderlyInvariant(Step(s, acts[0]), acts[1..]);
    }
  }

  /** If every flight is cleared only after its senders moved their bytes, the ledgers agree to the
      byte: with the buffer sizes and, inserts being exact, with the blocks in memory. */
  lemma {:induction false} OrderlyLedgersEqual(capacity: nat, shared: bool, acts: seq<Action>)
    requires OrderlyRun(Init(capacity, shared), acts)
    ensures Runs(Init(capacity, shared), acts)
    ensures var s := After(Init(capacity, shared), acts);
            && s.budget.used + Sum(s.tickets, Unmoved) == SumTotals(s.buffers) + SumSeq(s.decs)
            && (ExactInserts(acts) ==>
                  BuffersSized(s) && s.budget.used + Sum(s.tickets, Unmoved) == SumHeld(s.buffers) + SumSeq(s.decs))
  {
    OrderlyInvariant(Init(capacity, shared), acts);
    RunInvariant(Init(capacity, shared), acts);
    if ExactInserts(acts) {
      RunKeepsSized(Init(capacity, shared), acts);
      TotalsAreHeld(After(Init(capacity, shared), acts));
    }
  }

  // ---- what becomes of a ticket ----

  /** `u` is a later condition of the ticket `t`: a send and the evictor never both get it, and
      once it is settled or evicted nothing happens to it again. */
  predicate Later(t: TicketState, u: TicketState) {
    && u.size == t.size
    && match t
       case Granted(_) => true
       case Live(_) => !u.Granted?
       case Sending(_, n, moved) => Sent(u) && u.inserted >= n && (moved ==> Moved(u) && u.inserted == n)
       case Evicting(_) => u.Evicting? || u.Evicted?
       case Settled(_, _) => u == t
       case Evicted(_) => u == t
  }

  lemma StepLater(s: State, a: Action, i: nat)
    requires StoreMatches(s.store, s.tickets) && Enabled(s, a) && i < |s.tickets|
    ensures i < |Step(s, a).tickets| && Later(s.tickets[i], Step(s, a).tickets[i])
  {
  }

  lemma {:induction false} TicketFate(s: State, acts: seq<Action>, i: nat)
    requires AllocationExact(s) && Runs(s, acts) && i < |s.tickets|
    ensures |s.tickets| <= |After(s, acts).tickets|
    ensures Later(s.tickets[i], After(s, acts).tickets[i])
    decreases |acts|
  {
    if acts != [] {
      StepLater(s, acts[0], i);
      StepLater(s, acts[0], |s.tickets| - 1);
      StepKeepsAllocation(s, acts[0]);
      TicketFate(Step(s, acts[0]), acts[1..], i);
    }
  }

  // ---- the clamp can swallow bytes for good ----

  const PART := Uid("app", 0, 0)
  const TEN := [Block(0, 10, 0, 0, [], 0)]

  lemma {:induction false} RunsConcat(s: State, xs: seq<Action>, ys: seq<Action>)
    requires Runs(s, xs) && Runs(After(s, xs), ys)
    ensures Runs(s, xs + ys) && After(s, xs + ys) == After(After(s, xs), ys)
    decreases |xs|
  {
    if xs == [] {
      assert xs + ys == ys;
    } else {
      assert (xs + ys)[1..] == xs[1..] + ys;
      RunsConcat(Step(s, xs[0]), xs[1..], ys);
    }
  }

  lemma {:induction false} RunsOne(s: State, a: Action)
    requires Enabled(s, a)
    ensures Runs(s, [a]) && After(s, [a]) == Step(s, a)
  {
    var rest := [a][1..];
    assert rest == [];
    assert Runs(Step(s, a), rest) && After(Step(s, a), rest) == Step(s, a);
  }

  lemma {:induction false} RunsThree(s: State, a: Action, b: Action, c: Action)
    requires Enabled(s, a) && Enabled(Step(s, a), b) && Enabled(Step(Step(s, a), b), c)
    ensures Runs(s, [a, b, c]) && After(s, [a, b, c]) == Step(Step(Step(s, a), b), c)
  {
    RunsOne(s, a);
    RunsOne(Step(s, a), b);
    RunsOne(Step(Step(s, a), b), c);
    RunsConcat(Step(s, a), [b], [c]);
    RunsConcat(s, [a], [b] + [c]);
    assert [a, b, c] == [a] + ([b] + [c]);
  }

  /** A send whose flight is flushed and cleared before the send moves its bytes to used. */
  const TICKET: seq<Action> := [RequireBuffer(10), RecordTicket(0), ReleaseTicket(0)]
  const FLUSH: seq<Action> := [InsertBlocks(0, PART, TEN, 10), SpillBuffer(PART, [0]), ClearFlight(PART, 0, [])]
  const SETTLE: seq<Action> := [FreeUsed(0), MoveInserted(0), SettleUnused(0)]

  lemma {:induction false} EarlyFlushTicket(s: State)
    requires s == Init(100, true)
    ensures Runs(s, TICKET)
    ensures var t := After(s, TICKET);
            && t.budget == BudgetState(100, 10, 0, 1) && t.tickets == [Sending(10, 0, false)]
            && t.buffers == map[] && t.decs == [] && t.spills == map[]
  {
    var s1 := Step(s, RequireBuffer(10));
    assert s1.tickets == [Granted(10)];
    var s2 := Step(s1, RecordTicket(0));
    assert s2.tickets == [Live(10)] && s2.store[1] == 10;
    var s3 := Step(s2, ReleaseTicket(0));
    assert s3.tickets == [Sending(10, 0, false)];
    RunsThree(s, RequireBuffer(10), RecordTicket(0), ReleaseTicket(0));
  }

  lemma EarlyFlushInsert(s: State)
    requires s.tickets == [Sending(10, 0, false)] && s.buffers == map[]
    ensures Enabled(s, InsertBlocks(0, PART, TEN, 10))
    ensures var t := Step(s, InsertBlocks(0, PART, TEN, 10));
            && (t.budget, t.decs) == (s.budget, s.decs) && t.tickets == [Sending(10, 10, false)]
            && t.buffers == map[PART := Append(EMPTY, TEN, 10)]
  {
    assert SumLength(TEN) == 10 by { assert TEN[1..] == []; }
  }

  lemma EarlyFlushSpill(s: State)
    requires s.buffers == map[PART := Append(EMPTY, TEN, 10)]
    ensures Enabled(s, SpillBuffer(PART, [0]))
    ensures var t := Step(s, SpillBuffer(PART, [0]));
            && (t.budget, t.decs, t.tickets) == (s.budget, s.decs, s.tickets) && (PART, 0) in t.spills
            && t.spills[(PART, 0)] == 10 && t.buffers == map[PART := Spill(Append(EMPTY, TEN, 10), [0])]
  {
  }

  lemma EarlyFlushClear(s: State)
    requires s.buffers == map[PART := Spill(Append(EMPTY, TEN, 10), [0])]
    requires (PART, 0) in s.spills && s.spills[(PART, 0)] == 10
    ensures Enabled(s, ClearFlight(PART, 0, []))
    ensures var t := Step(s, ClearFlight(PART, 0, []));
            && (t.budget, t.tickets) == (s.budget, s.tickets) && t.decs == s.decs + [10]
            && t.buffers.Keys == {PART} && t.buffers[PART].totalSize == 0
  {
    assert s.buffers[PART].flights.Keys == {0};
  }

  lemma EarlyFlushFree(s: State)
    requires s.budget == BudgetState(100, 10, 0, 1) && s.decs == [10]
    ensures Enabled(s, FreeUsed(0))
    ensures var t := Step(s, FreeUsed(0));
            t.decs == [] && t.tickets == s.tickets && t.budget == s.budget && t.buffers == s.buffers
  {
  }

  lemma EarlyFlushMove(s: State)
    requires s.budget == BudgetState(100, 10, 0, 1) && s.tickets == [Sending(10, 10, false)]
    ensures Enabled(s, MoveInserted(0))
    ensures var t := Step(s, MoveInserted(0));
            t.tickets == [Sending(10, 10, true)] && t.budget.used == 10 && t.decs == s.decs && t.buffers == s.buffers
  {
  }

  lemma EarlyFlushLast(s: State)
    requires s.tickets == [Sending(10, 10, true)]
    ensures Enabled(s, SettleUnused(0))
    ensures var t := Step(s, SettleUnused(0));
            t.tickets == [Settled(10, 10)] && t.budget == s.budget && t.decs == s.decs && t.buffers == s.buffers
  {
  }

  lemma {:induction false} EarlyFlushSettle(s: State)
    requires s.budget == BudgetState(100, 10, 0, 1) && s.tickets == [Sending(10, 10, false)] && s.decs == [10]
    ensures Runs(s, SETTLE)
    ensures var t := After(s, SETTLE);
            t.budget.used == 10 && t.buffers == s.buffers && t.tickets == [Settled(10, 10)] && t.decs == []
  {
    EarlyFlushFree(s);
    var s7 := Step(s, FreeUsed(0));
    EarlyFlushMove(s7);
    var s8 := Step(s7, MoveInserted(0));
    EarlyFlushLast(s8);
    RunsThree(s, FreeUsed(0), MoveInserted(0), SettleUnused(0));
  }

  lemma {:induction false} EarlyFlushFlush(s: State)
    requires s.tickets == [Sending(10, 0, false)] && s.buffers == map[] && s.decs == []
    ensures Runs(s, FLUSH)
    ensures var t := After(s, FLUSH);
            && t.budget == s.budget && t.tickets == [Sending(10, 10, false)] && t.decs == [10]
            && t.buffers.Keys == {PART} && t.buffers[PART].totalSize == 0
  {
    EarlyFlushInsert(s);
    var s4 := Step(s, InsertBlocks(0, PART, TEN, 10));
    EarlyFlushSpill(s4);
    var s5 := Step(s4, SpillBuffer(PART, [0]));
    EarlyFlushClear(s5);
    RunsThree(s, InsertBlocks(0, PART, TEN, 10), SpillBuffer(PART, [0]), ClearFlight(PART, 0, []));
  }

  lemma {:induction false} TotalsOfOne(m: map<Uid, BufferState>, u: Uid)
    requires m.Keys == {u}
    ensures SumTotals(m) == m[u].totalSize
  {
    SumTotalsRemove(m, u);
    assert m - {u} == map[];
  }

  /** At the end nothing is in memory and nothing is pending, yet ten bytes count as used. */
  lemma EarlyFlushLeaks()
    ensures Runs(Init(100, true), TICKET + (FLUSH + SETTLE))
    ensures var s := After(Init(100, true), TICKET + (FLUSH + SETTLE));
            && s.budget.used == 10 && SumTotals(s.buffers) == 0
            && Sum(s.tickets, Unmoved) == 0 && s.decs == []
  {
    var s := Init(100, true);
    EarlyFlushTicket(s);
    var t := After(s, TICKET);
    EarlyFlushFlush(t);
    var u := After(t, FLUSH);
    EarlyFlushSettle(u);
    RunsConcat(t, FLUSH, SETTLE);
    RunsConcat(s, TICKET, FLUSH + SETTLE);
    assert Sum([Settled(10, 10)], Unmoved) == 0 by { assert [Settled(10, 10)][1..] == []; }
    TotalsOfOne(u.buffers, PART);
  }
}
