/** The memory budget (`MemoryBudget`) and the two ways a send settles its ticket against it. */
module Budget {
  import opened Blocks

  datatype BudgetState = BudgetState(capacity: int, alloc: int, used: int, counter: nat)

  predicate Grants(b: BudgetState, size: int) { b.capacity - b.alloc - b.used >= size }

  function Require(b: BudgetState, size: int): BudgetState {
    if Grants(b, size) then b.(alloc := b.alloc + size, counter := b.counter + 1) else b
  }

  function MoveToUsed(b: BudgetState, size: int): BudgetState {
    if b.alloc < size then b.(alloc := 0, used := b.used + b.alloc)
    else b.(alloc := b.alloc - size, used := b.used + size)
  }

  function DecUsed(b: BudgetState, size: int): BudgetState {
    b.(used := if b.used < size then 0 else b.used - size)
  }

  function DecAllocated(b: BudgetState, size: int): BudgetState {
    b.(alloc := if b.alloc < size then 0 else b.alloc - size)
  }

  /** gRPC gives back any difference, even a negative one. */
  function GrpcSettled(b: BudgetState, ticket: int, inserted: int): BudgetState {
    var moved := MoveToUsed(b, inserted);
    if ticket - inserted != 0 then DecAllocated(moved, ticket - inserted) else moved
  }

  /** urpc gives back only a surplus. */
  function UrpcSettled(b: BudgetState, ticket: int, inserted: int): BudgetState {
    var moved := MoveToUsed(b, inserted);
    if ticket - inserted > 0 then DecAllocated(moved, ticket - inserted) else moved
  }

  class MemoryBudget {
    const capacity: int
    var alloc: int
    var used: int
    var counter: nat

    function View(): BudgetState
      reads this
    {
      BudgetState(capacity, alloc, used, counter)
    }

    constructor (capacity: int)
      ensures View() == BudgetState(capacity, 0, 0, 0)
    {
      this.capacity := capacity;
      alloc, used, counter := 0, 0, 0;
    }

    /** Returns the ticket id, or -1 when the request does not fit. */
    method RequireAllocated(size: int) returns (ok: bool, id: int)
      modifies this
      ensures View() == Require(old(View()), size) && ok == Grants(old(View()), size)
      ensures ok <==> old(alloc) + old(used) + size <= capacity
      ensures used == old(used) && alloc == old(alloc) + (if ok then size else 0)
      ensures counter == old(counter) + (if ok then 1 else 0) && id == if ok then counter else -1
      ensures ok && 0 <= size && 0 <= old(alloc + used) ==> 0 <= alloc + used <= capacity
    {
      var remaining := capacity - alloc - used;
      if remaining < size {
        return false, -1;
      }
      alloc := alloc + size;
      counter := counter + 1;
      return true, counter;
    }

    method MoveAllocatedToUsed(size: int)
      modifies this
      ensures View() == MoveToUsed(old(View()), size)
      ensures alloc + used == old(alloc + used)
      ensures used == old(used) + if size <= old(alloc) then size else old(alloc)
    {
      var moved := size;
      if alloc < size {
        moved := alloc;
        alloc := 0;
      } else {
        alloc := alloc - size;
      }
      used := used + moved;
    }

    method Free(size: int)
      modifies this
      ensures View() == DecUsed(old(View()), size)
      ensures alloc == old(alloc) && used == if size <= old(used) then old(used) - size else 0
    {
      if used < size { used := 0; } else { used := used - size; }
    }

    method FreeAllocated(size: int)
      modifies this
      ensures View() == DecAllocated(old(View()), size)
      ensures used == old(used) && alloc == if size <= old(alloc) then old(alloc) - size else 0
    {
      if alloc < size { alloc := 0; } else { alloc := alloc - size; }
    }

    /** The settlement part of `send_shuffle_data`: `inserts[i]` is what inserting the i-th partition
        returns. After a failure the remaining partitions are skipped. */
    method GrpcSend(ticket: int, inserts: seq<Option<int>>) returns (inserted: int, failed: bool)
      modifies this
      ensures inserted == Total(UntilFailure(inserts)) && failed == (None in inserts)
      ensures View() == GrpcSettled(old(View()), ticket, inserted)
      ensures 0 <= ticket <= old(alloc) && 0 <= inserted <= old(alloc) ==>
                alloc == old(alloc) - ticket && used == old(used) + inserted
    {
      inserted, failed := 0, false;
      for i := 0 to |inserts|
        invariant View() == old(View())
        invariant inserted == Total(UntilFailure(inserts[..i])) && failed == (None in inserts[..i])
      {
        UntilFailureSnoc(inserts, i);
        if failed {
          continue;
        }
        if inserts[i].None? {
          failed := true;
          continue;
        }
        inserted := inserted + inserts[i].value;
      }
      assert inserts[..|inserts|] == inserts;
      MoveAllocatedToUsed(inserted);
      var unused := ticket - inserted;
      if unused != 0 {
        FreeAllocated(unused);
      }
    }

    /** The same in `SendDataRequestCommand::apply`, which goes on after a failed partition. */
    method UrpcSend(ticket: int, inserts: seq<Option<int>>) returns (inserted: int, failed: bool)
      modifies this
      ensures inserted == Total(inserts) && failed == (None in inserts)
      ensures View() == UrpcSettled(old(View()), ticket, inserted)
      ensures 0 <= ticket <= old(alloc) && 0 <= inserted <= old(alloc) ==>
                used == old(used) + inserted && alloc == old(alloc) - (if inserted <= ticket then ticket else inserted)
    {
      inserted, failed := 0, false;
      for i := 0 to |inserts|
        invariant View() == old(View())
        invariant inserted == Total(inserts[..i]) && failed == (None in inserts[..i])
      {
        assert inserts[..i + 1] == inserts[..i] + [inserts[i]];
        TotalSnoc(inserts[..i], inserts[i]);
        match inserts[i]
        case Some(size) => inserted := inserted + size;
        case None => failed := true;
      }
      assert inserts[..|inserts|] == inserts;
      MoveAllocatedToUsed(inserted);
      var unused := ticket - inserted;
      if unused > 0 {
        FreeAllocated(unused);
      }
    }
  }

  function Total(inserts: seq<Option<int>>): int {
    if inserts == [] then 0 else (if inserts[0].Some? then inserts[0].value else 0) + Total(inserts[1..])
  }

  function UntilFailure(inserts: seq<Option<int>>): seq<Option<int>> {
    if inserts == [] || inserts[0].None? then [] else [inserts[0]] + UntilFailure(inserts[1..])
  }

  lemma {:induction false} TotalSnoc(a: seq<Option<int>>, x: Option<int>)
    ensures Total(a + [x]) == Total(a) + if x.Some? then x.value else 0
  {
    if a == [] {
      assert [x][1..] == [];
    } else {
      assert (a + [x])[1..] == a[1..] + [x];
      TotalSnoc(a[1..], x);
    }
  }

  lemma {:induction false} UntilFailureSnoc(a: seq<Option<int>>, i: nat)
    requires i < |a|
    ensures None in a[..i + 1] <==> None in a[..i] || a[i].None?
    ensures Total(UntilFailure(a[..i + 1]))
         == Total(UntilFailure(a[..i])) + if None !in a[..i] && a[i].Some? then a[i].value else 0
  {
    assert a[..i + 1] == a[..i] + [a[i]];
    if i == 0 {
      assert a[..1] == [a[0]] && [a[0]][1..] == [];
      assert UntilFailure(a[..1]) == if a[0].None? then [] else [a[0]] + [];
    } else if a[0].Some? {
      UntilFailureSnoc(a[1..], i - 1);
      assert a[..i][1..] == a[1..][..i - 1] && a[..i + 1][1..] == a[1..][..i];
      assert UntilFailure(a[..i])[1..] == UntilFailure(a[1..][..i - 1]);
      assert UntilFailure(a[..i + 1])[1..] == UntilFailure(a[1..][..i]);
      assert a[..i] == [a[0]] + a[1..][..i - 1];
    }
  }

  /** Both settlements, from any budget whose allocation covers the ticket and the insertion: gRPC is
      exact whatever the sign of the difference, urpc never raises the total, and they agree exactly
      when the send stayed within its ticket. */
  lemma Settlement(b: BudgetState, ticket: int, inserted: int)
    requires 0 <= ticket <= b.alloc && 0 <= inserted <= b.alloc
    ensures GrpcSettled(b, ticket, inserted) == b.(alloc := b.alloc - ticket, used := b.used + inserted)
    ensures var u := UrpcSettled(b, ticket, inserted);
            && u == b.(alloc := b.alloc - (if inserted <= ticket then ticket else inserted), used := b.used + inserted)
            && u.alloc + u.used <= b.alloc + b.used
    ensures GrpcSettled(b, ticket, inserted) == UrpcSettled(b, ticket, inserted) <==> inserted <= ticket
  {
  }
}
