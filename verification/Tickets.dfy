/** `TicketManager`: the tickets handed out for memory that is reserved but not yet filled. */
module Tickets {
  import opened Bytes
  import opened Blocks

  datatype Ticket = Ticket(id: int, created: nat, size: int, app: string)

  /** `now - created` is an unsigned subtraction that is then read as signed. */
  predicate TimedOut(t: Ticket, now: nat, timeout: int) {
    WrapI64(now - t.created) > timeout
  }

  predicate IsView(view: seq<int>, store: map<int, Ticket>) {
    && (forall i, j | 0 <= i < j < |view| :: view[i] != view[j])
    && (forall i | 0 <= i < |view| :: view[i] in store)
    && (forall id | id in store :: id in view)
  }

  function SumSizes(ids: seq<int>, store: map<int, Ticket>): int {
    if ids == [] then 0
    else (if ids[0] in store then store[ids[0]].size else 0) + SumSizes(ids[1..], store)
  }

  lemma {:induction false} SumSizesSnoc(ids: seq<int>, id: int, store: map<int, Ticket>)
    ensures SumSizes(ids + [id], store) == SumSizes(ids, store) + if id in store then store[id].size else 0
  {
    if ids == [] {
      assert [id][1..] == [];
    } else {
      assert (ids + [id])[1..] == ids[1..] + [id];
      SumSizesSnoc(ids[1..], id, store);
    }
  }

  /** Exactly the tickets in `ids` are gone, and `total` is what they held: each counted once. */
  ghost predicate Removed(before: map<int, Ticket>, after: map<int, Ticket>, ids: seq<int>, total: int) {
    && after == (map id | id in before && id !in ids :: before[id])
    && (forall i, j | 0 <= i < j < |ids| :: ids[i] != ids[j])
    && total == SumSizes(ids, before)
  }

  class TicketManager {
    var store: map<int, Ticket>
    const timeoutSec: int

    constructor (timeoutSec: int)
      ensures store == map[] && this.timeoutSec == timeoutSec
    {
      store := map[];
      this.timeoutSec := timeoutSec;
    }

    method Insert(id: int, size: int, created: nat, app: string) returns (replaced: bool)
      modifies this
      ensures store == old(store)[id := Ticket(id, created, size, app)] && replaced == (id in old(store))
    {
      replaced := id in store;
      store := store[id := Ticket(id, created, size, app)];
    }

    /** `None` is the error "ticket id not exist". */
    method Delete(id: int) returns (size: Option<int>)
      modifies this
      ensures size == if id in old(store) then Some(old(store)[id].size) else None
      ensures store == map k | k in old(store) && k != id :: old(store)[k]
    {
      if id in store {
        size := Some(store[id].size);
        store := store - {id};
      } else {
        size := None;
        assert store == map k | k in store && k != id :: store[k];
      }
    }

    method RemoveAll(ids: seq<int>) returns (total: int)
      requires forall i, j | 0 <= i < j < |ids| :: ids[i] != ids[j]
      modifies this
      ensures Removed(old(store), store, ids, total)
    {
      total := 0;
      for i := 0 to |ids|
        invariant Removed(old(store), store, ids[..i], total)
      {
        assert ids[..i + 1] == ids[..i] + [ids[i]];
        SumSizesSnoc(ids[..i], ids[i], old(store));
        var size := Delete(ids[i]);
        total := total + if size.Some? then size.value else 0;
      }
      assert ids[..|ids|] == ids;
    }

    /** `copy` is the clone of the map that is walked, in the order `view`; the map itself may have changed
        since, so a chosen ticket may be gone by now and then counts nothing. */
    method DeleteByAppId(app: string, copy: map<int, Ticket>, view: seq<int>) returns (total: int, ghost ids: seq<int>)
      requires IsView(view, copy)
      modifies this
      ensures Removed(old(store), store, ids, total)
      ensures forall id :: id in ids <==> id in copy && copy[id].app == app
    {
      var deleted: seq<int> := [];
      for i := 0 to |view|
        invariant store == old(store)
        invariant forall a, b | 0 <= a < b < |deleted| :: deleted[a] != deleted[b]
        invariant forall id :: id in deleted <==> id in view[..i] && copy[id].app == app
      {
        assert view[..i + 1] == view[..i] + [view[i]];
        if copy[view[i]].app == app {
          deleted := deleted + [view[i]];
        }
      }
      assert view[..|view|] == view;
      ids := deleted;
      total := RemoveAll(deleted);
    }

    /** One round of `ticket_check`, on such a copy: what the round adds up is what the evictor then frees, and
        it is what was really removed, so a ticket released in between is not freed twice. With a clock that
        has not gone back, a ticket goes exactly when its age in seconds exceeds the limit. */
    method EvictRound(now: nat, copy: map<int, Ticket>, view: seq<int>) returns (total: int, ghost ids: seq<int>)
      requires IsView(view, copy)
      modifies this
      ensures Removed(old(store), store, ids, total)
      ensures forall id :: id in ids <==> id in copy && WrapI64(now - copy[id].created) > timeoutSec
      ensures forall id | id in copy && copy[id].created <= now < copy[id].created + 0x8000_0000_0000_0000 ::
                id in ids <==> now - copy[id].created > timeoutSec
    {
      var discard: seq<int> := [];
      for i := 0 to |view|
        invariant store == old(store)
        invariant forall a, b | 0 <= a < b < |discard| :: discard[a] != discard[b]
        invariant forall id :: id in discard <==> id in view[..i] && TimedOut(copy[id], now, timeoutSec)
      {
        assert view[..i + 1] == view[..i] + [view[i]];
        if TimedOut(copy[view[i]], now, timeoutSec) {
          discard := discard + [view[i]];
        }
      }
      assert view[..|view|] == view;
      ids := discard;
      total := RemoveAll(discard);
    }
  }
}
