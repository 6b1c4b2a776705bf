/** The per-partition memory buffer (`MemoryBuffer`): staging batch, batches in flight, size counters. */
module Buffer {
  import opened Blocks

  /** `order` is the iteration order of the hashed flight map: arbitrary, and free to change
      whenever the map changes. */
  datatype BufferState = BufferState(
    totalSize: int, stagingSize: int, flightSize: int,
    staging: Batch, flights: map<nat, Batch>, order: seq<nat>, counter: nat)
  {
    predicate Valid() {
      && IsOrder(order, flights.Keys)
      && (forall f | f in flights :: f < counter)
    }

    /** What a reader of the buffer sees: flights in iteration order, then staging. */
    function Flat(): seq<Block>
      requires Valid()
    {
      FlightBlocks(flights, order) + Flatten(staging)
    }
  }

  predicate IsOrder(order: seq<nat>, keys: set<nat>) {
    && (forall i, j | 0 <= i < j < |order| :: order[i] != order[j])
    && (forall f | f in order :: f in keys)
    && (forall f | f in keys :: f in order)
  }

  function FlightBlocks(flights: map<nat, Batch>, order: seq<nat>): seq<Block>
    requires forall f | f in order :: f in flights
  {
    if order == [] then [] else Flatten(flights[order[0]]) + FlightBlocks(flights, order[1..])
  }

  const EMPTY := BufferState(0, 0, 0, [], map[], [], 0)

  function Append(s: BufferState, blocks: seq<Block>, size: nat): BufferState {
    s.(staging := s.staging + [blocks], stagingSize := s.stagingSize + size, totalSize := s.totalSize + size)
  }

  function Spill(s: BufferState, order: seq<nat>): BufferState {
    s.(staging := [], stagingSize := 0,
       flights := s.flights[s.counter := s.staging], order := order, counter := s.counter + 1,
       flightSize := s.flightSize + s.stagingSize)
  }

  function Clear(s: BufferState, flight: nat, size: nat, order: seq<nat>): BufferState {
    if flight in s.flights then
      s.(flights := s.flights - {flight}, order := order,
         totalSize := s.totalSize - size, flightSize := s.flightSize - size)
    else
      s
  }

  // ---- sizes: total = staging + flight = the lengths of the blocks held ----

  ghost predicate Sized(s: BufferState)
    requires s.Valid()
  {
    && s.stagingSize == SumLength(Flatten(s.staging))
    && s.flightSize == SumLength(FlightBlocks(s.flights, s.order))
    && s.totalSize == s.stagingSize + s.flightSize
  }

  lemma {:induction false} FlightBlocksConcat(flights: map<nat, Batch>, a: seq<nat>, b: seq<nat>)
    requires (forall f | f in a :: f in flights) && (forall f | f in b :: f in flights)
    ensures FlightBlocks(flights, a + b) == FlightBlocks(flights, a) + FlightBlocks(flights, b)
  {
    if a == [] {
      assert a + b == b;
    } else {
      assert (a + b)[1..] == a[1..] + b;
      FlightBlocksConcat(flights, a[1..], b);
    }
  }

  lemma {:induction false} FlightBlocksOne(flights: map<nat, Batch>, f: nat)
    requires f in flights
    ensures FlightBlocks(flights, [f]) == Flatten(flights[f])
  {
    assert [f][1..] == [];
    assert FlightBlocks(flights, [f]) == Flatten(flights[f]) + FlightBlocks(flights, []);
  }

  lemma {:induction false} FlightBlocksFrame(m: map<nat, Batch>, n: map<nat, Batch>, order: seq<nat>)
    requires forall f | f in order :: f in m && f in n && m[f] == n[f]
    ensures FlightBlocks(m, order) == FlightBlocks(n, order)
  {
    if order != [] {
      FlightBlocksFrame(m, n, order[1..]);
    }
  }

  /** Pulling one flight to the front changes neither the blocks of the others nor the total. */
  lemma {:induction false} FlightSizeSplit(flights: map<nat, Batch>, order: seq<nat>, i: nat)
    requires i < |order|
    requires forall f | f in order :: f in flights
    ensures SumLength(FlightBlocks(flights, order))
         == SumLength(Flatten(flights[order[i]])) + SumLength(FlightBlocks(flights, order[..i] + order[i + 1..]))
  {
    var a, b := order[..i], order[i + 1..];
    assert order == a + order[i..] && order[i..][1..] == b;
    FlightBlocksConcat(flights, a, order[i..]);
    FlightBlocksConcat(flights, a, b);
    SumLengthConcat(FlightBlocks(flights, a), FlightBlocks(flights, order[i..]));
    SumLengthConcat(Flatten(flights[order[i]]), FlightBlocks(flights, b));
    SumLengthConcat(FlightBlocks(flights, a), FlightBlocks(flights, b));
  }

  lemma {:induction false} FlightSizePermuted(flights: map<nat, Batch>, keys: set<nat>, a: seq<nat>, b: seq<nat>)
    requires IsOrder(a, keys) && IsOrder(b, keys) && keys <= flights.Keys
    ensures SumLength(FlightBlocks(flights, a)) == SumLength(FlightBlocks(flights, b))
  {
    if b != [] {
      assert b[0] in a;
    }
    if a != [] {
      assert a[0] in keys;
      var i :| 0 <= i < |b| && b[i] == a[0];
      var rest := b[..i] + b[i + 1..];
      OrderDrop(a, keys, 0);
      OrderDrop(b, keys, i);
      assert a[..0] + a[1..] == a[1..];
      FlightSizePermuted(flights, keys - {a[0]}, a[1..], rest);
      FlightSizeSplit(flights, b, i);
      SumLengthConcat(Flatten(flights[a[0]]), FlightBlocks(flights, a[1..]));
    }
  }

  lemma OrderDrop(order: seq<nat>, keys: set<nat>, i: nat)
    requires IsOrder(order, keys) && i < |order|
    ensures IsOrder(order[..i] + order[i + 1..], keys - {order[i]})
  {
    var rest := order[..i] + order[i + 1..];
    forall f | f in keys && f != order[i] ensures f in rest {
      var j :| 0 <= j < |order| && order[j] == f;
      assert rest[if j < i then j else j - 1] == f;
    }
  }

  lemma OrderPush(order: seq<nat>, keys: set<nat>, f: nat)
    requires IsOrder(order, keys) && f !in keys
    ensures IsOrder([f] + order, keys + {f})
  {
    var o := [f] + order;
    forall g | g in keys ensures g in o {
      assert g in order;
    }
  }

  /** The size of a set of flights is the size of one of them plus the size of the rest, in any order. */
  lemma {:induction false} FlightSizePush(m: map<nat, Batch>, n: map<nat, Batch>, f: nat, before: seq<nat>, after: seq<nat>)
    requires f !in m && f in n && n == m[f := n[f]]
    requires IsOrder(before, m.Keys) && IsOrder(after, n.Keys)
    ensures SumLength(FlightBlocks(n, after)) == SumLength(FlightBlocks(m, before)) + SumLength(Flatten(n[f]))
  {
    var front := [f] + before;
    OrderPush(before, m.Keys, f);
    assert n.Keys == m.Keys + {f};
    FlightSizePermuted(n, n.Keys, after, front);
    assert front[1..] == before;
    FlightBlocksFrame(m, n, before);
    SumLengthConcat(Flatten(n[f]), FlightBlocks(n, before));
  }

  lemma {:induction false} AppendKeepsSized(s: BufferState, blocks: seq<Block>, size: nat)
    requires s.Valid()
    requires Sized(s) && size == SumLength(blocks)
    ensures Append(s, blocks, size).Valid() && Sized(Append(s, blocks, size))
  {
    FlattenSnoc(s.staging, blocks);
    SumLengthConcat(Flatten(s.staging), blocks);
  }

  lemma SpillKeepsValid(s: BufferState, order: seq<nat>)
    requires s.Valid() && IsOrder(order, s.flights.Keys + {s.counter})
    ensures Spill(s, order).Valid()
  {
    assert Spill(s, order).flights.Keys == s.flights.Keys + {s.counter};
  }

  lemma SpillKeepsSized(s: BufferState, order: seq<nat>)
    requires s.Valid() && Spill(s, order).Valid() && Sized(s)
    ensures Sized(Spill(s, order))
  {
    assert s.counter !in s.flights;
    FlightSizePush(s.flights, Spill(s, order).flights, s.counter, s.order, order);
  }

  lemma ClearKeepsValid(s: BufferState, flight: nat, size: nat, order: seq<nat>)
    requires s.Valid() && IsOrder(order, s.flights.Keys - {flight})
    ensures Clear(s, flight, size, order).Valid()
  {
    if flight in s.flights {
      assert Clear(s, flight, size, order).flights.Keys == s.flights.Keys - {flight};
    }
  }

  /** A clear keeps the accounting exactly when it is given the flight's own length: `clear` trusts
      the length it is passed. */
  lemma ClearKeepsSized(s: BufferState, flight: nat, size: nat, order: seq<nat>)
    requires s.Valid() && Clear(s, flight, size, order).Valid() && Sized(s) && flight in s.flights
    ensures Sized(Clear(s, flight, size, order)) <==> size == SumLength(Flatten(s.flights[flight]))
  {
    FlightSizePush(Clear(s, flight, size, order).flights, s.flights, flight, order, s.order);
  }

  // ---- which blocks a reader can see ----

  lemma {:induction false} FlightBlocksMember(flights: map<nat, Batch>, order: seq<nat>, b: Block)
    requires forall f | f in order :: f in flights
    ensures b in FlightBlocks(flights, order) <==> exists f | f in order :: b in Flatten(flights[f])
  {
    if order != [] {
      FlightBlocksMember(flights, order[1..], b);
      assert order == [order[0]] + order[1..];
    }
  }

  lemma FlatMember(s: BufferState, b: Block)
    requires s.Valid()
    ensures b in s.Flat() <==> b in Flatten(s.staging) || exists f | f in s.flights :: b in Flatten(s.flights[f])
  {
    FlightBlocksMember(s.flights, s.order, b);
  }
}
