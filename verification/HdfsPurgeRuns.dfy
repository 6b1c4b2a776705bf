/** Registrations, writers and purges of the HDFS store together, in any interleaving. A purge without a client
    for the application does nothing. Others take locks out of the map while their writers may still be at
    work: such writers keep the lock object they hold and go on, and the next writer of the partition gets
    a new lock. A writer opens its lock before it looks for the client. Over all such runs this says exactly
    what a purge leaves behind. */
module HdfsPurgeRuns {
  import opened Bytes
  import opened Blocks
  import opened HdfsProtocol
  import opened HdfsSeats
  import opened HdfsPurge
  import HdfsRuns
  import Lock = IndexSemaphore

  /** The locks one purge removed, with the writers that hold them. */
  datatype Group = Group(locks: map<Uid, Lock.Sem>, writers: map<nat, Writer>)

  /** `app_remote_clients` are the applications with a client; `equipped` are the writers that found theirs. */
  datatype World = World(store: State, gone: seq<Group>, clients: set<string>, equipped: set<nat>)

  datatype Event =
    | Register(registered: string)
    | Lookup(writer: nat)
    | Write(a: Action)
    | Purge(app: string, shuffle: Option<I32>, deleted: bool)

  /** The store as the writers of a removed lock see it: the same files and metas, their own locks. */
  ghost function Seen(w: World, i: nat): State
    requires i < |w.gone|
  {
    w.store.(locks := w.gone[i].locks, writers := w.gone[i].writers)
  }

  ghost predicate Here(w: World, v: nat, u: Uid) { v in w.store.writers && w.store.writers[v].uid == u }

  ghost predicate GoneIn(w: World, v: nat, u: Uid, i: nat) {
    i < |w.gone| && v in w.gone[i].writers && w.gone[i].writers[v].uid == u
  }

  ghost predicate Gone(w: World, v: nat, u: Uid) { exists i :: GoneIn(w, v, u, i) }

  ghost predicate Unknown(w: World, v: nat) {
    v !in w.store.writers && forall i | 0 <= i < |w.gone| :: v !in w.gone[i].writers
  }

  ghost predicate CanInGroup(w: World, a: Action, i: nat) {
    i < |w.gone| && a.w in w.gone[i].writers && Enabled(Seen(w, i), a)
  }

  /** The writer has its index and has not looked at the slot's meta yet. */
  ghost predicate Picks(w: World, v: nat, u: Uid) {
    || (Here(w, v, u) && w.store.writers[v].phase.Picked?)
    || exists i: nat :: GoneIn(w, v, u, i) && w.gone[i].writers[v].phase.Picked?
  }

  /** Between its index and the slot's meta a writer takes the client of its application. */
  ghost predicate CanDo(w: World, e: Event) {
    match e
    case Register(_) => true
    case Lookup(v) => exists u :: Picks(w, v, u) && u.appId in w.clients
    case Purge(_, _, _) => true
    case Write(a) =>
      if a.Start? then Unknown(w, a.w)
      else
        && (a.ReadMeta? ==> a.w in w.equipped)
        && if a.w in w.store.writers then Enabled(w.store, a) else exists i :: CanInGroup(w, a, i)
  }

  /** A step of a writer whose lock was removed. */
  ghost function InGroup(w: World, a: Action, i: nat): World
    requires CanInGroup(w, a, i)
  {
    var t := Step(Seen(w, i), a);
    w.(store := w.store.(pairs := t.pairs, meta := t.meta, acked := t.acked), gone := w.gone[i := Group(t.locks, t.writers)])
  }

  ghost function Taken(s: State, app: string, shuffle: Option<I32>): Group {
    Group(map u | u in PurgedLocks(s, app, shuffle) :: s.locks[u],
          map v | v in PurgedWriters(s, app, shuffle) :: s.writers[v])
  }

  ghost function Do(w: World, e: Event): World
    requires CanDo(w, e)
  {
    match e
    case Register(app) => w.(clients := w.clients + {app})
    case Lookup(v) => w.(equipped := w.equipped + {v})
    case Purge(app, shuffle, deleted) =>
      if app !in w.clients then w else
        w.(store := Purged(w.store, app, shuffle, deleted), gone := w.gone + [Taken(w.store, app, shuffle)],
           clients := if shuffle.None? then w.clients - {app} else w.clients)
    case Write(a) =>
      if a.Start? || a.w in w.store.writers then w.(store := Step(w.store, a))
      else var i: nat :| CanInGroup(w, a, i); InGroup(w, a, i)
  }

  ghost predicate Happens(concurrency: nat, events: seq<Event>)
    decreases |events|, 0
  {
    events == [] ||
    (Happens(concurrency, events[..|events| - 1]) && CanDo(Now(concurrency, events[..|events| - 1]), events[|events| - 1]))
  }

  ghost function Now(concurrency: nat, events: seq<Event>): World
    requires Happens(concurrency, events)
    decreases |events|, 1
  {
    if events == [] then World(Init(concurrency), [], {}, {})
    else Do(Now(concurrency, events[..|events| - 1]), events[|events| - 1])
  }

  // ---- seats and indexes ----

  ghost predicate IndexesBounded(s: State) { forall slot | slot in s.meta :: slot.idx < s.concurrency }

  ghost predicate AllSeats(w: World) {
    Seats(w.store) && IndexesBounded(w.store) && forall i | 0 <= i < |w.gone| :: Seats(Seen(w, i))
  }

  lemma StepLocks(s: State, a: Action)
    requires Enabled(s, a)
    ensures Step(s, a).concurrency == s.concurrency
    ensures Step(s, a).locks.Keys == s.locks.Keys + (if a.Start? then {a.uid} else {})
  {
    if !a.Start? && !OnLock(a) {
      StepMoves(s, a);
    }
  }

  lemma AppendMetas(s: State, a: Action)
    requires Enabled(s, a) && Appends(a)
    ensures Step(s, a).meta == s.meta
  {
  }

  lemma StepMetas(s: State, a: Action, slot: SlotId)
    requires Enabled(s, a)
    ensures slot in Step(s, a).meta <==> slot in s.meta || Creates(s, a, slot)
  {
    if Appends(a) {
      AppendMetas(s, a);
    }
  }

  /** Which metas a step creates, and which locks. */
  lemma StepKeys(s: State, a: Action)
    requires Enabled(s, a)
    ensures Step(s, a).concurrency == s.concurrency
    ensures Step(s, a).locks.Keys == s.locks.Keys + (if a.Start? then {a.uid} else {})
    ensures forall slot :: slot in Step(s, a).meta <==> slot in s.meta || Creates(s, a, slot)
  {
    StepLocks(s, a);
    forall slot ensures slot in Step(s, a).meta <==> slot in s.meta || Creates(s, a, slot) {
      StepMetas(s, a, slot);
    }
  }

  ghost predicate Creates(s: State, a: Action, slot: SlotId) {
    a.InsertMeta? && a.w in s.writers && HasIndex(s.writers[a.w].phase) && slot == SlotOf(s.writers[a.w])
  }

  lemma StepKeepsBounded(s: State, a: Action)
    requires Seats(s) && IndexesBounded(s) && Enabled(s, a)
    ensures IndexesBounded(Step(s, a))
  {
    StepKeys(s, a);
    if a.InsertMeta? {
      assert Seated(s.locks, a.w, s.writers[a.w]) && LockOk(s.locks[s.writers[a.w].uid], s.concurrency);
    }
  }

  lemma SeatsOf(s: State, t: State)
    requires Seats(s) && t.concurrency == s.concurrency && t.locks == s.locks && t.writers == s.writers
    ensures Seats(t)
  {
  }

  lemma ReplacedGroupSeats(w: World, n: World, i: nat, t: State)
    requires AllSeats(w) && i < |w.gone| && Seats(t) && IndexesBounded(t) && t.concurrency == w.store.concurrency
    requires n.store == w.store.(pairs := t.pairs, meta := t.meta, acked := t.acked)
    requires n.gone == w.gone[i := Group(t.locks, t.writers)]
    ensures AllSeats(n)
  {
    SeatsOf(w.store, n.store);
    forall j | 0 <= j < |n.gone| ensures Seats(Seen(n, j)) {
      if j == i {
        SeatsOf(t, Seen(n, i));
      } else {
        SeatsOf(Seen(w, j), Seen(n, j));
      }
    }
  }

  lemma GroupKeepsSeats(w: World, a: Action, i: nat)
    requires AllSeats(w) && CanInGroup(w, a, i)
    ensures AllSeats(InGroup(w, a, i))
  {
    StepKeepsSeats(Seen(w, i), a);
    StepKeepsBounded(Seen(w, i), a);
    StepLocks(Seen(w, i), a);
    ReplacedGroupSeats(w, InGroup(w, a, i), i, Step(Seen(w, i), a));
  }

  lemma StoreKeepsSeats(w: World, a: Action)
    requires AllSeats(w) && Enabled(w.store, a)
    ensures AllSeats(w.(store := Step(w.store, a)))
  {
    var n := w.(store := Step(w.store, a));
    StepKeepsSeats(w.store, a);
    StepKeepsBounded(w.store, a);
    StepKeys(w.store, a);
    forall j | 0 <= j < |n.gone| ensures Seats(Seen(n, j)) {
      SeatsOf(Seen(w, j), Seen(n, j));
    }
  }

  lemma PurgeKeepsSeats(w: World, app: string, shuffle: Option<I32>, deleted: bool)
    requires AllSeats(w) && app in w.clients
    ensures AllSeats(Do(w, Purge(app, shuffle, deleted)))
  {
    var n := Do(w, Purge(app, shuffle, deleted));
    assert forall v | v in w.store.writers :: Seated(w.store.locks, v, w.store.writers[v]);
    PurgedKeepsSeats(w.store, app, shuffle, deleted);
    forall j | 0 <= j < |n.gone| ensures Seats(Seen(n, j)) {
      if j == |w.gone| {
        SplitKeepsSeats(w.store, Seen(n, j));
      } else {
        SeatsOf(Seen(w, j), Seen(n, j));
      }
    }
  }

  lemma SameStoreKeepsSeats(w: World, n: World)
    requires AllSeats(w) && n.store == w.store && n.gone == w.gone
    ensures AllSeats(n)
  {
    forall i | 0 <= i < |n.gone| ensures Seats(Seen(n, i)) {
      SeatsOf(Seen(w, i), Seen(n, i));
    }
  }

  lemma GroupOf(w: World, a: Action) returns (i: nat)
    requires CanDo(w, Write(a)) && !a.Start? && a.w !in w.store.writers
    ensures CanInGroup(w, a, i) && Do(w, Write(a)) == InGroup(w, a, i)
  {
    i :| CanInGroup(w, a, i) && Do(w, Write(a)) == InGroup(w, a, i);
  }

  lemma DoKeepsSeats(w: World, e: Event)
    requires AllSeats(w) && CanDo(w, e)
    ensures AllSeats(Do(w, e))
  {
    match e
    case Register(_) => SameStoreKeepsSeats(w, Do(w, e));
    case Lookup(_) => SameStoreKeepsSeats(w, Do(w, e));
    case Purge(app, shuffle, deleted) =>
      if app in w.clients {
        PurgeKeepsSeats(w, app, shuffle, deleted);
      }
    case Write(a) =>
      if a.Start? || a.w in w.store.writers {
        StoreKeepsSeats(w, a);
      } else {
        var i := GroupOf(w, a);
        GroupKeepsSeats(w, a, i);
      }
  }

  lemma {:induction false} RunKeepsSeats(concurrency: nat, events: seq<Event>)
    requires Happens(concurrency, events)
    ensures AllSeats(Now(concurrency, events))
    decreases |events|
  {
    if events != [] {
      RunKeepsSeats(concurrency, events[..|events| - 1]);
      DoKeepsSeats(Now(concurrency, events[..|events| - 1]), events[|events| - 1]);
    }
  }

  // ---- what a step does to locks, metas and writers ----

  ghost predicate SameMembers(w: World, n: World) {
    && (forall v, u :: Here(w, v, u) <==> Here(n, v, u))
    && (forall v, u, i :: GoneIn(w, v, u, i) <==> GoneIn(n, v, u, i))
  }

  /** A step of a running writer: everybody stays where they are, and only creating its slot adds a meta. */
  ghost predicate Shape(w: World, n: World, a: Action, me: Writer) {
    && SameMembers(w, n) && n.store.locks.Keys == w.store.locks.Keys
    && (a.InsertMeta? ==> HasIndex(me.phase))
    && forall slot :: slot in n.store.meta <==> slot in w.store.meta || (a.InsertMeta? && slot == SlotOf(me))
  }

  lemma InsertHasIndex(s: State, a: Action)
    requires Enabled(s, a) && a.InsertMeta?
    ensures a.w in s.writers && HasIndex(s.writers[a.w].phase)
  {
  }

  lemma StoreShape(w: World, a: Action)
    requires a.w in w.store.writers && Enabled(w.store, a) && !a.Start?
    ensures Shape(w, w.(store := Step(w.store, a)), a, w.store.writers[a.w])
  {
    StepKeys(w.store, a);
    StoreMembers(w, a);
    if a.InsertMeta? {
      InsertHasIndex(w.store, a);
    }
  }

  lemma GroupShape(w: World, a: Action, i: nat)
    requires CanInGroup(w, a, i) && !a.Start?
    ensures Shape(w, InGroup(w, a, i), a, w.gone[i].writers[a.w])
  {
    StepKeys(Seen(w, i), a);
    GroupMembers(w, a, i);
    if a.InsertMeta? {
      InsertHasIndex(Seen(w, i), a);
    }
  }

  lemma WriteShape(w: World, a: Action, n: World) returns (me: Writer)
    requires CanDo(w, Write(a)) && !a.Start? && n == Do(w, Write(a))
    ensures if a.w in w.store.writers then me == w.store.writers[a.w] else Gone(w, a.w, me.uid)
    ensures Shape(w, n, a, me)
  {
    if a.w in w.store.writers {
      me := w.store.writers[a.w];
      StoreShape(w, a);
    } else {
      var i := GroupOf(w, a);
      me := w.gone[i].writers[a.w];
      assert GoneIn(w, a.w, me.uid, i);
      GroupShape(w, a, i);
    }
  }

  lemma StepMembers(s: State, a: Action, v: nat)
    requires Enabled(s, a) && !a.Start?
    ensures v in Step(s, a).writers <==> v in s.writers
    ensures v in s.writers ==> Step(s, a).writers[v].uid == s.writers[v].uid
  {
    if v in s.writers {
      HdfsRuns.WritersStay(s, a, v);
    }
    if !OnLock(a) {
      StepMoves(s, a);
    }
  }

  lemma StoreMembers(w: World, a: Action)
    requires a.w in w.store.writers && Enabled(w.store, a) && !a.Start?
    ensures SameMembers(w, w.(store := Step(w.store, a)))
  {
    forall v ensures (v in Step(w.store, a).writers <==> v in w.store.writers)
      && (v in w.store.writers ==> Step(w.store, a).writers[v].uid == w.store.writers[v].uid)
    {
      StepMembers(w.store, a, v);
    }
  }

  lemma GroupMembers(w: World, a: Action, i: nat)
    requires CanInGroup(w, a, i) && !a.Start?
    ensures SameMembers(w, InGroup(w, a, i))
  {
    var n := InGroup(w, a, i);
    forall v ensures (v in n.gone[i].writers <==> v in w.gone[i].writers)
      && (v in w.gone[i].writers ==> n.gone[i].writers[v].uid == w.gone[i].writers[v].uid)
    {
      StepMembers(Seen(w, i), a, v);
    }
  }

  // ---- what the events say ----

  predicate StartOn(e: Event, u: Uid) { e.Write? && e.a.Start? && e.a.uid == u }

  predicate StartOf(e: Event, v: nat, u: Uid) { StartOn(e, u) && e.a.w == v }

  predicate PurgeOf(e: Event, u: Uid) { e.Purge? && Matches(u, e.app, e.shuffle) }

  ghost predicate StartsAt(events: seq<Event>, i: nat, v: nat, u: Uid) { i < |events| && StartOf(events[i], v, u) }

  predicate AppPurge(e: Event, app: string) { e.Purge? && e.app == app && e.shuffle.None? }

  ghost predicate RegisteredFrom(events: seq<Event>, app: string, i: nat) {
    i < |events| && events[i] == Register(app) && forall j | i < j < |events| :: !AppPurge(events[j], app)
  }

  /** The application was registered, and no purge of the whole application came later. */
  ghost predicate Registered(events: seq<Event>, app: string) { exists i :: RegisteredFrom(events, app, i) }

  /** A purge of the partition, at a moment when its application is registered. */
  ghost predicate PurgesAt(events: seq<Event>, i: nat, u: Uid) {
    i < |events| && PurgeOf(events[i], u) && Registered(events[..i], u.appId)
  }

  ghost predicate NoPurgeAfter(events: seq<Event>, i: nat, u: Uid) {
    forall j: nat | i < j < |events| :: !PurgesAt(events, j, u)
  }

  /** The next event is such a purge. */
  ghost predicate Hits(events: seq<Event>, e: Event, u: Uid) { PurgeOf(e, u) && Registered(events, u.appId) }

  ghost predicate NoStartAfter(events: seq<Event>, i: nat, u: Uid) {
    forall j | i < j < |events| :: !StartOn(events[j], u)
  }

  /** Some writer of the partition started, and no such purge of it came later. */
  ghost predicate LiveFrom(events: seq<Event>, u: Uid, i: nat) {
    i < |events| && StartOn(events[i], u) && NoPurgeAfter(events, i, u)
  }

  ghost predicate Live(events: seq<Event>, u: Uid) { exists i :: LiveFrom(events, u, i) }

  /** The writer started, and no such purge of its partition came later. */
  ghost predicate Current(events: seq<Event>, v: nat, u: Uid) {
    exists i :: StartsAt(events, i, v, u) && NoPurgeAfter(events, i, u)
  }

  ghost predicate Overtaken(events: seq<Event>, v: nat, u: Uid, i: nat, j: nat) {
    i < j && StartsAt(events, i, v, u) && PurgesAt(events, j, u)
  }

  /** The writer started, and such a purge of its partition came later. */
  ghost predicate Stale(events: seq<Event>, v: nat, u: Uid) { exists i, j :: Overtaken(events, v, u, i, j) }

  ghost predicate OneStart(events: seq<Event>, i: nat, j: nat, v: nat, u: Uid, t: Uid) {
    StartsAt(events, i, v, u) && StartsAt(events, j, v, t) ==> i == j
  }

  // ---- the state told from the events ----

  ghost predicate ClientsTold(events: seq<Event>, w: World) { forall app :: app in w.clients <==> Registered(events, app) }

  ghost predicate LocksTold(events: seq<Event>, w: World) { forall u :: u in w.store.locks <==> Live(events, u) }

  ghost predicate WritersTold(events: seq<Event>, w: World) {
    && (forall v, u | Here(w, v, u) :: Current(events, v, u))
    && (forall v, u | Gone(w, v, u) :: Stale(events, v, u))
    && (forall i, v, u | StartsAt(events, i, v, u) :: Here(w, v, u) || Gone(w, v, u))
    && (forall i, j, v, u, t :: OneStart(events, i, j, v, u, t))
  }

  lemma StartsSnoc(events: seq<Event>, e: Event, i: nat, v: nat, u: Uid)
    ensures StartsAt(events + [e], i, v, u) <==> StartsAt(events, i, v, u) || (i == |events| && StartOf(e, v, u))
  {
  }

  lemma RegisteredSnoc(events: seq<Event>, e: Event, app: string)
    ensures Registered(events + [e], app) <==> e == Register(app) || (Registered(events, app) && !AppPurge(e, app))
  {
    var more := events + [e];
    if e == Register(app) {
      assert RegisteredFrom(more, app, |events|);
    }
    if Registered(events, app) && !AppPurge(e, app) {
      var i: nat :| RegisteredFrom(events, app, i);
      assert RegisteredFrom(more, app, i);
    }
    if Registered(more, app) && e != Register(app) {
      var i: nat :| RegisteredFrom(more, app, i);
      assert !AppPurge(more[|events|], app);
      assert forall j | i < j < |events| :: more[j] == events[j];
      assert RegisteredFrom(events, app, i);
    }
  }

  lemma PurgesSnoc(events: seq<Event>, e: Event, j: nat, u: Uid)
    ensures PurgesAt(events + [e], j, u) <==> PurgesAt(events, j, u) || (j == |events| && Hits(events, e, u))
  {
    var more := events + [e];
    if j < |events| {
      assert more[..j] == events[..j];
    } else if j == |events| {
      assert more[..j] == events;
    }
  }

  lemma NoPurgeSnoc(events: seq<Event>, e: Event, i: nat, u: Uid)
    requires i < |events|
    ensures NoPurgeAfter(events + [e], i, u) <==> NoPurgeAfter(events, i, u) && !Hits(events, e, u)
  {
    var more := events + [e];
    forall j: nat ensures PurgesAt(more, j, u) <==> PurgesAt(events, j, u) || (j == |events| && Hits(events, e, u)) {
      PurgesSnoc(events, e, j, u);
    }
    assert PurgesAt(more, |events|, u) <==> Hits(events, e, u);
  }

  lemma LiveSnoc(events: seq<Event>, e: Event, u: Uid)
    ensures Live(events + [e], u) <==> StartOn(e, u) || (Live(events, u) && !Hits(events, e, u))
  {
    var more := events + [e];
    if StartOn(e, u) {
      assert LiveFrom(more, u, |events|);
    }
    if Live(events, u) && !Hits(events, e, u) {
      var i: nat :| LiveFrom(events, u, i);
      NoPurgeSnoc(events, e, i, u);
      assert LiveFrom(more, u, i);
    }
    if Live(more, u) {
      var i: nat :| LiveFrom(more, u, i);
      if i < |events| {
        NoPurgeSnoc(events, e, i, u);
        assert LiveFrom(events, u, i);
      }
    }
  }

  lemma CurrentSnoc(events: seq<Event>, e: Event, v: nat, u: Uid)
    ensures Current(events, v, u) && !Hits(events, e, u) ==> Current(events + [e], v, u)
    ensures Current(events, v, u) && Hits(events, e, u) ==> Stale(events + [e], v, u)
    ensures StartOf(e, v, u) ==> Current(events + [e], v, u)
    ensures Stale(events, v, u) ==> Stale(events + [e], v, u)
  {
    var more := events + [e];
    if Current(events, v, u) {
      var i: nat :| StartsAt(events, i, v, u) && NoPurgeAfter(events, i, u);
      NoPurgeSnoc(events, e, i, u);
      assert StartsAt(more, i, v, u);
      PurgesSnoc(events, e, |events|, u);
      assert Hits(events, e, u) ==> Overtaken(more, v, u, i, |events|);
    }
    if StartOf(e, v, u) {
      assert StartsAt(more, |events|, v, u) && NoPurgeAfter(more, |events|, u);
    }
    if Stale(events, v, u) {
      var i: nat, j: nat :| Overtaken(events, v, u, i, j);
      PurgesSnoc(events, e, j, u);
      assert Overtaken(more, v, u, i, j);
    }
  }

  /** The event takes the partition's lock away. */
  ghost predicate Strikes(w: World, e: Event, u: Uid) { PurgeOf(e, u) && u.appId in w.clients }

  lemma DoLocks(w: World, e: Event, u: Uid)
    requires CanDo(w, e)
    ensures u in Do(w, e).store.locks <==> StartOn(e, u) || (u in w.store.locks && !Strikes(w, e, u))
  {
    match e
    case Register(_) =>
    case Lookup(_) =>
    case Purge(_, _, _) =>
    case Write(a) =>
      if a.Start? {
        StepKeys(w.store, a);
      } else {
        var _ := WriteShape(w, a, Do(w, e));
      }
  }

  lemma DoTellsClients(events: seq<Event>, w: World, e: Event)
    requires ClientsTold(events, w) && CanDo(w, e)
    ensures ClientsTold(events + [e], Do(w, e))
  {
    forall app ensures app in Do(w, e).clients <==> Registered(events + [e], app) {
      RegisteredSnoc(events, e, app);
      DoClients(w, e, app);
    }
  }

  lemma DoClients(w: World, e: Event, app: string)
    requires CanDo(w, e)
    ensures app in Do(w, e).clients <==> e == Register(app) || (app in w.clients && !AppPurge(e, app))
  {
    if e.Write? && !e.a.Start? && e.a.w !in w.store.writers {
      var _ := GroupOf(w, e.a);
    }
  }

  lemma DoTellsLocks(events: seq<Event>, w: World, e: Event)
    requires ClientsTold(events, w) && LocksTold(events, w) && CanDo(w, e)
    ensures LocksTold(events + [e], Do(w, e))
  {
    forall u ensures u in Do(w, e).store.locks <==> Live(events + [e], u) {
      DoLocks(w, e, u);
      LiveSnoc(events, e, u);
    }
  }

  /** Where the writers are after an event. */
  lemma DoMembers(w: World, e: Event, v: nat, u: Uid)
    requires CanDo(w, e)
    ensures Here(Do(w, e), v, u) <==> StartOf(e, v, u) || (Here(w, v, u) && !Strikes(w, e, u))
    ensures Gone(Do(w, e), v, u) <==> Gone(w, v, u) || (Here(w, v, u) && Strikes(w, e, u))
  {
    var n := Do(w, e);
    match e
    case Register(_) => assert forall i :: GoneIn(n, v, u, i) <==> GoneIn(w, v, u, i);
    case Lookup(_) => assert forall i :: GoneIn(n, v, u, i) <==> GoneIn(w, v, u, i);
    case Purge(app, shuffle, deleted) =>
      if app in w.clients {
        PurgeMembers(w, app, shuffle, deleted, v, u);
      }
    case Write(a) =>
      if a.Start? {
        assert forall i :: GoneIn(n, v, u, i) <==> GoneIn(w, v, u, i);
      } else {
        var _ := WriteShape(w, a, n);
      }
  }

  lemma PurgeMembers(w: World, app: string, shuffle: Option<I32>, deleted: bool, v: nat, u: Uid)
    requires app in w.clients
    ensures var e := Purge(app, shuffle, deleted);
            && (Here(Do(w, e), v, u) <==> Here(w, v, u) && !PurgeOf(e, u))
            && (Gone(Do(w, e), v, u) <==> Gone(w, v, u) || (Here(w, v, u) && Strikes(w, e, u)))
  {
    var e := Purge(app, shuffle, deleted);
    var n := Do(w, e);
    forall i: nat ensures GoneIn(n, v, u, i) <==> GoneIn(w, v, u, i) || (i == |w.gone| && Here(w, v, u) && PurgeOf(e, u)) {
    }
    if Here(w, v, u) && PurgeOf(e, u) {
      assert GoneIn(n, v, u, |w.gone|);
    }
  }

  lemma DoTellsWriters(events: seq<Event>, w: World, e: Event)
    requires ClientsTold(events, w) && WritersTold(events, w) && CanDo(w, e)
    ensures WritersTold(events + [e], Do(w, e))
  {
    var more, n := events + [e], Do(w, e);
    forall v, u | Here(n, v, u) ensures Current(more, v, u) {
      DoMembers(w, e, v, u);
      CurrentSnoc(events, e, v, u);
    }
    forall v, u | Gone(n, v, u) ensures Stale(more, v, u) {
      DoMembers(w, e, v, u);
      CurrentSnoc(events, e, v, u);
    }
    forall i, v, u | StartsAt(more, i, v, u) ensures Here(n, v, u) || Gone(n, v, u) {
      DoMembers(w, e, v, u);
      StartsSnoc(events, e, i, v, u);
    }
    forall i, j, v, u, t ensures OneStart(more, i, j, v, u, t) {
      DoKeepsOneStart(events, w, e, i, j, v, u, t);
    }
  }

  lemma DoKeepsOneStart(events: seq<Event>, w: World, e: Event, i: nat, j: nat, v: nat, u: Uid, t: Uid)
    requires WritersTold(events, w) && CanDo(w, e)
    ensures OneStart(events + [e], i, j, v, u, t)
  {
    StartsSnoc(events, e, i, v, u);
    StartsSnoc(events, e, j, v, t);
    assert OneStart(events, i, j, v, u, t);
    if StartOf(e, v, u) || StartOf(e, v, t) {
      assert forall k, x :: !GoneIn(w, v, x, k);
    }
  }

  lemma {:induction false} RunTells(concurrency: nat, events: seq<Event>)
    requires Happens(concurrency, events)
    ensures ClientsTold(events, Now(concurrency, events))
    ensures LocksTold(events, Now(concurrency, events)) && WritersTold(events, Now(concurrency, events))
    decreases |events|
  {
    if events != [] {
      var before, e := events[..|events| - 1], events[|events| - 1];
      RunTells(concurrency, before);
      assert before + [e] == events;
      DoTellsClients(before, Now(concurrency, before), e);
      DoTellsLocks(before, Now(concurrency, before), e);
      DoTellsWriters(before, Now(concurrency, before), e);
    }
  }

  // ---- when an offset is left behind ----

  ghost predicate LeftAt(w: World, u: Uid, slot: SlotId) {
    slot in w.store.meta && slot.uid == u && u !in w.store.locks
  }

  /** A cached offset of the partition is in the store, but no lock leads to it. */
  ghost predicate LeftBehind(w: World, u: Uid) { exists slot :: LeftAt(w, u, slot) }

  ghost predicate LateInsertAt(events: seq<Event>, u: Uid, v: nat, i: nat, j: nat, k: nat) {
    && i < j < k < |events| && StartsAt(events, i, v, u) && PurgesAt(events, j, u) && events[k] == Write(InsertMeta(v))
    && NoStartAfter(events, j, u)
  }

  /** A purge of the registered application's partition came between a writer's start and the creation of its
      slot, and no writer of the partition started after that purge. */
  ghost predicate LateInsert(events: seq<Event>, u: Uid) { exists v, i, j, k :: LateInsertAt(events, u, v, i, j, k) }

  lemma LateIsNotLive(events: seq<Event>, u: Uid)
    requires LateInsert(events, u)
    ensures !Live(events, u)
  {
    var v: nat, i: nat, j: nat, k: nat :| LateInsertAt(events, u, v, i, j, k);
    forall m: nat ensures !LiveFrom(events, u, m) {
      assert PurgesAt(events, j, u);
    }
  }

  lemma LateSnoc(events: seq<Event>, e: Event, u: Uid)
    requires !StartOn(e, u)
    ensures LateInsert(events, u) ==> LateInsert(events + [e], u)
    ensures LateInsert(events + [e], u) ==> LateInsert(events, u) || (exists v :: e == Write(InsertMeta(v)) && Stale(events, v, u))
  {
    var more := events + [e];
    if LateInsert(events, u) {
      var v: nat, i: nat, j: nat, k: nat :| LateInsertAt(events, u, v, i, j, k);
      PurgesSnoc(events, e, j, u);
      assert LateInsertAt(more, u, v, i, j, k);
    }
    if LateInsert(more, u) {
      var v: nat, i: nat, j: nat, k: nat :| LateInsertAt(more, u, v, i, j, k);
      PurgesSnoc(events, e, j, u);
      assert StartsAt(events, i, v, u) && PurgesAt(events, j, u);
      if k < |events| {
        assert NoStartAfter(events, j, u) by { assert forall x | j < x < |events| :: more[x] == events[x]; }
        assert LateInsertAt(events, u, v, i, j, k);
      } else {
        assert Overtaken(events, v, u, i, j);
      }
    }
  }

  lemma LateStart(events: seq<Event>, e: Event, u: Uid)
    requires StartOn(e, u)
    ensures !LateInsert(events + [e], u)
  {
    var more := events + [e];
    assert StartOn(more[|events|], u);
    forall v: nat, i: nat, j: nat, k: nat ensures !LateInsertAt(more, u, v, i, j, k) {
    }
  }

  /** The last purge of a partition that has one. */
  lemma {:induction false} LastPurge(events: seq<Event>, u: Uid, from: nat) returns (j: nat)
    requires PurgesAt(events, from, u)
    ensures from <= j && PurgesAt(events, j, u) && NoPurgeAfter(events, j, u)
    decreases |events| - from
  {
    j := from;
    if !NoPurgeAfter(events, from, u) {
      var m: nat :| from < m < |events| && PurgesAt(events, m, u);
      j := LastPurge(events, u, m);
    }
  }

  /** A stale writer that creates its slot while no lock is live is such a late insert. */
  lemma LateNow(events: seq<Event>, v: nat, u: Uid)
    requires Stale(events, v, u) && !Live(events, u)
    ensures LateInsert(events + [Write(InsertMeta(v))], u)
  {
    var more := events + [Write(InsertMeta(v))];
    var i: nat, first: nat :| Overtaken(events, v, u, i, first);
    var j := LastPurge(events, u, first);
    forall m | j < m < |more| ensures !StartOn(more[m], u) {
      if m < |events| && StartOn(events[m], u) {
        assert LiveFrom(events, u, m);
      }
    }
    PurgesSnoc(events, Write(InsertMeta(v)), j, u);
    assert LateInsertAt(more, u, v, i, j, |events|);
  }

  lemma PurgeLeaves(w: World, e: Event, u: Uid)
    requires e.Purge? && IndexesBounded(w.store)
    ensures LeftBehind(Do(w, e), u) <==> LeftBehind(w, u)
  {
    var n := Do(w, e);
    forall slot ensures LeftAt(n, u, slot) <==> LeftAt(w, u, slot) {
    }
  }

  lemma SameStoreLeaves(w: World, n: World, u: Uid)
    requires n.store == w.store
    ensures LeftBehind(n, u) <==> LeftBehind(w, u)
  {
    forall slot ensures LeftAt(n, u, slot) <==> LeftAt(w, u, slot) {
    }
  }

  lemma StartLeaves(w: World, e: Event, u: Uid)
    requires CanDo(w, e) && e.Write? && e.a.Start?
    ensures LeftBehind(Do(w, e), u) <==> LeftBehind(w, u) && !StartOn(e, u)
  {
    var n := Do(w, e);
    StepKeys(w.store, e.a);
    forall slot ensures LeftAt(n, u, slot) <==> LeftAt(w, u, slot) && !StartOn(e, u) {
    }
  }

  lemma WriteLeaves(w: World, n: World, a: Action, u: Uid, me: Writer)
    requires Shape(w, n, a, me)
    ensures LeftBehind(n, u) <==> LeftBehind(w, u) || (a.InsertMeta? && me.uid == u && u !in w.store.locks)
  {
    forall slot
      ensures LeftAt(n, u, slot)
         <==> LeftAt(w, u, slot) || (a.InsertMeta? && slot == SlotOf(me) && me.uid == u && u !in w.store.locks)
    {
    }
    if a.InsertMeta? && me.uid == u && u !in w.store.locks {
      assert LeftAt(n, u, SlotOf(me));
    }
  }

  lemma WriteTells(events: seq<Event>, w: World, a: Action, u: Uid)
    requires LocksTold(events, w) && WritersTold(events, w) && CanDo(w, Write(a)) && !a.Start?
    requires LeftBehind(w, u) <==> LateInsert(events, u)
    ensures LeftBehind(Do(w, Write(a)), u) <==> LateInsert(events + [Write(a)], u)
  {
    var n := Do(w, Write(a));
    var me := WriteShape(w, a, n);
    WriteLeaves(w, n, a, u, me);
    LateSnoc(events, Write(a), u);
    if a.InsertMeta? {
      if LateInsert(events + [Write(a)], u) && !LateInsert(events, u) {
        LateIsNotLive(events + [Write(a)], u);
        LiveSnoc(events, Write(a), u);
        StaleIs(events, w, a.w, u, me.uid);
      }
      if me.uid == u && u !in w.store.locks {
        GoneWriter(events, w, a.w, u);
        LateNow(events, a.w, u);
      }
    }
  }

  /** The partition of a known writer is the one it started on. */
  lemma StaleIs(events: seq<Event>, w: World, v: nat, u: Uid, t: Uid)
    requires WritersTold(events, w) && Stale(events, v, u) && (Here(w, v, t) || Gone(w, v, t))
    ensures u == t
  {
    var i: nat, j: nat :| Overtaken(events, v, u, i, j);
    if Here(w, v, t) {
      var k: nat :| StartsAt(events, k, v, t) && NoPurgeAfter(events, k, t);
      assert OneStart(events, i, k, v, u, t);
    } else {
      var k: nat, m: nat :| Overtaken(events, v, t, k, m);
      assert OneStart(events, i, k, v, u, t);
    }
  }

  /** A writer at work on a partition without a lock has been overtaken by a purge. */
  lemma GoneWriter(events: seq<Event>, w: World, v: nat, u: Uid)
    requires LocksTold(events, w) && WritersTold(events, w) && u !in w.store.locks && (Here(w, v, u) || Gone(w, v, u))
    ensures Stale(events, v, u) && !Live(events, u)
  {
    if Here(w, v, u) {
      var i: nat :| StartsAt(events, i, v, u) && NoPurgeAfter(events, i, u);
      assert LiveFrom(events, u, i);
    }
  }

  lemma DoTells(events: seq<Event>, w: World, e: Event, u: Uid)
    requires LocksTold(events, w) && WritersTold(events, w) && IndexesBounded(w.store) && CanDo(w, e)
    requires LeftBehind(w, u) <==> LateInsert(events, u)
    ensures LeftBehind(Do(w, e), u) <==> LateInsert(events + [e], u)
  {
    if e.Purge? {
      PurgeLeaves(w, e, u);
      LateSnoc(events, e, u);
    } else if !e.Write? {
      SameStoreLeaves(w, Do(w, e), u);
      LateSnoc(events, e, u);
    } else if e.a.Start? {
      StartLeaves(w, e, u);
      if StartOn(e, u) {
        LateStart(events, e, u);
      } else {
        LateSnoc(events, e, u);
      }
    } else {
      WriteTells(events, w, e.a, u);
    }
  }

  /** In every run of registrations, writers and purges: a cached offset of the partition is left behind
      without a lock if and only if a purge, at a moment when the application was registered, came between
      some writer's start and its slot creation and no writer of the partition has started since. */
  lemma {:induction false} LeftBehindIff(concurrency: nat, events: seq<Event>, u: Uid)
    requires Happens(concurrency, events)
    ensures LeftBehind(Now(concurrency, events), u) <==> LateInsert(events, u)
    decreases |events|
  {
    if events != [] {
      var before, e := events[..|events| - 1], events[|events| - 1];
      assert before + [e] == events;
      LeftBehindIff(concurrency, before, u);
      RunTells(concurrency, before);
      RunKeepsSeats(concurrency, before);
      DoTells(before, Now(concurrency, before), e, u);
    }
  }

  // ---- what a purge leaves ----

  lemma PurgeRemoves(w: World, app: string, shuffle: Option<I32>, deleted: bool)
    requires IndexesBounded(w.store) && app in w.clients
    ensures var t := Do(w, Purge(app, shuffle, deleted)).store;
            && (forall u :: u in t.locks <==> u in w.store.locks && !Matches(u, app, shuffle))
            && (forall slot | slot in t.meta :: slot in w.store.meta && t.meta[slot] == w.store.meta[slot])
            && (forall slot | slot in w.store.meta ::
                  slot !in t.meta <==> Matches(slot.uid, app, shuffle) && !LeftAt(w, slot.uid, slot))
  {
  }

  /** After every run: a purge of an application that is not registered changes nothing. */
  lemma {:induction false} PurgeWithoutClient(concurrency: nat, events: seq<Event>, app: string, shuffle: Option<I32>, deleted: bool)
    requires Happens(concurrency, events) && !Registered(events, app)
    ensures Do(Now(concurrency, events), Purge(app, shuffle, deleted)) == Now(concurrency, events)
  {
    RunTells(concurrency, events);
  }

  /** After every run, with any purges in it: a purge of a registered application takes exactly the matching
      locks, changes nothing of other partitions, and takes every matching cached offset if and only if no
      matching partition has a late insert. */
  lemma {:induction false} PurgeCompleteIff(concurrency: nat, events: seq<Event>, app: string, shuffle: Option<I32>, deleted: bool)
    requires Happens(concurrency, events) && Registered(events, app)
    ensures var s, t := Now(concurrency, events).store, Do(Now(concurrency, events), Purge(app, shuffle, deleted)).store;
            && (forall u :: u in t.locks <==> u in s.locks && !Matches(u, app, shuffle))
            && (forall slot: SlotId | !Matches(slot.uid, app, shuffle) :: slot in t.meta <==> slot in s.meta)
            && (forall slot | slot in t.meta :: slot in s.meta && t.meta[slot] == s.meta[slot])
            && ((forall slot | slot in t.meta :: !Matches(slot.uid, app, shuffle))
                <==> (forall u | Matches(u, app, shuffle) :: !LateInsert(events, u)))
  {
    var w := Now(concurrency, events);
    RunKeepsSeats(concurrency, events);
    RunTells(concurrency, events);
    PurgeRemoves(w, app, shuffle, deleted);
    forall u ensures LeftBehind(w, u) <==> LateInsert(events, u) {
      LeftBehindIff(concurrency, events, u);
    }
    var t := Do(w, Purge(app, shuffle, deleted)).store;
    if u :| Matches(u, app, shuffle) && LateInsert(events, u) {
      var slot :| LeftAt(w, u, slot);
      assert slot in t.meta;
    } else {
      forall slot | slot in t.meta ensures !Matches(slot.uid, app, shuffle) {
        if Matches(slot.uid, app, shuffle) {
          assert LeftAt(w, slot.uid, slot);
          assert LeftBehind(w, slot.uid);
        }
      }
    }
  }

  // ---- purges that overlap no writer ----

  /** Every writer of what is purged has returned; a purge without a client disturbs nobody. */
  ghost predicate Undisturbing(w: World, e: Event) {
    forall v | v in w.store.writers && Strikes(w, e, w.store.writers[v].uid) :: w.store.writers[v].phase.Finished?
  }

  ghost predicate Quiet(concurrency: nat, events: seq<Event>)
    requires Happens(concurrency, events)
    decreases |events|
  {
    events == [] ||
    (Quiet(concurrency, events[..|events| - 1]) && Undisturbing(Now(concurrency, events[..|events| - 1]), events[|events| - 1]))
  }

  ghost predicate GroupDone(g: Group) { forall v | v in g.writers :: g.writers[v].phase.Finished? }

  ghost predicate AllDone(w: World) { forall i | 0 <= i < |w.gone| :: GroupDone(w.gone[i]) }

  lemma FinishedStays(s: State, a: Action)
    requires !a.Start? && a.w in s.writers && s.writers[a.w].phase.Finished?
    ensures !Enabled(s, a)
  {
  }

  lemma DoneWritesInStore(w: World, a: Action)
    requires AllDone(w) && CanDo(w, Write(a)) && !a.Start?
    ensures a.w in w.store.writers
  {
    forall i: nat ensures !CanInGroup(w, a, i) {
      if i < |w.gone| && a.w in w.gone[i].writers {
        assert GroupDone(w.gone[i]);
        FinishedStays(Seen(w, i), a);
      }
    }
  }

  lemma QuietKeepsDone(w: World, e: Event)
    requires AllDone(w) && CanDo(w, e) && Undisturbing(w, e)
    ensures AllDone(Do(w, e))
  {
    var n := Do(w, e);
    if e.Purge? {
      forall i | 0 <= i < |n.gone| ensures GroupDone(n.gone[i]) {
        assert i < |w.gone| ==> GroupDone(w.gone[i]);
      }
    } else if e.Write? && !e.a.Start? {
      DoneWritesInStore(w, e.a);
    }
  }

  lemma WriterHasLock(s: State, v: nat)
    requires Seats(s) && v in s.writers
    ensures s.writers[v].uid in s.locks
  {
    assert Seated(s.locks, v, s.writers[v]);
  }

  lemma QuietWriteLeavesNothing(w: World, a: Action, u: Uid)
    requires Seats(w.store) && a.w in w.store.writers && CanDo(w, Write(a)) && !a.Start? && !LeftBehind(w, u)
    ensures !LeftBehind(Do(w, Write(a)), u)
  {
    var n := Do(w, Write(a));
    WriterHasLock(w.store, a.w);
    var me := WriteShape(w, a, n);
    WriteLeaves(w, n, a, u, me);
  }

  lemma QuietLeavesNothing(w: World, e: Event, u: Uid)
    requires AllSeats(w) && AllDone(w) && CanDo(w, e) && !LeftBehind(w, u)
    ensures !LeftBehind(Do(w, e), u)
  {
    if e.Purge? {
      PurgeLeaves(w, e, u);
    } else if !e.Write? {
      SameStoreLeaves(w, Do(w, e), u);
    } else if e.a.Start? {
      StartLeaves(w, e, u);
    } else {
      DoneWritesInStore(w, e.a);
      QuietWriteLeavesNothing(w, e.a, u);
    }
  }

  /** After any run of writers and of purges that overlap no writer of what they purge, every cached offset
      belongs to a live lock, so any purge that finds a client is exact. */
  lemma {:induction false} QuietRunIsOwned(concurrency: nat, events: seq<Event>)
    requires Happens(concurrency, events) && Quiet(concurrency, events)
    ensures MetaOwned(Now(concurrency, events).store) && AllDone(Now(concurrency, events))
    ensures forall u :: !LeftBehind(Now(concurrency, events), u)
    decreases |events|
  {
    RunKeepsSeats(concurrency, events);
    if events != [] {
      var before, e := events[..|events| - 1], events[|events| - 1];
      var w := Now(concurrency, before);
      QuietRunIsOwned(concurrency, before);
      RunKeepsSeats(concurrency, before);
      QuietKeepsDone(w, e);
      forall u ensures !LeftBehind(Now(concurrency, events), u) {
        QuietLeavesNothing(w, e, u);
      }
    }
    var w := Now(concurrency, events);
    forall slot | slot in w.store.meta ensures Owned(w.store, slot) {
      assert !LeftBehind(w, slot.uid);
      assert !LeftAt(w, slot.uid, slot);
    }
  }

  // ---- runs that leave something behind ----

  lemma {:induction false} Extend(concurrency: nat, events: seq<Event>, e: Event)
    requires Happens(concurrency, events) && CanDo(Now(concurrency, events), e)
    ensures Happens(concurrency, events + [e]) && Now(concurrency, events + [e]) == Do(Now(concurrency, events), e)
  {
    assert (events + [e])[..|events + [e]| - 1] == events;
  }

  lemma {:induction false} ExtendTwo(concurrency: nat, events: seq<Event>, e: Event, f: Event)
    requires Happens(concurrency, events) && CanDo(Now(concurrency, events), e)
    requires CanDo(Do(Now(concurrency, events), e), f)
    ensures Happens(concurrency, events + [e, f])
    ensures Now(concurrency, events + [e, f]) == Do(Do(Now(concurrency, events), e), f)
  {
    Extend(concurrency, events, e);
    Extend(concurrency, events + [e], f);
    assert events + [e] + [f] == events + [e, f];
  }

  /** Writer 0 alone, in the given phase, with no cached offset yet. */
  ghost predicate Alone(w: World, u: Uid, blocks: seq<Block>, p: Phase) {
    w.gone == [] && w.store.writers == map[0 := Writer(u, blocks, p)] && w.store.meta == map[] && u in w.store.locks
  }

  ghost predicate HasIndexFor(lock: Lock.Sem) { Lock.Enabled(lock, Lock.PopIndex(0)) && lock.deque != [] }

  lemma ToPermit(w: World, u: Uid, blocks: seq<Block>, concurrency: nat)
    requires concurrency > 0 && w.store == Init(concurrency) && w.gone == []
    ensures CanDo(w, Write(Start(0, u, blocks)))
    ensures var n := Do(w, Write(Start(0, u, blocks)));
            && CanDo(n, Write(TakePermit(0)))
            && var m := Do(n, Write(TakePermit(0)));
               Alone(m, u, blocks, Permitted) && HasIndexFor(m.store.locks[u]) && m.clients == w.clients
  {
    assert Lock.Indexes(concurrency) != [];
    assert Alone(Do(w, Write(Start(0, u, blocks))), u, blocks, Queued);
  }

  lemma ToIndex(w: World, u: Uid, blocks: seq<Block>)
    requires Alone(w, u, blocks, Permitted) && HasIndexFor(w.store.locks[u])
    ensures CanDo(w, Write(TakeIndex(0)))
    ensures var n := Do(w, Write(TakeIndex(0)));
            && Alone(n, u, blocks, Picked(w.store.locks[u].deque[0])) && n.clients == w.clients
            && 0 in n.store.locks[u].holding && !n.store.locks[u].panicked
  {
  }

  lemma ToMeta(w: World, u: Uid, blocks: seq<Block>, idx: nat)
    requires Alone(w, u, blocks, Picked(idx)) && u.appId in w.clients
    ensures CanDo(w, Lookup(0))
    ensures var n := Do(w, Lookup(0));
            && CanDo(n, Write(ReadMeta(0)))
            && var m := Do(n, Write(ReadMeta(0)));
               Alone(m, u, blocks, Missing(idx)) && m.clients == w.clients
  {
    assert Picks(w, 0, u);
  }

  lemma ToFiles(w: World, u: Uid, blocks: seq<Block>, idx: nat)
    requires Alone(w, u, blocks, Missing(idx))
    ensures CanDo(w, Write(TouchData(0)))
    ensures var n := Do(w, Write(TouchData(0)));
            && CanDo(n, Write(TouchIndex(0)))
            && var m := Do(n, Write(TouchIndex(0)));
               Alone(m, u, blocks, FilesTouched(idx)) && m.clients == w.clients
  {
    assert Alone(Do(w, Write(TouchData(0))), u, blocks, DataTouched(idx));
  }

  lemma ToLateInsert(w: World, u: Uid, blocks: seq<Block>, idx: nat, deleted: bool)
    requires Alone(w, u, blocks, FilesTouched(idx)) && u.appId in w.clients
    ensures CanDo(Do(w, Purge(u.appId, None, deleted)), Write(InsertMeta(0)))
  {
    var n := Do(w, Purge(u.appId, None, deleted));
    assert CanInGroup(n, InsertMeta(0), 0);
  }

  /** Whoever comes first: a registration and the writer's first steps. */
  function Opening(u: Uid, blocks: seq<Block>, registered: bool): seq<Event> {
    (if registered then [Register(u.appId)] else []) + [Write(Start(0, u, blocks)), Write(TakePermit(0)), Write(TakeIndex(0))]
  }

  lemma OpeningHappens(u: Uid, blocks: seq<Block>, concurrency: nat, registered: bool, events: seq<Event>) returns (idx: nat)
    requires concurrency > 0 && events == Opening(u, blocks, registered)
    ensures Happens(concurrency, events)
    ensures var w := Now(concurrency, events);
            && Alone(w, u, blocks, Picked(idx)) && (u.appId in w.clients <==> registered)
            && 0 in w.store.locks[u].holding && !w.store.locks[u].panicked
  {
    var first: seq<Event> := if registered then [Register(u.appId)] else [];
    if registered {
      Extend(concurrency, [], Register(u.appId));
      assert [] + [Register(u.appId)] == first;
    }
    var start, permit, index := Write(Start(0, u, blocks)), Write(TakePermit(0)), Write(TakeIndex(0));
    var w0 := Now(concurrency, first);
    ToPermit(w0, u, blocks, concurrency);
    ExtendTwo(concurrency, first, start, permit);
    var w1 := Now(concurrency, first + [start, permit]);
    ToIndex(w1, u, blocks);
    idx := w1.store.locks[u].deque[0];
    Extend(concurrency, first + [start, permit], index);
    assert first + [start, permit] + [index] == events;
  }

  /** The writer creates its slot's files... */
  function Touching(u: Uid, blocks: seq<Block>): seq<Event> {
    Opening(u, blocks, true) + [Lookup(0), Write(ReadMeta(0))] + [Write(TouchData(0)), Write(TouchIndex(0))]
  }

  /** ...the application is purged, and the writer caches its offset. */
  function Overlap(u: Uid, blocks: seq<Block>, deleted: bool): seq<Event> {
    Touching(u, blocks) + [Purge(u.appId, None, deleted), Write(InsertMeta(0))]
  }

  lemma TouchingHappens(u: Uid, blocks: seq<Block>, concurrency: nat) returns (idx: nat)
    requires concurrency > 0
    ensures Happens(concurrency, Touching(u, blocks))
    ensures var w := Now(concurrency, Touching(u, blocks)); Alone(w, u, blocks, FilesTouched(idx)) && u.appId in w.clients
  {
    var open := Opening(u, blocks, true);
    idx := OpeningHappens(u, blocks, concurrency, true, open);
    ToMeta(Now(concurrency, open), u, blocks, idx);
    ExtendTwo(concurrency, open, Lookup(0), Write(ReadMeta(0)));
    var next := open + [Lookup(0), Write(ReadMeta(0))];
    ToFiles(Now(concurrency, next), u, blocks, idx);
    ExtendTwo(concurrency, next, Write(TouchData(0)), Write(TouchIndex(0)));
  }

  lemma {:induction false} OverlapHappens(u: Uid, blocks: seq<Block>, concurrency: nat, deleted: bool)
    requires concurrency > 0
    ensures Happens(concurrency, Overlap(u, blocks, deleted))
  {
    var idx := TouchingHappens(u, blocks, concurrency);
    ToLateInsert(Now(concurrency, Touching(u, blocks)), u, blocks, idx, deleted);
    ExtendTwo(concurrency, Touching(u, blocks), Purge(u.appId, None, deleted), Write(InsertMeta(0)));
  }

  predicate AllPurges(events: seq<Event>) { forall i | 0 <= i < |events| :: events[i].Purge? }

  lemma {:induction false} PurgesHappen(concurrency: nat, events: seq<Event>, purges: seq<Event>)
    requires Happens(concurrency, events) && AllPurges(purges)
    ensures Happens(concurrency, events + purges)
    decreases |purges|
  {
    if purges == [] {
      assert events + purges == events;
    } else {
      var n := |purges| - 1;
      PurgesHappen(concurrency, events, purges[..n]);
      Extend(concurrency, events + purges[..n], purges[n]);
      assert events + purges[..n] + [purges[n]] == events + purges;
    }
  }

  /** Such a run exists for every partition and every concurrency, and it leaves an offset behind; after any
      further purges it is still there. */
  lemma {:induction false} OverlappingPurgeLeavesMeta(u: Uid, blocks: seq<Block>, concurrency: nat, deleted: bool, purges: seq<Event>)
    requires concurrency > 0 && AllPurges(purges)
    ensures Happens(concurrency, Overlap(u, blocks, deleted) + purges)
    ensures LeftBehind(Now(concurrency, Overlap(u, blocks, deleted) + purges), u)
  {
    OverlapHappens(u, blocks, concurrency, deleted);
    PurgesHappen(concurrency, Overlap(u, blocks, deleted), purges);
    OverlapIsLate(u, blocks, deleted, purges);
    LeftBehindIff(concurrency, Overlap(u, blocks, deleted) + purges, u);
  }

  lemma OverlapIsLate(u: Uid, blocks: seq<Block>, deleted: bool, purges: seq<Event>)
    requires AllPurges(purges)
    ensures LateInsert(Overlap(u, blocks, deleted) + purges, u)
  {
    var events := Overlap(u, blocks, deleted) + purges;
    forall m | 8 < m < |events| ensures !StartOn(events[m], u) {
      assert m >= 10 ==> events[m] == purges[m - 10];
    }
    assert RegisteredFrom(events[..8], u.appId, 0);
    assert StartsAt(events, 1, 0, u) && PurgesAt(events, 8, u) && events[9] == Write(InsertMeta(0));
    assert LateInsertAt(events, u, 0, 1, 8, 9);
  }

  // ---- without a client ----

  /** Nobody registers the application again. */
  predicate NoRegister(events: seq<Event>, app: string) { forall i | 0 <= i < |events| :: events[i] != Register(app) }

  /** An application that is not registered stays so until it is registered again, and until then its locks
      and cached offsets only grow: purges remove none of them. */
  lemma {:induction false} UnregisteredOnlyGrows(concurrency: nat, events: seq<Event>, more: seq<Event>, u: Uid)
    requires Happens(concurrency, events + more) && Happens(concurrency, events)
    requires !Registered(events, u.appId) && NoRegister(more, u.appId)
    ensures !Registered(events + more, u.appId)
    ensures u in Now(concurrency, events).store.locks ==> u in Now(concurrency, events + more).store.locks
    ensures forall slot | slot in Now(concurrency, events).store.meta && slot.uid == u ::
              slot in Now(concurrency, events + more).store.meta
    decreases |more|
  {
    if more == [] {
      assert events + more == events;
    } else {
      var n := |more| - 1;
      var before, e := events + more[..n], more[n];
      assert before + [e] == events + more;
      assert (events + more)[..|events + more| - 1] == before;
      UnregisteredOnlyGrows(concurrency, events, more[..n], u);
      RegisteredSnoc(before, e, u.appId);
      RunTells(concurrency, before);
      DoLocks(Now(concurrency, before), e, u);
      KeepsMeta(Now(concurrency, before), e, u);
    }
  }

  lemma KeepsMeta(w: World, e: Event, u: Uid)
    requires CanDo(w, e) && !Strikes(w, e, u)
    ensures forall slot | slot in w.store.meta && slot.uid == u :: slot in Do(w, e).store.meta
  {
    if e.Write? {
      if e.a.Start? {
        StepKeys(w.store, e.a);
      } else {
        var _ := WriteShape(w, e.a, Do(w, e));
      }
    }
  }

  /** The insert of a writer whose application was never registered: it opens its lock, finds no client and
      returns. */
  function Refused(u: Uid, blocks: seq<Block>): seq<Event> {
    Opening(u, blocks, false) + [Write(Abort(0)), Write(PushBack(0)), Write(Release(0))]
  }

  lemma ToLeave(w: World, u: Uid, blocks: seq<Block>, idx: nat)
    requires Alone(w, u, blocks, Picked(idx))
    ensures CanDo(w, Write(Abort(0)))
    ensures var n := Do(w, Write(Abort(0))); Alone(n, u, blocks, Leaving(idx, false)) && n.store.locks == w.store.locks
  {
  }

  lemma ToReturn(w: World, u: Uid, blocks: seq<Block>, idx: nat)
    requires Alone(w, u, blocks, Leaving(idx, false)) && 0 in w.store.locks[u].holding && !w.store.locks[u].panicked
    ensures CanDo(w, Write(PushBack(0)))
    ensures var n := Do(w, Write(PushBack(0)));
            && CanDo(n, Write(Release(0)))
            && Alone(Do(n, Write(Release(0))), u, blocks, Finished(false))
  {
    var n := Do(w, Write(PushBack(0)));
    assert Alone(n, u, blocks, Pushed(false)) && 0 in n.store.locks[u].returned && !n.store.locks[u].panicked;
  }

  lemma {:induction false} RefusedHappens(u: Uid, blocks: seq<Block>, concurrency: nat)
    requires concurrency > 0
    ensures Happens(concurrency, Refused(u, blocks)) && u in Now(concurrency, Refused(u, blocks)).store.locks
  {
    var open := Opening(u, blocks, false);
    var idx := OpeningHappens(u, blocks, concurrency, false, open);
    ToLeave(Now(concurrency, open), u, blocks, idx);
    Extend(concurrency, open, Write(Abort(0)));
    var next := open + [Write(Abort(0))];
    ToReturn(Now(concurrency, next), u, blocks, idx);
    ExtendTwo(concurrency, next, Write(PushBack(0)), Write(Release(0)));
    assert next + [Write(PushBack(0)), Write(Release(0))] == Refused(u, blocks);
  }

  /** Its lock is still there after any purges, although its only writer has returned. */
  lemma {:induction false} UnregisteredLockStays(u: Uid, blocks: seq<Block>, concurrency: nat, purges: seq<Event>)
    requires concurrency > 0 && AllPurges(purges)
    ensures Happens(concurrency, Refused(u, blocks) + purges)
    ensures u in Now(concurrency, Refused(u, blocks) + purges).store.locks
  {
    var run := Refused(u, blocks);
    RefusedHappens(u, blocks, concurrency);
    PurgesHappen(concurrency, run, purges);
    assert forall i | 0 <= i < |run| :: run[i] != Register(u.appId);
    UnregisteredOnlyGrows(concurrency, run, purges, u);
  }

  lemma OverlapUnregisters(u: Uid, blocks: seq<Block>, deleted: bool, e: Event)
    requires e.Write?
    ensures !Registered(Overlap(u, blocks, deleted) + [e], u.appId)
  {
    var events := Overlap(u, blocks, deleted) + [e];
    assert AppPurge(events[8], u.appId);
    forall i: nat ensures !RegisteredFrom(events, u.appId, i) {
      assert i < |events| && events[i] == Register(u.appId) ==> i == 0;
    }
  }

  lemma KnownStarted(events: seq<Event>, w: World, v: nat, t: Uid) returns (i: nat)
    requires WritersTold(events, w) && (Here(w, v, t) || Gone(w, v, t))
    ensures StartsAt(events, i, v, t)
  {
    if Here(w, v, t) {
      i :| StartsAt(events, i, v, t) && NoPurgeAfter(events, i, t);
    } else {
      var j: nat;
      i, j :| Overtaken(events, v, t, i, j);
    }
  }

  ghost predicate NeverStarted(events: seq<Event>, v: nat) { forall i: nat, t :: !StartsAt(events, i, v, t) }

  lemma {:induction false} NeverStartedIsUnknown(concurrency: nat, events: seq<Event>, v: nat)
    requires Happens(concurrency, events) && NeverStarted(events, v)
    ensures Unknown(Now(concurrency, events), v)
  {
    var w := Now(concurrency, events);
    RunTells(concurrency, events);
    if v in w.store.writers {
      var i := KnownStarted(events, w, v, w.store.writers[v].uid);
    }
    forall i: nat | i < |w.gone| ensures v !in w.gone[i].writers {
      if v in w.gone[i].writers {
        assert GoneIn(w, v, w.gone[i].writers[v].uid, i);
        var j := KnownStarted(events, w, v, w.gone[i].writers[v].uid);
      }
    }
  }

  lemma OverlapStartsOne(u: Uid, blocks: seq<Block>, deleted: bool)
    ensures NeverStarted(Overlap(u, blocks, deleted), 1)
  {
    var events := Overlap(u, blocks, deleted);
    forall i: nat, t ensures !StartsAt(events, i, 1, t) {
      assert i < |events| && events[i].Write? && events[i].a.Start? ==> i == 1;
    }
  }

  /** A next writer gives the offset left behind a lock again, but while the application is not registered no
      purge takes either. */
  lemma {:induction false} RestartedOffsetStays(u: Uid, blocks: seq<Block>, concurrency: nat, deleted: bool, others: seq<Block>, purges: seq<Event>)
    requires concurrency > 0 && AllPurges(purges)
    ensures var events := Overlap(u, blocks, deleted) + [Write(Start(1, u, others))] + purges;
            && Happens(concurrency, events)
            && u in Now(concurrency, events).store.locks
            && exists slot :: slot in Now(concurrency, events).store.meta && slot.uid == u
  {
    var run, start := Overlap(u, blocks, deleted), Write(Start(1, u, others));
    OverlappingPurgeLeavesMeta(u, blocks, concurrency, deleted, []);
    assert run + [] == run;
    var w := Now(concurrency, run);
    OverlapStartsOne(u, blocks, deleted);
    NeverStartedIsUnknown(concurrency, run, 1);
    var slot :| LeftAt(w, u, slot);
    Extend(concurrency, run, start);
    DoLocks(w, start, u);
    KeepsMeta(w, start, u);
    PurgesHappen(concurrency, run + [start], purges);
    OverlapUnregisters(u, blocks, deleted, start);
    UnregisteredOnlyGrows(concurrency, run + [start], purges, u);
    assert slot in Now(concurrency, run + [start] + purges).store.meta;
  }
}
