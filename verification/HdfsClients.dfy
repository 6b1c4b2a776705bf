/** What the lookup of the client protects: an application that was never registered leaves nothing behind but
    locks, whatever its writers and everybody else do. */
module HdfsClients {
  import opened Bytes
  import opened Blocks
  import opened HdfsProtocol
  import opened HdfsSeats
  import opened HdfsPurge
  import opened HdfsPurgeRuns
  import HdfsRuns

  /** The writer has not got past the lookup of its client, or has failed there. */
  predicate Early(p: Phase) {
    match p
    case Queued => true
    case Permitted => true
    case Picked(_) => true
    case Leaving(_, ok) => !ok
    case Pushed(ok) => !ok
    case Finished(ok) => !ok
    case _ => false
  }

  lemma EarlyStays(s: State, a: Action)
    requires Enabled(s, a) && !a.Start? && !a.ReadMeta? && Early(s.writers[a.w].phase)
    ensures Step(s, a).meta == s.meta && Step(s, a).pairs == s.pairs
    ensures a.w in Step(s, a).writers && Early(Step(s, a).writers[a.w].phase)
  {
  }

  /** A writer touches only what carries its partition's name. */
  lemma StaysAtHome(s: State, a: Action, slot: SlotId, id: PairId)
    requires Enabled(s, a) && !a.Start?
    ensures slot in Step(s, a).meta ==> slot in s.meta || slot.uid == s.writers[a.w].uid
    ensures id in Step(s, a).pairs ==> id in s.pairs || id.slot.uid == s.writers[a.w].uid
  {
  }

  lemma OthersStay(s: State, a: Action, v: nat)
    requires Enabled(s, a) && v in s.writers && v != a.w
    ensures v in Step(s, a).writers && Step(s, a).writers[v] == s.writers[v]
  {
    if !a.Start? && !OnLock(a) {
      StepMoves(s, a);
    }
  }

  /** Nothing in the store carries the application's name but locks and writers. */
  ghost predicate Nameless(s: State, app: string) {
    (forall slot | slot in s.meta :: slot.uid.appId != app) && (forall id | id in s.pairs :: id.slot.uid.appId != app)
  }

  lemma StepKeepsNameless(s: State, a: Action, app: string)
    requires Nameless(s, app) && Enabled(s, a) && !a.Start?
    requires s.writers[a.w].uid.appId == app ==> Early(s.writers[a.w].phase) && !a.ReadMeta?
    ensures Nameless(Step(s, a), app)
  {
    if s.writers[a.w].uid.appId == app {
      EarlyStays(s, a);
    } else {
      var t := Step(s, a);
      forall slot | slot in t.meta ensures slot.uid.appId != app {
        StaysAtHome(s, a, slot, PairId(slot, 0));
      }
      forall id | id in t.pairs ensures id.slot.uid.appId != app {
        StaysAtHome(s, a, id.slot, id);
      }
    }
  }

  // ---- over all interleavings ----

  ghost predicate Known(w: World, v: nat) { v in w.store.writers || exists i | 0 <= i < |w.gone| :: v in w.gone[i].writers }

  /** No writer is at two places, and only writers that exist have found a client. */
  ghost predicate Apart(w: World) {
    && (forall i, v | 0 <= i < |w.gone| && v in w.gone[i].writers :: v !in w.store.writers)
    && (forall v | v in w.equipped :: Known(w, v))
  }

  /** None of the application's writers here has found a client. */
  ghost predicate AllEarly(s: State, equipped: set<nat>, app: string) {
    forall v | v in s.writers && s.writers[v].uid.appId == app :: v !in equipped && Early(s.writers[v].phase)
  }

  /** The application has no client, none of its writers ever found one, and nothing carries its name but locks. */
  ghost predicate Kept(w: World, app: string) {
    && app !in w.clients
    && AllEarly(w.store, w.equipped, app)
    && (forall i, v | 0 <= i < |w.gone| && v in w.gone[i].writers :: w.gone[i].writers[v].uid.appId != app)
    && Nameless(w.store, app)
  }

  lemma StartKeeps(w: World, a: Action, app: string)
    requires Apart(w) && Kept(w, app) && a.Start? && CanDo(w, Write(a))
    ensures Apart(Do(w, Write(a))) && Kept(Do(w, Write(a)), app)
  {
    var n := Do(w, Write(a));
    assert !Known(w, a.w);
    forall v | v in n.equipped ensures Known(n, v) {
      assert Known(w, v);
      KnownStays(w, n, v);
    }
  }

  lemma KnownStays(w: World, n: World, v: nat)
    requires Known(w, v) && |w.gone| <= |n.gone|
    requires v in w.store.writers ==> Known(n, v)
    requires forall i | 0 <= i < |w.gone| && v in w.gone[i].writers :: v in n.gone[i].writers
    ensures Known(n, v)
  {
    if v !in w.store.writers {
      var i :| 0 <= i < |w.gone| && v in w.gone[i].writers;
      assert v in n.gone[i].writers;
    }
  }

  lemma StepKeepsEarly(s: State, a: Action, equipped: set<nat>, app: string)
    requires AllEarly(s, equipped, app) && Enabled(s, a) && !a.Start? && (a.ReadMeta? ==> a.w in equipped)
    ensures AllEarly(Step(s, a), equipped, app)
  {
    var t := Step(s, a);
    forall v | v in t.writers && t.writers[v].uid.appId == app ensures v !in equipped && Early(t.writers[v].phase) {
      StepMembers(s, a, v);
      if v == a.w {
        EarlyStays(s, a);
      } else {
        OthersStay(s, a, v);
      }
    }
  }

  lemma StoreStepApart(w: World, a: Action)
    requires Apart(w) && !a.Start? && a.w in w.store.writers && CanDo(w, Write(a))
    ensures Apart(Do(w, Write(a)))
  {
    var n := Do(w, Write(a));
    forall v ensures v in n.store.writers <==> v in w.store.writers {
      StepMembers(w.store, a, v);
    }
    forall v | v in n.equipped ensures Known(n, v) {
      assert Known(w, v);
      KnownStays(w, n, v);
    }
  }

  lemma StoreStepKeeps(w: World, a: Action, app: string)
    requires Apart(w) && Kept(w, app) && !a.Start? && a.w in w.store.writers && CanDo(w, Write(a))
    ensures Apart(Do(w, Write(a))) && Kept(Do(w, Write(a)), app)
  {
    StoreStepApart(w, a);
    StepKeepsEarly(w.store, a, w.equipped, app);
    StepKeepsNameless(w.store, a, app);
  }

  lemma GroupStepKeeps(w: World, a: Action, i: nat, app: string)
    requires Apart(w) && Kept(w, app) && !a.Start? && CanInGroup(w, a, i)
    ensures Apart(InGroup(w, a, i)) && Kept(InGroup(w, a, i), app)
  {
    var s, n := Seen(w, i), InGroup(w, a, i);
    assert s.writers[a.w].uid.appId != app;
    forall v
      ensures v in n.gone[i].writers <==> v in w.gone[i].writers
      ensures v in n.gone[i].writers ==> n.gone[i].writers[v].uid == w.gone[i].writers[v].uid
    {
      StepMembers(s, a, v);
    }
    StepKeepsNameless(s, a, app);
    assert Nameless(n.store, app);
    forall v | v in n.equipped ensures Known(n, v) {
      assert Known(w, v);
      KnownStays(w, n, v);
    }
  }

  lemma PurgeKeeps(w: World, e: Event, app: string)
    requires Apart(w) && Kept(w, app) && e.Purge? && CanDo(w, e)
    ensures Apart(Do(w, e)) && Kept(Do(w, e), app)
  {
    var n := Do(w, e);
    if e.app in w.clients {
      forall v | v in n.equipped ensures Known(n, v) {
        assert Known(w, v);
        if v in w.store.writers && v !in n.store.writers {
          assert v in n.gone[|w.gone|].writers;
        }
        KnownStays(w, n, v);
      }
    }
  }

  lemma LookupKeeps(w: World, e: Event, app: string)
    requires Apart(w) && Kept(w, app) && e.Lookup? && CanDo(w, e)
    ensures Apart(Do(w, e)) && Kept(Do(w, e), app)
  {
    var n, v := Do(w, e), e.writer;
    var u :| Picks(w, v, u) && u.appId in w.clients;
    assert Known(w, v) && !(v in w.store.writers && w.store.writers[v].uid.appId == app);
    forall x | x in n.equipped ensures Known(n, x) {
      assert Known(w, x);
      KnownStays(w, n, x);
    }
  }

  lemma DoKeeps(w: World, e: Event, app: string)
    requires Apart(w) && Kept(w, app) && CanDo(w, e) && e != Register(app)
    ensures Apart(Do(w, e)) && Kept(Do(w, e), app)
  {
    match e
    case Register(other) =>
      var n := Do(w, e);
      forall v | v in n.equipped ensures Known(n, v) {
        assert Known(w, v);
        KnownStays(w, n, v);
      }
    case Lookup(_) => LookupKeeps(w, e, app);
    case Purge(_, _, _) => PurgeKeeps(w, e, app);
    case Write(a) =>
      if a.Start? {
        StartKeeps(w, a, app);
      } else if a.w in w.store.writers {
        StoreStepKeeps(w, a, app);
      } else {
        var i := GroupOf(w, a);
        GroupStepKeeps(w, a, i, app);
      }
  }

  lemma {:induction false} NeverRegisteredKept(concurrency: nat, events: seq<Event>, app: string)
    requires Happens(concurrency, events) && forall i | 0 <= i < |events| :: events[i] != Register(app)
    ensures Apart(Now(concurrency, events)) && Kept(Now(concurrency, events), app)
    decreases |events|
  {
    if events != [] {
      var before := events[..|events| - 1];
      assert forall i | 0 <= i < |before| :: before[i] == events[i];
      NeverRegisteredKept(concurrency, before, app);
      DoKeeps(Now(concurrency, before), events[|events| - 1], app);
    }
  }

  /** In every run, an application that was never registered has no cached offset and no file, and every insert of
      it that has returned has failed. */
  lemma {:induction false} NeverRegisteredLeavesNoFiles(concurrency: nat, events: seq<Event>, app: string)
    requires Happens(concurrency, events) && forall i | 0 <= i < |events| :: events[i] != Register(app)
    ensures var s := Now(concurrency, events).store;
      && (forall slot | slot in s.meta :: slot.uid.appId != app)
      && (forall id | id in s.pairs :: id.slot.uid.appId != app)
      && (forall v | v in s.writers && s.writers[v].uid.appId == app && s.writers[v].phase.Finished? :: !s.writers[v].phase.ok)
  {
    NeverRegisteredKept(concurrency, events, app);
  }
}
