/** What purging an application or a shuffle removes from the HDFS store. */
module HdfsPurge {
  import opened Bytes
  import opened Blocks
  import opened FileFormat
  import opened Paths
  import opened Sums
  import opened HdfsProtocol
  import opened HdfsSeats
  import opened HdfsNames
  import Lock = IndexSemaphore

  /** The partition belongs to what is purged. */
  predicate Matches(uid: Uid, app: string, shuffle: Option<I32>) {
    uid.appId == app && (shuffle.Some? ==> uid.shuffleId == shuffle.value)
  }

  function Dir(app: string, shuffle: Option<I32>): string {
    match shuffle
    case Some(id) => ShuffleDir(app, id)
    case None => AppDir(app)
  }

  // ---- on ids ----

  /** A cached meta belongs to a live lock and to an index below the write concurrency. */
  ghost predicate Owned(s: State, slot: SlotId) { slot.uid in s.locks && slot.idx < s.concurrency }

  ghost predicate MetaOwned(s: State) { forall slot | slot in s.meta :: Owned(s, slot) }

  ghost function PurgedLocks(s: State, app: string, shuffle: Option<I32>): set<Uid> {
    set uid | uid in s.locks && Matches(uid, app, shuffle)
  }

  ghost function PurgedSlots(s: State, app: string, shuffle: Option<I32>): set<SlotId> {
    set slot | slot in s.meta && Matches(slot.uid, app, shuffle) && Owned(s, slot)
  }

  ghost function PurgedPairs(s: State, app: string, shuffle: Option<I32>): set<PairId> {
    set id | id in s.pairs && Matches(id.slot.uid, app, shuffle)
  }

  ghost function PurgedWriters(s: State, app: string, shuffle: Option<I32>): set<nat> {
    set w | w in s.writers && Matches(s.writers[w].uid, app, shuffle)
  }

  /** The walk over the locks decides everything: their slots' metas go with them, and the directory is
      deleted only if some lock matched. Writers of a removed lock no longer belong to the store. */
  ghost function Purged(s: State, app: string, shuffle: Option<I32>, deleted: bool): State {
    var gone := PurgedLocks(s, app, shuffle);
    s.(locks := s.locks - gone,
       meta := s.meta - PurgedSlots(s, app, shuffle),
       writers := s.writers - PurgedWriters(s, app, shuffle),
       pairs := if gone != {} && deleted then s.pairs - PurgedPairs(s, app, shuffle) else s.pairs)
  }

  /** A purge removes exactly the locks and cached offsets of what is purged, and keeps the rest as it was. */
  lemma PurgeIsExact(s: State, app: string, shuffle: Option<I32>, deleted: bool)
    requires MetaOwned(s)
    ensures var t := Purged(s, app, shuffle, deleted);
      && (forall uid :: uid in t.locks <==> uid in s.locks && !Matches(uid, app, shuffle))
      && (forall uid | uid in t.locks :: t.locks[uid] == s.locks[uid])
      && (forall slot :: slot in t.meta <==> slot in s.meta && !Matches(slot.uid, app, shuffle))
      && (forall slot | slot in t.meta :: t.meta[slot] == s.meta[slot])
      && MetaOwned(t)
    ensures var t, taken := Purged(s, app, shuffle, deleted), exists uid :: uid in s.locks && Matches(uid, app, shuffle);
      && (forall id :: id in t.pairs <==> id in s.pairs && !(taken && deleted && Matches(id.slot.uid, app, shuffle)))
      && (forall id | id in t.pairs :: t.pairs[id] == s.pairs[id])
  {
    forall slot | slot in s.meta ensures Owned(s, slot) {
    }
    assert (exists uid :: uid in s.locks && Matches(uid, app, shuffle)) <==> PurgedLocks(s, app, shuffle) != {} by {
      if uid :| uid in s.locks && Matches(uid, app, shuffle) {
        assert uid in PurgedLocks(s, app, shuffle);
      }
    }
  }

  /** A purge takes whole locks with all their writers, so seats survive on both sides. */
  lemma SplitKeepsSeats(s: State, t: State)
    requires Seats(s) && t.concurrency == s.concurrency
    requires forall u | u in t.locks :: u in s.locks && t.locks[u] == s.locks[u]
    requires forall v | v in t.writers :: v in s.writers && t.writers[v] == s.writers[v] && t.writers[v].uid in t.locks
    ensures Seats(t)
  {
    forall v | v in t.writers ensures Seated(t.locks, v, t.writers[v]) {
      assert Seated(s.locks, v, s.writers[v]);
    }
  }

  lemma PurgedKeepsSeats(s: State, app: string, shuffle: Option<I32>, deleted: bool)
    requires Seats(s)
    ensures Seats(Purged(s, app, shuffle, deleted))
  {
    assert forall v | v in s.writers :: Seated(s.locks, v, s.writers[v]);
    SplitKeepsSeats(s, Purged(s, app, shuffle, deleted));
  }

  // ---- on strings ----

  predicate SlashFree(uid: Uid) { Free('/', uid.appId) }

  ghost predicate AllSlashFree(s: State) {
    && (forall uid | uid in s.locks :: SlashFree(uid))
    && (forall slot | slot in s.meta :: SlashFree(slot.uid))
    && (forall id | id in s.pairs :: SlashFree(id.slot.uid))
  }

  lemma DirMatches(app: string, shuffle: Option<I32>, uid: Uid, worker: string)
    requires Free('/', app) && SlashFree(uid)
    ensures Dir(app, shuffle) <= LockKey(uid, worker) <==> Matches(uid, app, shuffle)
  {
    match shuffle
    case Some(id) => ShuffleDirMatches(app, id, uid, worker);
    case None => AppDirMatches(app, uid, worker);
  }

  ghost function DirKeys(locks: map<string, Lock.Sem>, dir: string): set<string> { set k | k in locks && dir <= k }

  ghost function SlotKeys(keys: set<string>, concurrency: nat): set<string> {
    set k, i: nat | k in keys && i < concurrency :: Slot(k, i)
  }

  ghost predicate InSlotKeys(x: string, keys: set<string>, concurrency: nat) {
    exists k, i: nat :: k in keys && i < concurrency && x == Slot(k, i)
  }

  /** The directory prefix picks out the locks of exactly the purged partitions. */
  lemma LocksPurged(s: State, locks: map<string, Lock.Sem>, worker: string, app: string, shuffle: Option<I32>)
    requires Renders(locks, s.locks, LockNamer(worker)) && Free('/', app) && AllSlashFree(s)
    ensures forall uid | uid in s.locks ::
      LockNamer(worker)(uid) in DirKeys(locks, Dir(app, shuffle)) <==> uid in PurgedLocks(s, app, shuffle)
  {
    forall uid | uid in s.locks
      ensures LockNamer(worker)(uid) in DirKeys(locks, Dir(app, shuffle)) <==> uid in PurgedLocks(s, app, shuffle)
    {
      assert SlashFree(uid) && LockNamer(worker)(uid) in locks;
      DirMatches(app, shuffle, uid, worker);
    }
  }

  /** The removed meta keys are those of the purged partitions' slots. */
  lemma MetaPurged(s: State, locks: map<string, Lock.Sem>, worker: string, app: string, shuffle: Option<I32>)
    requires Renders(locks, s.locks, LockNamer(worker)) && Free('/', app) && AllSlashFree(s)
    ensures var keys := SlotKeys(DirKeys(locks, Dir(app, shuffle)), s.concurrency);
      forall slot | slot in s.meta :: SlotNamer(worker)(slot) in keys <==> slot in PurgedSlots(s, app, shuffle)
  {
    var dirKeys := DirKeys(locks, Dir(app, shuffle));
    var keys := SlotKeys(dirKeys, s.concurrency);
    NamesInjective(worker);
    forall slot | slot in s.meta ensures SlotNamer(worker)(slot) in keys <==> slot in PurgedSlots(s, app, shuffle) {
      var name, key := SlotNamer(worker)(slot), LockKey(slot.uid, worker);
      assert SlashFree(slot.uid) && name == Slot(key, slot.idx);
      DirMatches(app, shuffle, slot.uid, worker);
      RendersIn(locks, s.locks, LockNamer(worker), slot.uid);
      assert LockNamer(worker)(slot.uid) == key;
      if name in keys {
        var k, i: nat :| k in dirKeys && i < s.concurrency && name == Slot(k, i);
        SlotInjective(k, i, key, slot.idx);
      }
    }
  }

  lemma FileUnderDir(worker: string, f: FileId, app: string, shuffle: Option<I32>)
    requires Free('/', app) && SlashFree(f.pair.slot.uid)
    ensures Dir(app, shuffle) <= FileName(worker, f) <==> Matches(f.pair.slot.uid, app, shuffle)
  {
    var uid, idx, retry := f.pair.slot.uid, f.pair.slot.idx, f.pair.retry;
    var key := LockKey(uid, worker);
    var end := if f.DataOf? then ".data" else ".index";
    assert FileName(worker, f) == Join(Join(key, '_', Decimal(idx)), '_', Decimal(retry)) + end;
    FileTail(key, Decimal(idx), Decimal(retry), end);
    LockKeyTail(uid, worker, ['_'] + Decimal(idx) + ['_'] + Decimal(retry) + end);
    DirMatches(app, shuffle, uid, worker + (['_'] + Decimal(idx) + ['_'] + Decimal(retry) + end));
  }

  lemma FileTail(key: string, a: string, b: string, end: string)
    ensures Join(Join(key, '_', a), '_', b) + end == key + (['_'] + a + ['_'] + b + end)
  {
  }

  lemma LockKeyTail(uid: Uid, worker: string, tail: string)
    ensures LockKey(uid, worker) + tail == LockKey(uid, worker + tail)
  {
    var dir := PartitionDir(uid);
    assert Join(dir, '/', worker) + tail == Join(dir, '/', worker + tail);
  }

  lemma KeysFound(s: State, locks: map<string, Lock.Sem>, worker: string, app: string, shuffle: Option<I32>)
    requires Renders(locks, s.locks, LockNamer(worker)) && Free('/', app) && AllSlashFree(s)
    ensures DirKeys(locks, Dir(app, shuffle)) == {} <==> PurgedLocks(s, app, shuffle) == {}
  {
    LocksPurged(s, locks, worker, app, shuffle);
    var keys, gone := DirKeys(locks, Dir(app, shuffle)), PurgedLocks(s, app, shuffle);
    if keys != {} {
      var k :| k in keys;
      assert IsNamed(k, s.locks, LockNamer(worker));
      var uid :| uid in s.locks && LockNamer(worker)(uid) == k;
      assert uid in gone;
    }
    if gone != {} {
      var uid :| uid in gone;
      assert LockNamer(worker)(uid) in keys;
    }
  }

  /** Deleting the directory deletes exactly the purged partitions' files. */
  lemma FilesPurged(s: State, files: map<string, seq<Byte>>, worker: string, app: string, shuffle: Option<I32>)
    requires RendersFiles(files, s.pairs, FileNamer(worker)) && Free('/', app) && AllSlashFree(s)
    ensures var dir := Dir(app, shuffle);
      RendersFiles(map p | p in files && !(dir <= p) :: files[p], s.pairs - PurgedPairs(s, app, shuffle), FileNamer(worker))
  {
    var dir := Dir(app, shuffle);
    var left := map p | p in files && !(dir <= p) :: files[p];
    var pairs := s.pairs - PurgedPairs(s, app, shuffle);
    forall f ensures Contents(left, FileNamer(worker)(f)) == BytesOf(pairs, f) {
      var name := FileNamer(worker)(f);
      assert Contents(files, name) == BytesOf(s.pairs, f) && name == FileName(worker, f);
      if f.pair in s.pairs {
        FileUnderDir(worker, f, app, shuffle);
      }
    }
  }

  /** The metas that remain are those of other slots. */
  ghost predicate Survive(before: map<string, Meta>, now: map<string, Meta>, keys: set<string>, concurrency: nat) {
    forall x :: x in now <==> x in before && !InSlotKeys(x, keys, concurrency)
  }

  lemma SurviveNone(m: map<string, Meta>, keys: set<string>, concurrency: nat)
    requires keys == {} || concurrency == 0
    ensures Survive(m, m, keys, concurrency)
  {
  }

  lemma SurviveNext(before: map<string, Meta>, now: map<string, Meta>, key: string, idx: nat)
    requires Survive(before, now, {key}, idx)
    ensures Survive(before, now - {Slot(key, idx)}, {key}, idx + 1)
  {
    forall x ensures InSlotKeys(x, {key}, idx + 1) <==> InSlotKeys(x, {key}, idx) || x == Slot(key, idx) {
      if InSlotKeys(x, {key}, idx + 1) {
        var k, i: nat :| k in {key} && i < idx + 1 && x == Slot(k, i);
        if i < idx {
          assert InSlotKeys(x, {key}, idx);
        }
      }
    }
  }

  lemma SurviveBoth(m0: map<string, Meta>, m1: map<string, Meta>, m2: map<string, Meta>, done: set<string>, key: string, concurrency: nat)
    requires Survive(m0, m1, done, concurrency) && Survive(m1, m2, {key}, concurrency)
    ensures Survive(m0, m2, done + {key}, concurrency)
  {
    forall x
      ensures InSlotKeys(x, done + {key}, concurrency) <==> InSlotKeys(x, done, concurrency) || InSlotKeys(x, {key}, concurrency)
    {
      if InSlotKeys(x, done + {key}, concurrency) {
        var k, i: nat :| k in done + {key} && i < concurrency && x == Slot(k, i);
        assert k in done || k in {key};
      }
    }
  }

  lemma MinusBoth<V>(m: map<string, V>, done: set<string>, key: string)
    ensures m - done - {key} == m - (done + {key})
  {
  }

  lemma StillLeft(keys: set<string>, left: set<string>, key: string)
    requires left <= keys && key in left
    ensures keys - left + {key} == keys - (left - {key}) && left - {key} <= keys && |left - {key}| < |left|
  {
  }

  lemma SurvivorsRender(before: map<string, Meta>, now: map<string, Meta>, keys: set<string>, concurrency: nat)
    requires Survive(before, now, keys, concurrency) && forall x | x in now :: now[x] == before[x]
    ensures now == before - SlotKeys(keys, concurrency)
  {
    forall x ensures x in SlotKeys(keys, concurrency) <==> InSlotKeys(x, keys, concurrency) {
    }
  }

  /** Purging by name is purging by id. */
  lemma PurgeRenders(s: State, locks: map<string, Lock.Sem>, meta: map<string, Meta>, worker: string, app: string, shuffle: Option<I32>)
    requires Renders(locks, s.locks, LockNamer(worker)) && Renders(meta, s.meta, SlotNamer(worker))
    requires Free('/', app) && AllSlashFree(s)
    ensures var keys, t := DirKeys(locks, Dir(app, shuffle)), Purged(s, app, shuffle, false);
      && Renders(locks - keys, t.locks, LockNamer(worker))
      && Renders(meta - SlotKeys(keys, s.concurrency), t.meta, SlotNamer(worker))
      && (keys == {} <==> PurgedLocks(s, app, shuffle) == {})
  {
    var keys := DirKeys(locks, Dir(app, shuffle));
    NamesInjective(worker);
    LocksPurged(s, locks, worker, app, shuffle);
    MetaPurged(s, locks, worker, app, shuffle);
    KeysFound(s, locks, worker, app, shuffle);
    RendersKeep(locks, s.locks, LockNamer(worker), keys, PurgedLocks(s, app, shuffle));
    RendersKeep(meta, s.meta, SlotNamer(worker), SlotKeys(keys, s.concurrency), PurgedSlots(s, app, shuffle));
  }

  // ---- adding up what was removed ----

  function Lengths(meta: map<string, Meta>): map<string, int> { map k | k in meta :: meta[k].dataLen }

  /** The metas still there are as before, and the size covers those removed. */
  ghost predicate Accounts(before: map<string, Meta>, now: map<string, Meta>, size: int) {
    && now.Keys <= before.Keys && (forall k | k in now :: now[k] == before[k])
    && size == WrapI64(SetSum(before.Keys - now.Keys, Lengths(before)))
  }

  lemma AccountsRemove(before: map<string, Meta>, now: map<string, Meta>, size: I64, x: string)
    requires Accounts(before, now, size) && x in now
    ensures Accounts(before, now - {x}, WrapI64(size + now[x].dataLen))
  {
    var gone := before.Keys - now.Keys;
    assert before.Keys - (now - {x}).Keys == gone + {x};
    SetSumRemove(gone + {x}, Lengths(before), x);
    assert gone + {x} - {x} == gone;
    WrapI64Add(SetSum(gone, Lengths(before)), now[x].dataLen);
  }
}
