/** The strings under which the HDFS store keeps its locks, metas and files, and why working on strings
    is the same as working on ids. */
module HdfsNames {
  import opened Bytes
  import opened Blocks
  import opened FileFormat
  import opened Paths
  import opened HdfsProtocol
  import Lock = IndexSemaphore

  datatype FileId = DataOf(pair: PairId) | IndexOf(pair: PairId)

  function SlotName(worker: string, slot: SlotId): string { Slot(LockKey(slot.uid, worker), slot.idx) }

  function FileName(worker: string, f: FileId): string {
    match f
    case DataOf(p) => DataFile(SlotName(worker, p.slot), p.retry)
    case IndexOf(p) => IndexFile(SlotName(worker, p.slot), p.retry)
  }

  function LockNamer(worker: string): Uid -> string { uid => LockKey(uid, worker) }

  function SlotNamer(worker: string): SlotId -> string { slot => SlotName(worker, slot) }

  function FileNamer(worker: string): FileId -> string { f => FileName(worker, f) }

  ghost predicate Injective<K(!new)>(name: K -> string) { forall a, b :: name(a) == name(b) ==> a == b }

  /** No two partitions share a lock key, no two slots a meta key, no two files a path. */
  lemma NamesInjective(worker: string)
    ensures Injective(LockNamer(worker)) && Injective(SlotNamer(worker)) && Injective(FileNamer(worker))
  {
    forall a, b | LockNamer(worker)(a) == LockNamer(worker)(b) ensures a == b {
      LockKeyInjective(a, b, worker);
    }
    forall a, b | SlotNamer(worker)(a) == SlotNamer(worker)(b) ensures a == b {
      SlotNameInjective(worker, a, b);
    }
    forall a, b | FileNamer(worker)(a) == FileNamer(worker)(b) ensures a == b {
      FileNameInjective(worker, a, b);
    }
  }

  lemma SlotNameInjective(worker: string, a: SlotId, b: SlotId)
    requires SlotName(worker, a) == SlotName(worker, b)
    ensures a == b
  {
    SlotInjective(LockKey(a.uid, worker), a.idx, LockKey(b.uid, worker), b.idx);
    LockKeyInjective(a.uid, b.uid, worker);
  }

  lemma FileNameInjective(worker: string, a: FileId, b: FileId)
    requires FileName(worker, a) == FileName(worker, b)
    ensures a == b
  {
    var s, t := SlotName(worker, a.pair.slot), SlotName(worker, b.pair.slot);
    FilesInjective(s, a.pair.retry, t, b.pair.retry);
    FilesInjective(t, b.pair.retry, s, a.pair.retry);
    SlotNameInjective(worker, a.pair.slot, b.pair.slot);
  }

  // ---- maps keyed by strings ----

  /** A map keyed by names holds exactly what the map keyed by ids holds. */
  ghost predicate Renders<K(!new), V>(m: map<string, V>, n: map<K, V>, name: K -> string) {
    && (forall k :: k in n ==> name(k) in m && m[name(k)] == n[k])
    && (forall x | x in m :: IsNamed(x, n, name))
  }

  ghost predicate IsNamed<K(!new), V>(x: string, n: map<K, V>, name: K -> string) { exists k :: k in n && name(k) == x }

  lemma RendersIn<K(!new), V>(m: map<string, V>, n: map<K, V>, name: K -> string, k: K)
    requires Injective(name) && Renders(m, n, name)
    ensures name(k) in m <==> k in n
  {
    if name(k) in m {
      assert IsNamed(name(k), n, name);
    }
  }

  lemma RendersPut<K(!new), V>(m: map<string, V>, n: map<K, V>, name: K -> string, k: K, v: V)
    requires Injective(name) && Renders(m, n, name)
    ensures Renders(m[name(k) := v], n[k := v], name)
  {
    var n' := n[k := v];
    forall x | x in m[name(k) := v] ensures IsNamed(x, n', name) {
      if x == name(k) {
        assert k in n';
      } else {
        var j :| j in n && name(j) == x;
        assert j in n';
      }
    }
  }

  /** Removing the names that match a test removes the ids that match. */
  lemma RendersKeep<K(!new), V>(m: map<string, V>, n: map<K, V>, name: K -> string, gone: set<string>, out: set<K>)
    requires Injective(name) && Renders(m, n, name)
    requires forall k | k in n :: name(k) in gone <==> k in out
    ensures Renders(m - gone, n - out, name)
  {
    forall x | x in m - gone ensures IsNamed(x, n - out, name) {
      var k :| k in n && name(k) == x;
      assert k in n - out;
    }
  }

  // ---- files ----

  ghost function PairIn(pairs: map<PairId, Pair>, id: PairId): Pair { if id in pairs then pairs[id] else FRESH }

  ghost function BytesOf(pairs: map<PairId, Pair>, f: FileId): seq<Byte> {
    if f.DataOf? then PairIn(pairs, f.pair).data else PairIn(pairs, f.pair).index
  }

  ghost predicate RendersFiles(files: map<string, seq<Byte>>, pairs: map<PairId, Pair>, name: FileId -> string) {
    forall f :: Contents(files, name(f)) == BytesOf(pairs, f)
  }

  /** The pairs after one file has been given new bytes. */
  ghost function WithFile(pairs: map<PairId, Pair>, f: FileId, bytes: seq<Byte>): map<PairId, Pair> {
    var p := PairIn(pairs, f.pair);
    pairs[f.pair := if f.DataOf? then p.(data := bytes) else p.(index := bytes)]
  }

  lemma FilePut(files: map<string, seq<Byte>>, pairs: map<PairId, Pair>, name: FileId -> string, f: FileId, bytes: seq<Byte>)
    requires Injective(name) && RendersFiles(files, pairs, name)
    ensures RendersFiles(files[name(f) := bytes], WithFile(pairs, f, bytes), name)
    ensures Contents(files, name(f)) == BytesOf(pairs, f)
  {
    forall g ensures Contents(files[name(f) := bytes], name(g)) == BytesOf(WithFile(pairs, f, bytes), g) {
      if g != f {
        assert name(g) != name(f);
      }
    }
  }

  ghost predicate SameBytes(p: map<PairId, Pair>, q: map<PairId, Pair>) { forall f :: BytesOf(q, f) == BytesOf(p, f) }

  lemma FilesSame(files: map<string, seq<Byte>>, p: map<PairId, Pair>, q: map<PairId, Pair>, name: FileId -> string)
    requires RendersFiles(files, p, name) && SameBytes(p, q)
    ensures RendersFiles(files, q, name)
  {
  }

  lemma MapPut<K(!new), V>(m: map<string, V>, n: map<K, V>, name: K -> string, k: K, v: V)
    requires Injective(name) && Renders(m, n, name)
    ensures Renders(m[name(k) := v], n[k := v], name)
    ensures name(k) in m <==> k in n
    ensures k in n ==> m[name(k)] == n[k]
  {
    RendersIn(m, n, name, k);
    RendersPut(m, n, name, k, v);
  }
}
