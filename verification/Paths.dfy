/** File and lock names built from application, shuffle and partition ids, and why distinct ids
    give distinct names. */
module Paths {
  import opened Bytes
  import opened Blocks

  /** Decimal rendering of a natural number (`{}` of `usize`). */
  function Decimal(n: nat): (s: string)
    ensures |s| > 0 && forall i | 0 <= i < |s| :: '0' <= s[i] <= '9'
  {
    if n < 10 then [DigitChar(n)] else Decimal(n / 10) + [DigitChar(n % 10)]
  }

  function DigitChar(d: nat): (c: char)
    requires d < 10
    ensures '0' <= c <= '9'
  {
    '0' + d as char
  }

  /** Decimal rendering of a signed integer (`{}` of `i32`). */
  function Signed(i: int): string {
    if i < 0 then "-" + Decimal(-i) else Decimal(i)
  }

  function Value(s: string): nat
    requires forall i | 0 <= i < |s| :: '0' <= s[i] <= '9'
  {
    if s == [] then 0 else 10 * Value(s[..|s| - 1]) + (s[|s| - 1] as int - '0' as int)
  }

  lemma {:induction false} ValueOfDecimal(n: nat)
    ensures Value(Decimal(n)) == n
  {
    if n < 10 {
      assert Decimal(n)[..0] == [];
    } else {
      ValueOfDecimal(n / 10);
      assert Decimal(n)[..|Decimal(n)| - 1] == Decimal(n / 10);
    }
  }

  lemma {:induction false} DecimalInjective(m: nat, n: nat)
    requires Decimal(m) == Decimal(n)
    ensures m == n
  {
    ValueOfDecimal(m);
    ValueOfDecimal(n);
  }

  lemma SignedInjective(i: int, j: int)
    requires Signed(i) == Signed(j)
    ensures i == j
  {
    assert Signed(i)[0] == '-' <==> i < 0;
    assert Signed(j)[0] == '-' <==> j < 0;
    if i < 0 {
      assert Signed(i)[1..] == Decimal(-i) && Signed(j)[1..] == Decimal(-j);
      DecimalInjective(-i, -j);
    } else {
      DecimalInjective(i, j);
    }
  }

  predicate Free(c: char, s: string) { forall i | 0 <= i < |s| :: s[i] != c }

  lemma SignedFree(i: int, c: char)
    requires c != '-' && !('0' <= c <= '9')
    ensures Free(c, Signed(i))
  {
  }

  function Join(a: string, c: char, x: string): string { a + [c] + x }

  lemma JoinAssoc(a: string, c: char, x: string, d: char, y: string)
    ensures Join(Join(a, c, x), d, y) == Join(a, c, Join(x, d, y))
  {
  }

  lemma JoinSame(a: string, b: string, c: char, w: string)
    requires Join(a, c, w) == Join(b, c, w)
    ensures a == b
  {
    assert Join(a, c, w)[..|a|] == a && Join(b, c, w)[..|b|] == b;
  }

  lemma SeparatorNotBefore(a: string, c: char, x: string, b: string, y: string)
    requires Free(c, x) && Join(a, c, x) == Join(b, c, y)
    ensures |b| <= |a|
  {
    var s := Join(a, c, x);
    assert forall i | |a| < i < |s| :: s[i] == x[i - |a| - 1];
    assert Join(b, c, y)[|b|] == c;
  }

  /** A separator that does not occur to its right can be found again. */
  lemma SplitLast(a: string, c: char, x: string, b: string, y: string)
    requires Free(c, x) && Free(c, y) && Join(a, c, x) == Join(b, c, y)
    ensures a == b && x == y
  {
    SeparatorNotBefore(a, c, x, b, y);
    SeparatorNotBefore(b, c, y, a, x);
    assert Join(a, c, x)[..|a|] == a && Join(b, c, y)[..|b|] == b;
    assert Join(a, c, x)[|a| + 1..] == x && Join(b, c, y)[|b| + 1..] == y;
  }

  /** A separator that does not occur to its left can be found again, even in a longer string. */
  lemma SplitFirst(a: string, c: char, x: string, b: string, y: string)
    requires Free(c, a) && Free(c, b) && Join(a, c, x) <= Join(b, c, y)
    ensures a == b && x <= y
  {
    var s, t := Join(a, c, x), Join(b, c, y);
    assert s[|a|] == c && t[|b|] == c;
    assert forall i | 0 <= i < |s| :: s[i] == t[i];
    assert forall i | 0 <= i < |a| :: s[i] == a[i];
    assert forall i | 0 <= i < |b| :: t[i] == b[i];
    assert s[..|a|] == a && t[..|b|] == b;
    assert s[|a| + 1..] == x && t[|b| + 1..] == y;
  }

  lemma PrefixesEqual(a: string, b: string, w: string)
    requires a + w == b + w
    ensures a == b
  {
    assert (a + w)[..|a|] == a && (b + w)[..|b|] == b;
  }

  // ---- HDFS ----

  function AppDir(app: string): string { Join(app, '/', "") }

  function ShuffleDir(app: string, shuffle: I32): string { Join(Join(app, '/', Signed(shuffle)), '/', "") }

  function Range(p: I32): string { Join(Signed(p), '-', Signed(p)) }

  function PartitionDir(uid: Uid): string {
    Join(Join(uid.appId, '/', Signed(uid.shuffleId)), '/', Range(uid.partitionId))
  }

  /** `get_file_path_prefix_by_uid`: the key of a partition's lock. */
  function LockKey(uid: Uid, worker: string): string { Join(PartitionDir(uid), '/', worker) }

  /** The key of the cached meta, and the prefix of the files, of one write slot. */
  function Slot(key: string, index: nat): string { Join(key, '_', Decimal(index)) }

  function DataFile(slot: string, retry: nat): string { Slot(slot, retry) + ".data" }

  function IndexFile(slot: string, retry: nat): string { Slot(slot, retry) + ".index" }

  /** The names as they are put together, for any ids. */
  lemma {:induction false} HdfsPathFormat(uid: Uid, worker: string, index: nat, retry: nat)
    ensures var slot := uid.appId + "/" + Signed(uid.shuffleId) + "/" + Signed(uid.partitionId) + "-" + Signed(uid.partitionId)
                          + "/" + worker + "_" + Decimal(index);
      && slot == LockKey(uid, worker) + "_" + Decimal(index) == Slot(LockKey(uid, worker), index)
      && DataFile(slot, retry) == slot + "_" + Decimal(retry) + ".data"
      && IndexFile(slot, retry) == slot + "_" + Decimal(retry) + ".index"
  {
  }

  lemma RangeFree(p: I32)
    ensures Free('/', Range(p))
  {
    SignedFree(p, '/');
  }

  lemma RangeInjective(p: I32, q: I32)
    requires Range(p) == Range(q)
    ensures p == q
  {
    assert |Signed(p)| == |Signed(q)|;
    assert Range(p)[..|Signed(p)|] == Signed(p) && Range(q)[..|Signed(q)|] == Signed(q);
    SignedInjective(p, q);
  }

  lemma ShuffleInjective(u: Uid, v: Uid)
    requires Join(u.appId, '/', Signed(u.shuffleId)) == Join(v.appId, '/', Signed(v.shuffleId))
    ensures u.appId == v.appId && u.shuffleId == v.shuffleId
  {
    SignedFree(u.shuffleId, '/');
    SignedFree(v.shuffleId, '/');
    SplitLast(u.appId, '/', Signed(u.shuffleId), v.appId, Signed(v.shuffleId));
    SignedInjective(u.shuffleId, v.shuffleId);
  }

  lemma PartitionDirInjective(u: Uid, v: Uid)
    requires PartitionDir(u) == PartitionDir(v)
    ensures u == v
  {
    RangeFree(u.partitionId);
    RangeFree(v.partitionId);
    SplitLast(
      Join(u.appId, '/', Signed(u.shuffleId)), '/', Range(u.partitionId),
      Join(v.appId, '/', Signed(v.shuffleId)), Range(v.partitionId));
    ShuffleInjective(u, v);
    RangeInjective(u.partitionId, v.partitionId);
  }

  /** No two partitions share a lock, whatever their application ids look like. */
  lemma LockKeyInjective(u: Uid, v: Uid, worker: string)
    requires LockKey(u, worker) == LockKey(v, worker)
    ensures u == v
  {
    JoinSame(PartitionDir(u), PartitionDir(v), '/', worker);
    PartitionDirInjective(u, v);
  }

  lemma SlotInjective(k: string, i: nat, l: string, j: nat)
    requires Slot(k, i) == Slot(l, j)
    ensures k == l && i == j
  {
    SplitLast(k, '_', Decimal(i), l, Decimal(j));
    DecimalInjective(i, j);
  }

  lemma SuffixesDiffer(a: string, b: string)
    ensures a + ".data" != b + ".index"
  {
    var d, x := a + ".data", b + ".index";
    assert d[|d| - 1] == 'a' && x[|x| - 1] == 'x';
  }

  lemma FilesInjective(s: string, r: nat, t: string, q: nat)
    ensures DataFile(s, r) != IndexFile(t, q)
    ensures DataFile(s, r) == DataFile(t, q) ==> s == t && r == q
    ensures IndexFile(s, r) == IndexFile(t, q) ==> s == t && r == q
  {
    var a, b := Slot(s, r), Slot(t, q);
    SuffixesDiffer(a, b);
    if DataFile(s, r) == DataFile(t, q) {
      PrefixesEqual(a, b, ".data");
      SlotInjective(s, r, t, q);
    } else if IndexFile(s, r) == IndexFile(t, q) {
      PrefixesEqual(a, b, ".index");
      SlotInjective(s, r, t, q);
    }
  }

  lemma LockKeyFromLeft(uid: Uid, worker: string)
    ensures LockKey(uid, worker)
         == Join(uid.appId, '/', Join(Signed(uid.shuffleId), '/', Join(Range(uid.partitionId), '/', worker)))
  {
    var a, s, r := uid.appId, Signed(uid.shuffleId), Range(uid.partitionId);
    JoinAssoc(Join(a, '/', s), '/', r, '/', worker);
    JoinAssoc(a, '/', s, '/', Join(r, '/', worker));
  }

  /** The application directory is a prefix of exactly that application's lock keys. */
  lemma AppDirMatches(app: string, uid: Uid, worker: string)
    requires Free('/', app) && Free('/', uid.appId)
    ensures AppDir(app) <= LockKey(uid, worker) <==> uid.appId == app
  {
    LockKeyFromLeft(uid, worker);
    var rest := Join(Signed(uid.shuffleId), '/', Join(Range(uid.partitionId), '/', worker));
    if AppDir(app) <= LockKey(uid, worker) {
      SplitFirst(app, '/', "", uid.appId, rest);
    }
  }

  /** The slash-terminated shuffle directory separates ids such as 1 and 10. */
  lemma ShuffleDirMatches(app: string, shuffle: I32, uid: Uid, worker: string)
    requires Free('/', app) && Free('/', uid.appId)
    ensures ShuffleDir(app, shuffle) <= LockKey(uid, worker) <==> uid.appId == app && uid.shuffleId == shuffle
  {
    var mine, theirs := Signed(shuffle), Signed(uid.shuffleId);
    var rest := Join(Range(uid.partitionId), '/', worker);
    LockKeyFromLeft(uid, worker);
    JoinAssoc(app, '/', mine, '/', "");
    SignedFree(shuffle, '/');
    SignedFree(uid.shuffleId, '/');
    if ShuffleDir(app, shuffle) <= LockKey(uid, worker) {
      SplitFirst(app, '/', Join(mine, '/', ""), uid.appId, Join(theirs, '/', rest));
      SplitFirst(mine, '/', "", theirs, rest);
      SignedInjective(shuffle, uid.shuffleId);
    } else if uid.appId == app && uid.shuffleId == shuffle {
      JoinAssoc(app, '/', mine, '/', rest);
      assert false;
    }
  }

  // ---- local files ----

  function Named(p: I32): string { "partition-" + Signed(p) }

  function LocalPrefix(uid: Uid): string {
    Join(Join(uid.appId, '/', Signed(uid.shuffleId)), '/', Named(uid.partitionId))
  }

  function LocalDataFile(uid: Uid): string { LocalPrefix(uid) + ".data" }

  function LocalIndexFile(uid: Uid): string { LocalPrefix(uid) + ".index" }

  lemma LocalPathFormat(uid: Uid)
    ensures var prefix := uid.appId + "/" + Signed(uid.shuffleId) + "/partition-" + Signed(uid.partitionId);
      LocalDataFile(uid) == prefix + ".data" && LocalIndexFile(uid) == prefix + ".index"
  {
    var a, s, p := uid.appId, Signed(uid.shuffleId), Signed(uid.partitionId);
    assert a + "/" + s + "/partition-" + p == a + "/" + s + "/" + ("partition-" + p);
  }

  lemma LocalPrefixInjective(u: Uid, v: Uid)
    requires LocalPrefix(u) == LocalPrefix(v)
    ensures u == v
  {
    NamedFree(u.partitionId);
    NamedFree(v.partitionId);
    SplitLast(
      Join(u.appId, '/', Signed(u.shuffleId)), '/', Named(u.partitionId),
      Join(v.appId, '/', Signed(v.shuffleId)), Named(v.partitionId));
    ShuffleInjective(u, v);
    NamedInjective(u.partitionId, v.partitionId);
  }

  lemma NamedFree(p: I32)
    ensures Free('/', Named(p))
  {
    SignedFree(p, '/');
  }

  lemma NamedInjective(p: I32, q: I32)
    requires Named(p) == Named(q)
    ensures p == q
  {
    assert Named(p)[10..] == Signed(p) && Named(q)[10..] == Signed(q);
    SignedInjective(p, q);
  }

  /** Distinct partitions never share a local file. */
  lemma LocalFilesInjective(u: Uid, v: Uid)
    ensures LocalDataFile(u) != LocalIndexFile(v)
    ensures LocalDataFile(u) == LocalDataFile(v) ==> u == v
    ensures LocalIndexFile(u) == LocalIndexFile(v) ==> u == v
  {
    SuffixesDiffer(LocalPrefix(u), LocalPrefix(v));
    if LocalDataFile(u) == LocalDataFile(v) {
      PrefixesEqual(LocalPrefix(u), LocalPrefix(v), ".data");
      LocalPrefixInjective(u, v);
    } else if LocalIndexFile(u) == LocalIndexFile(v) {
      PrefixesEqual(LocalPrefix(u), LocalPrefix(v), ".index");
      LocalPrefixInjective(u, v);
    }
  }
}
