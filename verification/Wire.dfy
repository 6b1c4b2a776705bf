/** Reading and writing the fields of a urpc message: big-endian integers, length-prefixed strings and
    length-prefixed byte arrays. Every reader looks at the bytes from a position on and returns the
    value with the position after it. */
module Wire {
  import opened Bytes
  import opened Blocks
  import Records

  datatype Error = Incomplete | Incorrect | Abnormal | TypeNotFound | BadUtf8 | Panic

  datatype Parsed<+T> = Ok(value: T, pos: nat) | Fail(err: Error) {
    predicate IsFailure() { Fail? }

    function PropagateFailure<U>(): Parsed<U>
      requires Fail?
    {
      Fail(err)
    }

    function Extract(): (T, nat)
      requires Ok?
    {
      (value, pos)
    }
  }

  // ---- UTF-8 ----

  predicate Trail(b: Byte) { 0x80 <= b < 0xC0 }

  /** The length of the well-formed sequence the bytes start with, or 0 (table 3-7 of the Unicode standard). */
  function SequenceLength(s: seq<Byte>): (n: nat)
    requires s != []
    ensures n <= |s|
  {
    var b := s[0];
    if b < 0x80 then 1
    else if 0xC2 <= b < 0xE0 && |s| >= 2 && Trail(s[1]) then 2
    else if 0xE0 <= b < 0xF0 && |s| >= 3 && Trail(s[1]) && Trail(s[2])
      && (b == 0xE0 ==> s[1] >= 0xA0) && (b == 0xED ==> s[1] < 0xA0) then 3
    else if 0xF0 <= b < 0xF5 && |s| >= 4 && Trail(s[1]) && Trail(s[2]) && Trail(s[3])
      && (b == 0xF0 ==> s[1] >= 0x90) && (b == 0xF4 ==> s[1] < 0x90) then 4
    else 0
  }

  /** `String::from_utf8` accepts the bytes. */
  predicate ValidUtf8(s: seq<Byte>)
    decreases |s|
  {
    s == [] || (SequenceLength(s) > 0 && ValidUtf8(s[SequenceLength(s)..]))
  }

  // ---- readers ----

  /** `get_u8`. */
  function GetU8At(s: seq<Byte>, p: nat): Parsed<Byte> {
    if p >= |s| then Fail(Incorrect) else Ok(s[p], p + 1)
  }

  /** `get_i32`: an error when nothing is left, a panic of the byte cursor when too little is left. */
  function GetI32At(s: seq<Byte>, p: nat): Parsed<I32> {
    if p >= |s| then Fail(Incorrect)
    else if p + 4 > |s| then Fail(Panic)
    else Ok(GetI32(s[p..p + 4]), p + 4)
  }

  /** `get_i64`. */
  function GetI64At(s: seq<Byte>, p: nat): Parsed<I64> {
    if p >= |s| then Fail(Incorrect)
    else if p + 8 > |s| then Fail(Panic)
    else Ok(GetI64(s[p..p + 8]), p + 8)
  }

  /** `get_bytes`: a length of zero or less means no bytes. */
  function GetBytesAt(s: seq<Byte>, p: nat): Parsed<Option<seq<Byte>>> {
    var (len, q) :- GetI32At(s, p);
    if len <= 0 then Ok(None, q)
    else if q + len > |s| then Fail(Incorrect)
    else Ok(Some(s[q..q + len]), q + len)
  }

  /** `get_string`: a negative length becomes a huge `usize` and never fits. */
  function GetStringAt(s: seq<Byte>, p: nat): Parsed<seq<Byte>> {
    var (len, q) :- GetI32At(s, p);
    if len == 0 then Ok([], q)
    else if len < 0 || q + len > |s| then Fail(Incorrect)
    else if !ValidUtf8(s[q..q + len]) then Fail(BadUtf8)
    else Ok(s[q..q + len], q + len)
  }

  // ---- stability: more bytes behind do not change what was read ----

  lemma SliceOfPrefix(s: seq<Byte>, t: seq<Byte>, p: nat, q: nat)
    requires p <= q <= |s|
    ensures (s + t)[p..q] == s[p..q]
  {
  }

  lemma StableU8(s: seq<Byte>, t: seq<Byte>, p: nat)
    requires GetU8At(s, p).Ok?
    ensures GetU8At(s + t, p) == GetU8At(s, p) && GetU8At(s, p).pos <= |s|
  {
  }

  lemma StableI32(s: seq<Byte>, t: seq<Byte>, p: nat)
    requires GetI32At(s, p).Ok?
    ensures GetI32At(s + t, p) == GetI32At(s, p) && GetI32At(s, p).pos <= |s|
  {
    SliceOfPrefix(s, t, p, p + 4);
  }

  lemma StableI64(s: seq<Byte>, t: seq<Byte>, p: nat)
    requires GetI64At(s, p).Ok?
    ensures GetI64At(s + t, p) == GetI64At(s, p) && GetI64At(s, p).pos <= |s|
  {
    SliceOfPrefix(s, t, p, p + 8);
  }

  lemma StableBytes(s: seq<Byte>, t: seq<Byte>, p: nat)
    requires GetBytesAt(s, p).Ok?
    ensures GetBytesAt(s + t, p) == GetBytesAt(s, p) && GetBytesAt(s, p).pos <= |s|
  {
    StableI32(s, t, p);
    var len, q := GetI32At(s, p).value, GetI32At(s, p).pos;
    if len > 0 {
      SliceOfPrefix(s, t, q, q + len);
    }
  }

  lemma StableString(s: seq<Byte>, t: seq<Byte>, p: nat)
    requires GetStringAt(s, p).Ok?
    ensures GetStringAt(s + t, p) == GetStringAt(s, p) && GetStringAt(s, p).pos <= |s|
  {
    StableI32(s, t, p);
    var len, q := GetI32At(s, p).value, GetI32At(s, p).pos;
    if len > 0 {
      SliceOfPrefix(s, t, q, q + len);
    }
  }

  // ---- writers and their inverses ----

  /** The bytes stand in the stream at this position. */
  ghost predicate At(s: seq<Byte>, p: nat, bytes: seq<Byte>) {
    p + |bytes| <= |s| && forall i {:trigger bytes[i]} | 0 <= i < |bytes| :: bytes[i] == s[p + i]
  }

  lemma AtSlice(s: seq<Byte>, p: nat, bytes: seq<Byte>)
    requires p + |bytes| <= |s|
    ensures At(s, p, bytes) <==> s[p..p + |bytes|] == bytes
  {
    var m := s[p..p + |bytes|];
    assert forall i | 0 <= i < |bytes| :: m[i] == s[p + i];
    if At(s, p, bytes) {
      assert forall i | 0 <= i < |bytes| :: m[i] == bytes[i];
    }
  }

  lemma AtSplit(s: seq<Byte>, p: nat, a: seq<Byte>, b: seq<Byte>)
    requires At(s, p, a + b)
    ensures At(s, p, a) && At(s, p + |a|, b)
  {
    assert forall i | 0 <= i < |a| :: (a + b)[i] == a[i];
    assert forall i | 0 <= i < |b| :: (a + b)[|a| + i] == b[i];
  }

  lemma AtWhole(s: seq<Byte>, p: nat, a: seq<Byte>)
    requires At(s, p, a)
    ensures At(s, p, a + [])
  {
    assert a + [] == a;
  }

  /** A length-prefixed byte array or string. */
  function PutBytes(data: seq<Byte>): seq<Byte> { PutI32(WrapI32(|data|)) + data }

  predicate IsText(s: seq<Byte>) { |s| < 0x8000_0000 && ValidUtf8(s) }

  // Each of these reads one field and says where the rest begins.

  lemma PeelI32(s: seq<Byte>, p: nat, v: I32, rest: seq<Byte>) returns (q: nat)
    requires At(s, p, PutI32(v) + rest)
    ensures GetI32At(s, p) == Ok(v, q) && At(s, q, rest) && q + |rest| == p + |PutI32(v) + rest|
  {
    q := p + 4;
    AtSplit(s, p, PutI32(v), rest);
    AtSlice(s, p, PutI32(v));
    I32RoundTrip(v);
  }

  lemma PeelI64(s: seq<Byte>, p: nat, v: I64, rest: seq<Byte>) returns (q: nat)
    requires At(s, p, PutI64(v) + rest)
    ensures GetI64At(s, p) == Ok(v, q) && At(s, q, rest) && q + |rest| == p + |PutI64(v) + rest|
  {
    q := p + 8;
    AtSplit(s, p, PutI64(v), rest);
    AtSlice(s, p, PutI64(v));
    I64RoundTrip(v);
  }

  lemma PeelBytes(s: seq<Byte>, p: nat, data: seq<Byte>, rest: seq<Byte>) returns (q: nat)
    requires |data| < 0x8000_0000 && At(s, p, PutBytes(data) + rest)
    ensures GetBytesAt(s, p) == Ok(if data == [] then None else Some(data), q)
    ensures At(s, q, rest) && q + |rest| == p + |PutBytes(data) + rest|
  {
    AtSplit(s, p, PutBytes(data), rest);
    var p1 := PeelI32(s, p, |data|, data);
    AtSlice(s, p1, data);
    q := p1 + |data|;
  }

  lemma PeelString(s: seq<Byte>, p: nat, text: seq<Byte>, rest: seq<Byte>) returns (q: nat)
    requires IsText(text) && At(s, p, PutBytes(text) + rest)
    ensures GetStringAt(s, p) == Ok(text, q)
    ensures At(s, q, rest) && q + |rest| == p + |PutBytes(text) + rest|
  {
    AtSplit(s, p, PutBytes(text), rest);
    var p1 := PeelI32(s, p, |text|, text);
    AtSlice(s, p1, text);
    q := p1 + |text|;
  }

  lemma LastI32(s: seq<Byte>, p: nat, v: I32) returns (q: nat)
    requires At(s, p, PutI32(v))
    ensures GetI32At(s, p) == Ok(v, q) && q == p + |PutI32(v)|
  {
    AtWhole(s, p, PutI32(v));
    q := PeelI32(s, p, v, []);
  }

  lemma LastI64(s: seq<Byte>, p: nat, v: I64) returns (q: nat)
    requires At(s, p, PutI64(v))
    ensures GetI64At(s, p) == Ok(v, q) && q == p + |PutI64(v)|
  {
    AtWhole(s, p, PutI64(v));
    q := PeelI64(s, p, v, []);
  }

  // ---- counted repetition ----

  /** Read `n` items one after the other; a count of zero or less reads none. */
  function RepeatAt<T>(s: seq<Byte>, p: nat, n: int, one: (seq<Byte>, nat) -> Parsed<T>, acc: seq<T>): Parsed<seq<T>>
    decreases n
  {
    if n <= 0 then Ok(acc, p) else
      match one(s, p)
      case Ok(v, q) => RepeatAt(s, q, n - 1, one, acc + [v])
      case Fail(e) => Fail(e)
  }

  /** What the item reader makes of the bytes does not depend on what follows. */
  ghost predicate Steady<T(!new)>(one: (seq<Byte>, nat) -> Parsed<T>, s: seq<Byte>, t: seq<Byte>) {
    forall p: nat :: one(s, p).Ok? ==> one(s + t, p) == one(s, p) && one(s, p).pos <= |s|
  }

  lemma {:induction false} StableRepeat<T(!new)>(
    s: seq<Byte>, t: seq<Byte>, p: nat, n: int, one: (seq<Byte>, nat) -> Parsed<T>, acc: seq<T>)
    requires Steady(one, s, t) && RepeatAt(s, p, n, one, acc).Ok? && p <= |s|
    ensures RepeatAt(s + t, p, n, one, acc) == RepeatAt(s, p, n, one, acc) && RepeatAt(s, p, n, one, acc).pos <= |s|
    decreases n
  {
    if n > 0 {
      var r := one(s, p);
      assert one(s + t, p) == r && r.pos <= |s|;
      StableRepeat(s, t, r.pos, n - 1, one, acc + [r.value]);
    }
  }

  function MapAll<T, U>(items: seq<T>, f: T -> U): (r: seq<U>)
    ensures |r| == |items| && forall i | 0 <= i < |r| :: r[i] == f(items[i])
  {
    if items == [] then [] else [f(items[0])] + MapAll(items[1..], f)
  }

  /** The reader inverts the writer on this item wherever it stands. */
  ghost predicate Inverts<T, U(!new)>(one: (seq<Byte>, nat) -> Parsed<U>, put: T -> seq<Byte>, item: T, value: U) {
    forall s: seq<Byte>, p: nat :: At(s, p, put(item)) ==> one(s, p) == Ok(value, p + |put(item)|)
  }

  lemma {:induction false} RepeatInverts<T, U(!new)>(
    s: seq<Byte>, p: nat, items: seq<T>, one: (seq<Byte>, nat) -> Parsed<U>, put: T -> seq<Byte>, value: T -> U, acc: seq<U>)
    requires At(s, p, Records.Encode(items, put))
    requires forall i | 0 <= i < |items| :: Inverts(one, put, items[i], value(items[i]))
    ensures RepeatAt(s, p, |items|, one, acc) == Ok(acc + MapAll(items, value), p + |Records.Encode(items, put)|)
    decreases |items|
  {
    if items == [] {
      assert acc + [] == acc;
    } else {
      var x, rest := items[0], items[1..];
      AtSplit(s, p, put(x), Records.Encode(rest, put));
      assert Inverts(one, put, x, value(x));
      forall i | 0 <= i < |rest| ensures Inverts(one, put, rest[i], value(rest[i])) {
        assert rest[i] == items[i + 1];
      }
      RepeatInverts(s, p + |put(x)|, rest, one, put, value, acc + [value(x)]);
      assert acc + [value(x)] + MapAll(rest, value) == acc + MapAll(items, value);
    }
  }

  lemma PeelAll<T, U(!new)>(
    s: seq<Byte>, p: nat, items: seq<T>, one: (seq<Byte>, nat) -> Parsed<U>, put: T -> seq<Byte>, value: T -> U, rest: seq<Byte>)
    returns (q: nat)
    requires At(s, p, Records.Encode(items, put) + rest)
    requires forall i | 0 <= i < |items| :: Inverts(one, put, items[i], value(items[i]))
    ensures RepeatAt(s, p, |items|, one, []) == Ok(MapAll(items, value), q)
    ensures At(s, q, rest) && q + |rest| == p + |Records.Encode(items, put) + rest|
  {
    AtSplit(s, p, Records.Encode(items, put), rest);
    RepeatInverts(s, p, items, one, put, value, []);
    assert [] + MapAll(items, value) == MapAll(items, value);
    q := p + |Records.Encode(items, put)|;
  }
}
