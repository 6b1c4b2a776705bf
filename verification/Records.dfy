/** Files made of fixed-width records: concatenating the encodings of a list and cutting a byte
    string back into complete records. */
module Records {
  import opened Bytes

  /** A fixed-width encoding and its decoder. */
  ghost predicate Codec<T(!new)>(put: T -> seq<Byte>, get: seq<Byte> -> T, width: nat) {
    width > 0 && forall x: T :: |put(x)| == width && get(put(x)) == x
  }

  function Encode<T>(xs: seq<T>, put: T -> seq<Byte>): seq<Byte> {
    if xs == [] then [] else put(xs[0]) + Encode(xs[1..], put)
  }

  /** All complete records; a torn tail is ignored. */
  function Decode<T>(s: seq<Byte>, get: seq<Byte> -> T, width: nat): seq<T>
    requires width > 0
  {
    if |s| < width then [] else [get(s[..width])] + Decode(s[width..], get, width)
  }

  lemma {:induction false} EncodeConcat<T>(a: seq<T>, b: seq<T>, put: T -> seq<Byte>)
    ensures Encode(a + b, put) == Encode(a, put) + Encode(b, put)
  {
    if a == [] {
      assert a + b == b;
    } else {
      assert (a + b)[1..] == a[1..] + b;
      EncodeConcat(a[1..], b, put);
    }
  }

  lemma {:induction false} EncodeSnoc<T>(a: seq<T>, x: T, put: T -> seq<Byte>)
    ensures Encode(a + [x], put) == Encode(a, put) + put(x)
  {
    EncodeConcat(a, [x], put);
    assert Encode([x], put) == put(x) + Encode([], put);
  }

  lemma {:induction false} EncodeLength<T(!new)>(xs: seq<T>, put: T -> seq<Byte>, get: seq<Byte> -> T, width: nat)
    requires Codec(put, get, width)
    ensures |Encode(xs, put)| == width * |xs|
  {
    if xs != [] {
      EncodeLength(xs[1..], put, get, width);
      assert width * |xs| == width + width * |xs[1..]|;
    }
  }

  /** The i-th record of a file of records. */
  lemma {:induction false} EncodeAt<T(!new)>(xs: seq<T>, put: T -> seq<Byte>, get: seq<Byte> -> T, width: nat, i: nat)
    requires Codec(put, get, width) && i < |xs|
    ensures width * i + width <= |Encode(xs, put)|
    ensures Encode(xs, put)[width * i..width * i + width] == put(xs[i])
  {
    var a, c := xs[..i], xs[i + 1..];
    assert xs == a + ([xs[i]] + c);
    EncodeConcat(a, [xs[i]] + c, put);
    assert ([xs[i]] + c)[1..] == c;
    EncodeLength(a, put, get, width);
    Assoc(Encode(a, put), put(xs[i]), Encode(c, put));
    Middle(Encode(a, put), put(xs[i]), Encode(c, put));
  }

  lemma Assoc<T>(a: seq<T>, b: seq<T>, c: seq<T>)
    ensures a + (b + c) == a + b + c
  {
  }

  lemma Middle<T>(a: seq<T>, b: seq<T>, tail: seq<T>)
    ensures (a + b + tail)[|a|..|a| + |b|] == b
  {
  }

  lemma {:induction false} DecodeHead<T>(head: seq<Byte>, rest: seq<Byte>, get: seq<Byte> -> T, width: nat)
    requires width > 0 && |head| == width
    ensures Decode(head + rest, get, width) == [get(head)] + Decode(rest, get, width)
  {
    assert (head + rest)[..width] == head && (head + rest)[width..] == rest;
  }

  lemma {:induction false} DecodeEncode<T(!new)>(xs: seq<T>, tail: seq<Byte>, put: T -> seq<Byte>, get: seq<Byte> -> T, width: nat)
    requires Codec(put, get, width)
    ensures Decode(Encode(xs, put) + tail, get, width) == xs + Decode(tail, get, width)
  {
    if xs == [] {
      assert Encode(xs, put) + tail == tail;
    } else {
      var head, rest := put(xs[0]), Encode(xs[1..], put);
      assert Encode(xs, put) + tail == head + (rest + tail);
      DecodeEncode(xs[1..], tail, put, get, width);
      DecodeHead(head, rest + tail, get, width);
      assert xs == [xs[0]] + xs[1..];
    }
  }

  /** A torn write of a record file decodes to its first records. */
  lemma {:induction false} DecodePrefix<T(!new)>(xs: seq<T>, n: nat, put: T -> seq<Byte>, get: seq<Byte> -> T, width: nat)
    requires Codec(put, get, width) && n <= |Encode(xs, put)|
    ensures Decode(Encode(xs, put)[..n], get, width) <= xs
  {
    var s := Encode(xs, put);
    if n >= width {
      EncodeLength(xs, put, get, width);
      assert s[..n][..width] == put(xs[0]);
      assert s[..n][width..] == Encode(xs[1..], put)[..n - width];
      DecodePrefix(xs[1..], n - width, put, get, width);
    }
  }
}
