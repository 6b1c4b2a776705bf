/** What `String::from_utf8` accepts: exactly the encodings of Unicode scalar values (section 3 of RFC 3629). */
module Utf8 {
  import opened Bytes
  import opened Wire

  /** A code point that is no surrogate. */
  predicate Scalar(c: nat) { c < 0xD800 || 0xE000 <= c < 0x11_0000 }

  function Tail(n: nat): Byte { 0x80 + n % 64 }

  function Encoded(c: nat): (s: seq<Byte>)
    requires Scalar(c)
    ensures |s| > 0
  {
    if c < 0x80 then [c]
    else if c < 0x800 then [0xC0 + c / 64, Tail(c)]
    else if c < 0x1_0000 then [0xE0 + c / 4096, Tail(c / 64), Tail(c)]
    else [0xF0 + c / 262144, Tail(c / 4096), Tail(c / 64), Tail(c)]
  }

  predicate AllScalars(text: seq<nat>) { forall i | 0 <= i < |text| :: Scalar(text[i]) }

  function Text(text: seq<nat>): seq<Byte>
    requires AllScalars(text)
  {
    if text == [] then [] else Encoded(text[0]) + Text(text[1..])
  }

  // ---- one code point ----

  lemma EncodedIsSequence(c: nat, rest: seq<Byte>)
    requires Scalar(c)
    ensures SequenceLength(Encoded(c) + rest) == |Encoded(c)|
  {
    var s := Encoded(c) + rest;
    assert forall i | 0 <= i < |Encoded(c)| :: s[i] == Encoded(c)[i];
    if c < 0x800 {
    } else if c < 0x1_0000 {
      ThreeBytes(c);
    } else {
      FourBytes(c);
    }
  }

  lemma ThreeBytes(c: nat)
    requires Scalar(c) && 0x800 <= c < 0x1_0000
    ensures 0 <= c / 4096 < 16
    ensures c / 4096 == 0 ==> Tail(c / 64) >= 0xA0
    ensures c / 4096 == 13 ==> Tail(c / 64) < 0xA0
  {
    assert c == 4096 * (c / 4096) + 64 * (c / 64 % 64) + c % 64;
  }

  lemma FourBytes(c: nat)
    requires 0x1_0000 <= c < 0x11_0000
    ensures 0 <= c / 262144 < 5
    ensures c / 262144 == 0 ==> Tail(c / 4096) >= 0x90
    ensures c / 262144 == 4 ==> Tail(c / 4096) < 0x90
  {
    assert c == 262144 * (c / 262144) + 4096 * (c / 4096 % 64) + c % 4096;
  }

  lemma SequenceIsEncoded(s: seq<Byte>) returns (c: nat)
    requires s != [] && SequenceLength(s) > 0
    ensures Scalar(c) && s[..SequenceLength(s)] == Encoded(c)
  {
    var n := SequenceLength(s);
    if n == 1 {
      c := s[0];
    } else if n == 2 {
      var x: int, y: int := s[0] - 0xC0, s[1] - 0x80;
      c := 64 * x + y;
      assert c / 64 == x && c % 64 == y;
    } else if n == 3 {
      c := ThreeDigits(s[0] - 0xE0, s[1] - 0x80, s[2] - 0x80);
    } else {
      c := FourDigits(s[0] - 0xF0, s[1] - 0x80, s[2] - 0x80, s[3] - 0x80);
    }
    assert s[..n] == Encoded(c);
  }

  lemma ThreeDigits(x: nat, y: nat, z: nat) returns (c: nat)
    requires x < 16 && y < 64 && z < 64
    ensures c == 4096 * x + 64 * y + z
    ensures c / 4096 == x && c / 64 % 64 == y && c % 64 == z
  {
    c := 4096 * x + 64 * y + z;
    assert c / 64 == 64 * x + y;
  }

  lemma FourDigits(w: nat, x: nat, y: nat, z: nat) returns (c: nat)
    requires w < 5 && x < 64 && y < 64 && z < 64
    ensures c == 262144 * w + 4096 * x + 64 * y + z
    ensures c / 262144 == w && c / 4096 % 64 == x && c / 64 % 64 == y && c % 64 == z
  {
    c := 262144 * w + 4096 * x + 64 * y + z;
    assert c / 64 == 4096 * w + 64 * x + y;
    assert c / 4096 == 64 * w + x;
  }

  // ---- whole strings ----

  lemma {:induction false} TextIsValid(text: seq<nat>)
    requires AllScalars(text)
    ensures ValidUtf8(Text(text))
  {
    if text != [] {
      var one, rest := Encoded(text[0]), Text(text[1..]);
      EncodedIsSequence(text[0], rest);
      assert (one + rest)[|one|..] == rest;
      TextIsValid(text[1..]);
    }
  }

  lemma {:induction false} ValidIsText(s: seq<Byte>) returns (text: seq<nat>)
    requires ValidUtf8(s)
    ensures AllScalars(text) && Text(text) == s
    decreases |s|
  {
    text := [];
    if s != [] {
      var n := SequenceLength(s);
      var c := SequenceIsEncoded(s);
      var rest := ValidIsText(s[n..]);
      text := [c] + rest;
      assert text[1..] == rest;
      assert s == s[..n] + s[n..];
    }
  }
}
