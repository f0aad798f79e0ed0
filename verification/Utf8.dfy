/** Text as its UTF-8 octets (section 3 of RFC 3629). A character here is a scalar value, so every
    text has them. */
module Utf8 {
  import opened Cbor
  import opened Octets

  function EncodeChar(c: char): (b: Octets)
    ensures 1 <= |b| <= 4
  {
    var u := c as int;
    if u < 0x80 then [u]
    else if u < 0x800 then [0xC0 + u / 64, 0x80 + u % 64]
    else if u < 0x1_0000 then [0xE0 + u / 4096, 0x80 + u / 64 % 64, 0x80 + u % 64]
    else [0xF0 + u / 262144, 0x80 + u / 4096 % 64, 0x80 + u / 64 % 64, 0x80 + u % 64]
  }

  function EncodeText(s: string): (b: Octets)
    ensures |s| <= |b| <= 4 * |s|
  {
    if s == "" then [] else EncodeChar(s[0]) + EncodeText(s[1..])
  }

  /** The scalar value written at the front of some octets. */
  function FirstScalar(b: Octets): int
    requires b != []
  {
    var n := ScalarLength(b, 0);
    if n <= 1 then b[0]
    else if n == 2 then (b[0] as int - 0xC0) * 64 + (b[1] as int - 0x80)
    else if n == 3 then (b[0] as int - 0xE0) * 4096 + (b[1] as int - 0x80) * 64 + (b[2] as int - 0x80)
    else (b[0] as int - 0xF0) * 262144 + (b[1] as int - 0x80) * 4096 + (b[2] as int - 0x80) * 64 + (b[3] as int - 0x80)
  }

  lemma {:induction false} ScalarSplits(u: nat)
    ensures u == u / 64 * 64 + u % 64
    ensures u == u / 4096 * 4096 + u / 64 % 64 * 64 + u % 64
    ensures u == u / 262144 * 262144 + u / 4096 % 64 * 4096 + u / 64 % 64 * 64 + u % 64
  {
    assert u == u / 64 * 64 + u % 64;
    assert u / 64 == u / 4096 * 64 + u / 64 % 64;
    assert u / 4096 == u / 262144 * 64 + u / 4096 % 64;
  }

  lemma {:induction false} CharLength(c: char, rest: Octets)
    ensures ScalarLength(EncodeChar(c) + rest, 0) == |EncodeChar(c)|
  {
  }

  /** One character is one well-formed scalar value, whatever follows it. */
  lemma {:induction false} CharReadsBack(c: char, rest: Octets)
    ensures ScalarLength(EncodeChar(c) + rest, 0) == |EncodeChar(c)|
    ensures FirstScalar(EncodeChar(c) + rest) == c as int
  {
    CharLength(c, rest);
    ScalarSplits(c as int);
  }

  lemma {:induction false} LengthAt(front: Octets, b: Octets)
    requires b != []
    ensures ScalarLength(front + b, |front|) == ScalarLength(b, 0)
  {
    forall k | 0 <= k < |b| ensures (front + b)[|front| + k] == b[k] { }
  }

  lemma {:induction false} WellFormedBehind(front: Octets, s: string)
    ensures WellFormedFrom(front + EncodeText(s), |front|)
    decreases |s|
  {
    if s != "" {
      var first, rest := EncodeChar(s[0]), EncodeText(s[1..]);
      CharReadsBack(s[0], rest);
      LengthAt(front, first + rest);
      WellFormedBehind(front + first, s[1..]);
      assert front + EncodeText(s) == (front + first) + rest;
    }
  }

  /** Every text has well-formed octets. */
  lemma {:induction false} TextIsWellFormed(s: string)
    ensures WellFormedUtf8(EncodeText(s))
  {
    WellFormedBehind([], s);
    assert [] + EncodeText(s) == EncodeText(s);
  }

  /** Different texts have different octets. */
  lemma {:induction false} TextIsInjective(s: string, t: string)
    requires EncodeText(s) == EncodeText(t)
    ensures s == t
  {
    if s != "" && t != "" {
      var a, b := EncodeText(s[1..]), EncodeText(t[1..]);
      CharReadsBack(s[0], a);
      CharReadsBack(t[0], b);
      assert EncodeText(s)[|EncodeChar(s[0])|..] == a && EncodeText(t)[|EncodeChar(t[0])|..] == b;
      TextIsInjective(s[1..], t[1..]);
      assert s == [s[0]] + s[1..] && t == [t[0]] + t[1..];
    }
  }

  // -------------------------------------------------------------- and nothing else is

  lemma {:induction false} ScalarOfTwo(b: Octets)
    requires b != [] && ScalarLength(b, 0) == 2
    ensures var u := FirstScalar(b);
      0x80 <= u < 0x800 && [0xC0 + u / 64, 0x80 + u % 64] == b[..2]
  {
    var x, y := b[0] as int - 0xC0, b[1] as int - 0x80;
    assert (x * 64 + y) / 64 == x && (x * 64 + y) % 64 == y;
  }

  lemma {:induction false} ScalarOfThree(b: Octets)
    requires b != [] && ScalarLength(b, 0) == 3
    ensures var u := FirstScalar(b);
      && 0x800 <= u < 0x1_0000 && !(0xD800 <= u < 0xE000)
      && [0xE0 + u / 4096, 0x80 + u / 64 % 64, 0x80 + u % 64] == b[..3]
  {
    var x, y, z := b[0] as int - 0xE0, b[1] as int - 0x80, b[2] as int - 0x80;
    var u := x * 4096 + y * 64 + z;
    assert u / 64 == x * 64 + y && u % 64 == z;
    assert u / 4096 == x && (x * 64 + y) % 64 == y;
  }

  lemma {:induction false} ScalarOfFour(b: Octets)
    requires b != [] && ScalarLength(b, 0) == 4
    ensures var u := FirstScalar(b);
      && 0x1_0000 <= u < 0x11_0000
      && [0xF0 + u / 262144, 0x80 + u / 4096 % 64, 0x80 + u / 64 % 64, 0x80 + u % 64] == b[..4]
  {
    var w, x, y, z := b[0] as int - 0xF0, b[1] as int - 0x80, b[2] as int - 0x80, b[3] as int - 0x80;
    var u := w * 262144 + x * 4096 + y * 64 + z;
    assert u / 64 == w * 4096 + x * 64 + y && u % 64 == z;
    assert u / 4096 == w * 64 + x && (w * 4096 + x * 64 + y) % 64 == y;
    assert u / 262144 == w && (w * 64 + x) % 64 == x;
  }

  /** A well-formed scalar value at the front is the spelling of a character. */
  lemma {:induction false} ScalarIsChar(b: Octets) returns (c: char)
    requires b != [] && ScalarLength(b, 0) > 0
    ensures EncodeChar(c) == b[..ScalarLength(b, 0)]
  {
    var n := ScalarLength(b, 0);
    if n == 2 { ScalarOfTwo(b); } else if n == 3 { ScalarOfThree(b); } else if n == 4 { ScalarOfFour(b); }
    c := FirstScalar(b) as char;
  }

  lemma {:induction false} TextStarts(c: char, s: string)
    ensures EncodeText([c] + s) == EncodeChar(c) + EncodeText(s)
  {
    assert ([c] + s)[1..] == s;
  }

  lemma {:induction false} WellFormedIsTextFrom(b: Octets, i: nat) returns (s: string)
    requires i <= |b| && WellFormedFrom(b, i)
    ensures EncodeText(s) == b[i..]
    decreases |b| - i
  {
    if i == |b| {
      s := "";
    } else {
      var rest := b[i..];
      assert b == b[..i] + rest;
      LengthAt(b[..i], rest);
      var n := ScalarLength(rest, 0);
      assert rest[n..] == b[i + n..];
      var c := ScalarIsChar(rest);
      var tail := WellFormedIsTextFrom(b, i + n);
      s := [c] + tail;
      TextStarts(c, tail);
      assert rest == rest[..n] + rest[n..];
    }
  }

  /** The octets of texts are exactly the well-formed ones. */
  lemma {:induction false} WellFormedExactly(b: Octets)
    ensures WellFormedUtf8(b) <==> exists s :: EncodeText(s) == b
  {
    if WellFormedUtf8(b) {
      var s := WellFormedIsTextFrom(b, 0);
      assert b[0..] == b;
    }
    if s :| EncodeText(s) == b {
      TextIsWellFormed(s);
    }
  }
}
