/** The base 64 encoding of section 4 of RFC 4648, with the standard
    alphabet and `=` padding, and its decoding, together with `btoa`, which
    encodes a string whose characters all lie in U+0000..U+00FF by taking
    each character as one byte. */
module Base64 {
  import opened Util

  type byte = x: int | 0 <= x < 256

  /** The character of the alphabet for a 6-bit value (Table 1 of RFC 4648). */
  function Digit(v: nat): (c: char)
    requires v < 64
  {
    if v < 26 then ('A' as int + v) as char
    else if v < 52 then ('a' as int + (v - 26)) as char
    else if v < 62 then ('0' as int + (v - 52)) as char
    else if v == 62 then '+'
    else '/'
  }

  /** The 6-bit value of an alphabet character; None for any other character,
      the pad character included. */
  function DigitValue(c: char): (r: Option<nat>)
    ensures r.Some? ==> r.value < 64
  {
    if 'A' <= c <= 'Z' then Some(c as int - 'A' as int)
    else if 'a' <= c <= 'z' then Some(c as int - 'a' as int + 26)
    else if '0' <= c <= '9' then Some(c as int - '0' as int + 52)
    else if c == '+' then Some(62)
    else if c == '/' then Some(63)
    else None
  }

  /** Digit and DigitValue are inverse: the alphabet has 64 distinct
      characters and the pad is not one of them. */
  lemma DigitInverse(v: nat)
    requires v < 64
    ensures DigitValue(Digit(v)) == Some(v)
    ensures Digit(v) != '='
  {
  }

  lemma DigitValueInverse(c: char)
    ensures DigitValue(c).Some? ==> Digit(DigitValue(c).value) == c
  {
  }

  /** The four 6-bit groups of a 24-bit group made of three bytes. */
  function Sextets(b0: byte, b1: byte, b2: byte): (d: (nat, nat, nat, nat))
    ensures d.0 < 64 && d.1 < 64 && d.2 < 64 && d.3 < 64
  {
    (b0 / 4, (b0 % 4) * 16 + b1 / 16, (b1 % 16) * 4 + b2 / 64, b2 % 64)
  }

  /** The three bytes of a 24-bit group made of four 6-bit groups. */
  function Octets(d0: nat, d1: nat, d2: nat, d3: nat): (b: (byte, byte, byte))
    requires d0 < 64 && d1 < 64 && d2 < 64 && d3 < 64
  {
    (d0 * 4 + d1 / 16, (d1 % 16) * 16 + d2 / 4, (d2 % 4) * 64 + d3)
  }

  /** Splitting three bytes into sextets and joining them again is the identity. */
  lemma OctetsSextets(b0: byte, b1: byte, b2: byte)
    ensures var d := Sextets(b0, b1, b2); Octets(d.0, d.1, d.2, d.3) == (b0, b1, b2)
  {
    var d := Sextets(b0, b1, b2);
    assert d.1 / 16 == b0 % 4 && d.1 % 16 == b1 / 16;
    assert d.2 / 4 == b1 % 16 && d.2 % 4 == b2 / 64;
  }

  /** Joining four sextets into bytes and splitting them again is the identity. */
  lemma SextetsOctets(d0: nat, d1: nat, d2: nat, d3: nat)
    requires d0 < 64 && d1 < 64 && d2 < 64 && d3 < 64
    ensures var b := Octets(d0, d1, d2, d3); Sextets(b.0, b.1, b.2) == (d0, d1, d2, d3)
  {
    var b := Octets(d0, d1, d2, d3);
    assert b.0 / 4 == d0 && b.0 % 4 == d1 / 16;
    assert b.1 / 16 == d1 % 16 && b.1 % 16 == d2 / 4;
    assert b.2 / 64 == d2 % 4 && b.2 % 64 == d3;
  }

  /** Four characters for a full 24-bit group. */
  function Quantum(b0: byte, b1: byte, b2: byte): (s: string)
    ensures |s| == 4
  {
    var d := Sextets(b0, b1, b2);
    [Digit(d.0), Digit(d.1), Digit(d.2), Digit(d.3)]
  }

  /** The encoding: every three bytes give four characters; a final single
      byte gives two characters and "==", a final pair three characters and "=". */
  function Encode(b: seq<byte>): (s: string)
    ensures |s| == 4 * ((|b| + 2) / 3)
  {
    if |b| == 0 then ""
    else if |b| == 1 then
      var d := Sextets(b[0], 0, 0);
      [Digit(d.0), Digit(d.1), '=', '=']
    else if |b| == 2 then
      var d := Sextets(b[0], b[1], 0);
      [Digit(d.0), Digit(d.1), Digit(d.2), '=']
    else Quantum(b[0], b[1], b[2]) + Encode(b[3..])
  }

  /** The last four characters of an encoding: a full quantum or one padded
      with one or two `=`. The bits the padding leaves over must be zero, so
      that every accepted text is the encoding of its bytes. */
  function DecodeLast(q: string): (r: Option<seq<byte>>)
    requires |q| == 4
  {
    var v0, v1 := DigitValue(q[0]), DigitValue(q[1]);
    if v0.None? || v1.None? then None
    else if q[2] == '=' && q[3] == '=' then
      if v1.value % 16 == 0 then Some([Octets(v0.value, v1.value, 0, 0).0]) else None
    else
      var v2 := DigitValue(q[2]);
      if v2.None? then None
      else if q[3] == '=' then
        if v2.value % 4 == 0 then
          var b := Octets(v0.value, v1.value, v2.value, 0);
          Some([b.0, b.1])
        else None
      else
        var v3 := DigitValue(q[3]);
        if v3.None? then None
        else
          var b := Octets(v0.value, v1.value, v2.value, v3.value);
          Some([b.0, b.1, b.2])
  }

  /** Four characters that are not the last ones: no padding allowed. */
  function DecodeFull(q: string): (r: Option<seq<byte>>)
    requires |q| == 4
  {
    var v0, v1, v2, v3 := DigitValue(q[0]), DigitValue(q[1]), DigitValue(q[2]), DigitValue(q[3]);
    if v0.None? || v1.None? || v2.None? || v3.None? then None
    else
      var b := Octets(v0.value, v1.value, v2.value, v3.value);
      Some([b.0, b.1, b.2])
  }

  /** The decoding; None for a length that is not a multiple of four, a
      character outside the alphabet, misplaced padding or non-zero pad bits. */
  function Decode(s: string): (r: Option<seq<byte>>)
    decreases |s|
  {
    if |s| == 0 then Some([])
    else if |s| < 4 then None
    else if |s| == 4 then DecodeLast(s)
    else
      match DecodeFull(s[..4])
      case None => None
      case Some(head) =>
        match Decode(s[4..])
        case None => None
        case Some(tail) => Some(head + tail)
  }

  /** Decoding an encoding gives back the bytes. */
  lemma {:induction false} DecodeEncode(b: seq<byte>)
    ensures Decode(Encode(b)) == Some(b)
    decreases |b|
  {
    if |b| == 1 {
      DecodeOne(b[0]);
      assert b == [b[0]];
    } else if |b| == 2 {
      DecodeTwo(b[0], b[1]);
      assert b == [b[0], b[1]];
    } else if |b| >= 3 {
      var s := Encode(b);
      var q := Quantum(b[0], b[1], b[2]);
      DecodeThree(b[0], b[1], b[2]);
      assert s[..4] == q && s[4..] == Encode(b[3..]);
      FirstThree(b);
      if |b| > 3 {
        DecodeEncode(b[3..]);
      }
    }
  }

  lemma FirstThree(b: seq<byte>)
    requires |b| >= 3
    ensures b == [b[0], b[1], b[2]] + b[3..]
    ensures |b| == 3 ==> b == [b[0], b[1], b[2]]
  {
  }

  lemma DecodeOne(b0: byte)
    ensures Decode(Encode([b0])) == Some([b0])
  {
    var d := Sextets(b0, 0, 0);
    OctetsSextets(b0, 0, 0);
    DigitInverse(d.0);
    DigitInverse(d.1);
  }

  lemma DecodeTwo(b0: byte, b1: byte)
    ensures Decode(Encode([b0, b1])) == Some([b0, b1])
  {
    var d := Sextets(b0, b1, 0);
    OctetsSextets(b0, b1, 0);
    DigitInverse(d.0);
    DigitInverse(d.1);
    DigitInverse(d.2);
    var s := Encode([b0, b1]);
    assert s == [Digit(d.0), Digit(d.1), Digit(d.2), '='];
    assert d.2 % 4 == 0;
  }

  lemma DecodeThree(b0: byte, b1: byte, b2: byte)
    ensures DecodeFull(Quantum(b0, b1, b2)) == Some([b0, b1, b2])
    ensures DecodeLast(Quantum(b0, b1, b2)) == Some([b0, b1, b2])
  {
    var d := Sextets(b0, b1, b2);
    OctetsSextets(b0, b1, b2);
    DigitInverse(d.0);
    DigitInverse(d.1);
    DigitInverse(d.2);
    DigitInverse(d.3);
  }

  /** Encoding a decoded text gives back the text: the decoder accepts only
      encodings. */
  lemma {:induction false} EncodeDecode(s: string)
    requires Decode(s).Some?
    ensures Encode(Decode(s).value) == s
    decreases |s|
  {
    if |s| == 4 {
      EncodeLastQuantum(s);
    } else if |s| > 4 {
      var head := DecodeFull(s[..4]).value;
      var tail := Decode(s[4..]).value;
      EncodeDecode(s[4..]);
      EncodeFullQuantum(s[..4]);
      assert Decode(s).value == head + tail;
      assert (head + tail)[3..] == tail;
      assert s == s[..4] + s[4..];
    }
  }

  lemma EncodeFullQuantum(q: string)
    requires |q| == 4 && DecodeFull(q).Some?
    ensures var h := DecodeFull(q).value; |h| == 3 && Quantum(h[0], h[1], h[2]) == q
  {
    var v0, v1, v2, v3 := DigitValue(q[0]).value, DigitValue(q[1]).value, DigitValue(q[2]).value, DigitValue(q[3]).value;
    SextetsOctets(v0, v1, v2, v3);
    DigitValueInverse(q[0]);
    DigitValueInverse(q[1]);
    DigitValueInverse(q[2]);
    DigitValueInverse(q[3]);
  }

  lemma EncodeLastQuantum(q: string)
    requires |q| == 4 && DecodeLast(q).Some?
    ensures Encode(DecodeLast(q).value) == q
  {
    var v0, v1 := DigitValue(q[0]).value, DigitValue(q[1]).value;
    DigitValueInverse(q[0]);
    DigitValueInverse(q[1]);
    if q[2] == '=' && q[3] == '=' {
      SextetsOctets(v0, v1, 0, 0);
    } else if q[3] == '=' {
      var v2 := DigitValue(q[2]).value;
      DigitValueInverse(q[2]);
      SextetsOctets(v0, v1, v2, 0);
    } else {
      var v2, v3 := DigitValue(q[2]).value, DigitValue(q[3]).value;
      DigitValueInverse(q[2]);
      DigitValueInverse(q[3]);
      SextetsOctets(v0, v1, v2, v3);
      var b := DecodeLast(q).value;
      assert b[3..] == [];
    }
  }

  /** `String.fromCharCode` applied to each byte: the "binary string" of the bytes. */
  function Latin1(b: seq<byte>): (s: string)
    ensures |s| == |b|
    ensures forall i :: 0 <= i < |b| ==> s[i] as int == b[i]
  {
    seq(|b|, i requires 0 <= i < |b| => b[i] as char)
  }

  /** `window.btoa`: it fails on a character above U+00FF and otherwise
      encodes the characters as bytes. */
  function Btoa(s: string): (r: Option<string>)
    ensures r.None? <==> exists i :: 0 <= i < |s| && s[i] as int >= 256
  {
    if exists i :: 0 <= i < |s| && s[i] as int >= 256 then None
    else Some(Encode(seq(|s|, i requires 0 <= i < |s| && s[i] as int < 256 => s[i] as int as byte)))
  }

  /** `btoa` of a binary string never fails and encodes exactly its bytes. */
  lemma BtoaLatin1(b: seq<byte>)
    ensures Btoa(Latin1(b)) == Some(Encode(b))
  {
    var s := Latin1(b);
    assert seq(|s|, i requires 0 <= i < |s| && s[i] as int < 256 => s[i] as int as byte) == b;
  }
}
