/**
 * The basic Base64 alphabet of section 4 of RFC 4648, as `java.util.Base64`'s
 * basic encoder and decoder apply it: the encoder always pads with `=`; the
 * decoder rejects every byte outside the alphabet, accepts a final unit with
 * or without its padding, and ignores the unused low bits of a final unit.
 */
module Base64 {
  import opened Wrappers
  import opened Text

  const Padding: byte := 61  // '='

  /** The 64 characters of the alphabet: `A-Z`, `a-z`, `0-9`, `+`, `/`. */
  predicate IsAlphabet(c: byte) {
    (65 <= c <= 90) || (97 <= c <= 122) || (48 <= c <= 57) || c == 43 || c == 47
  }

  /** The character that stands for the six-bit value `v`. */
  function CharOf(v: nat): (c: byte)
    requires v < 64
    ensures IsAlphabet(c) && c != Padding && ValueOf(c) == v
  {
    if v < 26 then (65 + v) as byte
    else if v < 52 then (97 + v - 26) as byte
    else if v < 62 then (48 + v - 52) as byte
    else if v == 62 then 43
    else 47
  }

  /** The six-bit value of an alphabet character. */
  function ValueOf(c: byte): (v: nat)
    requires IsAlphabet(c)
    ensures v < 64
  {
    if 65 <= c <= 90 then (c - 65) as nat
    else if 97 <= c <= 122 then (c - 97) as nat + 26
    else if 48 <= c <= 57 then (c - 48) as nat + 52
    else if c == 43 then 62
    else 63
  }

  lemma CharOfValueOf(c: byte)
    requires IsAlphabet(c)
    ensures CharOf(ValueOf(c)) == c
  {
  }

  /** Three bytes as four characters. */
  function EncodeUnit(b0: byte, b1: byte, b2: byte): seq<byte> {
    [CharOf(b0 as nat / 4),
     CharOf((b0 as nat % 4) * 16 + b1 as nat / 16),
     CharOf((b1 as nat % 16) * 4 + b2 as nat / 64),
     CharOf(b2 as nat % 64)]
  }

  /** Basic encoding: every three bytes become four characters; a final one or two bytes are padded to four. */
  function Encode(s: seq<byte>): seq<byte>
    decreases |s|
  {
    if |s| == 0 then []
    else if |s| == 1 then
      [CharOf(s[0] as nat / 4), CharOf((s[0] as nat % 4) * 16), Padding, Padding]
    else if |s| == 2 then
      [CharOf(s[0] as nat / 4), CharOf((s[0] as nat % 4) * 16 + s[1] as nat / 16), CharOf((s[1] as nat % 16) * 4), Padding]
    else
      EncodeUnit(s[0], s[1], s[2]) + Encode(s[3..])
  }

  function Byte0(c0: byte, c1: byte): byte
    requires IsAlphabet(c0) && IsAlphabet(c1)
  {
    (ValueOf(c0) * 4 + ValueOf(c1) / 16) as byte
  }

  function Byte1(c1: byte, c2: byte): byte
    requires IsAlphabet(c1) && IsAlphabet(c2)
  {
    ((ValueOf(c1) % 16) * 16 + ValueOf(c2) / 4) as byte
  }

  function Byte2(c2: byte, c3: byte): byte
    requires IsAlphabet(c2) && IsAlphabet(c3)
  {
    ((ValueOf(c2) % 4) * 64 + ValueOf(c3)) as byte
  }

  predicate IsFullUnit(s: seq<byte>) {
    |s| >= 4 && IsAlphabet(s[0]) && IsAlphabet(s[1]) && IsAlphabet(s[2]) && IsAlphabet(s[3])
  }

  /**
   * The last unit of the input (it does not start with four alphabet characters):
   * two characters give one byte and three give two, optionally followed by
   * exactly the right padding and nothing after it; anything else is rejected.
   */
  function DecodeLast(s: seq<byte>): Option<seq<byte>>
    requires |s| > 0 && !IsFullUnit(s)
  {
    if !IsAlphabet(s[0]) || |s| == 1 || !IsAlphabet(s[1]) then None
    else if |s| == 2 then Some([Byte0(s[0], s[1])])
    else if s[2] == Padding then
      (if |s| == 4 && s[3] == Padding then Some([Byte0(s[0], s[1])]) else None)
    else if !IsAlphabet(s[2]) then None
    else if |s| == 3 then Some([Byte0(s[0], s[1]), Byte1(s[1], s[2])])
    else if s[3] == Padding && |s| == 4 then Some([Byte0(s[0], s[1]), Byte1(s[1], s[2])])
    else None
  }

  /** Basic decoding; `None` where `java.util.Base64.Decoder.decode` throws `IllegalArgumentException`. */
  function Decode(s: seq<byte>): Option<seq<byte>>
    decreases |s|
  {
    if |s| == 0 then Some([])
    else if IsFullUnit(s) then
      match Decode(s[4..])
      case Some(rest) => Some([Byte0(s[0], s[1]), Byte1(s[1], s[2]), Byte2(s[2], s[3])] + rest)
      case None => None
    else DecodeLast(s)
  }

  lemma UnitRoundTrip(b0: byte, b1: byte, b2: byte)
    ensures var u := EncodeUnit(b0, b1, b2);
      Byte0(u[0], u[1]) == b0 && Byte1(u[1], u[2]) == b1 && Byte2(u[2], u[3]) == b2
  {
    var x0, x1, x2 := b0 as nat, b1 as nat, b2 as nat;
    assert ValueOf(CharOf(x0 / 4)) * 4 + ValueOf(CharOf((x0 % 4) * 16 + x1 / 16)) / 16 == x0;
    assert (ValueOf(CharOf((x0 % 4) * 16 + x1 / 16)) % 16) * 16 + ValueOf(CharOf((x1 % 16) * 4 + x2 / 64)) / 4 == x1;
    assert (ValueOf(CharOf((x1 % 16) * 4 + x2 / 64)) % 4) * 64 + ValueOf(CharOf(x2 % 64)) == x2;
  }

  /** Decoding undoes encoding, for every byte sequence. */
  lemma {:induction false} DecodeEncode(s: seq<byte>)
    ensures Decode(Encode(s)) == Some(s)
    decreases |s|
  {
    if |s| == 1 {
      var x0 := s[0] as nat;
      assert ValueOf(CharOf(x0 / 4)) * 4 + ValueOf(CharOf((x0 % 4) * 16)) / 16 == x0;
      var e := Encode(s);
      assert !IsFullUnit(e) && e[2] == Padding && e[3] == Padding;
      assert DecodeLast(e) == Some([Byte0(e[0], e[1])]);
      assert Byte0(e[0], e[1]) == s[0];
      assert s == [s[0]];
    } else if |s| == 2 {
      var x0, x1 := s[0] as nat, s[1] as nat;
      assert ValueOf(CharOf(x0 / 4)) * 4 + ValueOf(CharOf((x0 % 4) * 16 + x1 / 16)) / 16 == x0;
      assert (ValueOf(CharOf((x0 % 4) * 16 + x1 / 16)) % 16) * 16 + ValueOf(CharOf((x1 % 16) * 4)) / 4 == x1;
      var e := Encode(s);
      assert !IsFullUnit(e) && e[2] != Padding && IsAlphabet(e[2]);
      assert DecodeLast(e) == Some([Byte0(e[0], e[1]), Byte1(e[1], e[2])]);
      assert Byte0(e[0], e[1]) == s[0] && Byte1(e[1], e[2]) == s[1];
      assert s == [s[0], s[1]];
    } else if |s| >= 3 {
      var u := EncodeUnit(s[0], s[1], s[2]);
      var e := u + Encode(s[3..]);
      DecodeEncode(s[3..]);
      UnitRoundTrip(s[0], s[1], s[2]);
      assert e[4..] == Encode(s[3..]);
      assert IsFullUnit(e);
      assert s == [s[0], s[1], s[2]] + s[3..];
    }
  }

  /** Four output characters for every started group of three input bytes. */
  lemma {:induction false} EncodeLength(s: seq<byte>)
    ensures |Encode(s)| == 4 * ((|s| + 2) / 3)
    decreases |s|
  {
    if |s| >= 3 {
      EncodeLength(s[3..]);
    }
  }

  /** Encoding is total and speaks only the alphabet, with `=` padding only in the last two places. */
  lemma {:induction false} EncodeAlphabet(s: seq<byte>)
    ensures forall i :: 0 <= i < |Encode(s)| ==> IsAlphabet(Encode(s)[i]) || Encode(s)[i] == Padding
    ensures forall i :: 0 <= i < |Encode(s)| - 2 ==> IsAlphabet(Encode(s)[i])
    decreases |s|
  {
    if |s| >= 3 {
      EncodeAlphabet(s[3..]);
      var e := Encode(s);
      assert forall i :: 4 <= i < |e| ==> e[i] == Encode(s[3..])[i - 4];
    }
  }

  /** A byte outside the alphabet that is not `=` makes the whole input undecodable, wherever it stands. */
  lemma {:induction false} DecodeRejectsForeign(s: seq<byte>, i: nat)
    requires i < |s| && !IsAlphabet(s[i]) && s[i] != Padding
    ensures Decode(s) == None
    decreases |s|
  {
    if IsFullUnit(s) {
      DecodeRejectsForeign(s[4..], i - 4);
    }
  }
}
