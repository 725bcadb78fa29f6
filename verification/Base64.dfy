/** Base64 (RFC 4648): the padded standard alphabet and the unpadded URL-safe one. */
module Base64 {
  import opened Wrappers

  type byte = b: int | 0 <= b < 256

  datatype Variant = Standard | UrlUnpadded

  // ---- The alphabet -----------------------------------------------------------

  function Digit(v: Variant, d: int): char
    requires 0 <= d < 64
  {
    if d < 26 then 'A' + d as char
    else if d < 52 then 'a' + (d - 26) as char
    else if d < 62 then '0' + (d - 52) as char
    else if d == 62 then (if v == Standard then '+' else '-')
    else if v == Standard then '/' else '_'
  }

  function DigitValue(v: Variant, c: char): (d: Option<int>)
    ensures d.Some? ==> 0 <= d.value < 64
  {
    if 'A' <= c <= 'Z' then Some((c - 'A') as int)
    else if 'a' <= c <= 'z' then Some((c - 'a') as int + 26)
    else if '0' <= c <= '9' then Some((c - '0') as int + 52)
    else if c == Digit(v, 62) then Some(62)
    else if c == Digit(v, 63) then Some(63)
    else None
  }

  lemma DigitInverse(v: Variant, d: int, c: char)
    requires 0 <= d < 64
    ensures DigitValue(v, c) == Some(d) <==> c == Digit(v, d)
  {
  }

  /** Characters an encoding can contain. */
  predicate InAlphabet(v: Variant, c: char) {
    DigitValue(v, c).Some? || (v == Standard && c == '=')
  }

  // ---- Encoding ---------------------------------------------------------------

  function Pad(v: Variant, n: nat): string {
    if v == UrlUnpadded then "" else if n == 2 then "==" else "="
  }

  function Encode(v: Variant, b: seq<byte>): string {
    if b == [] then ""
    else if |b| == 1 then
      [Digit(v, b[0] / 4), Digit(v, b[0] % 4 * 16)] + Pad(v, 2)
    else if |b| == 2 then
      [Digit(v, b[0] / 4), Digit(v, b[0] % 4 * 16 + b[1] / 16), Digit(v, b[1] % 16 * 4)] + Pad(v, 1)
    else
      [Digit(v, b[0] / 4), Digit(v, b[0] % 4 * 16 + b[1] / 16),
       Digit(v, b[1] % 16 * 4 + b[2] / 64), Digit(v, b[2] % 64)] + Encode(v, b[3..])
  }

  // ---- Decoding ---------------------------------------------------------------

  function Triple(w: int, x: int, y: int, z: int): (t: seq<byte>)
    requires 0 <= w < 64 && 0 <= x < 64 && 0 <= y < 64 && 0 <= z < 64
    ensures |t| == 3
  {
    [w * 4 + x / 16, x % 16 * 16 + y / 4, y % 4 * 64 + z]
  }

  /** Two or three digits that end an encoding; the bits no byte uses must be zero. */
  function Tail(v: Variant, s: string): Option<seq<byte>> {
    if |s| == 2 then
      match (DigitValue(v, s[0]), DigitValue(v, s[1]))
      case (Some(w), Some(x)) => if x % 16 == 0 then Some([w * 4 + x / 16]) else None
      case _ => None
    else if |s| == 3 then
      match (DigitValue(v, s[0]), DigitValue(v, s[1]), DigitValue(v, s[2]))
      case (Some(w), Some(x), Some(y)) => if y % 4 == 0 then Some([w * 4 + x / 16, x % 16 * 16 + y / 4]) else None
      case _ => None
    else None
  }

  /** The unpadded digits of a final group, or the group itself when it carries no padding. */
  function Unpadded(v: Variant, s: string): string
    requires |s| <= 4
  {
    if v == Standard && |s| == 4 && s[3] == '=' then (if s[2] == '=' then s[..2] else s[..3]) else s
  }

  function Decode(v: Variant, s: string): Option<seq<byte>> {
    if s == "" then Some([])
    else if |s| <= 4 && |Unpadded(v, s)| < 4 then
      if v == Standard && |s| < 4 then None else Tail(v, Unpadded(v, s))
    else
      match (DigitValue(v, s[0]), DigitValue(v, s[1]), DigitValue(v, s[2]), DigitValue(v, s[3]))
      case (Some(w), Some(x), Some(y), Some(z)) =>
        (match Decode(v, s[4..])
         case Some(rest) => Some(Triple(w, x, y, z) + rest)
         case None => None)
      case _ => None
  }

  // ---- The two are inverse ------------------------------------------------------

  lemma TripleOfBytes(a: byte, b: byte, c: byte)
    ensures Triple(a / 4, a % 4 * 16 + b / 16, b % 16 * 4 + c / 64, c % 64) == [a, b, c]
  {
    var x, y := a % 4 * 16 + b / 16, b % 16 * 4 + c / 64;
    assert x / 16 == a % 4 && x % 16 == b / 16;
    assert y / 4 == b % 16 && y % 4 == c / 64;
  }

  lemma BytesOfTriple(w: int, x: int, y: int, z: int)
    requires 0 <= w < 64 && 0 <= x < 64 && 0 <= y < 64 && 0 <= z < 64
    ensures var t := Triple(w, x, y, z);
            t[0] / 4 == w && t[0] % 4 * 16 + t[1] / 16 == x && t[1] % 16 * 4 + t[2] / 64 == y && t[2] % 64 == z
  {
  }

  lemma EncodeOne(v: Variant, b: byte)
    ensures Decode(v, Encode(v, [b])) == Some([b])
  {
    hide Digit, DigitValue;
    DigitInverse(v, b / 4, Digit(v, b / 4));
    DigitInverse(v, b % 4 * 16, Digit(v, b % 4 * 16));
    PaddingIsNoDigit();
    assert Unpadded(v, Encode(v, [b])) == Encode(v, [b])[..2];
  }

  lemma PairOfBytes(b: byte, c: byte)
    ensures var x, y := b % 4 * 16 + c / 16, c % 16 * 4;
            y % 4 == 0 && [b / 4 * 4 + x / 16, x % 16 * 16 + y / 4] == [b, c]
  {
    var x := b % 4 * 16 + c / 16;
    assert x / 16 == b % 4 && x % 16 == c / 16;
  }

  lemma EncodeTwo(v: Variant, b: byte, c: byte)
    ensures Decode(v, Encode(v, [b, c])) == Some([b, c])
  {
    hide Digit, DigitValue;
    var w, x, y := b / 4, b % 4 * 16 + c / 16, c % 16 * 4;
    DigitInverse(v, w, Digit(v, w));
    DigitInverse(v, x, Digit(v, x));
    DigitInverse(v, y, Digit(v, y));
    PaddingIsNoDigit();
    PairOfBytes(b, c);
    assert Unpadded(v, Encode(v, [b, c])) == [Digit(v, w), Digit(v, x), Digit(v, y)];
  }

  lemma PaddingIsNoDigit()
    ensures DigitValue(Standard, '=') == None
  {
  }

  lemma DecodeGroup(v: Variant, w: int, x: int, y: int, z: int, rest: string)
    requires 0 <= w < 64 && 0 <= x < 64 && 0 <= y < 64 && 0 <= z < 64
    requires Decode(v, rest).Some?
    ensures Decode(v, [Digit(v, w), Digit(v, x), Digit(v, y), Digit(v, z)] + rest)
         == Some(Triple(w, x, y, z) + Decode(v, rest).value)
  {
    hide Digit, DigitValue, Triple, Tail;
    var s := [Digit(v, w), Digit(v, x), Digit(v, y), Digit(v, z)] + rest;
    assert s[4..] == rest;
    PaddingIsNoDigit();
    DigitInverse(v, w, s[0]); DigitInverse(v, x, s[1]); DigitInverse(v, y, s[2]); DigitInverse(v, z, s[3]);
  }

  lemma EncodeFirstGroup(v: Variant, b: seq<byte>)
    requires |b| >= 3
    ensures Encode(v, b) == [Digit(v, b[0] / 4), Digit(v, b[0] % 4 * 16 + b[1] / 16),
                             Digit(v, b[1] % 16 * 4 + b[2] / 64), Digit(v, b[2] % 64)] + Encode(v, b[3..])
  {
    hide Digit, Pad;
  }

  lemma {:induction false} DecodeEncode(v: Variant, b: seq<byte>)
    ensures Decode(v, Encode(v, b)) == Some(b)
  {
    hide Encode, Decode, Digit, Triple;
    if b == [] {
      NothingDecodes(v);
    } else if |b| == 1 {
      EncodeOne(v, b[0]);
      assert b == [b[0]];
    } else if |b| == 2 {
      EncodeTwo(v, b[0], b[1]);
      assert b == [b[0], b[1]];
    } else {
      DecodeEncode(v, b[3..]);
      EncodeFirstGroup(v, b);
      DecodeGroup(v, b[0] / 4, b[0] % 4 * 16 + b[1] / 16, b[1] % 16 * 4 + b[2] / 64, b[2] % 64, Encode(v, b[3..]));
      TripleOfBytes(b[0], b[1], b[2]);
      assert b == [b[0], b[1], b[2]] + b[3..];
    }
  }

  lemma NothingDecodes(v: Variant)
    ensures Decode(v, Encode(v, [])) == Some([])
  {
  }

  lemma TailOfTwo(v: Variant, s: string)
    requires |s| == 2 && Tail(v, s).Some?
    ensures Encode(v, Tail(v, s).value) == s + Pad(v, 2)
  {
    hide Digit, DigitValue, Pad;
    DigitInverse(v, DigitValue(v, s[0]).value, s[0]);
    DigitInverse(v, DigitValue(v, s[1]).value, s[1]);
    assert s == [s[0], s[1]];
  }

  lemma TailOfThree(v: Variant, s: string)
    requires |s| == 3 && Tail(v, s).Some?
    ensures Encode(v, Tail(v, s).value) == s + Pad(v, 1)
  {
    hide Digit, DigitValue, Pad;
    var w, x, y := DigitValue(v, s[0]).value, DigitValue(v, s[1]).value, DigitValue(v, s[2]).value;
    DigitInverse(v, w, s[0]);
    DigitInverse(v, x, s[1]);
    DigitInverse(v, y, s[2]);
    BytesOfTriple(w, x, y, 0);
    assert s == [s[0], s[1], s[2]];
  }

  lemma TailEncoded(v: Variant, s: string)
    requires Tail(v, s).Some?
    ensures Encode(v, Tail(v, s).value) == s + Pad(v, 4 - |s|)
  {
    hide Digit, DigitValue, Pad, Encode;
    if |s| == 2 {
      TailOfTwo(v, s);
    } else {
      TailOfThree(v, s);
    }
  }

  lemma EncodeGroup(v: Variant, w: int, x: int, y: int, z: int, rest: seq<byte>)
    requires 0 <= w < 64 && 0 <= x < 64 && 0 <= y < 64 && 0 <= z < 64
    ensures Encode(v, Triple(w, x, y, z) + rest)
         == [Digit(v, w), Digit(v, x), Digit(v, y), Digit(v, z)] + Encode(v, rest)
  {
    hide Digit, Triple;
    var t := Triple(w, x, y, z);
    BytesOfTriple(w, x, y, z);
    assert (t + rest)[3..] == rest;
    assert (t + rest)[0] == t[0] && (t + rest)[1] == t[1] && (t + rest)[2] == t[2];
  }

  lemma {:induction false} EncodeDecode(v: Variant, s: string)
    requires Decode(v, s).Some?
    ensures Encode(v, Decode(v, s).value) == s
  {
    hide Digit, DigitValue, Triple, Tail, Encode;
    if s == "" {
      EmptyEncodes(v);
    } else if |s| <= 4 && |Unpadded(v, s)| < 4 {
      TailEncoded(v, Unpadded(v, s));
    } else {
      EncodeDecode(v, s[4..]);
      var w, x := DigitValue(v, s[0]).value, DigitValue(v, s[1]).value;
      var y, z := DigitValue(v, s[2]).value, DigitValue(v, s[3]).value;
      DigitInverse(v, w, s[0]); DigitInverse(v, x, s[1]); DigitInverse(v, y, s[2]); DigitInverse(v, z, s[3]);
      EncodeGroup(v, w, x, y, z, Decode(v, s[4..]).value);
      assert s == [s[0], s[1], s[2], s[3]] + s[4..];
    }
  }

  lemma EmptyEncodes(v: Variant)
    ensures Encode(v, []) == ""
  {
  }

  /** Decoding succeeds on encodings and on nothing else, with the bytes that were encoded. */
  lemma DecodesExactlyEncodings(v: Variant, s: string, b: seq<byte>)
    ensures Decode(v, s) == Some(b) <==> s == Encode(v, b)
  {
    DecodeEncode(v, b);
    if Decode(v, s) == Some(b) {
      EncodeDecode(v, s);
    }
  }

  lemma EncodeInjective(v: Variant, a: seq<byte>, b: seq<byte>)
    requires Encode(v, a) == Encode(v, b)
    ensures a == b
  {
    DecodeEncode(v, a);
    DecodeEncode(v, b);
  }

  /** The digits in their order: capitals, small letters, numerals, and the two signs that differ between
      the alphabets. */
  lemma DigitsInOrder(v: Variant, d: int)
    requires 0 <= d < 64
    ensures Digit(v, 0) == 'A' && Digit(v, 25) == 'Z' && Digit(v, 26) == 'a' && Digit(v, 51) == 'z'
    ensures Digit(v, 52) == '0' && Digit(v, 61) == '9'
    ensures d < 61 && d != 25 && d != 51 ==> Digit(v, d + 1) == Digit(v, d) + 1 as char
    ensures Digit(Standard, 62) == '+' && Digit(Standard, 63) == '/'
    ensures Digit(UrlUnpadded, 62) == '-' && Digit(UrlUnpadded, 63) == '_'
  {
  }

  /** What digits spell as a number, the first one the most significant. */
  function Spells(v: Variant, s: string): Option<nat> {
    if s == "" then Some(0)
    else match (Spells(v, s[..|s| - 1]), DigitValue(v, s[|s| - 1]))
      case (Some(n), Some(d)) => Some(64 * n + d)
      case _ => None
  }

  /** Four digits spell the number their three bytes spell; a last group is filled up with zero bits. */
  lemma GroupsSpell(v: Variant, a: byte, b: byte, c: byte, rest: seq<byte>)
    ensures |Encode(v, [a, b, c] + rest)| >= 4
    ensures Spells(v, Encode(v, [a, b, c] + rest)[..4]) == Some(65_536 * a + 256 * b + c)
    ensures |Encode(v, [a, b])| >= 3 && Spells(v, Encode(v, [a, b])[..3]) == Some(4 * (256 * a + b))
    ensures |Encode(v, [a])| >= 2 && Spells(v, Encode(v, [a])[..2]) == Some(16 * a)
  {
    hide Digit, DigitValue, Spells;
    var all := [a, b, c] + rest;
    EncodeFirstGroup(v, all);
    SpellsFour(v, a / 4, a % 4 * 16 + b / 16, b % 16 * 4 + c / 64, c % 64);
    SpellsThree(v, a / 4, a % 4 * 16 + b / 16, b % 16 * 4);
    SpellsTwo(v, a / 4, a % 4 * 16);
    assert Encode(v, all)[..4] == [Digit(v, a / 4), Digit(v, a % 4 * 16 + b / 16), Digit(v, b % 16 * 4 + c / 64),
                                   Digit(v, c % 64)];
    assert Encode(v, [a, b])[..3] == [Digit(v, a / 4), Digit(v, a % 4 * 16 + b / 16), Digit(v, b % 16 * 4)];
    assert Encode(v, [a])[..2] == [Digit(v, a / 4), Digit(v, a % 4 * 16)];
  }

  lemma SpellsTwo(v: Variant, y: int, z: int)
    requires 0 <= y < 64 && 0 <= z < 64
    ensures Spells(v, [Digit(v, y), Digit(v, z)]) == Some(64 * y + z)
  {
    hide Digit, DigitValue, Spells;
    var e, f := Digit(v, y), Digit(v, z);
    assert "" + [e] == [e] && [e] + [f] == [e, f];
    SpellsOneMore(v, "", 0, y);
    SpellsOneMore(v, [e], y, z);
  }

  lemma SpellsThree(v: Variant, x: int, y: int, z: int)
    requires 0 <= x < 64 && 0 <= y < 64 && 0 <= z < 64
    ensures Spells(v, [Digit(v, x), Digit(v, y), Digit(v, z)]) == Some(4096 * x + 64 * y + z)
  {
    hide Digit, DigitValue, Spells;
    var d, e, f := Digit(v, x), Digit(v, y), Digit(v, z);
    assert [d, e] + [f] == [d, e, f];
    SpellsTwo(v, x, y);
    SpellsOneMore(v, [d, e], 64 * x + y, z);
  }

  lemma SpellsFour(v: Variant, w: int, x: int, y: int, z: int)
    requires 0 <= w < 64 && 0 <= x < 64 && 0 <= y < 64 && 0 <= z < 64
    ensures Spells(v, [Digit(v, w), Digit(v, x), Digit(v, y), Digit(v, z)])
            == Some(262_144 * w + 4096 * x + 64 * y + z)
  {
    hide Digit, DigitValue, Spells;
    var c, d, e, f := Digit(v, w), Digit(v, x), Digit(v, y), Digit(v, z);
    assert [c, d, e] + [f] == [c, d, e, f];
    SpellsThree(v, w, x, y);
    SpellsOneMore(v, [c, d, e], 4096 * w + 64 * x + y, z);
  }

  lemma SpellsOneMore(v: Variant, s: string, n: nat, d: int)
    requires 0 <= d < 64 && (s == "" ==> n == 0) && (s != "" ==> Spells(v, s) == Some(n))
    ensures Spells(v, s + [Digit(v, d)]) == Some(64 * n + d)
  {
    hide Digit, DigitValue;
    DigitInverse(v, d, Digit(v, d));
    assert (s + [Digit(v, d)])[..|s|] == s;
  }

  lemma {:induction false} EncodeAlphabet(v: Variant, b: seq<byte>)
    ensures forall i :: 0 <= i < |Encode(v, b)| ==> InAlphabet(v, Encode(v, b)[i])
  {
    if |b| >= 3 {
      EncodeAlphabet(v, b[3..]);
    }
  }
}
