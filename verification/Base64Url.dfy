/**
 The unpadded URL-safe alphabet of RFC 4648 (section 5, padding omitted as section 3.2 allows),
 which the service uses for refresh-token secrets and verification codes.

 `Encode` is the definition, `EncodeToString` the loop that computes it group by group, and
 `Decode` its exact inverse: it accepts an encoding and nothing else.
 */
module Base64Url {
  import opened Wrappers

  type Byte = b: int | 0 <= b < 256

  type Sextet = v: int | 0 <= v < 64

  /** The digit of a six-bit value, Table 2 of RFC 4648. */
  function Digit(v: Sextet): char {
    if v < 26 then 'A' + v as char
    else if v < 52 then 'a' + (v - 26) as char
    else if v < 62 then '0' + (v - 52) as char
    else if v == 62 then '-'
    else '_'
  }

  function ValueOf(c: char): Option<Sextet> {
    if 'A' <= c <= 'Z' then Some((c - 'A') as int)
    else if 'a' <= c <= 'z' then Some((c - 'a') as int + 26)
    else if '0' <= c <= '9' then Some((c - '0') as int + 52)
    else if c == '-' then Some(62)
    else if c == '_' then Some(63)
    else None
  }

  /** The alphabet by position: three ranges of characters that follow each other, a hyphen and an underscore. */
  lemma Alphabet(v: Sextet)
    ensures Digit(0) == 'A' && Digit(25) == 'Z' && Digit(26) == 'a' && Digit(51) == 'z'
    ensures Digit(52) == '0' && Digit(61) == '9' && Digit(62) == '-' && Digit(63) == '_'
    ensures v < 61 && v != 25 && v != 51 ==> Digit(v + 1) as int == Digit(v) as int + 1
  {
  }

  lemma DigitValue(v: Sextet)
    ensures ValueOf(Digit(v)) == Some(v)
  {
  }

  lemma ValueDigit(c: char)
    requires ValueOf(c).Some?
    ensures Digit(ValueOf(c).value) == c
  {
  }

  function EncodeGroup(x: Byte, y: Byte, z: Byte): string {
    [Digit(x / 4), Digit(x % 4 * 16 + y / 16), Digit(y % 16 * 4 + z / 64), Digit(z % 64)]
  }

  /** One or two left-over bytes become two or three digits; there is no padding. */
  function EncodeTail(b: seq<Byte>): string
    requires |b| < 3
  {
    if |b| == 0 then ""
    else if |b| == 1 then [Digit(b[0] / 4), Digit(b[0] % 4 * 16)]
    else [Digit(b[0] / 4), Digit(b[0] % 4 * 16 + b[1] / 16), Digit(b[1] % 16 * 4)]
  }

  function Encode(b: seq<Byte>): string {
    if |b| < 3 then EncodeTail(b) else EncodeGroup(b[0], b[1], b[2]) + Encode(b[3..])
  }

  function DecodeTail(s: string): Option<seq<Byte>>
    requires |s| < 4
  {
    if |s| == 0 then Some([])
    else if |s| == 1 || ValueOf(s[0]).None? || ValueOf(s[1]).None? then None
    else
      var p: int, q: int := ValueOf(s[0]).value, ValueOf(s[1]).value;
      if |s| == 2 then
        if q % 16 == 0 then Some([p * 4 + q / 16]) else None
      else if ValueOf(s[2]).None? then None
      else
        var r: int := ValueOf(s[2]).value;
        if r % 4 == 0 then Some([p * 4 + q / 16, q % 16 * 16 + r / 4]) else None
  }

  function DecodeGroup(c0: char, c1: char, c2: char, c3: char): Option<(Byte, Byte, Byte)> {
    if ValueOf(c0).None? || ValueOf(c1).None? || ValueOf(c2).None? || ValueOf(c3).None? then None
    else
      var p: int, q: int := ValueOf(c0).value, ValueOf(c1).value;
      var r: int, t: int := ValueOf(c2).value, ValueOf(c3).value;
      Some((p * 4 + q / 16, q % 16 * 16 + r / 4, r % 4 * 64 + t))
  }

  /** The strict decoder: unused low bits of the last digit must be zero. */
  function Decode(s: string): Option<seq<Byte>> {
    if |s| < 4 then DecodeTail(s)
    else
      match (DecodeGroup(s[0], s[1], s[2], s[3]), Decode(s[4..]))
      case (Some((x, y, z)), Some(rest)) => Some([x, y, z] + rest)
      case _ => None
  }

  /** Splitting three bytes into four six-bit values loses nothing. */
  lemma Regroup(x: Byte, y: Byte, z: Byte)
    ensures var p, q, r, t := x / 4, x % 4 * 16 + y / 16, y % 16 * 4 + z / 64, z % 64;
            0 <= p < 64 && 0 <= q < 64 && 0 <= r < 64 && 0 <= t < 64 &&
            p * 4 + q / 16 == x && q % 16 * 16 + r / 4 == y && r % 4 * 64 + t == z
  {
  }

  /** Three bytes and their four digits are the same number, most significant first. */
  lemma GroupIsBigEndian(x: Byte, y: Byte, z: Byte) returns (p: Sextet, q: Sextet, r: Sextet, t: Sextet)
    ensures EncodeGroup(x, y, z) == [Digit(p), Digit(q), Digit(r), Digit(t)]
    ensures ((p * 64 + q) * 64 + r) * 64 + t == (x * 256 + y) * 256 + z
  {
    p, q, r, t := x / 4, x % 4 * 16 + y / 16, y % 16 * 4 + z / 64, z % 64;
  }

  /** A digit for every six bits, the last ones filled up with zeros. */
  lemma {:induction false} EncodedLength(b: seq<Byte>)
    ensures 4 * |b| <= 3 * |Encode(b)| <= 4 * |b| + 2
  {
    if |b| >= 3 {
      EncodedLength(b[3..]);
    }
  }

  /** Test vectors of section 10 of RFC 4648, without their padding: "f", "fo" and "foo". */
  lemma Vectors()
    ensures Encode([102]) == "Zg" && Encode([102, 111]) == "Zm8" && Encode([102, 111, 111]) == "Zm9v"
  {
  }

  lemma TailRoundTrip(b: seq<Byte>)
    requires |b| < 3
    ensures DecodeTail(EncodeTail(b)) == Some(b)
  {
    if |b| == 1 {
      Regroup(b[0], 0, 0);
      DigitValue(b[0] / 4);
      DigitValue(b[0] % 4 * 16);
      assert b == [b[0]];
    } else if |b| == 2 {
      Regroup(b[0], b[1], 0);
      DigitValue(b[0] / 4);
      DigitValue(b[0] % 4 * 16 + b[1] / 16);
      DigitValue(b[1] % 16 * 4);
      assert b == [b[0], b[1]];
    }
  }

  lemma GroupRoundTrip(x: Byte, y: Byte, z: Byte)
    ensures var g := EncodeGroup(x, y, z); DecodeGroup(g[0], g[1], g[2], g[3]) == Some((x, y, z))
  {
    Regroup(x, y, z);
    FourDigitsDecode(x / 4, x % 4 * 16 + y / 16, y % 16 * 4 + z / 64, z % 64, x, y, z);
  }

  lemma FourDigitsDecode(p: Sextet, q: Sextet, r: Sextet, t: Sextet, x: Byte, y: Byte, z: Byte)
    requires p * 4 + q / 16 == x && q % 16 * 16 + r / 4 == y && r % 4 * 64 + t == z
    ensures DecodeGroup(Digit(p), Digit(q), Digit(r), Digit(t)) == Some((x, y, z))
  {
    DigitsDecode(p, q, r, t);
  }

  lemma DigitsDecode(p: Sextet, q: Sextet, r: Sextet, t: Sextet)
    ensures DecodeGroup(Digit(p), Digit(q), Digit(r), Digit(t))
         == Some((p * 4 + q / 16, q % 16 * 16 + r / 4, r % 4 * 64 + t))
  {
    DigitValue(p);
    DigitValue(q);
    DigitValue(r);
    DigitValue(t);
  }

  /** Packing four six-bit values into three bytes loses nothing. */
  lemma Ungroup(p: Sextet, q: Sextet, r: Sextet, t: Sextet)
    ensures var x: int, y: int, z: int := p * 4 + q / 16, q % 16 * 16 + r / 4, r % 4 * 64 + t;
            0 <= x < 256 && 0 <= y < 256 && 0 <= z < 256 &&
            x / 4 == p && x % 4 * 16 + y / 16 == q && y % 16 * 4 + z / 64 == r && z % 64 == t
  {
  }

  lemma EncodeFour(p: Sextet, q: Sextet, r: Sextet, t: Sextet, x: Byte, y: Byte, z: Byte)
    requires x == p * 4 + q / 16 && y == q % 16 * 16 + r / 4 && z == r % 4 * 64 + t
    ensures EncodeGroup(x, y, z) == [Digit(p), Digit(q), Digit(r), Digit(t)]
  {
    Ungroup(p, q, r, t);
    assert x / 4 == p && x % 4 * 16 + y / 16 == q && y % 16 * 4 + z / 64 == r && z % 64 == t;
  }

  lemma GroupInverse(c0: char, c1: char, c2: char, c3: char)
    requires DecodeGroup(c0, c1, c2, c3).Some?
    ensures var (x, y, z) := DecodeGroup(c0, c1, c2, c3).value; EncodeGroup(x, y, z) == [c0, c1, c2, c3]
  {
    ValueDigit(c0);
    ValueDigit(c1);
    ValueDigit(c2);
    ValueDigit(c3);
    var (x, y, z) := DecodeGroup(c0, c1, c2, c3).value;
    EncodeFour(ValueOf(c0).value, ValueOf(c1).value, ValueOf(c2).value, ValueOf(c3).value, x, y, z);
  }

  lemma TailInverse(s: string)
    requires |s| < 4 && DecodeTail(s).Some?
    ensures |DecodeTail(s).value| < 3 && EncodeTail(DecodeTail(s).value) == s
  {
    if |s| == 2 {
      TwoDigitsInverse(s[0], s[1]);
      assert s == [s[0], s[1]];
    } else if |s| == 3 {
      ThreeDigitsInverse(s[0], s[1], s[2]);
      assert s == [s[0], s[1], s[2]];
    }
  }

  lemma TwoDigitsInverse(c0: char, c1: char)
    requires DecodeTail([c0, c1]).Some?
    ensures |DecodeTail([c0, c1]).value| == 1 && EncodeTail(DecodeTail([c0, c1]).value) == [c0, c1]
  {
    ValueDigit(c0);
    ValueDigit(c1);
    Ungroup(ValueOf(c0).value, ValueOf(c1).value, 0, 0);
  }

  lemma EncodeTwo(p: Sextet, q: Sextet, r: Sextet, x: Byte, y: Byte)
    requires r % 4 == 0 && x == p * 4 + q / 16 && y == q % 16 * 16 + r / 4
    ensures EncodeTail([x, y]) == [Digit(p), Digit(q), Digit(r)]
  {
    Ungroup(p, q, r, 0);
    assert x / 4 == p && x % 4 * 16 + y / 16 == q && y % 16 * 4 == r;
  }

  lemma ThreeDigitsInverse(c0: char, c1: char, c2: char)
    requires DecodeTail([c0, c1, c2]).Some?
    ensures |DecodeTail([c0, c1, c2]).value| == 2 && EncodeTail(DecodeTail([c0, c1, c2]).value) == [c0, c1, c2]
  {
    ValueDigit(c0);
    ValueDigit(c1);
    ValueDigit(c2);
    var b := DecodeTail([c0, c1, c2]).value;
    EncodeTwo(ValueOf(c0).value, ValueOf(c1).value, ValueOf(c2).value, b[0], b[1]);
    assert b == [b[0], b[1]];
  }

  /** Every byte string survives encoding. */
  lemma {:induction false} DecodeOfEncode(b: seq<Byte>)
    ensures Decode(Encode(b)) == Some(b)
  {
    if |b| < 3 {
      TailRoundTrip(b);
    } else {
      GroupRoundTrip(b[0], b[1], b[2]);
      DecodeOfEncode(b[3..]);
      assert Encode(b)[4..] == Encode(b[3..]);
      assert b == [b[0], b[1], b[2]] + b[3..];
    }
  }

  /** Conversely a string the decoder accepts is the encoding of what it decodes to. */
  lemma {:induction false} EncodeOfDecode(s: string)
    requires Decode(s).Some?
    ensures Encode(Decode(s).value) == s
  {
    if |s| < 4 {
      TailInverse(s);
    } else {
      GroupInverse(s[0], s[1], s[2], s[3]);
      EncodeOfDecode(s[4..]);
      assert Decode(s).value[3..] == Decode(s[4..]).value;
      assert s == [s[0], s[1], s[2], s[3]] + s[4..];
    }
  }

  lemma EncodeInjective(a: seq<Byte>, b: seq<Byte>)
    requires Encode(a) == Encode(b)
    ensures a == b
  {
    DecodeOfEncode(a);
    DecodeOfEncode(b);
  }

  /** No digit is the separator of a raw token. */
  lemma {:induction false} EncodeHasNoDot(b: seq<Byte>)
    ensures '.' !in Encode(b)
  {
    if |b| >= 3 {
      EncodeHasNoDot(b[3..]);
    }
  }

  /** What the loop has written when it stands at the `si`-th byte. */
  function EncodeGroups(b: seq<Byte>, si: nat): string
    requires si <= |b|
  {
    if si < 3 then "" else EncodeGroups(b, si - 3) + EncodeGroup(b[si - 3], b[si - 2], b[si - 1])
  }

  /** A whole number of groups of three; stated without remainders, which the solver is slow on. */
  ghost predicate Whole(n: nat) {
    n == 0 || (n >= 3 && Whole(n - 3))
  }

  lemma {:induction false} TimesThree(g: nat)
    ensures Whole(3 * g)
  {
    if g > 0 {
      TimesThree(g - 1);
      assert 3 * g - 3 == 3 * (g - 1);
    }
  }

  lemma {:induction false} RoomForOne(si: nat, n: nat)
    requires Whole(si) && Whole(n) && si < n
    ensures si + 3 <= n && Whole(si + 3)
  {
    if si > 0 {
      RoomForOne(si - 3, n - 3);
    }
  }

  lemma EncodeStep(b: seq<Byte>, si: nat)
    requires 3 <= si <= |b|
    ensures EncodeGroup(b[si - 3], b[si - 2], b[si - 1]) + Encode(b[si..]) == Encode(b[si - 3..])
  {
    var rest := b[si - 3..];
    assert rest[3..] == b[si..];
  }

  /** Groups and what follows them make up the whole encoding. */
  lemma {:induction false} GroupsThenRest(b: seq<Byte>, si: nat)
    requires si <= |b| && Whole(si)
    ensures EncodeGroups(b, si) + Encode(b[si..]) == Encode(b)
  {
    if si == 0 {
      assert b[0..] == b;
    } else {
      GroupsThenRest(b, si - 3);
      EncodeStep(b, si);
      ConcatAssociates(EncodeGroups(b, si - 3), EncodeGroup(b[si - 3], b[si - 2], b[si - 1]), Encode(b[si..]));
    }
  }

  lemma ConcatAssociates(s: string, t: string, u: string)
    ensures s + t + u == s + (t + u)
  {
  }

  lemma OneMoreGroup(b: seq<Byte>, si: nat)
    requires si + 3 <= |b|
    ensures EncodeGroups(b, si + 3) == EncodeGroups(b, si) + EncodeGroup(b[si], b[si + 1], b[si + 2])
  {
  }

  lemma GroupsThenTail(b: seq<Byte>, n: nat)
    requires n <= |b| < n + 3 && Whole(n)
    ensures EncodeGroups(b, n) + EncodeTail(b[n..]) == Encode(b)
  {
    GroupsThenRest(b, n);
  }

  function WholeGroups(length: nat): (n: nat)
    ensures n <= length < n + 3 && Whole(n)
  {
    TimesThree(length / 3);
    length / 3 * 3
  }

  /** The library's loop: whole groups of three bytes first, then the left-over ones. */
  method EncodeToString(b: seq<Byte>) returns (s: string)
    ensures s == Encode(b)
  {
    s := "";
    var si := 0;
    var n := WholeGroups(|b|);
    while si < n
      invariant si <= n && Whole(si)
      invariant s == EncodeGroups(b, si)
    {
      RoomForOne(si, n);
      OneMoreGroup(b, si);
      s := s + EncodeGroup(b[si], b[si + 1], b[si + 2]);
      si := si + 3;
    }
    GroupsThenTail(b, n);
    s := s + EncodeTail(b[n..]);
  }
}
