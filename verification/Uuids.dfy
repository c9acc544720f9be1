/**
 UUIDs and their two readers.

 A UUID is its 128 bits, written here as 32 hexadecimal digits; `Text` is the 8-4-4-4-12 form of
 section 4 of RFC 9562 that every generated id has. A raw token's id part is first judged by the
 Go library (`GoAccepts`) and then, as the untouched string, by the database's uuid column
 (`DbParse`). The two readers accept different sets of strings; both read `Text(u)` as `u`.
 */
module Uuids {
  import opened Wrappers

  type HexValue = v: int | 0 <= v < 16

  type Digits = d: seq<HexValue> | |d| == 32 witness seq(32, _ => 0)

  datatype Uuid = Uuid(digits: Digits)

  /** The nil UUID, section 5.9 of RFC 9562. */
  const NIL := Uuid([0, 0, 0, 0, 0, 0, 0, 0, 0, 0, 0, 0, 0, 0, 0, 0, 0, 0, 0, 0, 0, 0, 0, 0, 0, 0, 0, 0, 0, 0, 0, 0])

  function HexDigit(v: HexValue): char {
    if v < 10 then '0' + v as char else 'a' + (v - 10) as char
  }

  /** Lower-case digits, position by position. */
  lemma HexDigitIs(v: HexValue)
    ensures HexDigit(v) == "0123456789abcdef"[v]
  {
  }

  function HexValueOf(c: char): Option<HexValue> {
    if '0' <= c <= '9' then Some((c - '0') as int)
    else if 'a' <= c <= 'f' then Some((c - 'a') as int + 10)
    else if 'A' <= c <= 'F' then Some((c - 'A') as int + 10)
    else None
  }

  /** Digits are read in either case. */
  lemma HexIsRead(v: HexValue)
    ensures HexValueOf("0123456789abcdef"[v]) == Some(v) && HexValueOf("0123456789ABCDEF"[v]) == Some(v)
  {
  }

  predicate IsHex(c: char) {
    HexValueOf(c).Some?
  }

  /** True before the first digit of each of the last four groups. */
  predicate HyphenBefore(k: int) {
    k == 8 || k == 12 || k == 16 || k == 20
  }

  /** The canonical text of the digits from the `k`-th on. */
  function TextFrom(u: Uuid, k: int): string
    requires 0 <= k <= 32
    decreases 32 - k
  {
    if k == 32 then ""
    else (if HyphenBefore(k) then "-" else "") + [HexDigit(u.digits[k])] + TextFrom(u, k + 1)
  }

  function Text(u: Uuid): string {
    TextFrom(u, 0)
  }

  /** Where the `k`-th digit stands in a canonical text. */
  function Position(k: int): int {
    if k < 8 then k else if k < 12 then k + 1 else if k < 16 then k + 2 else if k < 20 then k + 3 else k + 4
  }

  /** The check of the 36-character form; the library ignores what follows its 36 characters. */
  predicate Hyphenated(s: string)
    requires |s| >= 36
  {
    && s[8] == '-' && s[13] == '-' && s[18] == '-' && s[23] == '-'
    && forall k :: 0 <= k < 32 ==> IsHex(s[Position(k)])
  }

  function LowerChar(c: char): char {
    if 'A' <= c <= 'Z' then c - 'A' + 'a' else c
  }

  function Lower(s: string): (r: string)
    ensures |r| == |s|
  {
    seq(|s|, i requires 0 <= i < |s| => LowerChar(s[i]))
  }

  /** The library's `Parse` succeeding: by length, a canonical, URN, braced or bare form. */
  predicate GoAccepts(s: string) {
    if |s| == 36 then Hyphenated(s)
    else if |s| == 45 then Lower(s[..9]) == "urn:uuid:" && Hyphenated(s[9..])
    else if |s| == 38 then Hyphenated(s[1..])
    else |s| == 32 && forall k :: 0 <= k < 32 ==> IsHex(s[k])
  }

  /** A hyphen may precede any group of four digits but the first. */
  function SkipHyphen(s: string, k: int): string {
    if 0 < k && k % 4 == 0 && s != "" && s[0] == '-' then s[1..] else s
  }

  /** Reads digits `k` to 31 and expects the text to end there. */
  function DbDigits(s: string, k: int): Option<seq<HexValue>>
    requires 0 <= k <= 32
    decreases 32 - k
  {
    if k == 32 then
      if s == "" then Some([]) else None
    else
      var t := SkipHyphen(s, k);
      if t == "" || !IsHex(t[0]) then None
      else
        match DbDigits(t[1..], k + 1)
        case Some(rest) => Some([HexValueOf(t[0]).value] + rest)
        case None => None
  }

  lemma {:induction false} DbDigitsLength(s: string, k: int)
    requires 0 <= k <= 32 && DbDigits(s, k).Some?
    ensures |DbDigits(s, k).value| == 32 - k
    decreases 32 - k
  {
    if k < 32 {
      DbDigitsLength(SkipHyphen(s, k)[1..], k + 1);
    }
  }

  /** The database's reader: braces come in pairs or not at all, letters in either case. */
  function DbParse(s: string): Option<Uuid> {
    var braced := s != "" && s[0] == '{';
    if braced && (|s| < 2 || s[|s| - 1] != '}') then None
    else
      var body := if braced then s[1..|s| - 1] else s;
      if DbDigits(body, 0).None? then None
      else
        DbDigitsLength(body, 0);
        Some(Uuid(DbDigits(body, 0).value))
  }

  lemma HexRoundTrip(v: HexValue)
    ensures HexValueOf(HexDigit(v)) == Some(v) && HexDigit(v) != '-' && HexDigit(v) != '.' && HexDigit(v) != '{'
  {
  }

  lemma SkipLead(d: char, rest: string, k: int)
    requires d != '-'
    ensures SkipHyphen((if HyphenBefore(k) then "-" else "") + [d] + rest, k) == [d] + rest
  {
    var s := (if HyphenBefore(k) then "-" else "") + [d] + rest;
    if HyphenBefore(k) {
      assert s[0] == '-' && s[1..] == [d] + rest;
    } else {
      assert s == [d] + rest && s[0] == d;
    }
  }

  lemma DbReadsOne(s: string, k: int, d: char, rest: string)
    requires 0 <= k < 32 && SkipHyphen(s, k) == [d] + rest && IsHex(d) && DbDigits(rest, k + 1).Some?
    ensures DbDigits(s, k) == Some([HexValueOf(d).value] + DbDigits(rest, k + 1).value)
  {
    assert SkipHyphen(s, k)[1..] == rest;
  }

  /** The first digit of a text, behind its hyphen if it has one, and the rest. */
  lemma TextStep(u: Uuid, k: int, s: string) returns (d: char, rest: string)
    requires 0 <= k < 32 && s == TextFrom(u, k)
    ensures d == HexDigit(u.digits[k]) && rest == TextFrom(u, k + 1)
    ensures IsHex(d) && HexValueOf(d) == Some(u.digits[k]) && SkipHyphen(s, k) == [d] + rest
  {
    d, rest := HexDigit(u.digits[k]), TextFrom(u, k + 1);
    HexRoundTrip(u.digits[k]);
    SkipLead(d, rest, k);
  }

  lemma DigitsFrom(u: Uuid, k: int)
    requires 0 <= k < 32
    ensures u.digits[k..] == [u.digits[k]] + u.digits[k + 1..]
  {
  }

  lemma {:induction false} DbReadsTextFrom(u: Uuid, k: int, s: string)
    requires 0 <= k <= 32 && s == TextFrom(u, k)
    ensures DbDigits(s, k) == Some(u.digits[k..])
    decreases 32 - k
  {
    if k == 32 {
      assert u.digits[k..] == [];
    } else {
      var d, rest := TextStep(u, k, s);
      DbReadsTextFrom(u, k + 1, rest);
      DbReadsOne(s, k, d, rest);
      DigitsFrom(u, k);
    }
  }

  /**
   The whole text. `k` is always 0, here and in the lemmas on the whole text below: with the constant
   itself as an argument the verifier unfolds all 32 digits of `TextFrom` at once.
   */
  lemma DbParseFrom(u: Uuid, k: int, s: string)
    requires k == 0 && s == TextFrom(u, k)
    ensures DbParse(s) == Some(u)
  {
    var d, rest := TextStep(u, k, s);
    DbReadsTextFrom(u, k, s);
    assert u.digits[k..] == u.digits;
    assert SkipHyphen(s, k) == s;
  }

  /** The canonical text names its UUID in the database. */
  lemma DbParseText(u: Uuid)
    ensures DbParse(Text(u)) == Some(u)
  {
    DbParseFrom(u, 0, Text(u));
  }

  /** Where the text of the digits from the `k`-th on starts in a canonical text. */
  function Start(k: int): int {
    if k == 32 then 36 else Position(k) - (if HyphenBefore(k) then 1 else 0)
  }

  lemma {:induction false} TextLength(u: Uuid, k: int)
    requires 0 <= k <= 32
    ensures |TextFrom(u, k)| == 36 - Start(k)
    decreases 32 - k
  {
    if k < 32 {
      TextLength(u, k + 1);
    }
  }

  lemma {:induction false} DigitAt(u: Uuid, k: int, j: int)
    requires 0 <= k <= j < 32
    ensures |TextFrom(u, k)| == 36 - Start(k) && Start(k) <= Position(j) < 36
    ensures TextFrom(u, k)[Position(j) - Start(k)] == HexDigit(u.digits[j])
    decreases 32 - k
  {
    TextLength(u, k);
    if k < j {
      DigitAt(u, k + 1, j);
      var lead := (if HyphenBefore(k) then "-" else "") + [HexDigit(u.digits[k])];
      assert TextFrom(u, k) == lead + TextFrom(u, k + 1);
      assert Start(k + 1) == Start(k) + |lead|;
    }
  }

  lemma {:induction false} HyphenAt(u: Uuid, k: int, h: int)
    requires 0 <= k <= h && HyphenBefore(h)
    ensures |TextFrom(u, k)| == 36 - Start(k) && Start(k) <= Start(h) < 36
    ensures TextFrom(u, k)[Start(h) - Start(k)] == '-'
    decreases 32 - k
  {
    TextLength(u, k);
    if k < h {
      HyphenAt(u, k + 1, h);
      var lead := (if HyphenBefore(k) then "-" else "") + [HexDigit(u.digits[k])];
      assert TextFrom(u, k) == lead + TextFrom(u, k + 1);
      assert Start(k + 1) == Start(k) + |lead|;
    }
  }

  lemma DigitOf(u: Uuid, s: string, k: int, j: int)
    requires k == 0 && s == TextFrom(u, k) && 0 <= j < 32
    ensures |s| == 36 && 0 <= Position(j) < 36 && IsHex(s[Position(j)])
  {
    DigitStands(u, s, k, j);
    HexRoundTrip(u.digits[j]);
  }

  lemma HyphenOf(u: Uuid, s: string, k: int, h: int)
    requires k == 0 && s == TextFrom(u, k) && HyphenBefore(h)
    ensures |s| == 36 && 0 <= Start(h) < 36 && s[Start(h)] == '-'
  {
    HyphenAt(u, k, h);
  }

  lemma WholeText(u: Uuid, s: string, k: int)
    requires k == 0 && s == TextFrom(u, k)
    ensures |s| == 36 && Hyphenated(s)
  {
    HyphenOf(u, s, k, 8);
    HyphenOf(u, s, k, 12);
    HyphenOf(u, s, k, 16);
    HyphenOf(u, s, k, 20);
    forall j | 0 <= j < 32 ensures IsHex(s[Position(j)]) {
      DigitOf(u, s, k, j);
    }
  }

  lemma DigitStands(u: Uuid, s: string, k: int, j: int)
    requires k == 0 && s == TextFrom(u, k) && 0 <= j < 32
    ensures |s| == 36 && 0 <= Position(j) < 36 && s[Position(j)] == HexDigit(u.digits[j])
  {
    DigitAt(u, k, j);
  }

  /** The library accepts every canonical text. */
  lemma GoAcceptsText(u: Uuid)
    ensures |Text(u)| == 36 && GoAccepts(Text(u))
  {
    WholeText(u, Text(u), 0);
  }

  ghost predicate Stands(s: string, at: int, v: HexValue) {
    0 <= at < |s| && s[at] == HexDigit(v)
  }

  /**
   The canonical text: digits in groups of 8, 4, 4, 4 and 12, in their order, with hyphens between.
   `k` is 0.
   */
  lemma CanonicalLayout(u: Uuid, s: string, k: int, j: int)
    requires k == 0 && s == TextFrom(u, k) && 0 <= j < 32
    ensures |s| == 36 && s[8] == '-' && s[13] == '-' && s[18] == '-' && s[23] == '-'
    ensures Stands(s, if j < 8 then j else if j < 12 then j + 1 else if j < 16 then j + 2
                      else if j < 20 then j + 3 else j + 4, u.digits[j])
  {
    WholeText(u, s, k);
    DigitStands(u, s, k, j);
  }

  lemma {:induction false} TextHasNoDot(u: Uuid, k: int)
    requires 0 <= k <= 32
    ensures '.' !in TextFrom(u, k)
    decreases 32 - k
  {
    if k < 32 {
      TextHasNoDot(u, k + 1);
      HexRoundTrip(u.digits[k]);
    }
  }

  /** The library's URN form is accepted by the service and then not readable for the database. */
  lemma UrnIsUnreadable(s: string)
    requires |s| == 45 && GoAccepts(s)
    ensures DbParse(s).None?
  {
    var head := Lower(s[..9]);
    assert head[0] == 'u' && head[0] == LowerChar(s[0]);
    assert SkipHyphen(s, 0) == s && !IsHex(s[0]);
  }
}
