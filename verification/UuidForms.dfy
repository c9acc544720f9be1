/**
 The strings the Go library accepts as a UUID, and which of them the database reads: the hyphenated
 and the bare form always, whatever the case of their letters, the braced form if it has its braces,
 and the URN form never.
 */
module UuidForms {
  import opened Wrappers
  import opened Uuids

  // ---------------------------------------------------------------- reading one digit after the other

  /** The next digit, behind a hyphen where there is one. */
  ghost predicate NextIs(s: string, k: int, v: HexValue, rest: string) {
    exists d :: SkipHyphen(s, k) == [d] + rest && HexValueOf(d) == Some(v)
  }

  lemma ReadsNext(s: string, k: int, v: HexValue, rest: string)
    requires 0 <= k < 32 && NextIs(s, k, v, rest) && DbDigits(rest, k + 1).Some?
    ensures DbDigits(s, k) == Some([v] + DbDigits(rest, k + 1).value)
  {
    var d :| SkipHyphen(s, k) == [d] + rest && HexValueOf(d) == Some(v);
    DbReadsOne(s, k, d, rest);
  }

  /** The 36 characters of the digits, in either case, in groups of 8, 4, 4, 4 and 12. */
  ghost predicate IsHyphenated(s: string, u: Uuid) {
    && |s| == 36 && (forall k {:trigger HyphenBefore(k)} :: HyphenBefore(k) ==> s[Start(k)] == '-')
    && forall k {:trigger Position(k)} :: 0 <= k < 32 ==> HexValueOf(s[Position(k)]) == Some(u.digits[k])
  }

  /** The 32 digits without hyphens. */
  ghost predicate IsBare(s: string, u: Uuid) {
    |s| == 32 && forall k :: 0 <= k < 32 ==> HexValueOf(s[k]) == Some(u.digits[k])
  }

  lemma OneAhead(s: string, at: nat)
    requires at < |s|
    ensures s[at..] == [s[at]] + s[at + 1..]
  {
  }

  lemma TwoAhead(s: string, at: nat)
    requires at + 1 < |s|
    ensures s[at..] == [s[at]] + [s[at + 1]] + s[at + 2..]
  {
  }

  lemma NextHyphenated(s: string, u: Uuid, k: int)
    requires IsHyphenated(s, u) && 0 <= k < 32
    ensures 0 <= Start(k) < Start(k + 1) <= 36 && NextIs(s[Start(k)..], k, u.digits[k], s[Start(k + 1)..])
  {
    if HyphenBefore(k) {
      NextBehindHyphen(s, Start(k), k, u.digits[k]);
    } else {
      NextAtOnce(s, Start(k), k, u.digits[k]);
    }
  }

  lemma NextBehindHyphen(s: string, at: nat, k: int, v: HexValue)
    requires HyphenBefore(k) && at + 1 < |s| && s[at] == '-' && HexValueOf(s[at + 1]) == Some(v)
    ensures NextIs(s[at..], k, v, s[at + 2..])
  {
    NotHyphen(s[at + 1]);
    TwoAhead(s, at);
    SkipLead(s[at + 1], s[at + 2..], k);
  }

  lemma NextAtOnce(s: string, at: nat, k: int, v: HexValue)
    requires !HyphenBefore(k) && at < |s| && HexValueOf(s[at]) == Some(v)
    ensures NextIs(s[at..], k, v, s[at + 1..])
  {
    NotHyphen(s[at]);
    OneAhead(s, at);
    SkipLead(s[at], s[at + 1..], k);
    assert "" + [s[at]] + s[at + 1..] == [s[at]] + s[at + 1..];
  }

  lemma NotHyphen(d: char)
    ensures IsHex(d) ==> d != '-' && d != '{'
  {
  }

  lemma NextBare(s: string, u: Uuid, k: int)
    requires IsBare(s, u) && 0 <= k < 32
    ensures NextIs(s[k..], k, u.digits[k], s[k + 1..])
  {
    OneAhead(s, k);
    NotHyphen(s[k]);
    assert SkipHyphen(s[k..], k) == [s[k]] + s[k + 1..];
  }

  lemma {:induction false} HyphenatedDigits(s: string, u: Uuid, k: int)
    requires IsHyphenated(s, u) && 0 <= k <= 32
    ensures 0 <= Start(k) <= 36 && DbDigits(s[Start(k)..], k) == Some(u.digits[k..])
    decreases 32 - k
  {
    if k < 32 {
      NextHyphenated(s, u, k);
      HyphenatedDigits(s, u, k + 1);
      ReadsNext(s[Start(k)..], k, u.digits[k], s[Start(k + 1)..]);
      DigitsFrom(u, k);
    } else {
      assert s[Start(k)..] == "" && u.digits[k..] == [];
    }
  }

  lemma {:induction false} BareDigits(s: string, u: Uuid, k: int)
    requires IsBare(s, u) && 0 <= k <= 32
    ensures DbDigits(s[k..], k) == Some(u.digits[k..])
    decreases 32 - k
  {
    if k < 32 {
      NextBare(s, u, k);
      BareDigits(s, u, k + 1);
      ReadsNext(s[k..], k, u.digits[k], s[k + 1..]);
      DigitsFrom(u, k);
    } else {
      assert s[k..] == "" && u.digits[k..] == [];
    }
  }

  // ---------------------------------------------------------------- the forms

  /** Hyphenated or bare, whatever the case of the letters. */
  ghost predicate IsForm(s: string, u: Uuid) {
    IsHyphenated(s, u) || IsBare(s, u)
  }

  /** `k` is 0. */
  lemma FormDigits(s: string, u: Uuid, k: int)
    requires k == 0 && IsForm(s, u)
    ensures DbDigits(s, k) == Some(u.digits) && s != "" && s[0] != '{'
  {
    assert s[k..] == s && u.digits[k..] == u.digits;
    if IsHyphenated(s, u) {
      HyphenatedDigits(s, u, k);
      assert HexValueOf(s[Position(k)]) == Some(u.digits[k]);
    } else {
      BareDigits(s, u, k);
    }
    NotHyphen(s[k]);
  }

  /** The database reads both forms, with or without a pair of braces. */
  lemma FormsAreRead(s: string, u: Uuid)
    requires IsForm(s, u)
    ensures DbParse(s) == Some(u) && DbParse("{" + s + "}") == Some(u)
  {
    FormDigits(s, u, 0);
    var braced := "{" + s + "}";
    assert braced[1..|braced| - 1] == s;
  }

  lemma IsHyphenatedIs(s: string, u: Uuid)
    requires IsHyphenated(s, u)
    ensures Hyphenated(s)
  {
    assert HyphenBefore(8) && HyphenBefore(12) && HyphenBefore(16) && HyphenBefore(20);
    assert s[Start(8)] == '-' && s[Start(12)] == '-' && s[Start(16)] == '-' && s[Start(20)] == '-';
  }

  lemma HyphenatedLonger(s: string, tail: string)
    requires |s| == 36 && Hyphenated(s)
    ensures Hyphenated(s + tail)
  {
    assert forall k :: 0 <= k < 32 ==> 0 <= Position(k) < 36 && (s + tail)[Position(k)] == s[Position(k)];
  }

  lemma UrnPrefix()
    ensures Lower("urn:uuid:") == "urn:uuid:" && Lower("URN:UUID:") == "urn:uuid:"
  {
  }

  /**
   The library accepts both forms, and the hyphenated one also behind its URN prefix and between any
   two characters.
   */
  lemma FormsAreAccepted(s: string, u: Uuid, first: char, last: char)
    requires IsForm(s, u)
    ensures GoAccepts(s)
    ensures |s| == 36 ==> GoAccepts([first] + s + [last]) && GoAccepts("urn:uuid:" + s) && GoAccepts("URN:UUID:" + s)
  {
    if IsHyphenated(s, u) {
      IsHyphenatedIs(s, u);
      HyphenatedLonger(s, [last]);
      assert ([first] + s + [last])[1..] == s + [last];
      UrnPrefix();
      assert ("urn:uuid:" + s)[..9] == "urn:uuid:" && ("urn:uuid:" + s)[9..] == s;
      assert ("URN:UUID:" + s)[..9] == "URN:UUID:" && ("URN:UUID:" + s)[9..] == s;
    }
  }

  /** What the library accepts by its hyphens and digits is the hyphenated form of some UUID. */
  lemma HyphenatedOf(s: string) returns (u: Uuid)
    requires |s| == 36 && Hyphenated(s)
    ensures IsHyphenated(s, u)
  {
    u := Uuid(seq(32, k requires 0 <= k < 32 => HexValueOf(s[Position(k)]).value));
  }

  lemma BareOf(s: string) returns (u: Uuid)
    requires |s| == 32 && forall k :: 0 <= k < 32 ==> IsHex(s[k])
    ensures IsBare(s, u)
  {
    u := Uuid(seq(32, k requires 0 <= k < 32 => HexValueOf(s[k]).value));
  }

  /** The first character and eight digits before a hyphen: the ninth digit is missing. */
  lemma {:induction false} NoNinthDigit(s: string, k: int)
    requires |s| > 9 && s[9] == '-' && (forall j :: 1 <= j < 9 ==> IsHex(s[j])) && 0 <= k <= 9
    ensures DbDigits(s[k..], k).None?
    decreases 9 - k
  {
    assert s[k..][0] == s[k];
    NotHyphen(s[k]);
    if k < 9 {
      NoNinthDigit(s, k + 1);
      assert s[k..][1..] == s[k + 1..];
    }
  }

  lemma Unbraced(s: string)
    requires |s| == 38 && Hyphenated(s[1..]) && s[0] != '{'
    ensures DbParse(s).None?
  {
    assert s[1..][8] == s[9];
    forall j | 1 <= j < 9 ensures IsHex(s[j]) {
      assert s[1..][Position(j - 1)] == s[j];
    }
    NoNinthDigit(s, 0);
    assert s[0..] == s;
  }

  lemma HyphenatedStart(s: string, t: string)
    requires |s| >= 36 && Hyphenated(s) && t == s[..36]
    ensures Hyphenated(t)
  {
    assert forall k :: 0 <= k < 32 ==> 0 <= Position(k) < 36 && t[Position(k)] == s[Position(k)];
  }

  /**
   Of the strings the library accepts, the database reads the hyphenated and the bare ones, and those
   of 38 characters whose first and last are braces, which the library does not ask for.
   */
  lemma AcceptedIsReadIff(s: string)
    requires GoAccepts(s)
    ensures |s| in {32, 36, 38, 45}
    ensures DbParse(s).Some? <==> |s| == 32 || |s| == 36 || (|s| == 38 && s[0] == '{' && s[37] == '}')
  {
    if |s| == 36 {
      var u := HyphenatedOf(s);
      FormsAreRead(s, u);
    } else if |s| == 32 {
      var u := BareOf(s);
      FormsAreRead(s, u);
    } else if |s| == 45 {
      UrnIsUnreadable(s);
    } else if s[0] == '{' {
      HyphenatedStart(s[1..], s[1..37]);
      var u := HyphenatedOf(s[1..37]);
      FormsAreRead(s[1..37], u);
      assert s[37] == '}' ==> s == "{" + s[1..37] + "}";
    } else {
      Unbraced(s);
    }
  }
}
