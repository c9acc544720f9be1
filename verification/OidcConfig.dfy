/**
 Identity providers configured through the environment: the loop that discovers provider names in
 variable names, and the loop that merges the variables into the configuration. Go visits the
 discovered names in no particular order.
 */
module OidcConfig {
  import opened Wrappers
  import opened Strings
  import Uuids

  datatype Provider = Provider(
    providerType: string,
    issuerUrl: string,
    clientId: string,
    clientSecret: string,
    redirectUrl: string,
    scopes: seq<string>,
    enabled: bool)

  /** What indexing a Go map yields for a missing key. */
  const ZERO := Provider("", "", "", "", "", [], false)

  datatype Field = ProviderType | IssuerUrl | ClientId | ClientSecret | RedirectUrl | Scopes | Enabled

  const PREFIX := "OIDC_"
  const FILE := "_FILE"

  function Suffix(f: Field): string {
    match f
    case ProviderType => "_PROVIDER_TYPE"
    case IssuerUrl => "_ISSUER_URL"
    case ClientId => "_CLIENT_ID"
    case ClientSecret => "_CLIENT_SECRET"
    case RedirectUrl => "_REDIRECT_URL"
    case Scopes => "_SCOPES"
    case Enabled => "_ENABLED"
  }

  const FIELDS := [ProviderType, IssuerUrl, ClientId, ClientSecret, RedirectUrl, Scopes, Enabled]

  function UpperChar(c: char): char {
    if 'a' <= c <= 'z' then c - 'a' + 'A' else c
  }

  function Upper(s: string): (r: string)
    ensures |r| == |s|
  {
    seq(|s|, i requires 0 <= i < |s| => UpperChar(s[i]))
  }

  function Lower(s: string): string {
    Uuids.Lower(s)
  }

  /** The variable a provider's field is read from. */
  function Key(name: string, f: Field): string {
    PREFIX + Upper(name) + Suffix(f)
  }

  lemma KeyTexts(name: string)
    ensures Key(name, ProviderType) == "OIDC_" + Upper(name) + "_PROVIDER_TYPE"
    ensures Key(name, IssuerUrl) == "OIDC_" + Upper(name) + "_ISSUER_URL"
    ensures Key(name, ClientId) == "OIDC_" + Upper(name) + "_CLIENT_ID"
    ensures Key(name, ClientSecret) == "OIDC_" + Upper(name) + "_CLIENT_SECRET"
    ensures Key(name, RedirectUrl) == "OIDC_" + Upper(name) + "_REDIRECT_URL"
    ensures Key(name, Scopes) == "OIDC_" + Upper(name) + "_SCOPES"
    ensures Key(name, Enabled) == "OIDC_" + Upper(name) + "_ENABLED"
  {
  }

  /** Only ASCII letters have another case, 32 apart. */
  lemma Cases(s: string, i: nat)
    requires i < |s|
    ensures Upper(s)[i] as int == s[i] as int - (if 97 <= s[i] as int <= 122 then 32 else 0)
    ensures Lower(s)[i] as int == s[i] as int + (if 65 <= s[i] as int <= 90 then 32 else 0)
  {
  }

  // ---------------------------------------------------------------- the environment

  /** `vars` are the `NAME=value` entries, `files` what can be read under a path. */
  datatype Env = Env(vars: seq<string>, files: map<string, string>)

  function IndexOf(s: string, c: char): (i: nat)
    ensures i <= |s| && c !in s[..i] && (i < |s| ==> s[i] == c)
  {
    if s == "" || s[0] == c then 0 else
      var i := 1 + IndexOf(s[1..], c);
      assert s[..i] == [s[0]] + s[1..][..i - 1];
      i
  }

  /** `os.Getenv`: the first entry counts; a missing variable reads as empty. */
  function Getenv(vars: seq<string>, key: string): string {
    if vars == [] then ""
    else
      var eq := IndexOf(vars[0], '=');
      if eq < |vars[0]| && vars[0][..eq] == key then vars[0][eq + 1..] else Getenv(vars[1..], key)
  }

  function TrimLineEnd(s: string): string {
    if s != "" && (s[|s| - 1] == '\r' || s[|s| - 1] == '\n') then TrimLineEnd(s[..|s| - 1]) else s
  }

  /** A readable file named by `KEY_FILE` wins over the variable itself. */
  function GetEnv(env: Env, key: string): string {
    var path := Getenv(env.vars, key + FILE);
    if path != "" && path in env.files then TrimLineEnd(env.files[path]) else Getenv(env.vars, key)
  }

  function ParseBool(s: string): Option<bool> {
    if s in {"1", "t", "T", "true", "TRUE", "True"} then Some(true)
    else if s in {"0", "f", "F", "false", "FALSE", "False"} then Some(false)
    else None
  }

  /** An entry for the key. */
  predicate IsSetBy(kv: string, key: string) {
    HasPrefix(kv, key + "=")
  }

  lemma EntryKey(kv: string, key: string)
    requires '=' !in key
    ensures var eq := IndexOf(kv, '=');
            && (IsSetBy(kv, key) <==> eq < |kv| && kv[..eq] == key)
            && (IsSetBy(kv, key) ==> kv[eq + 1..] == kv[|key| + 1..])
  {
    var eq := IndexOf(kv, '=');
    if IsSetBy(kv, key) {
      SetEntry(kv, key);
    } else {
      assert eq < |kv| ==> kv[..eq + 1] == kv[..eq] + "=";
    }
  }

  lemma SetEntry(kv: string, key: string)
    requires '=' !in key && IsSetBy(kv, key)
    ensures IndexOf(kv, '=') == |key| < |kv| && kv[..|key|] == key
  {
    var rest := kv[|key| + 1..];
    assert kv == key + "=" + rest;
    IndexIs(key, '=', rest);
  }

  /** A variable has the value of its first entry, and is empty without one. */
  lemma {:induction false} FirstEntryCounts(vars: seq<string>, key: string, n: nat)
    requires '=' !in key && n <= |vars| && forall i :: 0 <= i < n ==> !IsSetBy(vars[i], key)
    ensures n == |vars| ==> Getenv(vars, key) == ""
    ensures n < |vars| && IsSetBy(vars[n], key) ==> Getenv(vars, key) == vars[n][|key| + 1..]
  {
    if vars != [] {
      EntryKey(vars[0], key);
      if n > 0 {
        assert forall i :: 0 <= i < n - 1 ==> vars[1..][i] == vars[i + 1];
        FirstEntryCounts(vars[1..], key, n - 1);
      }
    }
  }

  /** The text without the carriage returns and line feeds at its end. */
  lemma {:induction false} LineEndsGo(s: string)
    ensures var r := TrimLineEnd(s);
            && |r| <= |s| && r == s[..|r|] && (forall i :: |r| <= i < |s| ==> s[i] == '\r' || s[i] == '\n')
            && (r != "" ==> r[|r| - 1] != '\r' && r[|r| - 1] != '\n')
  {
    if s != "" && (s[|s| - 1] == '\r' || s[|s| - 1] == '\n') {
      LineEndsGo(s[..|s| - 1]);
    }
  }

  /** The file named by the file variable wins, if it can be read. */
  lemma FileWins(env: Env, key: string)
    ensures var path := Getenv(env.vars, key + "_FILE");
            GetEnv(env, key) == if path != "" && path in env.files
                                then TrimLineEnd(env.files[path]) else Getenv(env.vars, key)
  {
  }

  // ---------------------------------------------------------------- the key grammar

  /** No variable name ends in two field suffixes, nor in a field suffix and the file suffix. */
  lemma SuffixesDiffer(key: string, f: Field)
    requires HasSuffix(key, Suffix(f))
    ensures !HasSuffix(key, FILE)
    ensures forall g :: HasSuffix(key, Suffix(g)) ==> f == g
  {
    if HasSuffix(key, FILE) {
      FileEnding(key);
    }
    Endings(key, f);
    forall g | HasSuffix(key, Suffix(g)) ensures f == g {
      Endings(key, g);
    }
  }

  lemma FileEnding(key: string)
    requires HasSuffix(key, FILE)
    ensures |key| >= 5 && key[|key| - 1] == 'E' && key[|key| - 2] == 'L'
  {
    var tail := key[|key| - 5..];
    assert key[|key| - 1] == tail[4] && key[|key| - 2] == tail[3];
  }

  /** Three characters from the end tell the suffixes apart. */
  function Ending(f: Field): (char, char, char) {
    match f
    case ProviderType => ('E', 'P', '_')
    case IssuerUrl => ('L', 'R', 'R')
    case ClientId => ('D', 'I', 'N')
    case ClientSecret => ('T', 'E', 'E')
    case RedirectUrl => ('L', 'R', 'T')
    case Scopes => ('S', 'E', 'C')
    case Enabled => ('D', 'E', 'A')
  }

  lemma Endings(key: string, f: Field)
    requires HasSuffix(key, Suffix(f))
    ensures var n := |key|; n >= 7 && (key[n - 1], key[n - 2], key[n - 5]) == Ending(f)
  {
    var n, k := |key|, |Suffix(f)|;
    assert k >= 7;
    var tail := key[n - k..];
    assert key[n - 1] == tail[k - 1] && key[n - 2] == tail[k - 2] && key[n - 5] == tail[k - 5];
  }

  lemma KeyEnds(middle: string, f: Field)
    ensures HasSuffix(PREFIX + middle + Suffix(f), Suffix(f)) && HasPrefix(PREFIX + middle + Suffix(f), PREFIX)
  {
    var key, k := PREFIX + middle + Suffix(f), |PREFIX + middle|;
    assert key[k..] == Suffix(f) && key[..|PREFIX|] == PREFIX;
  }

  /** A variable name belongs to one name and one field. */
  lemma KeyUnambiguous(m: string, f: Field, n: string, g: Field)
    requires PREFIX + m + Suffix(f) == PREFIX + n + Suffix(g)
    ensures m == n && f == g
  {
    KeyEnds(m, f);
    KeyEnds(n, g);
    SuffixesDiffer(PREFIX + m + Suffix(f), f);
    var key, k := PREFIX + m + Suffix(f), |PREFIX|;
    assert m == key[k..|key| - |Suffix(f)|] && n == key[k..|key| - |Suffix(g)|];
  }

  /** The file variable of one field is not the variable, nor the file variable, of another. */
  lemma FileKeysApart(m: string, f: Field, n: string, g: Field)
    ensures PREFIX + m + Suffix(f) + FILE != PREFIX + n + Suffix(g)
    ensures PREFIX + m + Suffix(f) + FILE == PREFIX + n + Suffix(g) + FILE ==> m == n && f == g
  {
    var a, b := PREFIX + m + Suffix(f), PREFIX + n + Suffix(g);
    KeyEnds(n, g);
    SuffixesDiffer(b, g);
    assert (a + FILE)[|a|..] == FILE;
    if a + FILE == b + FILE {
      assert a == (a + FILE)[..|a|] && b == (b + FILE)[..|b|];
      KeyUnambiguous(m, f, n, g);
    }
  }

  lemma UpperOfLower(n: string)
    ensures Upper(Lower(n)) == Upper(n) && Lower(Upper(Lower(n))) == Lower(n)
  {
  }

  // ---------------------------------------------------------------- discovery

  /** The field whose suffix ends the name, first match first. */
  function FieldOf(bareKey: string, fields: seq<Field>): Option<Field> {
    if fields == [] then None
    else if HasSuffix(bareKey, Suffix(fields[0])) then Some(fields[0])
    else FieldOf(bareKey, fields[1..])
  }

  /** The provider name between prefix and suffix, in lower case. */
  function NameOf(bareKey: string): Option<string> {
    match FieldOf(bareKey, FIELDS)
    case None => None
    case Some(f) =>
      var name := TrimSuffix(TrimPrefix(bareKey, PREFIX), Suffix(f));
      if name == "" then None else Some(Lower(name))
  }

  /** The provider a variable name announces. */
  function AnnouncedBy(key: string): Option<string> {
    if HasPrefix(key, PREFIX) then NameOf(TrimSuffix(key, FILE)) else None
  }

  /** The provider an environment entry announces. */
  function Announced(kv: string): Option<string> {
    var eq := IndexOf(kv, '=');
    if eq == |kv| then None else AnnouncedBy(kv[..eq])
  }

  ghost predicate AnnouncedBefore(vars: seq<string>, n: nat, name: string)
    requires n <= |vars|
  {
    exists i :: 0 <= i < n && Announced(vars[i]) == Some(name)
  }

  /** The names are those some entry announces. */
  ghost predicate Discovers(names: set<string>, vars: seq<string>) {
    forall name :: name in names <==> AnnouncedBefore(vars, |vars|, name)
  }

  lemma OneMoreEntry(vars: seq<string>, n: nat, name: string)
    requires n < |vars|
    ensures AnnouncedBefore(vars, n + 1, name) <==> AnnouncedBefore(vars, n, name) || Announced(vars[n]) == Some(name)
  {
  }

  /** The discovery loop: every entry, and for each the suffixes in their order. */
  method DiscoverNames(vars: seq<string>) returns (names: set<string>)
    ensures Discovers(names, vars)
  {
    names := {};
    for i := 0 to |vars|
      invariant forall name :: name in names <==> AnnouncedBefore(vars, i, name)
    {
      var announced := NameIn(vars[i]);
      forall name ensures AnnouncedBefore(vars, i + 1, name) <==> name in names || announced == Some(name) {
        OneMoreEntry(vars, i, name);
      }
      if announced.Some? {
        names := names + {announced.value};
      }
    }
  }

  /** The loop's body, with its `continue`s and the inner loop's `break`. */
  method NameIn(kv: string) returns (name: Option<string>)
    ensures name == Announced(kv)
  {
    var eq := IndexOf(kv, '=');
    if eq == |kv| {
      return None;
    }
    var key := kv[..eq];
    if !HasPrefix(key, PREFIX) {
      return None;
    }
    var bareKey := TrimSuffix(key, FILE);
    var i := 0;
    while i < |FIELDS|
      invariant 0 <= i <= |FIELDS|
      invariant FieldOf(bareKey, FIELDS) == FieldOf(bareKey, FIELDS[i..])
    {
      if HasSuffix(bareKey, Suffix(FIELDS[i])) {
        var n := TrimSuffix(TrimPrefix(bareKey, PREFIX), Suffix(FIELDS[i]));
        return if n == "" then None else Some(Lower(n));
      }
      assert FIELDS[i..][1..] == FIELDS[i + 1..];
      i := i + 1;
    }
    return None;
  }

  lemma {:induction false} FieldOfIs(bareKey: string, f: Field, fields: seq<Field>)
    requires HasSuffix(bareKey, Suffix(f)) && f in fields
    ensures FieldOf(bareKey, fields) == Some(f)
  {
    SuffixesDiffer(bareKey, f);
    if fields[0] != f {
      FieldOfIs(bareKey, f, fields[1..]);
    }
  }

  lemma {:induction false} FieldOfFound(bareKey: string, fields: seq<Field>)
    requires FieldOf(bareKey, fields).Some?
    ensures HasSuffix(bareKey, Suffix(FieldOf(bareKey, fields).value))
  {
    if !HasSuffix(bareKey, Suffix(fields[0])) {
      FieldOfFound(bareKey, fields[1..]);
    }
  }

  lemma AllFields(f: Field)
    ensures f in FIELDS
  {
    assert FIELDS[0] == ProviderType && FIELDS[1] == IssuerUrl && FIELDS[2] == ClientId && FIELDS[3] == ClientSecret
        && FIELDS[4] == RedirectUrl && FIELDS[5] == Scopes && FIELDS[6] == Enabled;
  }

  lemma {:induction false} IndexIs(left: string, c: char, right: string)
    requires c !in left
    ensures IndexOf(left + [c] + right, c) == |left|
  {
    if left != "" {
      assert (left + [c] + right)[1..] == left[1..] + [c] + right;
      IndexIs(left[1..], c, right);
    }
  }

  lemma EntryAnnounces(key: string, value: string)
    requires '=' !in key
    ensures Announced(key + "=" + value) == AnnouncedBy(key)
  {
    IndexIs(key, '=', value);
    assert (key + ['='] + value)[..|key|] == key;
  }

  lemma NoEquals(f: Field)
    ensures '=' !in PREFIX && '=' !in Suffix(f) && '=' !in FILE
  {
  }

  lemma TrimBoth(prefix: string, n: string, suffix: string)
    ensures TrimSuffix(TrimPrefix(prefix + n + suffix, prefix), suffix) == n
  {
    var s := prefix + n + suffix;
    assert s[..|prefix|] == prefix && s[|prefix|..] == n + suffix;
    assert (n + suffix)[|n|..] == suffix && (n + suffix)[..|n|] == n;
  }

  lemma ProperKeyNames(n: string, f: Field)
    requires n != ""
    ensures NameOf(PREFIX + n + Suffix(f)) == Some(Lower(n))
  {
    KeyEnds(n, f);
    AllFields(f);
    FieldOfIs(PREFIX + n + Suffix(f), f, FIELDS);
    TrimBoth(PREFIX, n, Suffix(f));
  }

  lemma FileVariant(bare: string, prefix: string, suffix: string)
    requires HasPrefix(bare, prefix)
    ensures HasPrefix(bare + suffix, prefix) && TrimSuffix(bare + suffix, suffix) == bare
  {
    assert (bare + suffix)[..|prefix|] == bare[..|prefix|];
    assert (bare + suffix)[|bare|..] == suffix && (bare + suffix)[..|bare|] == bare;
  }

  lemma KeyAnnounces(bare: string, f: Field)
    requires HasPrefix(bare, PREFIX) && HasSuffix(bare, Suffix(f))
    ensures AnnouncedBy(bare) == NameOf(bare) && AnnouncedBy(bare + FILE) == NameOf(bare)
  {
    SuffixesDiffer(bare, f);
    FileVariant(bare, PREFIX, FILE);
  }

  /** A variable of the form prefix, name, suffix announces that name, with or without the file suffix. */
  lemma ProperKeyAnnounces(n: string, f: Field, value: string)
    requires n != "" && '=' !in n
    ensures Announced(PREFIX + n + Suffix(f) + "=" + value) == Some(Lower(n))
    ensures Announced(PREFIX + n + Suffix(f) + FILE + "=" + value) == Some(Lower(n))
  {
    NoEquals(f);
    KeyEnds(n, f);
    ProperKeyNames(n, f);
    EntriesAnnounce(PREFIX + n + Suffix(f), f, value);
  }

  lemma EntriesAnnounce(bare: string, f: Field, value: string)
    requires HasPrefix(bare, PREFIX) && HasSuffix(bare, Suffix(f)) && '=' !in bare
    ensures Announced(bare + "=" + value) == NameOf(bare) && Announced(bare + FILE + "=" + value) == NameOf(bare)
  {
    NoEquals(f);
    KeyAnnounces(bare, f);
    EntryAnnounces(bare, value);
    EntryAnnounces(bare + FILE, value);
  }

  lemma Middle(s: string, prefix: string, suffix: string)
    requires HasPrefix(s, prefix) && HasSuffix(s, suffix) && |prefix| + |suffix| <= |s|
    ensures s == prefix + s[|prefix|..|s| - |suffix|] + suffix
  {
    assert s == s[..|prefix|] + s[|prefix|..|s| - |suffix|] + s[|s| - |suffix|..];
  }

  lemma BareIsProper(bareKey: string, f: Field) returns (n: string)
    requires HasPrefix(bareKey, PREFIX) && HasSuffix(bareKey, Suffix(f))
    ensures bareKey == PREFIX + n + Suffix(f) || bareKey == "OIDC" + Suffix(f)
  {
    if |PREFIX| + |Suffix(f)| <= |bareKey| {
      n := bareKey[|PREFIX|..|bareKey| - |Suffix(f)|];
      Middle(bareKey, PREFIX, Suffix(f));
    } else {
      n := "";
      SharedUnderscore(bareKey, f);
    }
  }

  lemma BareOf(key: string, f: Field)
    requires HasPrefix(key, PREFIX) && HasSuffix(TrimSuffix(key, FILE), Suffix(f))
    ensures var bare := TrimSuffix(key, FILE);
            HasPrefix(bare, PREFIX) && (key == bare || key == bare + FILE)
  {
    var bare := TrimSuffix(key, FILE);
    Endings(bare, f);
    if HasSuffix(key, FILE) {
      assert key == bare + key[|bare|..];
      assert bare[..|PREFIX|] == key[..|PREFIX|];
    }
  }

  lemma SharedUnderscore(bareKey: string, f: Field)
    requires HasPrefix(bareKey, PREFIX) && HasSuffix(bareKey, Suffix(f)) && |bareKey| - |Suffix(f)| < 5
    ensures bareKey == "OIDC" + Suffix(f)
  {
    var start := |bareKey| - |Suffix(f)|;
    assert bareKey[start] == bareKey[start..][0] == '_';
    assert bareKey[..5][start] == bareKey[start];
    assert start == 4;
    assert bareKey == bareKey[..5][..4] + bareKey[start..];
  }

  lemma Share(left: string, c: char, suffix: string)
    requires suffix != "" && suffix[0] == c
    ensures left + suffix == left + [c] + suffix[1..] && HasSuffix(left + suffix, suffix)
  {
    assert suffix == [c] + suffix[1..];
    assert (left + suffix)[|left|..] == suffix;
  }

  lemma SharedUnderscoreShape(f: Field)
    ensures var bare, tail := "OIDC" + Suffix(f), Suffix(f)[1..];
            bare == PREFIX + tail && HasSuffix(bare, Suffix(f)) && tail != ""
  {
    Share("OIDC", '_', Suffix(f));
    assert PREFIX == "OIDC" + ['_'];
  }

  /** A name too short to end in the suffix keeps all that follows the prefix. */
  lemma ShortName(tail: string, f: Field)
    requires HasSuffix(PREFIX + tail, Suffix(f)) && tail != "" && |tail| < |Suffix(f)|
    ensures HasPrefix(PREFIX + tail, PREFIX) && NameOf(PREFIX + tail) == Some(Lower(tail))
  {
    var bare := PREFIX + tail;
    assert bare[..|PREFIX|] == PREFIX && bare[|PREFIX|..] == tail;
    AllFields(f);
    FieldOfIs(bare, f, FIELDS);
  }

  /** A variable in which prefix and suffix share their underscore announces what follows the prefix. */
  lemma SharedUnderscoreNames(f: Field)
    ensures HasPrefix("OIDC" + Suffix(f), PREFIX) && HasSuffix("OIDC" + Suffix(f), Suffix(f))
    ensures Suffix(f)[1..] != "" && NameOf("OIDC" + Suffix(f)) == Some(Lower(Suffix(f)[1..]))
  {
    SharedUnderscoreShape(f);
    ShortName(Suffix(f)[1..], f);
  }

  lemma SharedUnderscoreAnnounces(f: Field, value: string)
    ensures Announced("OIDC" + Suffix(f) + "=" + value) == Some(Lower(Suffix(f)[1..]))
    ensures Announced("OIDC" + Suffix(f) + FILE + "=" + value) == Some(Lower(Suffix(f)[1..]))
  {
    SharedUnderscoreNames(f);
    NoEquals(f);
    EntriesAnnounce("OIDC" + Suffix(f), f, value);
  }

  /** The name is spelled out between prefix and suffix, or prefix and suffix share their underscore. */
  ghost predicate Spells(bareKey: string, n: string, f: Field) {
    || (n != "" && bareKey == PREFIX + n + Suffix(f))
    || (n == Suffix(f)[1..] && bareKey == "OIDC" + Suffix(f))
  }

  lemma SpelledIsNamed(bareKey: string, n: string, f: Field)
    requires Spells(bareKey, n, f)
    ensures NameOf(bareKey) == Some(Lower(n)) && HasPrefix(bareKey, PREFIX) && HasSuffix(bareKey, Suffix(f))
  {
    if n != "" && bareKey == PREFIX + n + Suffix(f) {
      ProperKeyNames(n, f);
      KeyEnds(n, f);
    } else {
      SharedUnderscoreNames(f);
    }
  }

  lemma NamedIsSpelled(bareKey: string) returns (n: string, f: Field)
    requires HasPrefix(bareKey, PREFIX) && NameOf(bareKey).Some?
    ensures Spells(bareKey, n, f)
  {
    f := FieldOf(bareKey, FIELDS).value;
    FieldOfFound(bareKey, FIELDS);
    n := BareIsProper(bareKey, f);
    if bareKey == "OIDC" + Suffix(f) {
      n := Suffix(f)[1..];
    } else {
      TrimBoth(PREFIX, n, Suffix(f));
    }
  }

  /**
   A variable name announces a provider exactly when, without the file suffix, it is prefix,
   non-empty name and suffix, or prefix and suffix sharing their underscore; the provider is the
   name in lower case.
   */
  lemma AnnouncedIff(key: string, name: string)
    ensures AnnouncedBy(key) == Some(name)
       <==> HasPrefix(key, PREFIX) && exists n, f :: Spells(TrimSuffix(key, FILE), n, f) && name == Lower(n)
  {
    var bare := TrimSuffix(key, FILE);
    if AnnouncedBy(key) == Some(name) {
      FieldOfFound(bare, FIELDS);
      BareOf(key, FieldOf(bare, FIELDS).value);
      var n, f := NamedIsSpelled(bare);
      SpelledIsNamed(bare, n, f);
    } else if HasPrefix(key, PREFIX) {
      forall n, f | Spells(bare, n, f) ensures name != Lower(n) {
        SpelledIsNamed(bare, n, f);
      }
    }
  }

  // ---------------------------------------------------------------- merging

  function Override(value: string, configured: string): string {
    if value != "" then value else configured
  }

  /** The seven values read for a provider; an empty one is not set. */
  datatype Settings = Settings(
    providerType: string,
    issuerUrl: string,
    clientId: string,
    clientSecret: string,
    redirectUrl: string,
    scopes: string,
    enabled: string)

  function SettingsOf(env: Env, name: string): Settings {
    Settings(
      GetEnv(env, Key(name, ProviderType)), GetEnv(env, Key(name, IssuerUrl)), GetEnv(env, Key(name, ClientId)),
      GetEnv(env, Key(name, ClientSecret)), GetEnv(env, Key(name, RedirectUrl)), GetEnv(env, Key(name, Scopes)),
      GetEnv(env, Key(name, Enabled)))
  }

  /** One provider after its settings were read: a set value wins over what was configured. */
  function Merge(existing: Option<Provider>, name: string, s: Settings): Option<Provider> {
    var p := if existing.Some? then existing.value else ZERO;
    var id := Override(s.clientId, p.clientId);
    if s.enabled != "" && ParseBool(s.enabled).None? then None
    else Some(Provider(
      Override(Override(s.providerType, p.providerType), name),
      Override(s.issuerUrl, p.issuerUrl),
      id,
      Override(s.clientSecret, p.clientSecret),
      Override(s.redirectUrl, p.redirectUrl),
      if s.scopes != "" then Split(s.scopes, ',') else p.scopes,
      if s.enabled != "" then ParseBool(s.enabled).value else if existing.Some? then p.enabled else id != ""))
  }

  function Configured(providers: map<string, Provider>, name: string): Option<Provider> {
    if name in providers then Some(providers[name]) else None
  }

  /** Every discovered provider merges. */
  ghost predicate AllMerge(providers: map<string, Provider>, names: set<string>, env: Env) {
    forall name :: name in names ==> Merge(Configured(providers, name), name, SettingsOf(env, name)).Some?
  }

  /** The configuration after loading: discovered providers merged, the others as they were. */
  ghost function Loaded(providers: map<string, Provider>, names: set<string>, env: Env): map<string, Provider>
    requires AllMerge(providers, names, env)
  {
    map name | name in providers.Keys + names ::
      if name in names then Merge(Configured(providers, name), name, SettingsOf(env, name)).value else providers[name]
  }

  /** The merge loop's body. */
  method MergeOne(existing: Option<Provider>, name: string, s: Settings) returns (r: Option<Provider>)
    ensures r == Merge(existing, name, s)
  {
    var p := MergeTexts(if existing.Some? then existing.value else ZERO, s);
    if s.enabled != "" {
      var b := ParseBool(s.enabled);
      if b.None? {
        return None;
      }
      p := p.(enabled := b.value);
    } else if existing.None? {
      p := p.(enabled := p.clientId != "");
    }
    if p.providerType == "" {
      p := p.(providerType := name);
    }
    return Some(p);
  }

  /** Its first six settings. */
  method MergeTexts(configured: Provider, s: Settings) returns (p: Provider)
    ensures p == Provider(
              Override(s.providerType, configured.providerType),
              Override(s.issuerUrl, configured.issuerUrl),
              Override(s.clientId, configured.clientId),
              Override(s.clientSecret, configured.clientSecret),
              Override(s.redirectUrl, configured.redirectUrl),
              if s.scopes != "" then Split(s.scopes, ',') else configured.scopes,
              configured.enabled)
  {
    p := configured;
    if s.providerType != "" {
      p := p.(providerType := s.providerType);
    }
    if s.issuerUrl != "" {
      p := p.(issuerUrl := s.issuerUrl);
    }
    if s.clientId != "" {
      p := p.(clientId := s.clientId);
    }
    if s.clientSecret != "" {
      p := p.(clientSecret := s.clientSecret);
    }
    if s.redirectUrl != "" {
      p := p.(redirectUrl := s.redirectUrl);
    }
    if s.scopes != "" {
      p := p.(scopes := Split(s.scopes, ','));
    }
  }

  /** Visiting one more name changes that name's entry only. */
  lemma LoadStep(providers: map<string, Provider>, done: set<string>, name: string, env: Env)
    requires AllMerge(providers, done, env) && name !in done
    ensures var cfg := Loaded(providers, done, env);
            var p := Merge(Configured(cfg, name), name, SettingsOf(env, name));
            Configured(cfg, name) == Configured(providers, name)
            && (p.Some? <==> AllMerge(providers, done + {name}, env))
            && (p.Some? ==> Loaded(providers, done + {name}, env) == cfg[name := p.value])
  {
    var cfg := Loaded(providers, done, env);
    var p := Merge(Configured(cfg, name), name, SettingsOf(env, name));
    assert Configured(cfg, name) == Configured(providers, name);
    if p.Some? {
      var more := done + {name};
      assert AllMerge(providers, more, env);
      assert Loaded(providers, more, env).Keys == cfg[name := p.value].Keys;
    } else {
      assert name in done + {name};
    }
  }

  // ---------------------------------------------------------------- what loading means

  /** A set value is what is loaded, an empty one leaves what was configured. */
  predicate Takes(value: string, configured: string, loaded: string) {
    if value != "" then loaded == value else loaded == configured
  }

  /** The truth values Go reads, and that they are read as what they say. */
  predicate TakesFlag(value: string, unset: bool, loaded: bool) {
    && (value in {"1", "t", "T", "true", "TRUE", "True"} ==> loaded)
    && (value in {"0", "f", "F", "false", "FALSE", "False"} ==> !loaded)
    && (value == "" ==> loaded == unset)
  }

  predicate IsFlag(value: string) {
    value in {"", "1", "t", "T", "true", "TRUE", "True", "0", "f", "F", "false", "FALSE", "False"}
  }

  /**
   The provider loaded under a discovered name: each variable wins over the configuration; without
   either the type is the name, and a provider that is not configured is enabled by its client id.
   */
  predicate LoadedFrom(env: Env, name: string, configured: Option<Provider>, p: Provider) {
    var was := if configured.Some? then configured.value else Provider("", "", "", "", "", [], false);
    var kind, scopes := GetEnv(env, Key(name, ProviderType)), GetEnv(env, Key(name, Scopes));
    && Takes(kind, if was.providerType != "" then was.providerType else name, p.providerType)
    && Takes(GetEnv(env, Key(name, IssuerUrl)), was.issuerUrl, p.issuerUrl)
    && Takes(GetEnv(env, Key(name, ClientId)), was.clientId, p.clientId)
    && Takes(GetEnv(env, Key(name, ClientSecret)), was.clientSecret, p.clientSecret)
    && Takes(GetEnv(env, Key(name, RedirectUrl)), was.redirectUrl, p.redirectUrl)
    && (if scopes != "" then p.scopes == Split(scopes, ',') else p.scopes == was.scopes)
    && TakesFlag(GetEnv(env, Key(name, Enabled)), if configured.Some? then was.enabled else p.clientId != "", p.enabled)
  }

  lemma FlagsParse(value: string)
    ensures ParseBool(value).Some? || value == "" <==> IsFlag(value)
    ensures ParseBool(value).Some? ==> TakesFlag(value, ParseBool(value).value, ParseBool(value).value)
  {
  }

  lemma MergeTakes(configured: Option<Provider>, env: Env, name: string)
    ensures var p := Merge(configured, name, SettingsOf(env, name));
            && (p.Some? <==> IsFlag(GetEnv(env, Key(name, Enabled))))
            && (p.Some? ==> LoadedFrom(env, name, configured, p.value))
  {
    FlagsParse(GetEnv(env, Key(name, Enabled)));
  }

  lemma LoadedTakes(providers: map<string, Provider>, names: set<string>, env: Env)
    ensures AllMerge(providers, names, env)
       <==> forall name :: name in names ==> IsFlag(GetEnv(env, Key(name, Enabled)))
    ensures AllMerge(providers, names, env) ==>
              forall name :: name in names ==>
                LoadedFrom(env, name, Configured(providers, name), Loaded(providers, names, env)[name])
  {
    forall name | name in names
      ensures Merge(Configured(providers, name), name, SettingsOf(env, name)).Some?
         <==> IsFlag(GetEnv(env, Key(name, Enabled)))
    {
      MergeTakes(Configured(providers, name), env, name);
    }
    if AllMerge(providers, names, env) {
      forall name | name in names
        ensures LoadedFrom(env, name, Configured(providers, name), Loaded(providers, names, env)[name])
      {
        MergeTakes(Configured(providers, name), env, name);
      }
    }
  }

  /**
   The merge loop, taking the names in whatever order. It succeeds exactly when every discovered
   provider's flag is empty or a truth value; then each discovered provider is loaded from its
   variables and the others are as configured, so the configuration does not depend on the order.
   */
  method LoadProviders(providers: map<string, Provider>, env: Env)
    returns (r: Option<map<string, Provider>>, names: set<string>)
    ensures Discovers(names, env.vars)
    ensures r.Some? <==> forall name :: name in names ==> IsFlag(GetEnv(env, Key(name, Enabled)))
    ensures r.Some? ==> r.value.Keys == providers.Keys + names
    ensures r.Some? ==> forall name :: name in names ==>
                          LoadedFrom(env, name, Configured(providers, name), r.value[name])
    ensures r.Some? ==> forall name :: name in providers && name !in names ==> r.value[name] == providers[name]
    ensures r.Some? <==> AllMerge(providers, names, env)
    ensures r.Some? ==> r.value == Loaded(providers, names, env)
  {
    names := DiscoverNames(env.vars);
    r := MergeAll(providers, names, env);
    LoadedTakes(providers, names, env);
  }

  method MergeAll(providers: map<string, Provider>, names: set<string>, env: Env)
    returns (r: Option<map<string, Provider>>)
    ensures r.Some? <==> AllMerge(providers, names, env)
    ensures r.Some? ==> r.value == Loaded(providers, names, env)
  {
    var todo, cfg := names, providers;
    ghost var done: set<string> := {};
    assert Loaded(providers, {}, env) == providers;
    while todo != {}
      invariant done + todo == names && done !! todo
      invariant AllMerge(providers, done, env)
      invariant cfg == Loaded(providers, done, env)
    {
      var name :| name in todo;
      LoadStep(providers, done, name, env);
      var p := MergeOne(Configured(cfg, name), name, SettingsOf(env, name));
      if p.None? {
        assert name in names;
        return None;
      }
      cfg := cfg[name := p.value];
      done, todo := done + {name}, todo - {name};
    }
    assert done == names;
    return Some(cfg);
  }

  /** A merged provider merges to itself. */
  lemma MergeTwice(existing: Option<Provider>, name: string, s: Settings)
    requires Merge(existing, name, s).Some?
    ensures Merge(Merge(existing, name, s), name, s) == Merge(existing, name, s)
  {
  }

  /** Loading twice is loading once. */
  lemma LoadTwice(providers: map<string, Provider>, names: set<string>, env: Env)
    requires AllMerge(providers, names, env)
    ensures var once := Loaded(providers, names, env);
            AllMerge(once, names, env) && Loaded(once, names, env) == once
  {
    var once := Loaded(providers, names, env);
    forall name | name in names
      ensures Merge(Configured(once, name), name, SettingsOf(env, name)) == Some(once[name])
    {
      MergeTwice(Configured(providers, name), name, SettingsOf(env, name));
    }
  }
}
