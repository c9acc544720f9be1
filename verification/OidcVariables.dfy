/**
 What one environment variable does to the provider configuration: which provider and which field
 it reaches, and when it reaches none.
 */
module OidcVariables {
  import opened Wrappers
  import opened OidcConfig

  /** Two environments that agree except on one variable and its file variable. */
  ghost predicate DifferAt(env: Env, env': Env, key: string) {
    env.files == env'.files
    && forall k :: k != key && k != key + FILE ==> Getenv(env.vars, k) == Getenv(env'.vars, k)
  }

  /** A variable of one name part and field is not read for any other. */
  lemma OthersRead(env: Env, env': Env, m: string, f: Field, n: string, g: Field)
    requires DifferAt(env, env', PREFIX + m + Suffix(f)) && (m, f) != (n, g)
    ensures GetEnv(env, PREFIX + n + Suffix(g)) == GetEnv(env', PREFIX + n + Suffix(g))
  {
    FileKeysApart(m, f, n, g);
    FileKeysApart(n, g, m, f);
    if PREFIX + m + Suffix(f) == PREFIX + n + Suffix(g) {
      KeyUnambiguous(m, f, n, g);
    }
  }

  // ---------------------------------------------------------------- settings

  function Setting(s: Settings, f: Field): string {
    match f
    case ProviderType => s.providerType
    case IssuerUrl => s.issuerUrl
    case ClientId => s.clientId
    case ClientSecret => s.clientSecret
    case RedirectUrl => s.redirectUrl
    case Scopes => s.scopes
    case Enabled => s.enabled
  }

  ghost predicate AgreeBut(s: Settings, s': Settings, f: Field) {
    forall g :: g != f ==> Setting(s, g) == Setting(s', g)
  }

  lemma SettingIs(env: Env, name: string, f: Field)
    ensures Setting(SettingsOf(env, name), f) == GetEnv(env, Key(name, f))
  {
  }

  lemma SameSettings(s: Settings, s': Settings)
    requires forall g :: Setting(s, g) == Setting(s', g)
    ensures s == s'
  {
    assert Setting(s, ProviderType) == Setting(s', ProviderType) && Setting(s, IssuerUrl) == Setting(s', IssuerUrl);
    assert Setting(s, ClientId) == Setting(s', ClientId) && Setting(s, ClientSecret) == Setting(s', ClientSecret);
    assert Setting(s, RedirectUrl) == Setting(s', RedirectUrl) && Setting(s, Scopes) == Setting(s', Scopes);
    assert Setting(s, Enabled) == Setting(s', Enabled);
  }

  /** A provider whose name is not the variable's has the same settings. */
  lemma OtherSettings(env: Env, env': Env, m: string, f: Field, name: string)
    requires DifferAt(env, env', PREFIX + m + Suffix(f)) && m != Upper(name)
    ensures SettingsOf(env, name) == SettingsOf(env', name)
  {
    forall g ensures Setting(SettingsOf(env, name), g) == Setting(SettingsOf(env', name), g) {
      OthersRead(env, env', m, f, Upper(name), g);
      SettingIs(env, name, g);
      SettingIs(env', name, g);
    }
    SameSettings(SettingsOf(env, name), SettingsOf(env', name));
  }

  /** The variable's own provider differs in the one setting at most. */
  lemma OwnSettings(env: Env, env': Env, n: string, name: string, f: Field)
    requires DifferAt(env, env', PREFIX + n + Suffix(f))
    ensures AgreeBut(SettingsOf(env, name), SettingsOf(env', name), f)
  {
    forall g | g != f ensures Setting(SettingsOf(env, name), g) == Setting(SettingsOf(env', name), g) {
      OthersRead(env, env', n, f, Upper(name), g);
      SettingIs(env, name, g);
      SettingIs(env', name, g);
    }
  }

  // ---------------------------------------------------------------- one provider

  /** Equal in every field but `f`, leaving `enabled` aside. */
  predicate SameBut(p: Provider, q: Provider, f: Field) {
    && (f.ProviderType? || p.providerType == q.providerType)
    && (f.IssuerUrl? || p.issuerUrl == q.issuerUrl)
    && (f.ClientId? || p.clientId == q.clientId)
    && (f.ClientSecret? || p.clientSecret == q.clientSecret)
    && (f.RedirectUrl? || p.redirectUrl == q.redirectUrl)
    && (f.Scopes? || p.scopes == q.scopes)
  }

  /** A client id also enables or disables a provider that is not configured. */
  predicate FlipsEnabled(existing: Option<Provider>, s: Settings, s': Settings, f: Field) {
    f.ClientId? && existing.None? && s.enabled == "" && ((s.clientId == "") != (s'.clientId == ""))
  }

  lemma MergeOneField(existing: Option<Provider>, name: string, s: Settings, s': Settings, f: Field)
    requires AgreeBut(s, s', f)
    ensures !f.Enabled? ==> (Merge(existing, name, s).Some? <==> Merge(existing, name, s').Some?)
    ensures Merge(existing, name, s).Some? && Merge(existing, name, s').Some? ==>
              var p, q := Merge(existing, name, s).value, Merge(existing, name, s').value;
              SameBut(p, q, f) && (!f.Enabled? ==> (p.enabled != q.enabled <==> FlipsEnabled(existing, s, s', f)))
  {
    assert forall g :: g != f ==> Setting(s, g) == Setting(s', g);
    assert f.ProviderType? || Setting(s, ProviderType) == Setting(s', ProviderType);
    assert f.IssuerUrl? || Setting(s, IssuerUrl) == Setting(s', IssuerUrl);
    assert f.ClientId? || Setting(s, ClientId) == Setting(s', ClientId);
    assert f.ClientSecret? || Setting(s, ClientSecret) == Setting(s', ClientSecret);
    assert f.RedirectUrl? || Setting(s, RedirectUrl) == Setting(s', RedirectUrl);
    assert f.Scopes? || Setting(s, Scopes) == Setting(s', Scopes);
    assert f.Enabled? || Setting(s, Enabled) == Setting(s', Enabled);
  }

  const UNSET := Settings("", "", "", "", "", "", "")

  function OrZero(existing: Option<Provider>): Provider {
    if existing.Some? then existing.value else ZERO
  }

  /** What the first setting of a provider changes: its field, a missing type, and what `FlipsEnabled` says. */
  lemma MergeFirstField(existing: Option<Provider>, name: string, s: Settings, f: Field)
    requires AgreeBut(UNSET, s, f) && Merge(existing, name, s).Some? && name != ""
    ensures var b, a := OrZero(existing), Merge(existing, name, s).value;
            && SameBut(b.(providerType := a.providerType), a, f)
            && (!f.ProviderType? ==> (b.providerType != a.providerType <==> b.providerType == ""))
            && (!f.Enabled? ==> (b.enabled != a.enabled <==> FlipsEnabled(existing, UNSET, s, f)))
  {
    MergeOneField(existing, name, UNSET, s, f);
    assert f.ProviderType? || Setting(UNSET, ProviderType) == Setting(s, ProviderType);
  }

  // ---------------------------------------------------------------- editing the environment

  /** The entry sets the variable or its file variable. */
  predicate IsEntryOf(kv: string, key: string) {
    var eq := IndexOf(kv, '=');
    eq < |kv| && (kv[..eq] == key || kv[..eq] == key + FILE)
  }

  function Others(vars: seq<string>, key: string): seq<string> {
    if vars == [] then []
    else (if IsEntryOf(vars[0], key) then [] else [vars[0]]) + Others(vars[1..], key)
  }

  /** The environments differ in nothing but what they say of one variable and its file variable. */
  ghost predicate SameElsewhere(env: Env, env': Env, key: string) {
    env.files == env'.files && Others(env.vars, key) == Others(env'.vars, key)
  }

  lemma {:induction false} GetenvOthers(vars: seq<string>, key: string, k: string)
    requires k != key && k != key + FILE
    ensures Getenv(vars, k) == Getenv(Others(vars, key), k)
  {
    if vars != [] {
      GetenvOthers(vars[1..], key, k);
      if IsEntryOf(vars[0], key) {
        assert Others(vars, key) == Others(vars[1..], key);
      } else {
        assert Others(vars, key) == [vars[0]] + Others(vars[1..], key);
        assert Others(vars, key)[1..] == Others(vars[1..], key);
      }
    }
  }

  lemma ElsewhereDiffersAt(env: Env, env': Env, key: string)
    requires SameElsewhere(env, env', key)
    ensures DifferAt(env, env', key)
  {
    forall k | k != key && k != key + FILE ensures Getenv(env.vars, k) == Getenv(env'.vars, k) {
      GetenvOthers(env.vars, key, k);
      GetenvOthers(env'.vars, key, k);
    }
  }

  lemma {:induction false} OthersMembers(vars: seq<string>, key: string, kv: string)
    ensures kv in Others(vars, key) <==> kv in vars && !IsEntryOf(kv, key)
  {
    if vars != [] {
      OthersMembers(vars[1..], key, kv);
      assert kv in vars <==> kv == vars[0] || kv in vars[1..];
    }
  }

  ghost predicate AnnouncedIn(vars: seq<string>, name: string) {
    exists kv :: kv in vars && Announced(kv) == Some(name)
  }

  lemma AnnouncedInIs(vars: seq<string>, name: string)
    ensures AnnouncedIn(vars, name) <==> AnnouncedBefore(vars, |vars|, name)
  {
    if AnnouncedBefore(vars, |vars|, name) {
      var i :| 0 <= i < |vars| && Announced(vars[i]) == Some(name);
      assert vars[i] in vars;
    }
  }

  /** The entries left aside announce the variable's own provider and no other. */
  lemma OthersAnnounce(vars: seq<string>, key: string, m: string, name: string)
    requires AnnouncedBy(key) == Some(m) && AnnouncedBy(key + FILE) == Some(m) && name != m
    ensures AnnouncedIn(vars, name) <==> AnnouncedIn(Others(vars, key), name)
  {
    if AnnouncedIn(vars, name) {
      var kv :| kv in vars && Announced(kv) == Some(name);
      OthersMembers(vars, key, kv);
    }
    if AnnouncedIn(Others(vars, key), name) {
      var kv :| kv in Others(vars, key) && Announced(kv) == Some(name);
      OthersMembers(vars, key, kv);
    }
  }

  /** An edit can make discovery find or miss the variable's own provider only. */
  lemma ElsewhereDiscovers(env: Env, env': Env, n: string, f: Field, names: set<string>, names': set<string>)
    requires n != "" && SameElsewhere(env, env', PREFIX + n + Suffix(f))
    requires Discovers(names, env.vars) && Discovers(names', env'.vars)
    ensures names - {Lower(n)} == names' - {Lower(n)}
  {
    var key := PREFIX + n + Suffix(f);
    KeyEnds(n, f);
    KeyAnnounces(key, f);
    ProperKeyNames(n, f);
    forall name | name != Lower(n) ensures name in names <==> name in names' {
      AnnouncedInIs(env.vars, name);
      AnnouncedInIs(env'.vars, name);
      OthersAnnounce(env.vars, key, Lower(n), name);
      OthersAnnounce(env'.vars, key, Lower(n), name);
    }
  }

  /** The environment with one more entry; it counts unless the variable is set before. */
  function With(env: Env, key: string, value: string): Env {
    env.(vars := env.vars + [key + "=" + value])
  }

  lemma {:induction false} OthersOfMore(vars: seq<string>, kv: string, key: string)
    requires IsEntryOf(kv, key)
    ensures Others(vars + [kv], key) == Others(vars, key)
  {
    if vars == [] {
      assert vars + [kv] == [kv];
      assert [kv][1..] == vars;
    } else {
      OthersOfMore(vars[1..], kv, key);
      assert (vars + [kv])[1..] == vars[1..] + [kv];
    }
  }

  /** Setting a variable, or its file variable, is such an edit. */
  lemma WithIsElsewhere(env: Env, key: string, value: string)
    requires '=' !in key
    ensures SameElsewhere(env, With(env, key, value), key)
    ensures SameElsewhere(env, With(env, key + FILE, value), key)
  {
    NoEquals(ClientId);
    EntryIs(key, value);
    EntryIs(key + FILE, value);
    OthersOfMore(env.vars, key + "=" + value, key);
    OthersOfMore(env.vars, key + FILE + "=" + value, key);
  }

  lemma EntryIs(key: string, value: string)
    requires '=' !in key
    ensures var kv := key + "=" + value;
            IndexOf(kv, '=') == |key| < |kv| && kv[..|key|] == key && kv[|key| + 1..] == value
  {
    IndexIs(key, '=', value);
  }

  // ---------------------------------------------------------------- the configuration

  lemma AnnouncedIsLower(kv: string)
    requires Announced(kv).Some?
    ensures Announced(kv).value == Lower(Announced(kv).value)
  {
  }

  /** Between two environments that differ at one variable, every other provider is loaded alike. */
  lemma OthersLoaded(providers: map<string, Provider>, env: Env, env': Env, n: string, f: Field,
                     names: set<string>, names': set<string>, name: string)
    requires n != "" && SameElsewhere(env, env', PREFIX + n + Suffix(f)) && name != Lower(n)
    requires Discovers(names, env.vars) && Discovers(names', env'.vars)
    requires AllMerge(providers, names, env) && AllMerge(providers, names', env')
    ensures Configured(Loaded(providers, names, env), name) == Configured(Loaded(providers, names', env'), name)
  {
    ElsewhereDiffersAt(env, env', PREFIX + n + Suffix(f));
    ElsewhereDiscovers(env, env', n, f, names, names');
    assert name in names <==> name in names - {Lower(n)};
    assert name in names' <==> name in names' - {Lower(n)};
    if name in names {
      var i :| 0 <= i < |env.vars| && Announced(env.vars[i]) == Some(name);
      AnnouncedIsLower(env.vars[i]);
      UpperOfLower(name);
      OtherSettings(env, env', n, f, name);
    }
  }

  lemma {:induction false} SetIsEntry(vars: seq<string>, key: string) returns (i: nat)
    requires Getenv(vars, key) != ""
    ensures i < |vars| && IndexOf(vars[i], '=') < |vars[i]| && vars[i][..IndexOf(vars[i], '=')] == key
  {
    var eq := IndexOf(vars[0], '=');
    if eq < |vars[0]| && vars[0][..eq] == key {
      i := 0;
    } else {
      var j := SetIsEntry(vars[1..], key);
      i := j + 1;
    }
  }

  lemma SetIsAnnounced(vars: seq<string>, key: string, name: string)
    requires AnnouncedBy(key) == Some(name)
    ensures Getenv(vars, key) != "" ==> AnnouncedBefore(vars, |vars|, name)
  {
    if Getenv(vars, key) != "" {
      var i := SetIsEntry(vars, key);
      assert Announced(vars[i]) == Some(name);
    }
  }

  /** A provider that no entry announces has no setting, so the loader loses nothing by not visiting it. */
  lemma UndiscoveredIsUnset(env: Env, names: set<string>, m: string, f: Field)
    requires m == Lower(m) && m != "" && Discovers(names, env.vars) && m !in names
    ensures GetEnv(env, Key(m, f)) == ""
  {
    UpperOfLower(m);
    assert Upper(m) != "";
    ProperKeyNames(Upper(m), f);
    KeyEnds(Upper(m), f);
    KeyAnnounces(Key(m, f), f);
    SetIsAnnounced(env.vars, Key(m, f), m);
    SetIsAnnounced(env.vars, Key(m, f) + FILE, m);
  }

  lemma UndiscoveredSettings(env: Env, names: set<string>, m: string)
    requires m == Lower(m) && m != "" && Discovers(names, env.vars) && m !in names
    ensures SettingsOf(env, m) == UNSET
  {
    forall g ensures Setting(SettingsOf(env, m), g) == Setting(UNSET, g) {
      UndiscoveredIsUnset(env, names, m, g);
      SettingIs(env, m, g);
    }
    SameSettings(SettingsOf(env, m), UNSET);
  }

  /**
   The edit makes discovery find or miss the provider, and it is configured without a type or not at
   all: then its type is filled in with the name, or no longer.
   */
  predicate FillsType(existing: Option<Provider>, found: bool, found': bool) {
    found != found' && OrZero(existing).providerType == ""
  }

  /** What a provider is loaded as, from its settings if it was found. */
  function LoadedAs(existing: Option<Provider>, name: string, s: Settings, found: bool): Provider
    requires found ==> Merge(existing, name, s).Some?
  {
    if found then Merge(existing, name, s).value else OrZero(existing)
  }

  lemma OwnEntry(existing: Option<Provider>, name: string, s: Settings, s': Settings, f: Field, found: bool,
                 found': bool)
    requires AgreeBut(s, s', f) && name != ""
    requires found ==> Merge(existing, name, s).Some?
    requires found' ==> Merge(existing, name, s').Some?
    requires (!found ==> s == UNSET) && (!found' ==> s' == UNSET)
    ensures var b, a := LoadedAs(existing, name, s, found), LoadedAs(existing, name, s', found');
            && SameBut(b.(providerType := a.providerType), a, f)
            && (!f.ProviderType? ==> (b.providerType != a.providerType <==> FillsType(existing, found, found')))
            && (!f.Enabled? ==> (b.enabled != a.enabled <==> FlipsEnabled(existing, s, s', f)))
  {
    if found && found' {
      MergeOneField(existing, name, s, s', f);
    } else if found' {
      MergeFirstField(existing, name, s', f);
    } else if found {
      AgreeTurned(s, f);
      assert f.Enabled? || Setting(s, Enabled) == Setting(UNSET, Enabled);
      MergeFirstField(existing, name, s, f);
    }
  }

  lemma AgreeTurned(s: Settings, f: Field)
    requires AgreeBut(s, UNSET, f)
    ensures AgreeBut(UNSET, s, f)
  {
  }

  /**
   One variable, with its file variable, set, changed or removed. Every other provider is loaded as
   before. The variable's provider, taken as the zero value where it is missing, is loaded as before
   up to the variable's field, with two exceptions, both exact: its type, as `FillsType` says, and
   whether it is enabled, as `FlipsEnabled` says.
   */
  lemma OneFieldPerVariable(providers: map<string, Provider>, env: Env, env': Env, n: string, f: Field,
                            names: set<string>, names': set<string>)
    requires n != "" && SameElsewhere(env, env', PREFIX + n + Suffix(f))
    requires Discovers(names, env.vars) && Discovers(names', env'.vars)
    requires AllMerge(providers, names, env) && AllMerge(providers, names', env')
    ensures var before, after := Loaded(providers, names, env), Loaded(providers, names', env');
            var m, existing := Lower(n), Configured(providers, Lower(n));
            var b, a := OrZero(Configured(before, m)), OrZero(Configured(after, m));
            && (forall name :: name != m ==> Configured(before, name) == Configured(after, name))
            && SameBut(b.(providerType := a.providerType), a, f)
            && (!f.ProviderType? ==>
                  (b.providerType != a.providerType <==> FillsType(existing, m in names, m in names')))
            && (!f.Enabled? ==>
                  (b.enabled != a.enabled <==> FlipsEnabled(existing, SettingsOf(env, m), SettingsOf(env', m), f)))
  {
    var m, existing := Lower(n), Configured(providers, Lower(n));
    forall name | name != m
      ensures Configured(Loaded(providers, names, env), name) == Configured(Loaded(providers, names', env'), name)
    {
      OthersLoaded(providers, env, env', n, f, names, names', name);
    }
    OwnSettingsFound(env, env', n, f, names, names');
    LoadedIs(providers, names, env, m);
    LoadedIs(providers, names', env', m);
    OwnEntry(existing, m, SettingsOf(env, m), SettingsOf(env', m), f, m in names, m in names');
  }

  /** The settings of the variable's own provider; there is none where discovery does not find it. */
  lemma OwnSettingsFound(env: Env, env': Env, n: string, f: Field, names: set<string>, names': set<string>)
    requires n != "" && SameElsewhere(env, env', PREFIX + n + Suffix(f))
    requires Discovers(names, env.vars) && Discovers(names', env'.vars)
    ensures var m := Lower(n);
            && m != "" && AgreeBut(SettingsOf(env, m), SettingsOf(env', m), f)
            && (m !in names ==> SettingsOf(env, m) == UNSET) && (m !in names' ==> SettingsOf(env', m) == UNSET)
  {
    var m := Lower(n);
    UpperOfLower(n);
    assert m != "" && m == Lower(m);
    ElsewhereDiffersAt(env, env', PREFIX + n + Suffix(f));
    OwnSettings(env, env', n, m, f);
    if m !in names {
      UndiscoveredSettings(env, names, m);
    }
    if m !in names' {
      UndiscoveredSettings(env', names', m);
    }
  }

  lemma LoadedIs(providers: map<string, Provider>, names: set<string>, env: Env, m: string)
    requires AllMerge(providers, names, env)
    ensures m in names ==> Merge(Configured(providers, m), m, SettingsOf(env, m)).Some?
    ensures OrZero(Configured(Loaded(providers, names, env), m))
         == LoadedAs(Configured(providers, m), m, SettingsOf(env, m), m in names)
  {
  }

  /**
   An instance of the first exception: a provider is configured without a type and its secret comes
   from the environment; the type is filled in too.
   */
  lemma SecretFillsTypeExample(m: string, id: string, secret: string)
    requires m == Lower(m) && m != "" && '=' !in m && secret != ""
    ensures var providers := map[m := ZERO.(clientId := id)];
            var empty := Env([], map[]);
            var env := With(empty, Key(m, ClientSecret), secret);
            && Discovers({}, empty.vars) && Discovers({m}, env.vars)
            && AllMerge(providers, {}, empty) && AllMerge(providers, {m}, env)
            && Loaded(providers, {}, empty) == providers
            && Loaded(providers, {m}, env)
               == map[m := ZERO.(clientId := id, clientSecret := secret, providerType := m)]
  {
    var providers, empty := map[m := ZERO.(clientId := id)], Env([], map[]);
    OnlyEntryAnnounces(m, ClientSecret, secret);
    OnlySecret(m, secret);
    SecretMerges(m, id, secret);
    NoneLoaded(providers, empty);
    OneLoaded(providers, m, With(empty, Key(m, ClientSecret), secret), UNSET.(clientSecret := secret));
  }

  lemma SecretMerges(m: string, id: string, secret: string)
    requires secret != ""
    ensures Merge(Some(ZERO.(clientId := id)), m, UNSET.(clientSecret := secret))
         == Some(ZERO.(clientId := id, clientSecret := secret, providerType := m))
  {
  }

  lemma NoneLoaded(providers: map<string, Provider>, env: Env)
    ensures AllMerge(providers, {}, env) && Loaded(providers, {}, env) == providers
  {
    assert Loaded(providers, {}, env).Keys == providers.Keys;
  }

  lemma OneLoaded(providers: map<string, Provider>, m: string, env: Env, s: Settings)
    requires providers.Keys == {m} && SettingsOf(env, m) == s && Merge(Some(providers[m]), m, s).Some?
    ensures AllMerge(providers, {m}, env)
            && Loaded(providers, {m}, env) == map[m := Merge(Some(providers[m]), m, s).value]
  {
    assert Loaded(providers, {m}, env).Keys == {m};
  }

  lemma OnlySecret(m: string, secret: string)
    requires m == Lower(m) && m != "" && '=' !in m
    ensures SettingsOf(With(Env([], map[]), Key(m, ClientSecret), secret), m) == UNSET.(clientSecret := secret)
  {
    var empty, key := Env([], map[]), Key(m, ClientSecret);
    var env := With(empty, key, secret);
    NameInKey(m, ClientSecret);
    OnlyEntryAnnounces(m, ClientSecret, secret);
    OnlyEntry(key, secret);
    WithIsElsewhere(empty, key, secret);
    ElsewhereDiffersAt(empty, env, key);
    OwnSettings(empty, env, Upper(m), m, ClientSecret);
    UndiscoveredSettings(empty, {}, m);
    SettingIs(env, m, ClientSecret);
    OneSetting(SettingsOf(env, m), ClientSecret);
  }

  lemma OneSetting(s: Settings, f: Field)
    requires AgreeBut(UNSET, s, f) && f.ClientSecret?
    ensures s == UNSET.(clientSecret := s.clientSecret)
  {
    var t := UNSET.(clientSecret := s.clientSecret);
    forall g ensures Setting(s, g) == Setting(t, g) {
      assert g != f ==> Setting(UNSET, g) == Setting(s, g);
    }
    SameSettings(s, t);
  }

  lemma NameInKey(m: string, f: Field)
    requires m == Lower(m) && '=' !in m
    ensures '=' !in Upper(m) && '=' !in Key(m, f) && Lower(Upper(m)) == m
  {
    NoEquals(f);
    UpperOfLower(m);
    forall i | 0 <= i < |m| ensures Upper(m)[i] != '=' {
      assert m[i] in m;
    }
  }

  lemma OnlyEntryAnnounces(m: string, f: Field, value: string)
    requires m == Lower(m) && m != "" && '=' !in m
    ensures Discovers({}, Env([], map[]).vars) && Discovers({m}, With(Env([], map[]), Key(m, f), value).vars)
  {
    NameInKey(m, f);
    assert Upper(m) != "";
    ProperKeyAnnounces(Upper(m), f, value);
    var vars := With(Env([], map[]), Key(m, f), value).vars;
    assert vars == [Key(m, f) + "=" + value];
    assert Announced(vars[0]) == Some(m);
  }

  // ---------------------------------------------------------------- mixed case

  /** Changing the variable can change what the provider is loaded from. */
  ghost predicate Matters(env: Env, env': Env, n: string, f: Field) {
    DifferAt(env, env', PREFIX + n + Suffix(f)) && SettingsOf(env, Lower(n)) != SettingsOf(env', Lower(n))
  }

  /**
   A variable has a say in the provider of its name exactly when its name part is all upper case;
   otherwise discovery, which accepts it unless the name part is empty, finds the provider and the
   value is never read.
   */
  lemma DiscoveredIsReadIff(n: string, f: Field)
    requires '=' !in n
    ensures (exists env, env' :: Matters(env, env', n, f)) <==> n == Upper(n)
  {
    UpperOfLower(n);
    if n == Upper(n) {
      var key := PREFIX + n + Suffix(f);
      NoEquals(f);
      var env, env' := Env([], map[]), With(Env([], map[]), key, "x");
      WithIsElsewhere(env, key, "x");
      ElsewhereDiffersAt(env, env', key);
      OnlyEntry(key, "x");
      SettingIs(env, Lower(n), f);
      SettingIs(env', Lower(n), f);
      assert Matters(env, env', n, f);
    } else {
      forall env, env' ensures !Matters(env, env', n, f) {
        if DifferAt(env, env', PREFIX + n + Suffix(f)) {
          OtherSettings(env, env', n, f, Lower(n));
        }
      }
    }
  }

  lemma OnlyEntry(key: string, value: string)
    requires '=' !in key
    ensures GetEnv(With(Env([], map[]), key, value), key) == value && GetEnv(Env([], map[]), key) == ""
  {
    EntryIs(key, value);
    assert Env([], map[]).vars + [key + "=" + value] == [key + "=" + value];
  }
}
