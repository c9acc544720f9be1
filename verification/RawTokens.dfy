/**
 The raw refresh token: `rfr_<uuid>.<base64url secret>`, how it is printed when it is minted and
 how its id part is read back when it is presented.
 */
module RawTokens {
  import opened Wrappers
  import opened Base64Url
  import opened Uuids
  import opened Strings

  /** The fixed prefix and the underscore after it. */
  const PREFIX := "rfr_"

  /** `fmt.Sprintf("%s_%s.%s", ...)` in the service. */
  function Format(id: string, secret: string): string {
    PREFIX + id + "." + secret
  }

  /** The string given to the client. */
  function Print(id: Uuid, secret: seq<Byte>): string {
    Format(Text(id), Encode(secret))
  }

  /** `extractIDFromRawToken`: the id part as it stands in the token, or nothing if it is malformed. */
  function ExtractId(raw: string): Option<string> {
    if !HasPrefix(raw, PREFIX) then None
    else
      var parts := Split(raw, '.');
      if |parts| != 2 then None
      else
        var rawId := TrimPrefix(parts[0], PREFIX);
        if rawId == "" || !GoAccepts(rawId) then None else Some(rawId)
  }

  /** The primary key a presented token selects, if the library and the database both read its id part. */
  function KeyOf(raw: string): Option<Uuid> {
    match ExtractId(raw)
    case Some(text) => DbParse(text)
    case None => None
  }

  /** Parsing undoes printing, for every id and every secret. */
  lemma ExtractOfPrint(id: Uuid, secret: seq<Byte>)
    ensures ExtractId(Print(id, secret)) == Some(Text(id))
  {
    TextHasNoDot(id, 0);
    EncodeHasNoDot(secret);
    GoAcceptsText(id);
    PartsOfPrint(Text(id), Encode(secret));
  }

  lemma PartsOfPrint(text: string, rest: string)
    requires '.' !in text && '.' !in rest
    ensures var raw := PREFIX + text + "." + rest;
            HasPrefix(raw, PREFIX) && Split(raw, '.') == [PREFIX + text, rest]
            && TrimPrefix(PREFIX + text, PREFIX) == text
  {
    var left := PREFIX + text;
    SplitOnce(left, '.', rest);
    assert left[4..] == text;
  }

  /** A minted token selects the row it was minted for. */
  lemma KeyOfPrint(id: Uuid, secret: seq<Byte>)
    ensures KeyOf(Print(id, secret)) == Some(id)
  {
    ExtractOfPrint(id, secret);
    DbParseText(id);
  }

  /** The 84 characters of a minted token: prefix, canonical id, dot, 43 digits of the secret. */
  lemma PrintedForm(id: Uuid, secret: seq<Byte>)
    requires |secret| == 32
    ensures Print(id, secret) == "rfr_" + Text(id) + "." + Encode(secret)
    ensures |Print(id, secret)| == 84 && |Text(id)| == 36 && |Encode(secret)| == 43
  {
    GoAcceptsText(id);
    EncodedLength(secret);
  }

  /** An accepted string is the prefix, the id part that was read, one dot and a dot-free rest. */
  lemma AcceptedShape(raw: string) returns (rest: string)
    requires ExtractId(raw).Some?
    ensures raw == PREFIX + ExtractId(raw).value + "." + rest
    ensures '.' !in ExtractId(raw).value && '.' !in rest
  {
    SplitInTwo(raw, '.');
    var parts := Split(raw, '.');
    rest := parts[1];
    assert raw[|parts[0]|] == '.' && raw[..4] == PREFIX;
    assert forall i :: 0 <= i < 4 ==> raw[i] == PREFIX[i] != '.';
    assert parts[0][..4] == raw[..4];
    assert ExtractId(raw).value == parts[0][4..];
    assert parts[0] in parts && parts[1] in parts;
  }

  /** Different ids or different secrets give different raw tokens. */
  lemma PrintInjective(id: Uuid, secret: seq<Byte>, id': Uuid, secret': seq<Byte>)
    requires Print(id, secret) == Print(id', secret')
    ensures id == id' && secret == secret'
  {
    KeyOfPrint(id, secret);
    KeyOfPrint(id', secret');
    var lead := PREFIX + Text(id) + ".";
    assert Print(id, secret)[|lead|..] == Encode(secret);
    assert Print(id, secret')[|lead|..] == Encode(secret');
    EncodeInjective(secret, secret');
  }
}
