/**
 The `UPDATE` statement the user repository builds from a patch. The builder appends one clause per
 patched field and binds its value; the database reads the clause list back and assigns. Building,
 printing, reading and assigning together are the field-wise merge `Patched`.
 */
module UserPatchSql {
  import opened Wrappers
  import opened Strings
  import opened Model
  import opened Operations

  datatype Column = DisplayName | Email | EmailVerified | HashColumn | UpdatedAt

  function Name(c: Column): string {
    match c
    case DisplayName => "display_name"
    case Email => "email"
    case EmailVerified => "email_verified"
    case HashColumn => "password_hash"
    case UpdatedAt => "updated_at"
  }

  function ColumnNamed(name: string): Option<Column> {
    if name == Name(DisplayName) then Some(DisplayName)
    else if name == Name(Email) then Some(Email)
    else if name == Name(EmailVerified) then Some(EmailVerified)
    else if name == Name(HashColumn) then Some(HashColumn)
    else if name == Name(UpdatedAt) then Some(UpdatedAt)
    else None
  }

  lemma NameRoundTrip(c: Column)
    ensures ColumnNamed(Name(c)) == Some(c)
  {
  }

  /** A value bound to a placeholder. */
  datatype Value = Key(id: Id) | Chars(text: string) | Flag(flag: bool) | Hash(hash: PasswordHash) | Time(at: int)

  // ---------------------------------------------------------------- what the database does

  /** Assigns a column, if the value has its type. */
  function Assign(row: User, c: Column, v: Value): Option<User> {
    match (c, v)
    case (DisplayName, Chars(text)) => Some(row.(name := text))
    case (Email, Chars(text)) => Some(row.(email := text))
    case (EmailVerified, Flag(flag)) => Some(row.(emailVerified := flag))
    case (HashColumn, Hash(hash)) => Some(row.(passwordHash := Some(hash)))
    case (UpdatedAt, Time(at)) => Some(row.(updatedAt := Some(at)))
    case _ => None
  }

  datatype SetClause = SetClause(column: string, placeholder: string)

  predicate Sets(clauses: seq<SetClause>, column: string) {
    exists i :: 0 <= i < |clauses| && clauses[i].column == column
  }

  /** Runs a SET list: unknown or repeated columns and unbound placeholders are errors. */
  function Execute(row: User, clauses: seq<SetClause>, args: map<string, Value>): Option<User> {
    if clauses == [] then Some(row)
    else
      var last, before := clauses[|clauses| - 1], clauses[..|clauses| - 1];
      match (Execute(row, before, args), ColumnNamed(last.column))
      case (Some(sofar), Some(c)) =>
        if last.placeholder in args && !Sets(before, last.column) then Assign(sofar, c, args[last.placeholder])
        else None
      case _ => None
  }

  /** Reads `column = :placeholder`. */
  function ReadClause(text: string): Option<SetClause> {
    var sides := Split(text, '=');
    if |sides| == 2 && HasSuffix(sides[0], " ") && HasPrefix(sides[1], " :")
    then Some(SetClause(TrimSuffix(sides[0], " "), TrimPrefix(sides[1], " :")))
    else None
  }

  function ReadClauses(parts: seq<string>): Option<seq<SetClause>> {
    if parts == [] then Some([])
    else
      match (ReadClause(TrimPrefix(parts[0], " ")), ReadClauses(parts[1..]))
      case (Some(clause), Some(rest)) => Some([clause] + rest)
      case _ => None
  }

  /** Reads a comma-separated SET list. */
  function ReadSet(text: string): Option<seq<SetClause>> {
    ReadClauses(Split(text, ','))
  }

  function ExecuteText(row: User, text: string, args: map<string, Value>): Option<User> {
    match ReadSet(text)
    case Some(clauses) => Execute(row, clauses, args)
    case None => None
  }

  // ---------------------------------------------------------------- printing and reading back

  function Print(c: SetClause): string {
    c.column + " = :" + c.placeholder
  }

  function PrintAll(clauses: seq<SetClause>): seq<string> {
    seq(|clauses|, i requires 0 <= i < |clauses| => Print(clauses[i]))
  }

  /** `strings.Join(parts, ", ")`. */
  function Join(parts: seq<string>): string {
    if |parts| == 0 then ""
    else if |parts| == 1 then parts[0]
    else parts[0] + ", " + Join(parts[1..])
  }

  predicate IsName(s: string) {
    s != "" && forall i :: 0 <= i < |s| ==> 'a' <= s[i] <= 'z' || s[i] == '_'
  }

  predicate Named(clauses: seq<SetClause>) {
    forall i :: 0 <= i < |clauses| ==> IsName(clauses[i].column) && IsName(clauses[i].placeholder)
  }

  lemma NamesAreNames(c: Column)
    ensures IsName(Name(c))
  {
  }

  lemma ReadPrinted(c: SetClause)
    requires IsName(c.column) && IsName(c.placeholder)
    ensures ',' !in Print(c) && Print(c) != "" && Print(c)[0] != ' ' && ReadClause(Print(c)) == Some(c)
  {
    var left, right := c.column + " ", " :" + c.placeholder;
    assert Print(c) == left + "=" + right;
    SplitOnce(left, '=', right);
    assert left[..|left| - 1] == c.column && right[2..] == c.placeholder;
  }

  lemma {:induction false} SplitHead(left: string, sep: char, rest: string)
    requires sep !in left
    ensures Split(left + [sep] + rest, sep) == [left] + Split(rest, sep)
  {
    var s := left + [sep] + rest;
    if left == "" {
      assert s[1..] == rest && s[0] == sep;
    } else {
      assert s[1..] == left[1..] + [sep] + rest;
      SplitHead(left[1..], sep, rest);
      assert left == [left[0]] + left[1..];
    }
  }

  /** The parts of a joined list: the first clause, and the list of the others behind a space. */
  lemma JoinedParts(clauses: seq<SetClause>) returns (tail: seq<string>)
    requires Named(clauses) && clauses != []
    ensures Split(Join(PrintAll(clauses)), ',') == [Print(clauses[0])] + tail
    ensures tail == if |clauses| == 1 then [] else Split(" " + Join(PrintAll(clauses[1..])), ',')
  {
    var head := Print(clauses[0]);
    ReadPrinted(clauses[0]);
    if |clauses| == 1 {
      SplitWithout(head, ',');
      tail := [];
    } else {
      var rest := Join(PrintAll(clauses[1..]));
      assert PrintAll(clauses)[1..] == PrintAll(clauses[1..]);
      assert Join(PrintAll(clauses)) == head + [','] + (" " + rest);
      SplitHead(head, ',', " " + rest);
      tail := Split(" " + rest, ',');
    }
  }

  /** The clauses after the first are read back, if the list behind the comma is. */
  lemma ReadOthers(clauses: seq<SetClause>, tail: seq<string>)
    requires clauses != [] && tail == if |clauses| == 1 then [] else Split(" " + Join(PrintAll(clauses[1..])), ',')
    requires |clauses| > 1 ==> ReadSet(" " + Join(PrintAll(clauses[1..]))) == Some(clauses[1..])
    ensures ReadClauses(tail) == Some(clauses[1..])
  {
    if |clauses| == 1 {
      assert clauses[1..] == [];
    }
  }

  /** A list behind a comma and a space is read back. */
  lemma {:induction false} ReadBehindComma(clauses: seq<SetClause>)
    requires Named(clauses) && clauses != []
    ensures ReadSet(" " + Join(PrintAll(clauses))) == Some(clauses)
  {
    var text, head := Join(PrintAll(clauses)), Print(clauses[0]);
    var tail := JoinedParts(clauses);
    if |clauses| > 1 {
      ReadBehindComma(clauses[1..]);
    }
    ReadOthers(clauses, tail);
    ReadPrinted(clauses[0]);
    ReadBehindSpace(head, clauses[0], tail);
    SpaceInFront(text, ',');
    assert Split(" " + text, ',') == [" " + head] + tail;
    assert clauses == [clauses[0]] + clauses[1..];
  }

  /** What was printed and joined is read back. */
  lemma ReadJoined(clauses: seq<SetClause>)
    requires Named(clauses) && clauses != []
    ensures ReadSet(Join(PrintAll(clauses))) == Some(clauses)
  {
    var tail := JoinedParts(clauses);
    if |clauses| > 1 {
      ReadBehindComma(clauses[1..]);
    }
    ReadOthers(clauses, tail);
    ReadPrinted(clauses[0]);
    ReadBehindSpace(Print(clauses[0]), clauses[0], tail);
    assert clauses == [clauses[0]] + clauses[1..];
  }

  /** A space in front of the list ends up in front of its first part. */
  lemma SpaceInFront(text: string, sep: char)
    requires sep != ' '
    ensures Split(" " + text, sep) == [" " + Split(text, sep)[0]] + Split(text, sep)[1..]
  {
    assert (" " + text)[1..] == text;
  }

  lemma ReadBehindSpace(head: string, c: SetClause, parts: seq<string>)
    requires head != "" && head[0] != ' ' && ReadClause(head) == Some(c)
    ensures ReadClauses([head] + parts) == ReadClauses([" " + head] + parts)
    ensures ReadClauses(parts).Some? ==> ReadClauses([head] + parts) == Some([c] + ReadClauses(parts).value)
  {
    assert TrimPrefix(" " + head, " ") == head && TrimPrefix(head, " ") == head;
    assert ([head] + parts)[1..] == parts && ([" " + head] + parts)[1..] == parts;
  }

  // ---------------------------------------------------------------- building

  /** The clause of a column: its placeholder carries its name. */
  function ClauseOf(c: Column): SetClause {
    SetClause(Name(c), Name(c))
  }

  /** The clauses as the builder's source spells them. */
  function TextOf(c: Column): string {
    match c
    case DisplayName => "display_name = :display_name"
    case Email => "email = :email"
    case EmailVerified => "email_verified = :email_verified"
    case HashColumn => "password_hash = :password_hash"
    case UpdatedAt => "updated_at = :updated_at"
  }

  lemma ClauseText(c: Column)
    ensures Print(ClauseOf(c)) == TextOf(c)
  {
    match c
    case EmailVerified => VerifiedText();
    case HashColumn => HashText();
    case UpdatedAt => UpdatedText();
    case _ =>
  }

  lemma VerifiedText()
    ensures Print(ClauseOf(EmailVerified)) == TextOf(EmailVerified)
  {
  }

  lemma HashText()
    ensures Print(ClauseOf(HashColumn)) == TextOf(HashColumn)
  {
  }

  lemma UpdatedText()
    ensures Print(ClauseOf(UpdatedAt)) == TextOf(UpdatedAt)
  {
  }

  function ClausesOf(cols: seq<Column>): seq<SetClause> {
    seq(|cols|, i requires 0 <= i < |cols| => ClauseOf(cols[i]))
  }

  lemma {:induction false} BindingAnother(row: User, cols: seq<Column>, args: map<string, Value>, c: Column, v: Value)
    requires c !in cols
    ensures Execute(row, ClausesOf(cols), args[Name(c) := v]) == Execute(row, ClausesOf(cols), args)
  {
    if cols != [] {
      var last := cols[|cols| - 1];
      NameRoundTrip(c);
      NameRoundTrip(last);
      BindingAnother(row, cols[..|cols| - 1], args, c, v);
      assert ClausesOf(cols)[..|cols| - 1] == ClausesOf(cols[..|cols| - 1]);
    }
  }

  /** One more clause assigns one more column. */
  lemma OneMoreClause(row: User, cols: seq<Column>, args: map<string, Value>, c: Column, v: Value, before: User)
    requires Execute(row, ClausesOf(cols), args) == Some(before) && c !in cols
    ensures Execute(row, ClausesOf(cols + [c]), args[Name(c) := v]) == Assign(before, c, v)
  {
    BindingAnother(row, cols, args, c, v);
    NameRoundTrip(c);
    var clauses := ClausesOf(cols + [c]);
    assert clauses[..|cols|] == ClausesOf(cols) && clauses[|cols|] == ClauseOf(c);
    if Sets(ClausesOf(cols), Name(c)) {
      var i :| 0 <= i < |cols| && ClausesOf(cols)[i].column == Name(c);
      NameRoundTrip(cols[i]);
    }
  }

  /** The statement so far merges the part of the patch looked at so far into every row. */
  ghost predicate Merges(cols: seq<Column>, args: map<string, Value>, part: UserPatch) {
    forall row :: Execute(row, ClausesOf(cols), args) == Some(Merged(row, part))
  }

  /** The field-wise merge, without the time stamp. */
  function Merged(row: User, patch: UserPatch): User {
    row.(name := if patch.displayName.Some? then patch.displayName.value else row.name,
         email := if patch.email.Some? then patch.email.value else row.email,
         emailVerified := if patch.emailVerified.Some? then patch.emailVerified.value else row.emailVerified,
         passwordHash := if patch.passwordHash.Some? then patch.passwordHash else row.passwordHash)
  }

  /** The patch with one more field. */
  function Extended(part: UserPatch, c: Column, v: Value): Option<UserPatch> {
    match (c, v)
    case (DisplayName, Chars(text)) => Some(part.(displayName := Some(text)))
    case (Email, Chars(text)) => Some(part.(email := Some(text)))
    case (EmailVerified, Flag(flag)) => Some(part.(emailVerified := Some(flag)))
    case (HashColumn, Hash(hash)) => Some(part.(passwordHash := Some(hash)))
    case _ => None
  }

  lemma AssignMerges(row: User, part: UserPatch, c: Column, v: Value)
    requires Extended(part, c, v).Some?
    ensures Assign(Merged(row, part), c, v) == Some(Merged(row, Extended(part, c, v).value))
  {
  }

  lemma ExtendMerge(cols: seq<Column>, args: map<string, Value>, c: Column, v: Value, part: UserPatch)
    requires Merges(cols, args, part) && c !in cols && Extended(part, c, v).Some?
    ensures Merges(cols + [c], args[Name(c) := v], Extended(part, c, v).value)
  {
    forall row
      ensures Execute(row, ClausesOf(cols + [c]), args[Name(c) := v]) == Some(Merged(row, Extended(part, c, v).value))
    {
      OneMoreClause(row, cols, args, c, v, Merged(row, part));
      AssignMerges(row, part, c, v);
    }
  }

  function If<T>(there: bool, x: T): seq<T> {
    if there then [x] else []
  }

  /** The SET list of a patch: a clause for each field it has, in the order of the columns. */
  function SetTexts(patch: UserPatch): seq<string> {
    If(patch.displayName.Some?, TextOf(DisplayName)) + If(patch.email.Some?, TextOf(Email))
    + If(patch.emailVerified.Some?, TextOf(EmailVerified)) + If(patch.passwordHash.Some?, TextOf(HashColumn))
  }

  /** The columns of those fields. */
  function Fields(patch: UserPatch): seq<Column> {
    If(patch.displayName.Some?, DisplayName) + If(patch.email.Some?, Email)
    + If(patch.emailVerified.Some?, EmailVerified) + If(patch.passwordHash.Some?, HashColumn)
  }

  lemma PrintsIf(there: bool, c: Column)
    ensures PrintAll(ClausesOf(If(there, c))) == If(there, TextOf(c))
  {
    ClauseText(c);
  }

  lemma PrintsConcat(a: seq<Column>, b: seq<Column>)
    ensures PrintAll(ClausesOf(a + b)) == PrintAll(ClausesOf(a)) + PrintAll(ClausesOf(b))
  {
  }

  lemma FieldTexts(patch: UserPatch)
    ensures PrintAll(ClausesOf(Fields(patch) + [UpdatedAt])) == SetTexts(patch) + ["updated_at = :updated_at"]
  {
    var a, b := If(patch.displayName.Some?, DisplayName), If(patch.email.Some?, Email);
    var c, d := If(patch.emailVerified.Some?, EmailVerified), If(patch.passwordHash.Some?, HashColumn);
    PrintsConcat(a, b);
    PrintsConcat(a + b, c);
    PrintsConcat(a + b + c, d);
    PrintsIf(patch.displayName.Some?, DisplayName);
    PrintsIf(patch.email.Some?, Email);
    PrintsIf(patch.emailVerified.Some?, EmailVerified);
    PrintsIf(patch.passwordHash.Some?, HashColumn);
    PrintsIf(true, UpdatedAt);
    PrintsConcat(Fields(patch), If(true, UpdatedAt));
  }

  /** The one of an e-mail patch. */
  lemma EmailPatchText(patch: UserPatch)
    requires patch.displayName.None? && patch.email.Some? && patch.emailVerified.None? && patch.passwordHash.None?
    ensures Join(SetTexts(patch) + ["updated_at = :updated_at"]) == "email = :email, updated_at = :updated_at"
  {
    var parts := SetTexts(patch) + ["updated_at = :updated_at"];
    assert parts == ["email = :email", "updated_at = :updated_at"] && parts[1..] == ["updated_at = :updated_at"];
  }

  /** Field by field: what the patch has, or what the row had; the time stamp is set, the creation time stays. */
  predicate IsMerge(row: User, patch: UserPatch, now: int, r: User) {
    && r.name == (if patch.displayName.Some? then patch.displayName.value else row.name)
    && r.email == (if patch.email.Some? then patch.email.value else row.email)
    && r.emailVerified == (if patch.emailVerified.Some? then patch.emailVerified.value else row.emailVerified)
    && r.passwordHash == (if patch.passwordHash.Some? then patch.passwordHash else row.passwordHash)
    && r.createdAt == row.createdAt && r.updatedAt == Some(now)
  }

  lemma PatchedIsMerge(row: User, patch: UserPatch, now: int)
    ensures if patch == NO_PATCH then Patched(row, patch, now) == row
            else IsMerge(row, patch, now, Patched(row, patch, now))
  {
  }

  /**
   Builds the SET list and its arguments. Run against any row, the text does what `Patched` says;
   there is no text exactly when the patch is empty.
   */
  method BuildUpdate(id: Id, patch: UserPatch, now: int) returns (setText: Option<string>, args: map<string, Value>)
    ensures setText.None? <==> patch == NO_PATCH
    ensures setText.Some? ==> setText.value == Join(SetTexts(patch) + ["updated_at = :updated_at"])
    ensures "id" in args && args["id"] == Key(id)
    ensures setText.Some? ==> forall row :: ExecuteText(row, setText.value, args) == Some(Patched(row, patch, now))
    ensures setText.Some? ==>
              forall row :: var r := ExecuteText(row, setText.value, args); r.Some? && IsMerge(row, patch, now, r.value)
  {
    var setClauses: seq<string>;
    ghost var cols: seq<Column>;
    setClauses, args, cols := CollectClauses(id, patch, now);
    if |setClauses| == 0 {
      return None, args;
    }
    FieldTexts(patch);
    setClauses := setClauses + [Print(ClauseOf(UpdatedAt))];
    Stamped(cols, args, patch, now);
    assert setClauses == PrintAll(ClausesOf(cols + [UpdatedAt]));
    setText := Some(Join(setClauses));
    forall row ensures IsMerge(row, patch, now, Patched(row, patch, now)) {
      PatchedIsMerge(row, patch, now);
    }
  }

  /** The `if patch.X != nil` part of the builder. */
  method CollectClauses(id: Id, patch: UserPatch, now: int)
    returns (setClauses: seq<string>, args: map<string, Value>, ghost cols: seq<Column>)
    ensures setClauses == PrintAll(ClausesOf(cols)) && cols == Fields(patch)
    ensures UpdatedAt !in cols && Merges(cols, args, patch)
    ensures setClauses == [] <==> patch == NO_PATCH
    ensures "id" in args && args["id"] == Key(id)
    ensures Name(UpdatedAt) in args && args[Name(UpdatedAt)] == Time(now)
  {
    setClauses, cols := [], [];
    args := map["id" := Key(id), Name(UpdatedAt) := Time(now)];
    ghost var part := NO_PATCH;
    if patch.displayName.Some? {
      setClauses, cols, args, part :=
        AddClause(setClauses, cols, args, DisplayName, Chars(patch.displayName.value), part);
    }
    ghost var named := If(patch.displayName.Some?, DisplayName);
    assert cols == named;
    if patch.email.Some? {
      setClauses, cols, args, part := AddClause(setClauses, cols, args, Email, Chars(patch.email.value), part);
    }
    ghost var addressed := named + If(patch.email.Some?, Email);
    assert cols == addressed;
    if patch.emailVerified.Some? {
      setClauses, cols, args, part :=
        AddClause(setClauses, cols, args, EmailVerified, Flag(patch.emailVerified.value), part);
    }
    ghost var flagged := addressed + If(patch.emailVerified.Some?, EmailVerified);
    assert cols == flagged;
    if patch.passwordHash.Some? {
      setClauses, cols, args, part :=
        AddClause(setClauses, cols, args, HashColumn, Hash(patch.passwordHash.value), part);
    }
    assert part == patch;
  }

  /** Appends `column = :column` and binds the value. */
  method AddClause(setClauses: seq<string>, ghost cols: seq<Column>, args: map<string, Value>, c: Column, v: Value,
                   ghost part: UserPatch)
    returns (setClauses': seq<string>, ghost cols': seq<Column>, args': map<string, Value>, ghost part': UserPatch)
    requires setClauses == PrintAll(ClausesOf(cols)) && Merges(cols, args, part)
    requires c !in cols && Extended(part, c, v).Some?
    ensures cols' == cols + [c] && args' == args[Name(c) := v] && Some(part') == Extended(part, c, v)
    ensures setClauses' == PrintAll(ClausesOf(cols')) && Merges(cols', args', part')
    ensures "id" in args && args["id"].Key? ==> "id" in args' && args'["id"] == args["id"]
    ensures |setClauses'| == |setClauses| + 1
  {
    setClauses', args' := setClauses + [Print(ClauseOf(c))], args[Name(c) := v];
    cols', part' := cols + [c], Extended(part, c, v).value;
    ExtendMerge(cols, args, c, v, part);
  }

  /** The time stamp goes last; its value was bound first. */
  lemma Stamped(cols: seq<Column>, args: map<string, Value>, patch: UserPatch, now: int)
    requires Merges(cols, args, patch) && UpdatedAt !in cols && patch != NO_PATCH
    requires Name(UpdatedAt) in args && args[Name(UpdatedAt)] == Time(now)
    ensures var text := Join(PrintAll(ClausesOf(cols + [UpdatedAt])));
            forall row :: ExecuteText(row, text, args) == Some(Patched(row, patch, now))
  {
    var all := cols + [UpdatedAt];
    ReadBuilt(all);
    forall row ensures ExecuteText(row, Join(PrintAll(ClausesOf(all))), args) == Some(Patched(row, patch, now)) {
      StampedRow(row, cols, args, patch, now);
    }
  }

  lemma ReadBuilt(cols: seq<Column>)
    requires cols != []
    ensures ReadSet(Join(PrintAll(ClausesOf(cols)))) == Some(ClausesOf(cols))
  {
    var clauses := ClausesOf(cols);
    forall i | 0 <= i < |clauses| ensures IsName(clauses[i].column) && IsName(clauses[i].placeholder) {
      NamesAreNames(cols[i]);
    }
    ReadJoined(clauses);
  }

  lemma StampedRow(row: User, cols: seq<Column>, args: map<string, Value>, patch: UserPatch, now: int)
    requires Merges(cols, args, patch) && UpdatedAt !in cols && patch != NO_PATCH
    requires Name(UpdatedAt) in args && args[Name(UpdatedAt)] == Time(now)
    ensures Execute(row, ClausesOf(cols + [UpdatedAt]), args) == Some(Patched(row, patch, now))
  {
    OneMoreClause(row, cols, args, UpdatedAt, Time(now), Merged(row, patch));
    assert args[Name(UpdatedAt) := Time(now)] == args;
  }
}
