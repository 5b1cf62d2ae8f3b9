/** pkg/database/postgresql/postgresql.go: the statement printers, and the proof that
    the server reads back exactly what was meant. */
module Statements {
  import opened Text
  import opened Sql
  import opened Quoting

  /** One entry of a Privileges resource (api/v1alpha1/privileges_types.go). */
  datatype PrivilegeSpec = PrivilegeSpec(privilege: string, on: string, database: string)
  {
    /** An entry with a database and an object is executed on a connection of its own. */
    predicate InDatabase() {
      database != "" && on != "" && privilege != ""
    }
  }

  datatype LogInfo = EnableLogger | DisableLogger

  function CreateUserQuery(username: string, password: string): (r: (string, LogInfo))
    ensures r.1 == DisableLogger <==> password != ""
  {
    if password != "" then
      ("CREATE USER " + EscapedLiteral(username) + " WITH PASSWORD " + EscapeString(password), DisableLogger)
    else ("CREATE USER " + EscapedLiteral(username), EnableLogger)
  }

  function DeleteUserQuery(username: string): string {
    "DROP USER " + EscapedLiteral(username)
  }

  function OnClause(dbname: string, on: string): string {
    if on != "" then " ON " + EscapedLiteral(on)
    else if dbname != "" then " ON DATABASE " + EscapedLiteral(dbname)
    else ""
  }

  function PrepareStatement(statement: string, arg: string, username: string, dbname: string, on: string,
                            privilege: string): string
  {
    statement + " " + Cleaned(privilege) + OnClause(dbname, on) + " " + arg + " " + EscapedLiteral(username)
  }

  function Verb(give: bool): string {
    if give then "GRANT" else "REVOKE"
  }

  function Preposition(give: bool): string {
    if give then "TO" else "FROM"
  }

  // ---- CREATE USER and DROP USER ----

  /** A user name that is one identifier for the server: no dot, and not a lone `*`. */
  predicate Nameable(username: string) {
    '.' !in username && Strip(username) != "*"
  }

  lemma NameablePath(username: string)
    ensures Nameable(username) <==> |Path(username)| == 1 && Path(username)[0].Name?
    ensures Nameable(username) ==> Path(username) == [Name(Strip(username))]
  {
    SplitWhole(username, '.');
  }

  lemma {:induction false} PathTokensShape(path: seq<Segment>)
    requires path != []
    ensures |PathTokens(path)| == 2 * |path| - 1
    ensures PathTokens(path)[0] == SegmentToken(path[0])
    ensures |path| > 1 ==> PathTokens(path)[1] == Symbol('.')
  {
    if |path| > 1 { PathTokensShape(path[1..]); }
  }

  lemma LexLiteralAlone(s: string)
    ensures Lex(EscapedLiteral(s)) == Some(PathTokens(Path(s)))
  {
    LexLiteral(s, "");
    assert EscapedLiteral(s) + "" == EscapedLiteral(s);
    assert PathTokens(Path(s)) + [] == PathTokens(Path(s));
  }

  lemma LexTwoKeywords(a: string, b: string, rest: string)
    requires IsWord(a) && IsWord(b)
    ensures Lex(a + " " + (b + " " + rest)) == Prepend(Word(a), Prepend(Word(b), Lex(rest)))
  {
    hide Lex, IsWord;
    LexKeyword(b, rest);
    LexKeyword(a, b + " " + rest);
  }

  lemma PrependTwo(a: Token, b: Token, ts: seq<Token>)
    ensures Prepend(a, Prepend(b, Some(ts))) == Some([a, b] + ts)
  {
    assert [a] + ([b] + ts) == [a, b] + ts;
  }

  lemma LexPassword(password: string)
    ensures Lex(" " + ("WITH" + " " + ("PASSWORD" + " " + EscapeString(password)))) ==
            Some([Word("WITH"), Word("PASSWORD")] + [Constant(password)])
  {
    hide Lex, IsWord;
    Keywords();
    var c := EscapeString(password);
    LexBlank("WITH" + " " + ("PASSWORD" + " " + c));
    LexTwoKeywords("WITH", "PASSWORD", c);
    assert Lex(c) == Some([Constant(password)]) by { LexPasswordConstant(password); }
    PrependTwo(Word("WITH"), Word("PASSWORD"), [Constant(password)]);
  }

  lemma LexPasswordConstant(password: string)
    ensures Lex(EscapeString(password)) == Some([Constant(password)])
  {
    LexConstant(password, "");
    assert "'" + ReplaceAll(password, '\'', "''") + "'" + "" == EscapeString(password);
    assert Lex("") == Some([]) && [Constant(password)] + [] == [Constant(password)];
  }

  function PasswordTokens(password: string): seq<Token> {
    if password != "" then [Word("WITH"), Word("PASSWORD")] + [Constant(password)] else []
  }

  lemma LexNameAndPassword(username: string, password: string)
    ensures Lex(EscapedLiteral(username) +
                if password != "" then " " + ("WITH" + " " + ("PASSWORD" + " " + EscapeString(password))) else "")
         == Some(PathTokens(Path(username)) + PasswordTokens(password))
  {
    hide Lex, EscapedLiteral, Path, PathTokens, EscapeString;
    if password != "" {
      LexPassword(password);
      LexLiteral(username, " " + ("WITH" + " " + ("PASSWORD" + " " + EscapeString(password))));
    } else {
      LexLiteralAlone(username);
      assert EscapedLiteral(username) + "" == EscapedLiteral(username);
      assert PathTokens(Path(username)) + [] == PathTokens(Path(username));
    }
  }

  lemma LexCreateUser(username: string, password: string)
    ensures Lex(CreateUserQuery(username, password).0) ==
            Some([Word("CREATE"), Word("USER")] + (PathTokens(Path(username)) + PasswordTokens(password)))
  {
    hide Lex, EscapedLiteral, Path, PathTokens, EscapeString, PasswordTokens, IsWord;
    Keywords();
    var clause := if password != "" then " " + ("WITH" + " " + ("PASSWORD" + " " + EscapeString(password))) else "";
    var rest := EscapedLiteral(username) + clause;
    LexNameAndPassword(username, password);
    LexTwoKeywords("CREATE", "USER", rest);
    PrependTwo(Word("CREATE"), Word("USER"), PathTokens(Path(username)) + PasswordTokens(password));
    assert CreateUserQuery(username, password).0 == "CREATE" + " " + ("USER" + " " + rest) by {
      CreateUserText(username, password);
    }
  }

  lemma CreateUserText(username: string, password: string)
    ensures CreateUserQuery(username, password).0 == "CREATE" + " " + ("USER" + " " + (EscapedLiteral(username) +
              if password != "" then " " + ("WITH" + " " + ("PASSWORD" + " " + EscapeString(password))) else ""))
  {
    hide EscapedLiteral, EscapeString;
  }

  lemma ParseCreateTokens(path: seq<Segment>, password: string)
    requires path != []
    ensures ParseCreate(PathTokens(path) + PasswordTokens(password)) ==
            if |path| == 1 && path[0].Name?
            then Some(CreateUser(path[0].text, if password != "" then Some(password) else None))
            else None
  {
    hide PathTokens, IsKeyword, ParseCreate, PasswordTokens;
    PathTokensShape(path);
    var ts := PathTokens(path) + PasswordTokens(password);
    assert ts[0] == SegmentToken(path[0]);
    if |path| > 1 {
      assert ts[1] == Symbol('.');
      DottedCreate(ts);
    } else {
      assert ts == [SegmentToken(path[0])] + PasswordTokens(password);
      OneNameCreate(path[0], password);
    }
  }

  lemma DottedCreate(ts: seq<Token>)
    requires |ts| > 1 && ts[1] == Symbol('.')
    ensures ParseCreate(ts) == None
  {
    hide IsKeyword;
    SymbolIsNoKeyword('.', "with");
  }

  lemma OneNameCreate(g: Segment, password: string)
    ensures ParseCreate([SegmentToken(g)] + PasswordTokens(password)) ==
            if g.Name? then Some(CreateUser(g.text, if password != "" then Some(password) else None)) else None
  {
    hide IsKeyword;
    StatementKeywords();
  }

  lemma SymbolIsNoKeyword(c: char, k: string)
    ensures !IsKeyword(Symbol(c), k)
  {
  }

  /** CREATE USER round trip: one identifier, at most one string constant, nothing left
      over; and a name the server cannot take as one identifier is never accepted. */
  lemma CreateUserRoundTrip(username: string, password: string)
    ensures Parse(CreateUserQuery(username, password).0) ==
            if Nameable(username)
            then Some(CreateUser(Strip(username), if password != "" then Some(password) else None))
            else None
  {
    hide Lex, Path, PathTokens, PasswordTokens, IsKeyword, Nameable, ParseCreate, CreateUserQuery;
    LexCreateUser(username, password);
    NameablePath(username);
    StatementKeywords();
    ParseCreateTokens(Path(username), password);
    var ts := PathTokens(Path(username)) + PasswordTokens(password);
    assert ([Word("CREATE"), Word("USER")] + ts)[2..] == ts;
  }

  lemma LexDropUser(username: string)
    ensures Lex(DeleteUserQuery(username)) == Some([Word("DROP"), Word("USER")] + PathTokens(Path(username)))
  {
    hide Lex, EscapedLiteral, Path, PathTokens, IsWord;
    Keywords();
    LexLiteralAlone(username);
    LexTwoKeywords("DROP", "USER", EscapedLiteral(username));
    PrependTwo(Word("DROP"), Word("USER"), PathTokens(Path(username)));
    assert DeleteUserQuery(username) == "DROP" + " " + ("USER" + " " + EscapedLiteral(username));
  }

  /** DROP USER round trip: the same identifier as CREATE USER, under the same condition. */
  lemma DropUserRoundTrip(username: string)
    ensures Parse(DeleteUserQuery(username)) == if Nameable(username) then Some(DropUser(Strip(username))) else None
  {
    hide Lex, Path, PathTokens, IsKeyword, Nameable, DeleteUserQuery;
    LexDropUser(username);
    NameablePath(username);
    StatementKeywords();
    PathTokensShape(Path(username));
    assert ([Word("DROP"), Word("USER")] + PathTokens(Path(username)))[2..] == PathTokens(Path(username));
  }

  // ---- GRANT and REVOKE ----

  /** Words of clauses that the reader does not take apart: GRANT OPTION FOR, ALTER SYSTEM
      and the RULE of old. */
  predicate OtherClause(t: Token) {
    IsKeyword(t, "option") || IsKeyword(t, "system") || IsKeyword(t, "rule")
  }

  /** Privilege text made of words, blanks, commas and parentheses, without the words ON,
      TO and FROM and without those clauses; possibly empty. */
  predicate Legible(p: string) {
    Bare(p) && Lex(p).Some? && forall t :: t in Lex(p).value ==> !Reserved(t) && !OtherClause(t)
  }

  predicate PlainPrivilege(p: string) {
    Legible(p) && Lex(p).value != []
  }

  lemma LegiblePlain(p: string)
    requires PlainPrivilege(p)
    ensures Legible(p)
  {
  }

  function TargetOf(dbname: string, on: string): Target {
    if on != "" then OnObject(Path(on)) else if dbname != "" then OnDatabase(Path(dbname)) else Membership
  }

  function OnTokens(target: Target): seq<Token> {
    match target
    case Membership => []
    case OnDatabase(path) => [Word("ON"), Word("DATABASE")] + PathTokens(path)
    case OnObject(path) => [Word("ON")] + PathTokens(path)
  }

  function GranteeTokens(give: bool, username: string): seq<Token> {
    [Word(Preposition(give))] + PathTokens(Path(username))
  }

  lemma LexGrantee(give: bool, username: string)
    ensures Lex(" " + (Preposition(give) + " " + EscapedLiteral(username))) == Some(GranteeTokens(give, username))
  {
    hide Lex, EscapedLiteral, Path, PathTokens, IsWord;
    Keywords();
    LexLiteralAlone(username);
    LexKeyword(Preposition(give), EscapedLiteral(username));
    LexBlank(Preposition(give) + " " + EscapedLiteral(username));
  }

  lemma LexOnClause(dbname: string, on: string, rest: string)
    requires rest != "" && rest[0] == ' '
    ensures Lex(OnClause(dbname, on) + rest) == Concat(Some(OnTokens(TargetOf(dbname, on))), Lex(rest))
  {
    hide Lex, EscapedLiteral, Path, PathTokens, IsWord;
    Keywords();
    if on != "" {
      var tail := EscapedLiteral(on) + rest;
      LexLiteral(on, rest);
      LexKeyword("ON", tail);
      LexBlank("ON" + " " + tail);
      assert OnClause(dbname, on) + rest == " " + ("ON" + " " + tail);
      PrependConcat(Word("ON"), Some(PathTokens(Path(on))), Lex(rest));
    } else if dbname != "" {
      LexOnDatabase(dbname, rest);
    } else {
      assert OnClause(dbname, on) + rest == rest;
      assert Lex(rest).Some? ==> [] + Lex(rest).value == Lex(rest).value;
    }
  }

  lemma LexOnDatabase(dbname: string, rest: string)
    requires dbname != "" && rest != "" && rest[0] == ' '
    ensures Lex(OnClause(dbname, "") + rest) == Concat(Some(OnTokens(OnDatabase(Path(dbname)))), Lex(rest))
  {
    hide Lex, EscapedLiteral, Path, PathTokens, IsWord, Concat, Prepend;
    Keywords();
    var tail := EscapedLiteral(dbname) + rest;
    LexLiteral(dbname, rest);
    LexTwoKeywords("ON", "DATABASE", tail);
    LexBlank("ON" + " " + ("DATABASE" + " " + tail));
    assert OnClause(dbname, "") + rest == " " + ("ON" + " " + ("DATABASE" + " " + tail));
    ConcatTwo(Word("ON"), Word("DATABASE"), PathTokens(Path(dbname)), Lex(rest));
  }

  lemma ChangeText(give: bool, username: string, dbname: string, on: string, privilege: string)
    ensures PrepareStatement(Verb(give), Preposition(give), username, dbname, on, privilege) ==
            Verb(give) + " " + (Cleaned(privilege) +
              (OnClause(dbname, on) + (" " + (Preposition(give) + " " + EscapedLiteral(username)))))
  {
    hide EscapedLiteral, Cleaned, OnClause;
  }

  /** What the server sees of a printed GRANT or REVOKE with plain privilege words. */
  lemma LexChange(give: bool, username: string, dbname: string, on: string, privilege: string)
    requires Legible(privilege)
    ensures Lex(PrepareStatement(Verb(give), Preposition(give), username, dbname, on, privilege)) ==
            var ts := OnTokens(TargetOf(dbname, on)) + GranteeTokens(give, username);
            Some([Word(Verb(give))] + (Lex(privilege).value + ts))
  {
    var grantee := " " + (Preposition(give) + " " + EscapedLiteral(username));
    var clause := OnClause(dbname, on) + grantee;
    assert clause[0] == ' ';
    hide Lex, EscapedLiteral, OnClause, OnTokens, GranteeTokens, TargetOf, IsWord, Cleaned, PrepareStatement;
    Keywords();
    CleanedBare(privilege);
    ChangeText(give, username, dbname, on, privilege);
    LexGrantee(give, username);
    LexOnClause(dbname, on, grantee);
    LexBare(privilege, clause);
    LexKeyword(Verb(give), privilege + clause);
  }

  lemma ParseGranteeTokens(give: bool, username: string)
    ensures ParseGrantee(give, GranteeTokens(give, username)) ==
            if Nameable(username) then Some(Strip(username)) else None
  {
    hide Path, PathTokens, Nameable, IsKeyword;
    ChangeKeywords();
    NameablePath(username);
    PathTokensShape(Path(username));
  }

  lemma GranteeShape(give: bool, username: string)
    ensures var g := GranteeTokens(give, username);
            |g| >= 2 && Reserved(g[0]) && !IsKeyword(g[0], "on") && g[0] != Symbol('.')
  {
    hide Path, PathTokens, IsKeyword;
    ChangeKeywords();
    PathTokensShape(Path(username));
  }

  /** Plain privilege words end where the reserved word begins. */
  lemma ParseAfterPrivilege(give: bool, privilege: seq<Token>, after: seq<Token>)
    requires forall t :: t in privilege ==> !Reserved(t)
    requires after != [] && Reserved(after[0])
    ensures ParseChange(give, privilege + after) ==
            if privilege == [] then None
            else if IsKeyword(after[0], "on") then
              var wholeDatabase := |after| > 1 && IsKeyword(after[1], "database");
              match ParsePath(if wholeDatabase then after[2..] else after[1..])
              case None => None
              case Some((path, rest)) =>
                FinishChange(give, privilege, if wholeDatabase then OnDatabase(path) else OnObject(path), rest)
            else FinishChange(give, privilege, Membership, after)
  {
    hide IsKeyword, ParsePath, FinishChange;
    PrivilegeEndAt(privilege, after);
    var ts := privilege + after;
    assert ts[..|privilege|] == privilege && ts[|privilege|..] == after;
  }

  lemma ParseOnTokens(give: bool, privilege: seq<Token>, target: Target, username: string)
    requires forall t :: t in privilege ==> !Reserved(t)
    requires !target.Membership? ==> target.path != []
    ensures ParseChange(give, privilege + (OnTokens(target) + GranteeTokens(give, username))) ==
            if Nameable(username) && privilege != [] then Some(Change(give, privilege, target, Strip(username)))
                else None
  {
    hide Path, PathTokens, Nameable, IsKeyword, GranteeTokens, ParseGrantee, ParsePath, ParseChange;
    var grantee := GranteeTokens(give, username);
    var after := OnTokens(target) + grantee;
    ChangeKeywords();
    ParseGranteeTokens(give, username);
    GranteeShape(give, username);
    assert Reserved(after[0]);
    ParseAfterPrivilege(give, privilege, after);
    hide Reserved;
    match target
    case Membership =>
      assert after == grantee;
    case OnDatabase(path) =>
      assert after[2..] == PathTokens(path) + grantee;
      ParsePathTokens(path, grantee);
    case OnObject(path) =>
      assert after[1..] == PathTokens(path) + grantee;
      ParsePathTokens(path, grantee);
      PathTokensShape(path);
      assert after[1] == SegmentToken(path[0]);
      assert !IsKeyword(after[1], "database") by { SegmentIsNoKeyword(path[0], "database"); }
  }

  lemma SegmentIsNoKeyword(g: Segment, k: string)
    ensures !IsKeyword(SegmentToken(g), k)
  {
  }

  /** Statement round trip: verb, privilege words, kind of target, target path and
      grantee all come back; a table is never read as `ON DATABASE`, whatever its name. Blank
      privilege text is rejected. */
  lemma ChangeRoundTrip(give: bool, username: string, dbname: string, on: string, privilege: string)
    requires Legible(privilege)
    ensures Parse(PrepareStatement(Verb(give), Preposition(give), username, dbname, on, privilege)) ==
            if Nameable(username) && Lex(privilege).value != []
            then Some(Change(give, Lex(privilege).value, TargetOf(dbname, on), Strip(username)))
            else None
  {
    assert !TargetOf(dbname, on).Membership? ==> TargetOf(dbname, on).path != [];
    hide Lex, Path, IsKeyword, Nameable, ParseChange, PrepareStatement, OnTokens, GranteeTokens, TargetOf, Bare;
    LexChange(give, username, dbname, on, privilege);
    StatementKeywords();
    ParseOnTokens(give, Lex(privilege).value, TargetOf(dbname, on), username);
    var ts := Lex(privilege).value + (OnTokens(TargetOf(dbname, on)) + GranteeTokens(give, username));
    assert ([Word(Verb(give))] + ts)[1..] == ts;
  }

  /** Whatever the privilege text, a printed GRANT is read as a GRANT or rejected, and a
      printed REVOKE as a REVOKE or rejected. */
  lemma ChangeStaysChange(give: bool, username: string, dbname: string, on: string, privilege: string)
    ensures var r := Parse(PrepareStatement(Verb(give), Preposition(give), username, dbname, on, privilege));
            r.Some? ==> r.value.Change? && r.value.give == give
  {
    hide Lex, IsKeyword, IsWord, EscapedLiteral, Cleaned, OnClause, PrepareStatement, ParsePath, PrivilegeEnd;
    Keywords();
    StatementKeywords();
    var clauses := OnClause(dbname, on) + (" " + (Preposition(give) + " " + EscapedLiteral(username)));
    var rest := Cleaned(privilege) + clauses;
    ChangeText(give, username, dbname, on, privilege);
    LexKeyword(Verb(give), rest);
    if Lex(rest).Some? {
      assert ([Word(Verb(give))] + Lex(rest).value)[1..] == Lex(rest).value;
    }
  }
}
