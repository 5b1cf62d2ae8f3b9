/** pkg/database/mysql/mysql.go: privilege statements with placeholders, and the proof that
    they ask for what the PostgreSQL statements ask for. */
module Mysql {
  import opened Text
  import opened Sql
  import opened Quoting
  import opened Statements
  import opened Server
  import opened Plans

  datatype Scope = Anywhere | WholeDatabase(database: string) | Table(database: string, table: string)

  /** What a privilege statement with its arguments asks for. */
  datatype Intent = Intent(give: bool, privilege: string, scope: Scope, user: string)

  // ---- reading a statement with placeholders ----

  function Marks(ts: seq<Token>): (n: nat)
    ensures n <= |ts|
  {
    if ts == [] then 0 else (if ts[0] == Symbol('?') then 1 else 0) + Marks(ts[1..])
  }

  /** The part between the privilege and the grantee; `args` are those not yet used. */
  function DecodeScope(ts: seq<Token>, args: seq<string>): Option<Scope> {
    if ts == [] then Some(Anywhere)
    else if |ts| == 4 && IsKeyword(ts[0], "on") && ts[1..3] == [Symbol('?'), Symbol('.')] && args != [] then
      if ts[3] == Symbol('*') then Some(WholeDatabase(args[0]))
      else if ts[3] == Symbol('?') && |args| > 1 then Some(Table(args[0], args[1]))
      else None
    else None
  }

  function DecodeTokens(ts: seq<Token>, args: seq<string>): Option<Intent> {
    var n := |ts|;
    if n < 4 || args == [] || Marks(ts) != |args| || ts[1] != Symbol('?') || ts[n - 1] != Symbol('?') then None
    else
      var give := IsKeyword(ts[0], "grant");
      if (!give && !IsKeyword(ts[0], "revoke")) || !IsKeyword(ts[n - 2], if give then "to" else "from") then None
      else
        match DecodeScope(ts[2..n - 2], args[1..])
        case None => None
        case Some(scope) => Some(Intent(give, args[0], scope, args[|args| - 1]))
  }

  /** The arguments fill the placeholders in order and none is left over. */
  function Decode(query: string, args: seq<string>): Option<Intent> {
    match Lex(query)
    case None => None
    case Some(ts) => DecodeTokens(ts, args)
  }

  // ---- printing one ----

  function ScopeOf(dbname: string, on: string): Scope {
    if dbname == "" then Anywhere else if on != "" then Table(dbname, on) else WholeDatabase(dbname)
  }

  function IntentOf(give: bool, username: string, p: PrivilegeSpec): Intent {
    Intent(give, p.privilege, ScopeOf(p.database, p.on), username)
  }

  function Template(scope: Scope): string {
    match scope
    case Anywhere => ""
    case WholeDatabase(_) => " ON ?.*"
    case Table(_, _) => " ON ?.?"
  }

  function TemplateTokens(scope: Scope): seq<Token> {
    match scope
    case Anywhere => []
    case WholeDatabase(_) => [Word("ON"), Symbol('?'), Symbol('.'), Symbol('*')]
    case Table(_, _) => [Word("ON"), Symbol('?'), Symbol('.'), Symbol('?')]
  }

  function ScopeArgs(scope: Scope): seq<string> {
    match scope
    case Anywhere => []
    case WholeDatabase(d) => [d]
    case Table(d, t) => [d, t]
  }

  function QueryOf(give: bool, scope: Scope): string {
    Verb(give) + " " + "?" + Template(scope) + " " + Preposition(give) + " ?"
  }

  function QueryTokens(give: bool, scope: Scope): seq<Token> {
    [Word(Verb(give)), Symbol('?')] + TemplateTokens(scope) + [Word(Preposition(give)), Symbol('?')]
  }

  lemma LexTemplate(scope: Scope, rest: string)
    requires rest != "" && rest[0] == ' '
    ensures Lex(Template(scope) + rest) == Concat(Some(TemplateTokens(scope)), Lex(rest))
  {
    hide Lex, IsWord;
    Keywords();
    if scope.Anywhere? {
      assert Template(scope) + rest == rest;
      assert Lex(rest).Some? ==> [] + Lex(rest).value == Lex(rest).value;
    } else {
      var last := if scope.Table? then '?' else '*';
      assert Template(scope) + rest == " " + ("ON" + " " + (['?'] + (['.'] + ([last] + rest))));
      LexBlank("ON" + " " + (['?'] + (['.'] + ([last] + rest))));
      LexKeyword("ON", ['?'] + (['.'] + ([last] + rest)));
      LexSymbol('?', ['.'] + ([last] + rest));
      LexSymbol('.', [last] + rest);
      LexSymbol(last, rest);
      if Lex(rest).Some? {
        var ts := Lex(rest).value;
        assert [Word("ON")] + ([Symbol('?')] + ([Symbol('.')] + ([Symbol(last)] + ts))) == TemplateTokens(scope) + ts;
      }
    }
  }

  lemma LexMark()
    ensures Lex("?") == Some([Symbol('?')])
  {
    LexSymbol('?', "");
    assert ['?'] + "" == "?";
    assert Lex("") == Some([]);
    assert [Symbol('?')] + [] == [Symbol('?')];
  }

  lemma LexTail(give: bool)
    ensures Lex(" " + (Preposition(give) + " " + "?")) == Some([Word(Preposition(give)), Symbol('?')])
  {
    hide Lex, IsWord;
    Keywords();
    LexMark();
    LexBlank(Preposition(give) + " " + "?");
    LexKeyword(Preposition(give), "?");
    assert [Word(Preposition(give))] + [Symbol('?')] == [Word(Preposition(give)), Symbol('?')];
  }

  lemma QueryText(give: bool, scope: Scope)
    ensures QueryOf(give, scope) ==
            Verb(give) + " " + (['?'] + (Template(scope) + (" " + (Preposition(give) + " " + "?"))))
  {
    hide Template, Verb, Preposition;
    assert " ?" == " " + "?";
  }

  lemma LexQuery(give: bool, scope: Scope)
    ensures Lex(QueryOf(give, scope)) == Some(QueryTokens(give, scope))
  {
    var tail := " " + (Preposition(give) + " " + "?");
    hide Lex, IsWord, Template, TemplateTokens, QueryOf;
    Keywords();
    QueryText(give, scope);
    LexTail(give);
    LexTemplate(scope, tail);
    LexSymbol('?', Template(scope) + tail);
    LexKeyword(Verb(give), ['?'] + (Template(scope) + tail));
    var ts := TemplateTokens(scope);
    assert [Word(Verb(give))] + ([Symbol('?')] + (ts + [Word(Preposition(give)), Symbol('?')])) ==
        QueryTokens(give, scope);
  }

  lemma {:induction false} MarksConcat(a: seq<Token>, b: seq<Token>)
    ensures Marks(a + b) == Marks(a) + Marks(b)
  {
    if a == [] {
      assert a + b == b;
    } else {
      assert (a + b)[1..] == a[1..] + b;
      MarksConcat(a[1..], b);
    }
  }

  lemma MarksOf(scope: Scope)
    ensures Marks(TemplateTokens(scope)) == |ScopeArgs(scope)|
    ensures forall w :: Marks([Word(w), Symbol('?')]) == 1
  {
    if !scope.Anywhere? {
      var last := Symbol(if scope.Table? then '?' else '*');
      assert TemplateTokens(scope) == [Word("ON")] + ([Symbol('?')] + ([Symbol('.')] + [last]));
      MarksConcat([Word("ON")], [Symbol('?')] + ([Symbol('.')] + [last]));
      MarksConcat([Symbol('?')], [Symbol('.')] + [last]);
      MarksConcat([Symbol('.')], [last]);
    }
  }

  /** A printed statement, its placeholders filled in order, is read as what was asked for,
      whatever the texts: they are arguments, not part of the statement. */
  lemma QueryRoundTrip(give: bool, privilege: string, scope: Scope, user: string)
    ensures Decode(QueryOf(give, scope), [privilege] + ScopeArgs(scope) + [user]) ==
            Some(Intent(give, privilege, scope, user))
  {
    hide Lex, QueryOf, IsKeyword, Marks;
    LexQuery(give, scope);
    StatementKeywords();
    ChangeKeywords();
    MarksOf(scope);
    var head, middle, tail :=
        [Word(Verb(give)), Symbol('?')], TemplateTokens(scope), [Word(Preposition(give)), Symbol('?')];
    MarksConcat(head + middle, tail);
    MarksConcat(head, middle);
    var args := [privilege] + ScopeArgs(scope) + [user];
    assert QueryTokens(give, scope)[2..|QueryTokens(give, scope)| - 2] == middle;
    assert args[1..] == ScopeArgs(scope) + [user];
  }

  // ---- the loop ----

  /** The statements of a loop over `n` entries up to the first error: `results` are their answers. */
  predicate StoppedAtFirstError(results: seq<Error>, n: nat) {
    && |results| <= n
    && (forall k :: 0 <= k < |results| - 1 ==> results[k] == NoError)
    && (|results| < n ==> results != [] && results[|results| - 1] != NoError)
  }

  function Outcome(results: seq<Error>): Error {
    if results == [] then NoError else results[|results| - 1]
  }

  /** A connection to MySQL: what was sent and how it was answered. */
  class Connection {
    var sent: seq<(string, seq<string>)>
    var answers: seq<Error>

    constructor ()
      ensures sent == [] && answers == []
    {
      sent, answers := [], [];
    }

    method Exec(query: string, args: seq<string>) returns (err: Error)
      modifies this
      ensures sent == old(sent) + [(query, args)] && answers == old(answers) + [err]
    {
      err := *;
      sent, answers := sent + [(query, args)], answers + [err];
    }
  }

  class Mysql {
    const db: Connection

    constructor (db: Connection)
      ensures this.db == db
    {
      this.db := db;
    }

    /** The builder and its arguments, grown step by step. */
    static method PrepareStatement(statement: string, arg: string, username: string, dbname: string, on: string,
                                   privilege: string, ghost give: bool)
      returns (query: string, args: seq<string>)
      requires statement == Verb(give) && arg == Preposition(give)
      ensures Decode(query, args) == Some(Intent(give, privilege, ScopeOf(dbname, on), username))
    {
      hide Decode;
      query := statement;
      query := query + " ";
      query := query + "?";
      args := [privilege];
      if on != "" && dbname != "" {
        query := query + " ON ";
        query := query + "?.?";
        args := args + [dbname, on];
      } else if dbname != "" {
        query := query + " ON ";
        query := query + "?.*";
        args := args + [dbname];
      }
      ghost var scope := ScopeOf(dbname, on);
      assert query == Verb(give) + " " + "?" + Template(scope) && args == [privilege] + ScopeArgs(scope);
      query := query + " ";
      query := query + arg;
      query := query + " ?";
      args := args + [username];
      QueryRoundTrip(give, privilege, scope, username);
    }

    /** What was sent asks, in order, for the entries up to the first that failed. */
    method PrivilegesProcessor(username: string, privileges: seq<PrivilegeSpec>, statement: string, arg: string,
                               ghost give: bool)
      returns (err: Error)
      requires statement == Verb(give) && arg == Preposition(give)
      requires |db.sent| == |db.answers|
      modifies db
      ensures old(db.sent) <= db.sent && old(db.answers) <= db.answers && |db.sent| == |db.answers|
      ensures StoppedAtFirstError(db.answers[|old(db.answers)|..], |privileges|) &&
              err == Outcome(db.answers[|old(db.answers)|..])
      ensures forall k :: |old(db.sent)| <= k < |db.sent| ==>
                Decode(db.sent[k].0, db.sent[k].1) == Some(IntentOf(give, username, privileges[k - |old(db.sent)|]))
    {
      hide Decode;
      for i := 0 to |privileges|
        invariant old(db.sent) <= db.sent && old(db.answers) <= db.answers
        invariant |db.sent| == |db.answers| == |old(db.sent)| + i
        invariant forall k :: |old(db.answers)| <= k < |db.answers| ==> db.answers[k] == NoError
        invariant forall k :: |old(db.sent)| <= k < |db.sent| ==>
                    Decode(db.sent[k].0, db.sent[k].1) == Some(IntentOf(give, username, privileges[k - |old(db.sent)|]))
      {
        var p := privileges[i];
        var query, args := PrepareStatement(statement, arg, username, p.database, p.on, p.privilege, give);
        err := db.Exec(query, args);
        if err != NoError { return; }
      }
      err := NoError;
    }

    method ApplyPrivileges(username: string, privileges: seq<PrivilegeSpec>) returns (err: Error)
      requires |db.sent| == |db.answers|
      modifies db
      ensures old(db.sent) <= db.sent && old(db.answers) <= db.answers && |db.sent| == |db.answers|
      ensures StoppedAtFirstError(db.answers[|old(db.answers)|..], |privileges|) &&
              err == Outcome(db.answers[|old(db.answers)|..])
      ensures forall k :: |old(db.sent)| <= k < |db.sent| ==>
                Decode(db.sent[k].0, db.sent[k].1) == Some(IntentOf(true, username, privileges[k - |old(db.sent)|]))
    {
      err := PrivilegesProcessor(username, privileges, "GRANT", "TO", true);
    }

    method RevokePrivileges(username: string, privileges: seq<PrivilegeSpec>) returns (err: Error)
      requires |db.sent| == |db.answers|
      modifies db
      ensures old(db.sent) <= db.sent && old(db.answers) <= db.answers && |db.sent| == |db.answers|
      ensures StoppedAtFirstError(db.answers[|old(db.answers)|..], |privileges|) &&
              err == Outcome(db.answers[|old(db.answers)|..])
      ensures forall k :: |old(db.sent)| <= k < |db.sent| ==>
                Decode(db.sent[k].0, db.sent[k].1) == Some(IntentOf(false, username, privileges[k - |old(db.sent)|]))
    {
      err := PrivilegesProcessor(username, privileges, "REVOKE", "FROM", false);
    }
  }

  // ---- agreement with the PostgreSQL adapter ----

  /** The same request in the words of the PostgreSQL server. */
  function InPostgres(i: Intent): Statement
    requires Lex(i.privilege).Some?
  {
    var target :=
      match i.scope
      case Anywhere => Membership
      case WholeDatabase(d) => OnDatabase(Path(d))
      case Table(_, t) => OnObject(Path(t));
    Change(i.give, Lex(i.privilege).value, target, Strip(i.user))
  }

  /** For every list of legible privileges: the two adapters ask for the same things in the
      same order, entry by entry, a table through a connection to its database. The
      PostgreSQL form exists exactly when the user name is one identifier and the privilege
      is not blank; an empty privilege is not sent at all, where MySQL gets a statement. */
  lemma AdaptersAgree(dbname: string, username: string, give: bool, ps: seq<PrivilegeSpec>, k: nat)
    requires k < |ps| && Legible(ps[k].privilege)
    ensures var i := IntentOf(give, username, ps[k]);
            var op := PrivilegeOps(dbname, username, give, ps)[k];
            && ParseOp(op) == (if Nameable(username) && Lex(i.privilege).value != [] then Some(InPostgres(i)) else None)
            && (op.Invalid? <==> i.privilege == "")
            && (op.Send? ==> op.database == if i.scope.Table? then i.scope.database else dbname)
  {
    var p := ps[k];
    assert Lex("") == Some([]);
    hide Parse, Statements.PrepareStatement, Legible, Nameable, Path, Lex;
    ChangeRoundTrip(give, username, p.database, p.on, p.privilege);
    ChangeRoundTrip(give, username, p.database, "", p.privilege);
    ChangeRoundTrip(give, username, "", "", p.privilege);
  }

  /** The answers of the PostgreSQL loop. */
  function LoopAnswers(srv: Server, ops: seq<Op>): seq<Error>
    decreases |ops|
  {
    if ops == [] then []
    else
      var (s, err) := Perform(srv, ops[0]);
      [err] + if err != NoError then [] else LoopAnswers(s, ops[1..])
  }

  /** It stops where the MySQL loop would, and reports the same. */
  lemma {:induction false} LoopStopsAtFirstError(srv: Server, ops: seq<Op>)
    ensures StoppedAtFirstError(LoopAnswers(srv, ops), |ops|)
    ensures Loop(srv, ops).1 == Outcome(LoopAnswers(srv, ops))
    decreases |ops|
  {
    hide Perform;
    if ops != [] {
      LoopStopsAtFirstError(Perform(srv, ops[0]).0, ops[1..]);
    }
  }
}
