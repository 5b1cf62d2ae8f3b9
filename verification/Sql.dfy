/** A reader for the statements the PostgreSQL adapter prints: the lexical rules
    of sections 4.1.1 and 4.1.2.1 of the PostgreSQL manual for that fragment, and
    the grammar of CREATE USER, DROP USER, GRANT and REVOKE. It is written from the
    server's side and never mentions the printers. */
module Sql {
  import opened Text

  /** Bare word (a key word or an unquoted name), delimited identifier, string
      constant, or a one-character symbol. */
  datatype Token = Word(text: string) | Quoted(name: string) | Constant(value: string) | Symbol(c: char)

  predicate IsWordChar(c: char) {
    'a' <= c <= 'z' || 'A' <= c <= 'Z' || '0' <= c <= '9' || c == '_' || c as int >= 128
  }

  predicate IsSymbol(c: char) {
    c == '.' || c == '*' || c == ',' || c == '(' || c == ')' || c == '?'
  }

  /** Length of the longest word at the front of `s`. */
  function WordEnd(s: string): (n: nat)
    ensures n <= |s|
    ensures forall i :: 0 <= i < n ==> IsWordChar(s[i])
    ensures n < |s| ==> !IsWordChar(s[n])
  {
    if s == "" || !IsWordChar(s[0]) then 0 else 1 + WordEnd(s[1..])
  }

  /** Reads up to the closing quote `q`, undoing doubled quotes: the body and what follows. */
  function ScanQuoted(s: string, q: char): (r: Option<(string, string)>)
    ensures r.Some? ==> |r.value.1| < |s|
  {
    if s == "" then None
    else if s[0] == q && (|s| == 1 || s[1] != q) then Some(("", s[1..]))
    else
      match ScanQuoted(if s[0] == q then s[2..] else s[1..], q)
      case None => None
      case Some((body, rest)) => Some(([s[0]] + body, rest))
  }

  function Prepend(t: Token, ts: Option<seq<Token>>): Option<seq<Token>> {
    match ts
    case None => None
    case Some(rest) => Some([t] + rest)
  }

  /** The token sequence of `s`, or None when a quote is left open or a character is
      outside the fragment. */
  function Lex(s: string): Option<seq<Token>>
    decreases |s|
  {
    if s == "" then Some([])
    else if s[0] == ' ' then Lex(s[1..])
    else if s[0] == '"' then
      match ScanQuoted(s[1..], '"')
      case None => None
      case Some((body, rest)) => Prepend(Quoted(body), Lex(rest))
    else if s[0] == '\'' then
      match ScanQuoted(s[1..], '\'')
      case None => None
      case Some((body, rest)) => Prepend(Constant(body), Lex(rest))
    else if IsWordChar(s[0]) then Prepend(Word(s[..WordEnd(s)]), Lex(s[WordEnd(s)..]))
    else if IsSymbol(s[0]) then Prepend(Symbol(s[0]), Lex(s[1..]))
    else None
  }

  /** ASCII case folding: how the server reads unquoted names and key words. */
  function Lower(c: char): char {
    if 'A' <= c <= 'Z' then (c as int + 32) as char else c
  }

  function Fold(w: string): string {
    seq(|w|, i requires 0 <= i < |w| => Lower(w[i]))
  }

  predicate IsKeyword(t: Token, k: string) {
    t.Word? && |t.text| == |k| && forall i :: 0 <= i < |k| ==> Lower(t.text[i]) == k[i]
  }

  /** Words that end the privilege part of GRANT and REVOKE. */
  predicate Reserved(t: Token) {
    IsKeyword(t, "on") || IsKeyword(t, "to") || IsKeyword(t, "from")
  }

  datatype Segment = Name(text: string) | Wildcard

  datatype Target = Membership | OnDatabase(path: seq<Segment>) | OnObject(path: seq<Segment>)

  datatype Statement =
    | CreateUser(role: string, password: Option<string>)
    | DropUser(role: string)
    | Change(give: bool, privilege: seq<Token>, target: Target, role: string)

  function ParseSegment(t: Token): Option<Segment> {
    match t
    case Quoted(n) => Some(Name(n))
    case Symbol(c) => if c == '*' then Some(Wildcard) else None
    case _ => None
  }

  /** A dot-separated path at the front of `ts`, and the tokens after it. */
  function ParsePath(ts: seq<Token>): Option<(seq<Segment>, seq<Token>)> {
    if ts == [] then None
    else
      match ParseSegment(ts[0])
      case None => None
      case Some(g) =>
        if |ts| > 1 && ts[1] == Symbol('.') then
          match ParsePath(ts[2..])
          case None => None
          case Some((gs, rest)) => Some(([g] + gs, rest))
        else Some(([g], ts[1..]))
  }

  function PrivilegeEnd(ts: seq<Token>): (n: nat)
    ensures n <= |ts|
  {
    if ts == [] || Reserved(ts[0]) then 0 else 1 + PrivilegeEnd(ts[1..])
  }

  /** `TO role` or `FROM role`, and nothing after it. */
  function ParseGrantee(give: bool, ts: seq<Token>): Option<string> {
    if |ts| == 2 && IsKeyword(ts[0], if give then "to" else "from") && ts[1].Quoted?
    then Some(ts[1].name) else None
  }

  function FinishChange(give: bool, privilege: seq<Token>, target: Target, ts: seq<Token>): Option<Statement> {
    match ParseGrantee(give, ts)
    case None => None
    case Some(role) => Some(Change(give, privilege, target, role))
  }

  /** What follows GRANT or REVOKE. */
  function ParseChange(give: bool, ts: seq<Token>): Option<Statement> {
    var n := PrivilegeEnd(ts);
    var after := ts[n..];
    if n == 0 || after == [] then None
    else if IsKeyword(after[0], "on") then
      var wholeDatabase := |after| > 1 && IsKeyword(after[1], "database");
      match ParsePath(if wholeDatabase then after[2..] else after[1..])
      case None => None
      case Some((path, rest)) =>
        FinishChange(give, ts[..n], if wholeDatabase then OnDatabase(path) else OnObject(path), rest)
    else FinishChange(give, ts[..n], Membership, after)
  }

  function ParseCreate(ts: seq<Token>): Option<Statement> {
    if |ts| == 1 && ts[0].Quoted? then Some(CreateUser(ts[0].name, None))
    else if |ts| == 4 && ts[0].Quoted? && IsKeyword(ts[1], "with") && IsKeyword(ts[2], "password") && ts[3].Constant?
    then Some(CreateUser(ts[0].name, Some(ts[3].value)))
    else None
  }

  function ParseDrop(ts: seq<Token>): Option<Statement> {
    if |ts| == 1 && ts[0].Quoted? then Some(DropUser(ts[0].name)) else None
  }

  function ParseTokens(ts: seq<Token>): Option<Statement> {
    if ts == [] then None
    else if IsKeyword(ts[0], "grant") then ParseChange(true, ts[1..])
    else if IsKeyword(ts[0], "revoke") then ParseChange(false, ts[1..])
    else if |ts| < 2 || !IsKeyword(ts[1], "user") then None
    else if IsKeyword(ts[0], "create") then ParseCreate(ts[2..])
    else if IsKeyword(ts[0], "drop") then ParseDrop(ts[2..])
    else None
  }

  /** How the server reads one statement text. */
  function Parse(text: string): Option<Statement> {
    match Lex(text)
    case None => None
    case Some(ts) => ParseTokens(ts)
  }

  function Concat(a: Option<seq<Token>>, b: Option<seq<Token>>): Option<seq<Token>> {
    if a.Some? && b.Some? then Some(a.value + b.value) else None
  }

  /** Text without quotes: words, blanks, commas and parentheses. */
  predicate Bare(p: string) {
    forall c :: c in p ==> IsWordChar(c) || c == ' ' || c == ',' || c == '(' || c == ')'
  }

  lemma {:induction false} WordEndAppend(w: string, rest: string)
    requires forall c :: c in w ==> IsWordChar(c)
    requires rest == "" || !IsWordChar(rest[0])
    ensures WordEnd(w + rest) == |w|
  {
    if w == "" {
      assert w + rest == rest;
    } else {
      assert (w + rest)[1..] == w[1..] + rest;
      WordEndAppend(w[1..], rest);
    }
  }

  predicate IsWord(w: string) {
    w != "" && forall c :: c in w ==> IsWordChar(c)
  }

  /** The key words of the fragment are words, and are told apart by the reader. */
  lemma Keywords()
    ensures IsWord("CREATE") && IsWord("DROP") && IsWord("USER") && IsWord("WITH") && IsWord("PASSWORD")
    ensures IsWord("GRANT") && IsWord("REVOKE") && IsWord("ON") && IsWord("DATABASE") && IsWord("TO") && IsWord("FROM")
  {
  }

  lemma DifferentKeyword(w: string, k: string)
    requires w != "" && k != "" && Lower(w[0]) != k[0]
    ensures !IsKeyword(Word(w), k)
  {
  }

  lemma StatementKeywords()
    ensures IsKeyword(Word("GRANT"), "grant")
    ensures IsKeyword(Word("REVOKE"), "revoke") && !IsKeyword(Word("REVOKE"), "grant")
    ensures IsKeyword(Word("CREATE"), "create") && !IsKeyword(Word("CREATE"), "grant") &&
            !IsKeyword(Word("CREATE"), "revoke")
    ensures IsKeyword(Word("DROP"), "drop") && !IsKeyword(Word("DROP"), "create")
    ensures !IsKeyword(Word("DROP"), "grant") && !IsKeyword(Word("DROP"), "revoke")
    ensures IsKeyword(Word("USER"), "user") && IsKeyword(Word("WITH"), "with") &&
            IsKeyword(Word("PASSWORD"), "password")
  {
    assert IsKeyword(Word("GRANT"), "grant") && IsKeyword(Word("REVOKE"), "revoke");
    assert IsKeyword(Word("CREATE"), "create") && IsKeyword(Word("DROP"), "drop");
    assert IsKeyword(Word("USER"), "user") && IsKeyword(Word("WITH"), "with") &&
        IsKeyword(Word("PASSWORD"), "password");
    hide IsKeyword;
    DifferentKeyword("REVOKE", "grant");
    DifferentKeyword("CREATE", "grant");
    DifferentKeyword("CREATE", "revoke");
    DifferentKeyword("DROP", "create");
    DifferentKeyword("DROP", "grant");
    DifferentKeyword("DROP", "revoke");
  }

  lemma ChangeKeywords()
    ensures IsKeyword(Word("ON"), "on") && IsKeyword(Word("DATABASE"), "database")
    ensures IsKeyword(Word("TO"), "to") && !IsKeyword(Word("TO"), "on")
    ensures IsKeyword(Word("FROM"), "from") && !IsKeyword(Word("FROM"), "on")
  {
    assert "TO"[0] == 'T' && Lower('T') == 't' && "on"[0] == 'o';
  }

  /** A word followed by a blank, a quote, a symbol or the end is one token. */
  lemma LexWord(w: string, rest: string)
    requires IsWord(w)
    requires rest == "" || !IsWordChar(rest[0])
    ensures Lex(w + rest) == Prepend(Word(w), Lex(rest))
  {
    WordEndAppend(w, rest);
    var s := w + rest;
    assert s[0] == w[0] && IsWordChar(s[0]);
    assert s[..|w|] == w && s[|w|..] == rest;
  }

  /** Key word, blank, rest. */
  lemma LexKeyword(w: string, rest: string)
    requires IsWord(w)
    ensures Lex(w + " " + rest) == Prepend(Word(w), Lex(rest))
  {
    assert w + " " + rest == w + (" " + rest);
    LexWord(w, " " + rest);
    LexBlank(rest);
  }

  lemma LexBlank(rest: string)
    ensures Lex(" " + rest) == Lex(rest)
  {
    assert (" " + rest)[1..] == rest;
  }

  lemma LexSymbol(c: char, rest: string)
    requires IsSymbol(c)
    ensures Lex([c] + rest) == Prepend(Symbol(c), Lex(rest))
  {
    assert ([c] + rest)[1..] == rest;
  }

  lemma PrependConcat(t: Token, a: Option<seq<Token>>, b: Option<seq<Token>>)
    ensures Prepend(t, Concat(a, b)) == Concat(Prepend(t, a), b)
  {
    if a.Some? && b.Some? {
      assert [t] + (a.value + b.value) == [t] + a.value + b.value;
    }
  }

  /** Quote-free text never runs into what follows the next blank. */
  lemma {:induction false} LexBare(p: string, rest: string)
    requires Bare(p)
    requires rest == "" || rest[0] == ' '
    ensures Lex(p).Some?
    ensures Lex(p + rest) == Concat(Lex(p), Lex(rest))
    decreases |p|
  {
    if p == "" {
      assert p + rest == rest;
      assert Lex(rest).Some? ==> [] + Lex(rest).value == Lex(rest).value;
    } else if IsWordChar(p[0]) {
      var n := WordEnd(p);
      var w, q := p[..n], p[n..];
      LexBare(q, rest);
      assert p == w + q && p + rest == w + (q + rest);
      LexWord(w, q);
      LexWord(w, q + rest);
      PrependConcat(Word(w), Lex(q), Lex(rest));
    } else {
      var c, q := p[0], p[1..];
      assert c in p;
      LexBare(q, rest);
      assert p == [c] + q && p + rest == [c] + (q + rest);
      if c == ' ' {
        LexBlank(q);
        LexBlank(q + rest);
      } else {
        LexSymbol(c, q);
        LexSymbol(c, q + rest);
        PrependConcat(Symbol(c), Lex(q), Lex(rest));
      }
    }
  }

  /** Scanning undoes the doubling of quotes, for any body. */
  lemma {:induction false} ScanDoubled(body: string, q: char, rest: string)
    requires rest == "" || rest[0] != q
    ensures ScanQuoted(ReplaceAll(body, q, [q, q]) + [q] + rest, q) == Some((body, rest))
  {
    var s := ReplaceAll(body, q, [q, q]) + [q] + rest;
    if body == "" {
      assert s == [q] + rest;
    } else {
      ScanDoubled(body[1..], q, rest);
      var tail := ReplaceAll(body[1..], q, [q, q]) + [q] + rest;
      assert body == [body[0]] + body[1..];
      if body[0] == q {
        assert s == [q, q] + tail;
        assert s[2..] == tail;
      } else {
        assert s == [body[0]] + tail;
        assert s[1..] == tail;
      }
    }
  }

  /** A delimited identifier, whatever its name, is one token. */
  lemma LexQuoted(name: string, rest: string)
    requires rest == "" || rest[0] != '"'
    ensures Lex("\"" + ReplaceAll(name, '"', "\"\"") + "\"" + rest) == Prepend(Quoted(name), Lex(rest))
  {
    var body := ReplaceAll(name, '"', "\"\"") + "\"" + rest;
    var s := "\"" + ReplaceAll(name, '"', "\"\"") + "\"" + rest;
    assert ScanQuoted(body, '"') == Some((name, rest)) by {
      ScanDoubled(name, '"', rest);
    }
    hide ScanQuoted, ReplaceAll;
    assert s == ['"'] + body;
    LexOpenDouble(s, body);
  }

  lemma LexOpenDouble(s: string, body: string)
    requires s == ['"'] + body && ScanQuoted(body, '"').Some?
    ensures Lex(s) == Prepend(Quoted(ScanQuoted(body, '"').value.0), Lex(ScanQuoted(body, '"').value.1))
  {
    assert s[1..] == body;
  }

  /** A string constant, whatever its value, is one token. */
  lemma LexConstant(value: string, rest: string)
    requires rest == "" || rest[0] != '\''
    ensures Lex("'" + ReplaceAll(value, '\'', "''") + "'" + rest) == Prepend(Constant(value), Lex(rest))
  {
    var body := ReplaceAll(value, '\'', "''") + "'" + rest;
    var s := "'" + ReplaceAll(value, '\'', "''") + "'" + rest;
    assert ScanQuoted(body, '\'') == Some((value, rest)) by {
      ScanDoubled(value, '\'', rest);
    }
    LexOpenQuote(s, body);
  }

  lemma LexOpenQuote(s: string, body: string)
    requires s == ['\''] + body && ScanQuoted(body, '\'').Some?
    ensures Lex(s) == Prepend(Constant(ScanQuoted(body, '\'').value.0), Lex(ScanQuoted(body, '\'').value.1))
  {
    assert s[1..] == body;
  }

  lemma {:induction false} PrivilegeEndAt(ts: seq<Token>, rest: seq<Token>)
    requires forall t :: t in ts ==> !Reserved(t)
    requires rest != [] && Reserved(rest[0])
    ensures PrivilegeEnd(ts + rest) == |ts|
  {
    if ts == [] {
      assert ts + rest == rest;
    } else {
      assert (ts + rest)[1..] == ts[1..] + rest;
      PrivilegeEndAt(ts[1..], rest);
    }
  }
}
