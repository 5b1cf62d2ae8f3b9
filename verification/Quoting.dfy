/** pkg/database/postgresql/utils.go: quoting of names, passwords and privilege
    text, and the classification of server errors. */
module Quoting {
  import opened Text
  import opened Sql

  const NUL: char := '\0'

  function Strip(s: string): string {
    ReplaceAll(s, NUL, "")
  }

  /** One part of a dotted name as it is printed. */
  function EscapedPart(ident: string): string {
    var t := ReplaceAll(Strip(ident), '"', "\"\"");
    if t == "*" then t else "\"" + t + "\""
  }

  function EscapedParts(idents: seq<string>): (parts: seq<string>)
    ensures |parts| == |idents|
  {
    seq(|idents|, i requires 0 <= i < |idents| => EscapedPart(idents[i]))
  }

  function EscapedLiteral(s: string): string {
    Join(EscapedParts(Split(s, '.')), ".")
  }

  /** How one part of a name is printed: a star as it is, anything else in quotes, with its own
      quotes doubled. */
  predicate PrintsPart(p: string, ident: string) {
    if Strip(ident) == "*" then p == "*"
    else |p| >= 2 && p[0] == p[|p| - 1] == '"' && Collapsed(p[1..|p| - 1]) == Some(Strip(ident))
  }

  lemma EscapedPartPrints(ident: string)
    ensures PrintsPart(EscapedPart(ident), ident)
  {
    DoublingStar(Strip(ident));
    DoublingMeans(Strip(ident));
    var t := ReplaceAll(Strip(ident), '"', "\"\"");
    assert ("\"" + t + "\"")[1..|t| + 1] == t;
  }

  lemma {:induction false} DoublingMeans(s: string)
    ensures Collapsed(ReplaceAll(s, '"', "\"\"")) == Some(s)
  {
    if s != "" {
      DoublingMeans(s[1..]);
      var rest := ReplaceAll(s[1..], '"', "\"\"");
      var t := (if s[0] == '"' then "\"\"" else [s[0]]) + rest;
      assert t[|t| - |rest|..] == rest && Collapsed(t) == Begun(s[0], Collapsed(rest));
      assert s == [s[0]] + s[1..];
    }
  }

  /** Part by part, with the dots kept. */
  method EscapeLiteral(str: string) returns (r: string)
    ensures r == EscapedLiteral(str)
    ensures var ident := Split(str, '.');
            exists parts: seq<string> ::
              r == Join(parts, ".") && |parts| == |ident| && forall k :: 0 <= k < |ident| ==>
                PrintsPart(parts[k], ident[k])
  {
    var ident := Split(str, '.');
    var parts := new string[|ident|];
    for i := 0 to |ident|
      invariant forall k :: 0 <= k < i ==> parts[k] == EscapedPart(ident[k])
    {
      parts[i] := ReplaceAll(ReplaceAll(ident[i], NUL, ""), '"', "\"\"");
      if parts[i] != "*" {
        parts[i] := "\"" + parts[i] + "\"";
      }
    }
    assert parts[..] == EscapedParts(ident);
    r := Join(parts[..], ".");
    forall k | 0 <= k < |ident| ensures PrintsPart(parts[..][k], ident[k]) { EscapedPartPrints(ident[k]); }
  }

  function EscapeString(str: string): string {
    "'" + ReplaceAll(str, '\'', "''") + "'"
  }

  function CleanedParts(idents: seq<string>): (parts: seq<string>)
    ensures |parts| == |idents|
  {
    seq(|idents|, i requires 0 <= i < |idents| => Cleaned(idents[i]))
  }

  /** The three replacements that survive; the one that would drop `#` is overwritten. */
  function Cleaned(s: string): string {
    ReplaceAll(ReplaceAll(Strip(s), '"', "\"\""), ';', "")
  }

  /** The text without its NULs and semicolons. */
  function Kept(s: string): string {
    if s == "" then ""
    else if s[0] == NUL || s[0] == ';' then Kept(s[1..])
    else [s[0]] + Kept(s[1..])
  }

  /** The text with each pair of quotes read as one quote; None if a quote stands alone. */
  function Collapsed(s: string): Option<string> {
    if s == "" then Some("")
    else if s[0] != '"' then Begun(s[0], Collapsed(s[1..]))
    else if |s| > 1 && s[1] == '"' then Begun('"', Collapsed(s[2..]))
    else None
  }

  function Begun(c: char, r: Option<string>): Option<string> {
    if r.Some? then Some([c] + r.value) else None
  }

  /** `c` occurs as often as it should: semicolons and NULs not at all, quotes twice as often
      as in the input, `#`, `.` and all others as often as there. */
  predicate Occurs(c: char, str: string, r: string) {
    multiset(r)[c] == if c == NUL || c == ';' then 0 else if c == '"' then 2 * multiset(str)[c] else multiset(str)[c]
  }

  /** Privilege text loses its NULs and semicolons and has its quotes doubled; nothing else
      happens to it. */
  method EscapeLiteralWithoutQuotes(str: string) returns (r: string)
    ensures Collapsed(r) == Some(Kept(str))
    ensures forall c :: Occurs(c, str, r)
    ensures r == Cleaned(str)
  {
    var ident := Split(str, '.');
    var parts := new string[|ident|];
    for i := 0 to |ident|
      invariant forall k :: 0 <= k < i ==> parts[k] == Cleaned(ident[k])
    {
      var tmp := ReplaceAll(ident[i], NUL, "");
      tmp := ReplaceAll(tmp, '"', "\"\"");
      parts[i] := ReplaceAll(tmp, '#', "");
      parts[i] := ReplaceAll(tmp, ';', "");
    }
    assert parts[..] == CleanedParts(ident);
    r := Join(parts[..], ".");
    JoinCleaned(ident);
    SplitJoin(str, '.');
    CleanedMeans(str);
    forall c ensures Occurs(c, str, r) { CleanedCounts(str, c); }
  }

  lemma {:induction false} ReplaceAppend(a: string, b: string, c: char, t: string)
    ensures ReplaceAll(a + b, c, t) == ReplaceAll(a, c, t) + ReplaceAll(b, c, t)
  {
    if a == "" {
      assert a + b == b;
    } else {
      assert (a + b)[1..] == a[1..] + b;
      ReplaceAppend(a[1..], b, c, t);
    }
  }

  lemma CleanedAppend(a: string, b: string)
    ensures Cleaned(a + b) == Cleaned(a) + Cleaned(b)
  {
    ReplaceAppend(a, b, NUL, "");
    ReplaceAppend(Strip(a), Strip(b), '"', "\"\"");
    ReplaceAppend(ReplaceAll(Strip(a), '"', "\"\""), ReplaceAll(Strip(b), '"', "\"\""), ';', "");
  }

  /** Cleaning part by part is cleaning the whole text: dots are kept. */
  lemma {:induction false} JoinCleaned(idents: seq<string>)
    requires |idents| >= 1
    ensures Join(CleanedParts(idents), ".") == Cleaned(Join(idents, "."))
  {
    if |idents| > 1 {
      JoinCleaned(idents[1..]);
      assert CleanedParts(idents)[1..] == CleanedParts(idents[1..]);
      CleanedAppend(idents[0], ".");
      CleanedAppend(idents[0] + ".", Join(idents[1..], "."));
      ReplaceAbsent(".", NUL, "");
      ReplaceAbsent(".", '"', "\"\"");
      ReplaceAbsent(".", ';', "");
    }
  }

  /** What the server reads when it takes each doubled quote as one: the text itself, without
      NULs and semicolons. */
  lemma {:induction false} CleanedMeans(s: string)
    ensures Collapsed(Cleaned(s)) == Some(Kept(s))
  {
    hide Cleaned, CleanedChar, Collapsed;
    if s == "" {
      NothingCleaned();
    } else {
      CleanedMeans(s[1..]);
      CleanedStep(s);
      CharMeans(s[0], Cleaned(s[1..]));
    }
  }

  lemma NothingCleaned()
    ensures Cleaned("") == "" && Collapsed("") == Some("")
  {
  }

  /** What becomes of one character. */
  function CleanedChar(c: char): string {
    if c == NUL || c == ';' then "" else if c == '"' then "\"\"" else [c]
  }

  lemma CleanedStep(s: string)
    requires s != ""
    ensures Cleaned(s) == CleanedChar(s[0]) + Cleaned(s[1..])
  {
    assert s == [s[0]] + s[1..];
    CleanedAppend([s[0]], s[1..]);
    CleanedOne(s[0]);
    hide Cleaned;
  }

  lemma CleanedOne(c: char)
    ensures Cleaned([c]) == CleanedChar(c)
  {
    ReplaceOne(c, NUL, "");
    if c != NUL {
      ReplaceOne(c, '"', "\"\"");
      if c == '"' { ReplaceAbsent("\"\"", ';', ""); } else { ReplaceOne(c, ';', ""); }
    }
  }

  lemma CharMeans(c: char, rest: string)
    requires Collapsed(rest).Some?
    ensures var k := Collapsed(rest).value;
            Collapsed(CleanedChar(c) + rest) == Some(if c == NUL || c == ';' then k else [c] + k)
  {
    var t := CleanedChar(c) + rest;
    if c == NUL || c == ';' {
      assert t == rest;
    } else {
      assert t[|CleanedChar(c)|..] == rest;
      assert Collapsed(t) == Begun(c, Collapsed(rest));
    }
  }

  lemma ReplaceOne(x: char, c: char, t: string)
    ensures ReplaceAll([x], c, t) == if x == c then t else [x]
  {
    assert [x][1..] == "" && ReplaceAll("", c, t) == "";
  }

  /** Only one text reads so: a text without lone quotes is known from what it reads as. */
  lemma {:induction false} CollapsedOnce(a: string, b: string)
    requires Collapsed(a).Some? && Collapsed(a) == Collapsed(b)
    ensures a == b
  {
    if a != "" && b != "" {
      var n := if a[0] == '"' then 2 else 1;
      assert a[0] == Collapsed(a).value[0] == Collapsed(b).value[0] == b[0];
      assert Collapsed(a[n..]).value == Collapsed(a).value[1..] == Collapsed(b[n..]).value;
      CollapsedOnce(a[n..], b[n..]);
      assert a == a[..n] + a[n..] && b == b[..n] + b[n..];
    }
  }

  lemma {:induction false} CleanedCounts(s: string, c: char)
    ensures Occurs(c, s, Cleaned(s))
  {
    hide Cleaned, CleanedChar;
    if s == "" {
      NothingCleaned();
    } else {
      CleanedCounts(s[1..], c);
      CleanedStep(s);
      assert s == [s[0]] + s[1..];
      CountOn(s[0], s[1..], c);
      CountCleaned(s[0], Cleaned(s[1..]), c);
    }
  }

  lemma CountCleaned(x: char, s: string, c: char)
    ensures multiset(CleanedChar(x) + s)[c] ==
            multiset(s)[c] + if x != c || x == NUL || x == ';' then 0 else if x == '"' then 2 else 1
  {
    if x == '"' {
      assert CleanedChar(x) + s == ['"'] + (['"'] + s);
      CountOn('"', ['"'] + s, c);
      CountOn('"', s, c);
    } else if x == NUL || x == ';' {
      assert CleanedChar(x) + s == s;
    } else {
      CountOn(x, s, c);
    }
  }

  lemma CountOn(x: char, s: string, c: char)
    ensures multiset([x] + s)[c] == multiset(s)[c] + if x == c then 1 else 0
  {
  }

  /** No statement separator and no NUL survives in privilege text. */
  lemma CleanedDrops(s: string)
    ensures ';' !in Cleaned(s) && NUL !in Cleaned(s)
  {
    ReplaceRemoves(s, NUL, "");
    ReplaceKeepsOut(Strip(s), NUL, '"', "\"\"");
    ReplaceRemoves(ReplaceAll(Strip(s), '"', "\"\""), ';', "");
  }

  lemma {:induction false} ReplaceKeepsOut(s: string, x: char, c: char, t: string)
    requires x !in s && x !in t
    ensures x !in ReplaceAll(s, c, t)
  {
    if s != "" {
      assert s == [s[0]] + s[1..];
      ReplaceKeepsOut(s[1..], x, c, t);
    }
  }

  /** Quote-free privilege text is printed as it is. */
  lemma CleanedBare(p: string)
    requires Bare(p)
    ensures Cleaned(p) == p
  {
    ReplaceAbsent(p, NUL, "");
    ReplaceAbsent(p, '"', "\"\"");
    ReplaceAbsent(p, ';', "");
  }

  // ---- names: what the server reads back ----

  /** What one part of a dotted name denotes. */
  function SegmentOf(ident: string): Segment {
    if Strip(ident) == "*" then Wildcard else Name(Strip(ident))
  }

  function SegmentsOf(idents: seq<string>): (path: seq<Segment>)
    ensures |path| == |idents|
  {
    seq(|idents|, i requires 0 <= i < |idents| => SegmentOf(idents[i]))
  }

  /** The path a dotted name denotes: its parts with NULs removed, `*` parts as wildcards. */
  function Path(s: string): (path: seq<Segment>)
    ensures path != []
  {
    SegmentsOf(Split(s, '.'))
  }

  function SegmentToken(g: Segment): Token {
    match g
    case Name(n) => Quoted(n)
    case Wildcard => Symbol('*')
  }

  function PathTokens(path: seq<Segment>): seq<Token> {
    if path == [] then []
    else if |path| == 1 then [SegmentToken(path[0])]
    else [SegmentToken(path[0]), Symbol('.')] + PathTokens(path[1..])
  }

  lemma DoublingStar(t: string)
    ensures ReplaceAll(t, '"', "\"\"") == "*" <==> t == "*"
  {
    if t != "" && t[0] != '"' {
      assert ReplaceAll(t, '"', "\"\"") == [t[0]] + ReplaceAll(t[1..], '"', "\"\"");
      if t[1..] != "" {
        assert |ReplaceAll(t[1..], '"', "\"\"")| > 0;
      } else {
        assert t == [t[0]];
      }
    }
  }

  lemma LexPart(ident: string, rest: string)
    requires rest == "" || rest[0] == ' ' || rest[0] == '.'
    ensures Lex(EscapedPart(ident) + rest) == Prepend(SegmentToken(SegmentOf(ident)), Lex(rest))
  {
    DoublingStar(Strip(ident));
    if Strip(ident) == "*" {
      LexSymbol('*', rest);
    } else {
      LexQuoted(Strip(ident), rest);
    }
  }

  lemma ConcatTwo(g: Token, h: Token, more: seq<Token>, r: Option<seq<Token>>)
    ensures Prepend(g, Prepend(h, Concat(Some(more), r))) == Concat(Some([g, h] + more), r)
  {
    if r.Some? {
      assert [g] + ([h] + (more + r.value)) == [g, h] + more + r.value;
    }
  }

  lemma JoinStep(idents: seq<string>, rest: string)
    requires |idents| > 1
    ensures Join(EscapedParts(idents), ".") + rest ==
            EscapedPart(idents[0]) + ("." + (Join(EscapedParts(idents[1..]), ".") + rest))
    ensures PathTokens(SegmentsOf(idents)) ==
            [SegmentToken(SegmentOf(idents[0])), Symbol('.')] + PathTokens(SegmentsOf(idents[1..]))
  {
    hide *;
    JoinedParts(idents);
    JoinedTokens(idents);
    Regroup(EscapedPart(idents[0]), ".", Join(EscapedParts(idents[1..]), "."), rest);
  }

  lemma Regroup(a: string, b: string, c: string, e: string)
    ensures a + b + c + e == a + (b + (c + e))
  {
  }

  lemma JoinedParts(idents: seq<string>)
    requires |idents| > 1
    ensures Join(EscapedParts(idents), ".") == EscapedPart(idents[0]) + "." + Join(EscapedParts(idents[1..]), ".")
  {
    hide EscapedPart;
    assert EscapedParts(idents)[1..] == EscapedParts(idents[1..]);
  }

  lemma JoinedTokens(idents: seq<string>)
    requires |idents| > 1
    ensures PathTokens(SegmentsOf(idents)) ==
            [SegmentToken(SegmentOf(idents[0])), Symbol('.')] + PathTokens(SegmentsOf(idents[1..]))
  {
    hide SegmentOf, SegmentToken;
    assert SegmentsOf(idents)[1..] == SegmentsOf(idents[1..]);
  }

  lemma {:induction false} LexParts(idents: seq<string>, rest: string)
    requires |idents| >= 1
    requires rest == "" || rest[0] == ' '
    ensures Lex(Join(EscapedParts(idents), ".") + rest) == Concat(Some(PathTokens(SegmentsOf(idents))), Lex(rest))
  {
    var g := SegmentToken(SegmentOf(idents[0]));
    if |idents| == 1 {
      LexPart(idents[0], rest);
    } else {
      var tail := Join(EscapedParts(idents[1..]), ".") + rest;
      var more := PathTokens(SegmentsOf(idents[1..]));
      LexParts(idents[1..], rest);
      JoinStep(idents, rest);
      LexPart(idents[0], "." + tail);
      LexSymbol('.', tail);
      ConcatTwo(g, Symbol('.'), more, Lex(rest));
    }
  }

  /** Identifier round trip: whatever the name, the server reads exactly its path and
      then what follows it, untouched. */
  lemma LexLiteral(s: string, rest: string)
    requires rest == "" || rest[0] == ' '
    ensures Lex(EscapedLiteral(s) + rest) == Concat(Some(PathTokens(Path(s))), Lex(rest))
  {
    LexParts(Split(s, '.'), rest);
  }

  lemma {:induction false} ParsePathTokens(path: seq<Segment>, rest: seq<Token>)
    requires path != []
    requires rest == [] || rest[0] != Symbol('.')
    ensures ParsePath(PathTokens(path) + rest) == Some((path, rest))
  {
    var ts := PathTokens(path) + rest;
    assert ts != [] && ts[0] == SegmentToken(path[0]);
    assert ParseSegment(ts[0]) == Some(path[0]);
    hide ParseSegment, SegmentToken;
    if |path| == 1 {
      assert path == [path[0]] && ts[1..] == rest && (rest != [] ==> ts[1] == rest[0]);
    } else {
      assert |ts| > 1 && ts[1] == Symbol('.') && ts[2..] == PathTokens(path[1..]) + rest;
      ParsePathTokens(path[1..], rest);
      hide PathTokens;
      assert [path[0]] + path[1..] == path;
    }
  }

  // ---- distinct names stay distinct ----

  function SegmentText(g: Segment): string {
    match g
    case Name(n) => n
    case Wildcard => "*"
  }

  function PathText(path: seq<Segment>): string {
    if path == [] then ""
    else if |path| == 1 then SegmentText(path[0])
    else SegmentText(path[0]) + "." + PathText(path[1..])
  }

  lemma {:induction false} PathTextJoin(idents: seq<string>)
    requires |idents| >= 1
    ensures PathText(SegmentsOf(idents)) == Strip(Join(idents, "."))
  {
    if |idents| > 1 {
      PathTextJoin(idents[1..]);
      assert SegmentsOf(idents)[1..] == SegmentsOf(idents[1..]);
      ReplaceAbsent(".", NUL, "");
      ReplaceAppend(idents[0], ".", NUL, "");
      ReplaceAppend(idents[0] + ".", Join(idents[1..], "."), NUL, "");
    }
  }

  /** Two names are printed alike exactly when they agree up to NULs. */
  lemma LiteralInjective(a: string, b: string)
    ensures EscapedLiteral(a) == EscapedLiteral(b) <==> Strip(a) == Strip(b)
  {
    if EscapedLiteral(a) == EscapedLiteral(b) {
      LexLiteral(a, "");
      LexLiteral(b, "");
      assert EscapedLiteral(a) + "" == EscapedLiteral(a) && EscapedLiteral(b) + "" == EscapedLiteral(b);
      assert PathTokens(Path(a)) + [] == PathTokens(Path(a)) && PathTokens(Path(b)) + [] == PathTokens(Path(b));
      ParsePathTokens(Path(a), []);
      ParsePathTokens(Path(b), []);
      PathTextJoin(Split(a, '.'));
      PathTextJoin(Split(b, '.'));
      SplitJoin(a, '.');
      SplitJoin(b, '.');
    }
    if Strip(a) == Strip(b) {
      EscapedStrip(a);
      EscapedStrip(b);
    }
  }

  function StrippedParts(idents: seq<string>): (parts: seq<string>)
    ensures |parts| == |idents|
  {
    seq(|idents|, i requires 0 <= i < |idents| => Strip(idents[i]))
  }

  lemma StripCons(c: char, s: string)
    ensures Strip([c] + s) == if c == NUL then Strip(s) else [c] + Strip(s)
  {
    assert ([c] + s)[1..] == s;
  }

  lemma StrippedHead(head: string, rest: seq<string>)
    ensures StrippedParts([head] + rest) == [Strip(head)] + StrippedParts(rest)
  {
  }

  lemma {:induction false} SplitStrip(s: string)
    ensures Split(Strip(s), '.') == StrippedParts(Split(s, '.'))
  {
    if s != "" {
      SplitStrip(s[1..]);
      var rest := Split(s[1..], '.');
      assert rest == [rest[0]] + rest[1..];
      StrippedHead(rest[0], rest[1..]);
      StripCons(s[0], rest[0]);
      if s[0] == '.' {
        StrippedHead("", rest);
      } else {
        StrippedHead([s[0]] + rest[0], rest[1..]);
      }
      assert s == [s[0]] + s[1..];
      StripCons(s[0], s[1..]);
      if s[0] != NUL {
        assert ([s[0]] + Strip(s[1..]))[1..] == Strip(s[1..]);
      }
    }
  }

  lemma EscapedStrip(s: string)
    ensures EscapedLiteral(Strip(s)) == EscapedLiteral(s)
  {
    SplitStrip(s);
    forall p: string ensures Strip(Strip(p)) == Strip(p) {
      ReplaceRemoves(p, NUL, "");
      ReplaceAbsent(Strip(p), NUL, "");
    }
    assert EscapedParts(Split(Strip(s), '.')) == EscapedParts(Split(s, '.'));
  }

  // ---- server errors ----

  /** The SQLSTATE codes the model distinguishes (Appendix A of the PostgreSQL manual). */
  datatype SqlState =
    | DuplicateObject
    | UndefinedObject
    | DependentObjectsExist
    | SyntaxError
    | InvalidGrantOperation
    | ReservedRoleName
    | InvalidParameterValue
    | FeatureNotSupported

  function Code(c: SqlState): string {
    match c
    case DuplicateObject => "42710"
    case UndefinedObject => "42704"
    case DependentObjectsExist => "2BP01"
    case SyntaxError => "42601"
    case InvalidGrantOperation => "0LP01"
    case ReservedRoleName => "42939"
    case InvalidParameterValue => "22023"
    case FeatureNotSupported => "0A000"
  }

  /** A Go error: none, one from the server, or any other. */
  datatype Error = NoError | FromServer(state: SqlState) | Failure

  function ProcessToPostgresError(err: Error): string {
    match err
    case NoError => ""
    case FromServer(c) => Code(c)
    case Failure => "Not a postgres error"
  }

  predicate IsAlreadyExists(err: Error)
    ensures IsAlreadyExists(err) <==> err == FromServer(DuplicateObject)
  {
    ProcessToPostgresError(err) == "42710"
  }

  predicate IsNotExists(err: Error)
    ensures IsNotExists(err) <==> err == FromServer(UndefinedObject)
  {
    ProcessToPostgresError(err) == "42704"
  }

  function IgnoreAlreadyExists(err: Error): Error {
    if IsAlreadyExists(err) then NoError else err
  }

  function IgnoreNotExists(err: Error): Error {
    if IsNotExists(err) then NoError else err
  }
}
