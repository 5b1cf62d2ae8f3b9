/** How a PostgreSQL 15 server reads the privileges of GRANT and REVOKE: the list grammar,
    the words it knows, and the kind of target each fits (sections GRANT and 5.7 of the
    PostgreSQL 15 manual, key words of its Appendix C). */
module PrivilegeText {
  import opened Text
  import opened Sql
  import opened Quoting

  /** Key words that cannot stand for a name. */
  predicate IsKeyWord(w: string) {
    || w in {
      "all", "analyse", "analyze", "and", "any", "array", "as", "asc", "asymmetric",
      "authorization", "binary", "both", "case", "cast", "check"}
    || w in {
      "collate", "collation", "column", "concurrently", "constraint", "create", "cross",
      "current_catalog", "current_date", "current_role", "current_schema", "current_time",
      "current_timestamp", "current_user", "default"}
    || w in {
      "deferrable", "desc", "distinct", "do", "else", "end", "except", "false", "fetch", "for",
      "foreign", "freeze", "from", "full", "grant"}
    || w in {
      "group", "having", "ilike", "in", "initially", "inner", "intersect", "into", "is", "isnull",
      "join", "lateral", "leading", "left", "like"}
    || w in {
      "limit", "localtime", "localtimestamp", "natural", "not", "notnull", "null", "offset", "on",
      "only", "or", "order", "outer", "overlaps", "placing"}
    || w in {
      "primary", "references", "returning", "right", "select", "session_user", "similar", "some",
      "symmetric", "table", "tablesample", "then", "to", "trailing", "true"}
    || w in {
      "union", "unique", "user", "using", "variadic", "verbose", "when", "where", "window", "with"}
  }

  /** Key words that are privileges all the same. */
  const PRIVILEGE_KEY_WORDS: set<string> := {"select", "references", "create"}

  const TABLE_WORDS: set<string> := {"select", "insert", "update", "delete", "truncate", "references", "trigger"}
  const COLUMN_WORDS: set<string> := {"select", "insert", "update", "references"}
  const DATABASE_WORDS: set<string> := {"create", "connect", "temporary", "temp"}
  const OTHER_WORDS: set<string> := {"execute", "usage", "set"}

  /** One privilege of a list, in lower case, with or without a list of columns. */
  datatype Item = Item(word: string, columns: bool)

  /** ALL [PRIVILEGES], or a list. */
  datatype Asked = Everything(columns: bool) | Listed(items: seq<Item>)

  predicate IsDigit(c: char) {
    '0' <= c <= '9'
  }

  predicate IsName(t: Token) {
    t.Word? && t.text != "" && !IsDigit(t.text[0]) && !IsKeyWord(Fold(t.text))
  }

  predicate IsPrivilegeWord(t: Token) {
    IsName(t) || (t.Word? && Fold(t.text) in PRIVILEGE_KEY_WORDS)
  }

  /** Column names up to the closing parenthesis: what follows them. */
  function ReadColumns(ts: seq<Token>): Option<seq<Token>> {
    if |ts| < 2 || !IsName(ts[0]) then None
    else if ts[1] == Symbol(')') then Some(ts[2..])
    else if ts[1] == Symbol(',') then ReadColumns(ts[2..])
    else None
  }

  /** Privileges separated by commas, to the end. */
  function ReadItems(ts: seq<Token>): Option<seq<Item>>
    decreases |ts|
  {
    if ts == [] || !IsPrivilegeWord(ts[0]) then None
    else
      var columns := |ts| > 1 && ts[1] == Symbol('(');
      var after := if columns then ReadColumns(ts[2..]) else Some(ts[1..]);
      var item := Item(Fold(ts[0].text), columns);
      if after.None? then None
      else if after.value == [] then Some([item])
      else if after.value[0] != Symbol(',') || |after.value| >= |ts| then None
      else
        match ReadItems(after.value[1..])
        case None => None
        case Some(items) => Some([item] + items)
  }

  /** None is a syntax error. */
  function ReadAsked(ts: seq<Token>): Option<Asked> {
    if ts == [] then None
    else if IsKeyword(ts[0], "all") then
      var rest := if |ts| > 1 && IsKeyword(ts[1], "privileges") then ts[2..] else ts[1..];
      if rest == [] then Some(Everything(false))
      else if rest[0] == Symbol('(') && ReadColumns(rest[1..]) == Some([]) then Some(Everything(true))
      else None
    else
      match ReadItems(ts)
      case None => None
      case Some(items) => Some(Listed(items))
  }

  predicate IsKnown(word: string) {
    word in TABLE_WORDS || word in DATABASE_WORDS || word in OTHER_WORDS
  }

  /** The verdict on one privilege of a database. */
  function DatabaseItemError(item: Item): Error {
    if item.columns then FromServer(InvalidGrantOperation)
    else if !IsKnown(item.word) then FromServer(SyntaxError)
    else if item.word in DATABASE_WORDS then NoError
    else FromServer(InvalidGrantOperation)
  }

  /** The verdict on one privilege of a table. */
  function TableItemError(item: Item): Error {
    if !IsKnown(item.word) then FromServer(SyntaxError)
    else if item.word in (if item.columns then COLUMN_WORDS else TABLE_WORDS) then NoError
    else FromServer(InvalidGrantOperation)
  }

  function FirstItemError(onDatabase: bool, columns: bool, items: seq<Item>): Error {
    if items == [] then NoError
    else
      var err :=
        if onDatabase then DatabaseItemError(items[0])
        else if items[0].columns != columns then NoError
        else TableItemError(items[0]);
      if err != NoError then err else FirstItemError(onDatabase, columns, items[1..])
  }

  /** The verdict on what is asked, once the grantee is known to exist: privileges of whole
      tables are looked at before those of columns. */
  function AskedError(onDatabase: bool, asked: Asked): Error {
    match asked
    case Everything(columns) => if onDatabase && columns then FromServer(InvalidGrantOperation) else NoError
    case Listed(items) =>
      var err := FirstItemError(onDatabase, false, items);
      if err != NoError || onDatabase then err else FirstItemError(false, true, items)
  }

  predicate Fits(onDatabase: bool, item: Item) {
    if onDatabase then !item.columns && item.word in DATABASE_WORDS
    else item.word in (if item.columns then COLUMN_WORDS else TABLE_WORDS)
  }

  lemma {:induction false} FirstItemErrorMeans(onDatabase: bool, columns: bool, items: seq<Item>)
    ensures FirstItemError(onDatabase, columns, items) == NoError <==>
            forall item :: item in items && (onDatabase || item.columns == columns) ==> Fits(onDatabase, item)
    ensures FirstItemError(onDatabase, columns, items) in
              {NoError, FromServer(SyntaxError), FromServer(InvalidGrantOperation)}
  {
    if items != [] {
      FirstItemErrorMeans(onDatabase, columns, items[1..]);
      assert items == [items[0]] + items[1..];
      assert forall w :: w in COLUMN_WORDS ==> w in TABLE_WORDS;
    }
  }

  /** A list is accepted exactly when every privilege in it fits the target. */
  lemma AskedErrorMeans(onDatabase: bool, asked: Asked)
    ensures AskedError(onDatabase, asked) == NoError <==>
            if asked.Listed? then forall item :: item in asked.items ==> Fits(onDatabase, item)
            else !(onDatabase && asked.columns)
    ensures AskedError(onDatabase, asked) in {NoError, FromServer(SyntaxError), FromServer(InvalidGrantOperation)}
  {
    if asked.Listed? {
      FirstItemErrorMeans(onDatabase, false, asked.items);
      FirstItemErrorMeans(false, true, asked.items);
    }
  }

  lemma KeywordFolds(t: Token, k: string)
    ensures IsKeyword(t, k) ==> t.Word? && Fold(t.text) == k
  {
  }

  /** A single privilege word. */
  lemma OneWordAsked(w: string, word: string)
    requires IsPrivilegeWord(Word(w)) && Fold(w) == word && word != "all"
    ensures ReadAsked([Word(w)]) == Some(Listed([Item(word, false)]))
  {
    hide IsKeyWord, IsPrivilegeWord;
    var ts := [Word(w)];
    KeywordFolds(ts[0], "all");
    assert ts[1..] == [];
  }

  lemma FoldLetters(w: string, word: string)
    requires |w| == |word| && forall i :: 0 <= i < |w| ==> Lower(w[i]) == word[i]
    ensures Fold(w) == word
  {
  }

  // ---- names of roles ----

  /** Names that mean something else wherever a role is named. */
  predicate SpecialName(n: string) {
    n == "public" || n == "none"
  }

  /** Names that only the server's own roles may have. */
  predicate ReservedName(n: string) {
    |n| >= 3 && n[..3] == "pg_"
  }
}
