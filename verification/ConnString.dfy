/** The connection string of pkg/database/postgresql/config.go, and the keyword/value
    reader of section 34.1.1.1 of the PostgreSQL 15 manual that takes it apart. */
module ConnString {
  import opened Text
  import opened Resources

  // ---- the reader ----

  predicate IsBlank(c: char) {
    c == ' ' || c == '\t' || c == '\n' || c == '\r'
  }

  /** An unquoted value: up to a blank, a backslash taking the next character literally. */
  function ReadPlain(s: string): (r: (string, string))
    ensures |r.1| <= |s|
  {
    if s == "" || IsBlank(s[0]) then ("", s)
    else if s[0] == '\\' && |s| > 1 then
      var (v, rest) := ReadPlain(s[2..]); ([s[1]] + v, rest)
    else
      var (v, rest) := ReadPlain(s[1..]); ([s[0]] + v, rest)
  }

  /** A quoted value, after its opening quote. */
  function ReadQuoted(s: string): (r: Option<(string, string)>)
    ensures r.Some? ==> |r.value.1| <= |s|
  {
    if s == "" then None
    else if s[0] == '\'' then Some(("", s[1..]))
    else
      var escaped := s[0] == '\\' && |s| > 1;
      match ReadQuoted(if escaped then s[2..] else s[1..])
      case None => None
      case Some((v, rest)) => Some(([if escaped then s[1] else s[0]] + v, rest))
  }

  function SkipBlanks(s: string): (r: string)
    ensures |r| <= |s|
    ensures r != "" ==> !IsBlank(r[0])
  {
    if s != "" && IsBlank(s[0]) then SkipBlanks(s[1..]) else s
  }

  function ReadValue(s: string): (r: Option<(string, string)>)
    ensures r.Some? ==> |r.value.1| <= |s|
  {
    if s != "" && s[0] == '\'' then ReadQuoted(s[1..]) else Some(ReadPlain(s))
  }

  /** A keyword: up to `=` or a blank. */
  function ReadKey(s: string): (r: (string, string))
    ensures |r.0| + |r.1| == |s|
  {
    if s == "" || s[0] == '=' || IsBlank(s[0]) then ("", s)
    else
      var (k, rest) := ReadKey(s[1..]); ([s[0]] + k, rest)
  }

  /** The keyword/value pairs of a connection string, in order. */
  function Parse(s: string): Option<seq<(string, string)>>
    decreases |s|
  {
    var t := SkipBlanks(s);
    if t == "" then Some([])
    else
      var (k, afterKey) := ReadKey(t);
      var eq := SkipBlanks(afterKey);
      if k == "" || eq == "" || eq[0] != '=' then None
      else
        match ReadValue(SkipBlanks(eq[1..]))
        case None => None
        case Some((v, rest)) =>
          match Parse(rest)
          case None => None
          case Some(more) => Some([(k, v)] + more)
  }

  // ---- the printer ----

  function Digit(n: nat): char
    requires n < 10
  {
    "0123456789"[n]
  }

  /** `%d` of a non-negative number. */
  function Decimal(n: nat): (s: string)
    ensures s != ""
  {
    if n < 10 then [Digit(n)] else Decimal(n / 10) + [Digit(n % 10)]
  }

  function DigitValue(c: char): nat {
    if '0' <= c <= '9' then c as int - '0' as int else 0
  }

  function DecimalValue(s: string): nat {
    if s == "" then 0 else 10 * DecimalValue(s[..|s| - 1]) + DigitValue(s[|s| - 1])
  }

  /** The port comes back from its decimal form. */
  lemma {:induction false} DecimalRoundTrip(n: nat)
    ensures DecimalValue(Decimal(n)) == n
    ensures forall c :: c in Decimal(n) ==> '0' <= c <= '9'
  {
    if n >= 10 {
      DecimalRoundTrip(n / 10);
      assert Decimal(n)[..|Decimal(n)| - 1] == Decimal(n / 10);
    } else {
      assert Decimal(n)[..0] == "";
      assert DecimalValue("") == 0;
    }
  }

  function CertPath(home: string, db: Postgres, extension: string): string {
    home + "/postgres-certs/" + db.host + "/" + db.name + "_" + db.user + extension
  }

  /** One pair, present when `setting` is. */
  function Optional(setting: string, k: string, v: string): seq<(string, string)> {
    if setting != "" then [(k, v)] else []
  }

  /** The pairs that name no certificate file. */
  function PlainPairs(db: Postgres): seq<(string, string)> {
    [("host", db.host), ("user", db.user), ("port", Decimal(db.port))]
    + Optional(db.name, "dbname", db.name)
    + Optional(db.password, "password", db.password)
    + Optional(db.sslMode, "sslmode", db.sslMode)
  }

  /** What a connection string says: optional keys exactly when they are set. */
  function Pairs(db: Postgres, home: string): seq<(string, string)> {
    PlainPairs(db)
    + Optional(db.caCert, "sslrootcert", CertPath(home, db, ".ca"))
    + Optional(db.userCert, "sslcert", CertPath(home, db, ".crt"))
    + Optional(db.userKey, "sslkey", CertPath(home, db, ".key"))
  }

  // ---- what a reader of the pairs learns ----

  /** The value under a key, if it is there. */
  function Lookup(kvs: seq<(string, string)>, k: string): Option<string> {
    if kvs == [] then None else if kvs[0].0 == k then Some(kvs[0].1) else Lookup(kvs[1..], k)
  }

  predicate NoKeyTwice(kvs: seq<(string, string)>) {
    forall i, j :: 0 <= i < j < |kvs| ==> kvs[i].0 != kvs[j].0
  }

  /** The keys a connection string may have. */
  predicate KnownKeys(kvs: seq<(string, string)>) {
    forall kv :: kv in kvs ==>
      kv.0 in {"host", "user", "port", "dbname", "password", "sslmode", "sslrootcert", "sslcert", "sslkey"}
  }

  /** What is found under an optional key. */
  function IfSet(setting: string, value: string): Option<string> {
    if setting != "" then Some(value) else None
  }

  /** The pairs say what the settings say: each key once, the optional ones exactly when they
      are set, certificates by the paths given here, and nothing else. */
  predicate Says(kvs: seq<(string, string)>, db: Postgres, ca: string, crt: string, key: string) {
    && NoKeyTwice(kvs) && KnownKeys(kvs)
    && Lookup(kvs, "host") == Some(db.host)
    && Lookup(kvs, "user") == Some(db.user)
    && Lookup(kvs, "port").Some? && DecimalValue(Lookup(kvs, "port").value) == db.port
    && Lookup(kvs, "dbname") == IfSet(db.name, db.name)
    && Lookup(kvs, "password") == IfSet(db.password, db.password)
    && Lookup(kvs, "sslmode") == IfSet(db.sslMode, db.sslMode)
    && Lookup(kvs, "sslrootcert") == IfSet(db.caCert, ca)
    && Lookup(kvs, "sslcert") == IfSet(db.userCert, crt)
    && Lookup(kvs, "sslkey") == IfSet(db.userKey, key)
  }

  lemma {:induction false} LookupAppend(a: seq<(string, string)>, b: seq<(string, string)>, k: string)
    ensures Lookup(a + b, k) == if Lookup(a, k).Some? then Lookup(a, k) else Lookup(b, k)
  {
    if a == [] {
      assert a + b == b;
    } else {
      assert (a + b)[1..] == a[1..] + b;
      LookupAppend(a[1..], b, k);
    }
  }

  lemma {:induction false} LookupAbsent(kvs: seq<(string, string)>, k: string)
    ensures Lookup(kvs, k) == None <==> forall kv :: kv in kvs ==> kv.0 != k
  {
    if kvs != [] {
      LookupAbsent(kvs[1..], k);
      assert forall kv :: kv in kvs <==> kv == kvs[0] || kv in kvs[1..];
    }
  }

  /** One more optional pair under a new key. */
  lemma OneMoreKey(kvs: seq<(string, string)>, setting: string, k: string, v: string)
    requires NoKeyTwice(kvs) && Lookup(kvs, k) == None
    ensures var more := kvs + Optional(setting, k, v);
            && NoKeyTwice(more)
            && forall q :: Lookup(more, q) == if q == k then IfSet(setting, v) else Lookup(kvs, q)
    ensures forall kv :: kv in kvs + Optional(setting, k, v) ==> kv in kvs || kv.0 == k
  {
    LookupAbsent(kvs, k);
    var o := Optional(setting, k, v);
    forall q ensures Lookup(kvs + o, q) == if q == k then IfSet(setting, v) else Lookup(kvs, q) {
      LookupAppend(kvs, o, q);
      assert o == [] ==> Lookup(o, q) == None;
      assert o != [] ==> o[1..] == [];
    }
  }

  lemma AlwaysSays(db: Postgres)
    ensures var always := [("host", db.host), ("user", db.user), ("port", Decimal(db.port))];
            && NoKeyTwice(always) && KnownKeys(always)
            && forall q :: Lookup(always, q) ==
                 if q == "host" then Some(db.host) else if q == "user" then Some(db.user)
                 else if q == "port" then Some(Decimal(db.port)) else None
  {
    hide Decimal;
    var always := [("host", db.host), ("user", db.user), ("port", Decimal(db.port))];
    var rest := always[1..];
    assert rest == [("user", db.user), ("port", Decimal(db.port))];
    var last := rest[1..];
    assert last == [("port", Decimal(db.port))] && last[1..] == [];
    assert "host"[0] == 'h' && "user"[0] == 'u' && "port"[0] == 'p';
    forall q ensures Lookup(always, q) ==
                       if q == "host" then Some(db.host) else if q == "user" then Some(db.user)
                       else if q == "port" then Some(Decimal(db.port)) else None
    {
      assert Lookup(always, q) == if q == "host" then Some(db.host) else Lookup(rest, q);
      assert Lookup(rest, q) == if q == "user" then Some(db.user) else Lookup(last, q);
      assert Lookup(last, q) == if q == "port" then Some(Decimal(db.port)) else Lookup([], q);
    }
  }

  /** What a connection string is made of says what the settings say, whatever they are. */
  lemma PairsSay(db: Postgres, home: string)
    ensures Says(Pairs(db, home), db, CertPath(home, db, ".ca"), CertPath(home, db, ".crt"), CertPath(home, db, ".key"))
  {
    AlwaysSays(db);
    DecimalRoundTrip(db.port);
    KeysDiffer();
    var ca, crt, key := CertPath(home, db, ".ca"), CertPath(home, db, ".crt"), CertPath(home, db, ".key");
    hide CertPath, Decimal, Lookup, Optional, NoKeyTwice;
    var a := [("host", db.host), ("user", db.user), ("port", Decimal(db.port))];
    OneMoreKey(a, db.name, "dbname", db.name);
    var b := a + Optional(db.name, "dbname", db.name);
    OneMoreKey(b, db.password, "password", db.password);
    var c := b + Optional(db.password, "password", db.password);
    OneMoreKey(c, db.sslMode, "sslmode", db.sslMode);
    var e := c + Optional(db.sslMode, "sslmode", db.sslMode);
    OneMoreKey(e, db.caCert, "sslrootcert", ca);
    var f := e + Optional(db.caCert, "sslrootcert", ca);
    OneMoreKey(f, db.userCert, "sslcert", crt);
    var g := f + Optional(db.userCert, "sslcert", crt);
    OneMoreKey(g, db.userKey, "sslkey", key);
  }

  lemma KeysDiffer()
    ensures "host" != "dbname" && "user" != "dbname" && "port" != "dbname"
  {
  }

  function Item(kv: (string, string)): string {
    kv.0 + "=" + kv.1
  }

  function Items(kvs: seq<(string, string)>): (items: seq<string>)
    ensures |items| == |kvs|
  {
    seq(|kvs|, i requires 0 <= i < |kvs| => Item(kvs[i]))
  }

  function Printed(kvs: seq<(string, string)>): string {
    Join(Items(kvs), " ")
  }

  // ---- round trip ----

  /** A value that needs no quoting. */
  predicate Plain(v: string) {
    v != "" && forall c :: c in v ==> !IsBlank(c) && c != '\'' && c != '\\'
  }

  predicate IsKey(k: string) {
    k != "" && forall c :: c in k ==> !IsBlank(c) && c != '='
  }

  lemma {:induction false} ReadKeyExact(k: string, rest: string)
    requires forall c :: c in k ==> !IsBlank(c) && c != '='
    requires rest != "" && rest[0] == '='
    ensures ReadKey(k + rest) == (k, rest)
  {
    if k == "" {
      assert k + rest == rest;
    } else {
      assert (k + rest)[1..] == k[1..] + rest && k[0] in k;
      ReadKeyExact(k[1..], rest);
      assert [k[0]] + k[1..] == k;
    }
  }

  lemma {:induction false} ReadPlainExact(v: string, rest: string)
    requires forall c :: c in v ==> !IsBlank(c) && c != '\\'
    requires rest == "" || IsBlank(rest[0])
    ensures ReadPlain(v + rest) == (v, rest)
  {
    if v == "" {
      assert v + rest == rest;
    } else {
      assert (v + rest)[1..] == v[1..] + rest && v[0] in v;
      ReadPlainExact(v[1..], rest);
      assert [v[0]] + v[1..] == v;
    }
  }

  lemma ParseItem(kv: (string, string), rest: string)
    requires IsKey(kv.0) && Plain(kv.1)
    requires rest == "" || rest[0] == ' '
    ensures Parse(Item(kv) + rest) == if Parse(rest).Some? then Some([kv] + Parse(rest).value) else None
  {
    var (k, v) := kv;
    var s := Item(kv) + rest;
    assert k[0] in k && v[0] in v;
    assert s == k + (['='] + (v + rest));
    assert SkipBlanks(s) == s;
    ReadKeyExact(k, ['='] + (v + rest));
    ReadPlainExact(v, rest);
    assert (['='] + (v + rest))[1..] == v + rest;
    hide ReadKey, ReadPlain, ReadQuoted;
  }

  lemma ParseBlank(rest: string)
    ensures Parse(" " + rest) == Parse(rest)
  {
    assert (" " + rest)[1..] == rest;
    assert SkipBlanks(" " + rest) == SkipBlanks(rest);
  }

  lemma {:induction false} ParsePrinted(kvs: seq<(string, string)>)
    requires Readable(kvs)
    ensures Parse(Printed(kvs)) == Some(kvs)
  {
    hide Parse, Item, IsKey, Plain;
    if kvs == [] {
      assert Parse("") == Some([]) by { ParseNothing(); }
    } else if |kvs| == 1 {
      ParseNothing();
      ParseItem(kvs[0], "");
      assert Printed(kvs) == Item(kvs[0]) + "";
      assert [kvs[0]] + [] == kvs;
    } else {
      ParsePrinted(kvs[1..]);
      assert Items(kvs)[1..] == Items(kvs[1..]);
      assert Printed(kvs) == Item(kvs[0]) + (" " + Printed(kvs[1..]));
      ParseBlank(Printed(kvs[1..]));
      ParseItem(kvs[0], " " + Printed(kvs[1..]));
      assert [kvs[0]] + kvs[1..] == kvs;
    }
  }

  lemma ParseNothing()
    ensures Parse("") == Some([])
  {
  }

  /** Settings whose values need no quoting. */
  predicate PlainSettings(db: Postgres, home: string) {
    && Plain(db.host) && Plain(db.user)
    && (db.name != "" ==> Plain(db.name))
    && (db.password != "" ==> Plain(db.password))
    && (db.sslMode != "" ==> Plain(db.sslMode))
    && (home != "" ==> Plain(home))
  }

  /** Connection-string round trip: the reader gets exactly the configured keys and values
      back, in order, with the port as configured and optional keys exactly when set. */
  lemma ConnStringRoundTrip(db: Postgres, home: string)
    requires PlainSettings(db, home)
    ensures Parse(Printed(Pairs(db, home))) == Some(Pairs(db, home))
    ensures DecimalValue(Pairs(db, home)[2].1) == db.port
  {
    DecimalRoundTrip(db.port);
    PlainPath(db, home, ".ca");
    PlainPath(db, home, ".crt");
    PlainPath(db, home, ".key");
    assert Plain(Decimal(db.port));
    KeysAreKeys();
    hide Parse, CertPath, Decimal, IsKey, Plain, Printed;
    var always := [("host", db.host), ("user", db.user), ("port", Decimal(db.port))];
    assert Readable(always);
    hide Readable;
    ReadableOptional(always, db.name, "dbname", db.name);
    var named := always + Optional(db.name, "dbname", db.name);
    ReadableOptional(named, db.password, "password", db.password);
    var withPassword := named + Optional(db.password, "password", db.password);
    ReadableOptional(withPassword, db.sslMode, "sslmode", db.sslMode);
    var withMode := withPassword + Optional(db.sslMode, "sslmode", db.sslMode);
    ReadableOptional(withMode, db.caCert, "sslrootcert", CertPath(home, db, ".ca"));
    var withCa := withMode + Optional(db.caCert, "sslrootcert", CertPath(home, db, ".ca"));
    ReadableOptional(withCa, db.userCert, "sslcert", CertPath(home, db, ".crt"));
    var withCert := withCa + Optional(db.userCert, "sslcert", CertPath(home, db, ".crt"));
    ReadableOptional(withCert, db.userKey, "sslkey", CertPath(home, db, ".key"));
    ParsePrinted(Pairs(db, home));
    assert Pairs(db, home)[..3] == always && Pairs(db, home)[2] == always[2];
  }

  predicate Readable(kvs: seq<(string, string)>) {
    forall kv :: kv in kvs ==> IsKey(kv.0) && Plain(kv.1)
  }

  lemma ReadableOptional(kvs: seq<(string, string)>, setting: string, k: string, v: string)
    requires Readable(kvs) && IsKey(k) && (setting != "" ==> Plain(v))
    ensures Readable(kvs + Optional(setting, k, v))
  {
    hide IsKey, Plain;
  }

  lemma KeysAreKeys()
    ensures IsKey("host") && IsKey("user") && IsKey("port") && IsKey("dbname") && IsKey("password") && IsKey("sslmode")
    ensures IsKey("sslrootcert") && IsKey("sslcert") && IsKey("sslkey")
  {
  }

  lemma PlainAppend(a: string, b: string)
    requires (a == "" || Plain(a)) && Plain(b)
    ensures Plain(a + b)
  {
  }

  lemma PlainPath(db: Postgres, home: string, extension: string)
    requires PlainSettings(db, home) && (extension == ".ca" || extension == ".crt" || extension == ".key")
    ensures Plain(CertPath(home, db, extension))
  {
    PlainAppend(home, "/postgres-certs/");
    PlainAppend(home + "/postgres-certs/", db.host);
    PlainAppend(home + "/postgres-certs/" + db.host, "/");
    var a := home + "/postgres-certs/" + db.host + "/";
    assert Plain(a + db.name) by { if db.name == "" { assert a + db.name == a; } else { PlainAppend(a, db.name); } }
    PlainAppend(a + db.name, "_");
    PlainAppend(a + db.name + "_", db.user);
    PlainAppend(a + db.name + "_" + db.user, extension);
  }
}
