/** pkg/database/postgresql/config.go: connection settings and the certificate files that
    live as long as a connection does. */
module Configuration {
  import opened Text
  import opened Quoting
  import opened Resources
  import opened ConnString
  import opened Environment
  import opened Host

  type Files = map<string, string>

  /** The three certificate paths of a connection. */
  function CertPaths(home: string, db: Postgres): set<string> {
    {CertPath(home, db, ".ca"), CertPath(home, db, ".crt"), CertPath(home, db, ".key")}
  }

  function WithFile(files: Files, path: string, data: string): Files {
    if data != "" then files[path := data] else files
  }

  /** The files after the first `n` certificates, of those that are set, have been written. */
  function WithFirst(files: Files, home: string, db: Postgres, n: nat): Files {
    var a := if n > 0 then WithFile(files, CertPath(home, db, ".ca"), db.caCert) else files;
    var b := if n > 1 then WithFile(a, CertPath(home, db, ".crt"), db.userCert) else a;
    if n > 2 then WithFile(b, CertPath(home, db, ".key"), db.userKey) else b
  }

  /** The paths differ in their extensions only, and tell the server, the database and the user. */
  predicate OnePlace(home: string, db: Postgres, ca: string, crt: string, key: string) {
    var stem := home + "/postgres-certs/" + db.host + "/" + db.name + "_" + db.user;
    ca == stem + ".ca" && crt == stem + ".crt" && key == stem + ".key"
  }

  /** What a reader learns from the string. */
  lemma StringSays(db: Postgres, home: string)
    requires PlainSettings(db, home)
    ensures var kvs := Parse(Printed(Pairs(db, home)));
            kvs.Some? &&
            Says(kvs.value, db, CertPath(home, db, ".ca"), CertPath(home, db, ".crt"), CertPath(home, db, ".key"))
  {
    hide *;
    PairsSay(db, home);
    ConnStringRoundTrip(db, home);
  }

  /** One certificate after another. */
  lemma FirstSteps(files: Files, home: string, db: Postgres)
    ensures WithFirst(files, home, db, 0) == files
    ensures WithFirst(files, home, db, 1) == WithFile(files, CertPath(home, db, ".ca"), db.caCert)
    ensures WithFirst(files, home, db, 2) ==
            WithFile(WithFirst(files, home, db, 1), CertPath(home, db, ".crt"), db.userCert)
    ensures WithFirst(files, home, db, 3) ==
            WithFile(WithFirst(files, home, db, 2), CertPath(home, db, ".key"), db.userKey)
  {
  }

  /** The files once the connection string has been made. */
  function WithCerts(files: Files, home: string, db: Postgres): Files {
    WithFirst(files, home, db, 3)
  }

  predicate Has(files: Files, path: string, data: string) {
    path in files && files[path] == data
  }

  predicate SameFile(a: Files, b: Files, path: string) {
    if path in a then Has(b, path, a[path]) else path !in b
  }

  /** After the first `n` certificates have been dealt with: those of them that are set are on
      disk, each at its own path with its own contents, and every other file is as before. */
  ghost predicate CertsOnDisk(before: Files, after: Files, db: Postgres, ca: string, crt: string, key: string, n: nat) {
    && (n > 0 && db.caCert != "" ==> Has(after, ca, db.caCert))
    && (n > 1 && db.userCert != "" ==> Has(after, crt, db.userCert))
    && (n > 2 && db.userKey != "" ==> Has(after, key, db.userKey))
    && forall path :: path !in PathsOfFirst(db, ca, crt, key, n) ==> SameFile(before, after, path)
  }

  function PathsOfFirst(db: Postgres, ca: string, crt: string, key: string, n: nat): set<string> {
    (if n > 0 && db.caCert != "" then {ca} else {})
    + (if n > 1 && db.userCert != "" then {crt} else {})
    + (if n > 2 && db.userKey != "" then {key} else {})
  }

  lemma FirstOnDisk(files: Files, home: string, db: Postgres, n: nat)
    ensures CertsOnDisk(files, WithFirst(files, home, db, n), db, CertPath(home, db, ".ca"), CertPath(home, db, ".crt"),
                        CertPath(home, db, ".key"), n)
  {
    PathsDiffer(home, db);
    hide CertPath;
  }

  /** The paths that the connection string names. */
  function NamedFiles(home: string, db: Postgres): set<string> {
    (if db.caCert != "" then {CertPath(home, db, ".ca")} else {})
    + (if db.userCert != "" then {CertPath(home, db, ".crt")} else {})
    + (if db.userKey != "" then {CertPath(home, db, ".key")} else {})
  }

  lemma NamedFilesAreWritten(files: Files, home: string, db: Postgres)
    ensures NamedFiles(home, db) <= CertPaths(home, db)
    ensures NamedFiles(home, db) <= WithCerts(files, home, db).Keys
    ensures NamedFiles(home, db) == {} <==> !db.NamesFiles()
  {
    hide CertPath;
    if db.NamesFiles() {
      var e := if db.caCert != "" then ".ca" else if db.userCert != "" then ".crt" else ".key";
      assert CertPath(home, db, e) in NamedFiles(home, db);
    }
  }

  /** One of the first `n` certificates is set. */
  predicate WritesAny(db: Postgres, n: nat) {
    (n > 0 && db.caCert != "") || (n > 1 && db.userCert != "") || (n > 2 && db.userKey != "")
  }

  /** A connection that was not made leaves certificate paths occupied exactly when one of
      the certificates that came before the failure is set. */
  lemma OccupiedExactly(files: Files, home: string, db: Postgres, n: nat)
    requires files.Keys !! CertPaths(home, db)
    ensures !(WithFirst(files, home, db, n).Keys !! CertPaths(home, db)) <==> WritesAny(db, n)
  {
    hide CertPath;
    var after := WithFirst(files, home, db, n);
    if n > 0 && db.caCert != "" {
      assert CertPath(home, db, ".ca") in after.Keys && CertPath(home, db, ".ca") in CertPaths(home, db);
    } else if n > 1 && db.userCert != "" {
      assert CertPath(home, db, ".crt") in after.Keys && CertPath(home, db, ".crt") in CertPaths(home, db);
    } else if n > 2 && db.userKey != "" {
      assert CertPath(home, db, ".key") in after.Keys && CertPath(home, db, ".key") in CertPaths(home, db);
    } else {
      assert after == files;
    }
  }

  lemma FirstOutside(files: Files, home: string, db: Postgres, n: nat)
    ensures SameOutside(files, WithFirst(files, home, db, n), CertPaths(home, db))
  {
    hide CertPath;
  }

  /** Files outside `paths` are the same in both. */
  predicate SameOutside(a: Files, b: Files, paths: set<string>) {
    a - paths == b - paths
  }

  lemma ThreeItems(host: string, user: string, port: string)
    ensures Items([("host", host), ("user", user), ("port", port)]) == ["host=" + host, "user=" + user, "port=" + port]
  {
    assert Item(("host", host)) == "host=" + host;
    assert Item(("user", user)) == "user=" + user;
    assert Item(("port", port)) == "port=" + port;
  }

  lemma PrintedIsJoin(kvs: seq<(string, string)>)
    ensures Printed(kvs) == Join(Items(kvs), " ")
  {
  }

  class Config {
    /** The exported fields. */
    var settings: Postgres
    var createCertificates: bool
    var sslCACertFile: string
    var sslUserCertFile: string
    var sslUserKeyFile: string

    constructor (settings: Postgres)
      ensures this.settings == settings && !createCertificates
    {
      this.settings := settings;
      createCertificates := false;
      sslCACertFile, sslUserCertFile, sslUserKeyFile := "", "", "";
    }

    /** The state `ConnString` leaves behind when it succeeds. */
    ghost predicate Prepared(home: string)
      reads this
    {
      && createCertificates == settings.IssuesCertificates()
      && {sslCACertFile, sslUserCertFile, sslUserKeyFile} == CertPaths(home, settings)
    }

    /** `Copy` keeps what the original has; connecting the copy prepares it for its own settings. */
    ghost predicate Preparable()
      reads this
    {
      createCertificates ==> settings.IssuesCertificates()
    }

    /** `written` counts the certificates dealt with before the end or the first failure. */
    method ConnString(os: Host) returns (r: string, err: Error, ghost written: nat)
      requires Preparable()
      modifies this, os`files, os.env
      ensures settings == old(settings) && Preparable()
      ensures OnePlace(os.home, settings, sslCACertFile, sslUserCertFile, sslUserKeyFile)
      ensures err == NoError && PlainSettings(settings, os.home) ==>
                Parse(r).Some? && Says(Parse(r).value, settings, sslCACertFile, sslUserCertFile, sslUserKeyFile)
      ensures CertsOnDisk(old(os.files), os.files, settings, sslCACertFile, sslUserCertFile, sslUserKeyFile, written)
      ensures err == NoError ==> os.Untroubled(old(os.env.troubles), old(os.env.pending))
      ensures err != NoError ==> os.env.troubles == old(os.env.troubles) + [FileNotWritten] && os.env.pending
      ensures err == NoError ==> r == Printed(Pairs(settings, os.home)) && Prepared(os.home)
      ensures err != NoError ==> r == "" && err == Failure
      ensures err == NoError ==> (createCertificates <==> settings.userCert != "" || settings.userKey != "")
      ensures written <= 3 && (err == NoError <==> written == 3)
      ensures os.files == WithFirst(old(os.files), os.home, settings, written)
    {
      hide Item, CertPath, WithFile, Printed, Join, CertsOnDisk, Says, Parse, PlainSettings, Readable, WithFirst,
           OnePlace, PlainPairs, Optional;
      r := "";
      CertPathStem(os.home, settings);
      var connSlice := PlainItems();
      sslCACertFile := CertPath(os.home, settings, ".ca");
      sslUserCertFile := CertPath(os.home, settings, ".crt");
      sslUserKeyFile := CertPath(os.home, settings, ".key");
      ghost var pairs := PlainPairs(settings);
      ghost var files := os.files;
      FirstSteps(files, os.home, settings);

      written := 0;
      connSlice, err := AddCert(os, connSlice, pairs, "sslrootcert", settings.caCert, sslCACertFile);
      if err != NoError {
        FirstOnDisk(files, os.home, settings, written);
        return;
      }
      written := 1;
      pairs := pairs + Optional(settings.caCert, "sslrootcert", sslCACertFile);

      createCertificates := createCertificates || settings.userCert != "";
      connSlice, err := AddCert(os, connSlice, pairs, "sslcert", settings.userCert, sslUserCertFile);
      if err != NoError {
        FirstOnDisk(files, os.home, settings, written);
        return;
      }
      written := 2;
      pairs := pairs + Optional(settings.userCert, "sslcert", sslUserCertFile);

      createCertificates := createCertificates || settings.userKey != "";
      connSlice, err := AddCert(os, connSlice, pairs, "sslkey", settings.userKey, sslUserKeyFile);
      if err != NoError {
        FirstOnDisk(files, os.home, settings, written);
        return;
      }
      written := 3;
      pairs := pairs + Optional(settings.userKey, "sslkey", sslUserKeyFile);
      FirstOnDisk(files, os.home, settings, written);

      assert pairs == Pairs(settings, os.home);
      assert Printed(pairs) == Join(connSlice, " ") by { PrintedIsJoin(pairs); }
      r := Join(connSlice, " ");
      if PlainSettings(settings, os.home) { StringSays(settings, os.home); }
    }

    /** The part of the string that needs no files. */
    method PlainItems() returns (connSlice: seq<string>)
      ensures connSlice == Items(PlainPairs(settings))
    {
      ghost var pairs := [("host", settings.host), ("user", settings.user), ("port", Decimal(settings.port))];
      connSlice := ["host=" + settings.host, "user=" + settings.user, "port=" + Decimal(settings.port)];
      assert connSlice == Items(pairs) by { ThreeItems(settings.host, settings.user, Decimal(settings.port)); }
      hide Item, Decimal;
      connSlice := AppendOptional(connSlice, pairs, "dbname", settings.name, settings.name);
      pairs := pairs + Optional(settings.name, "dbname", settings.name);
      connSlice := AppendOptional(connSlice, pairs, "password", settings.password, settings.password);
      pairs := pairs + Optional(settings.password, "password", settings.password);
      connSlice := AppendOptional(connSlice, pairs, "sslmode", settings.sslMode, settings.sslMode);
    }

    /** Writes a certificate that is set; nothing to do for one that is not. */
    static method CreateCertFile(os: Host, path: string, data: string) returns (err: Error)
      modifies os`files, os.env
      ensures err == NoError || err == Failure
      ensures os.files == if err == NoError && data != "" then old(os.files)[path := data] else old(os.files)
      ensures err == NoError ==> os.files == WithFile(old(os.files), path, data)
      ensures err != NoError ==> os.files == old(os.files)
      ensures err == NoError ==> os.Untroubled(old(os.env.troubles), old(os.env.pending))
      ensures err != NoError ==> os.env.troubles == old(os.env.troubles) + [FileNotWritten] && os.env.pending
    {
      err := NoError;
      if data != "" {
        err := os.WriteFile(path, data);
      }
    }

    /** A certificate that is set is written and named. */
    static method AddCert(os: Host, items: seq<string>, ghost pairs: seq<(string, string)>, key: string, data: string,
                          path: string)
      returns (r: seq<string>, err: Error)
      requires items == Items(pairs)
      modifies os`files, os.env
      ensures err == NoError || err == Failure
      ensures err == NoError ==> r == Items(pairs + Optional(data, key, path))
      ensures os.files == if err == NoError then WithFile(old(os.files), path, data) else old(os.files)
      ensures err == NoError ==> os.Untroubled(old(os.env.troubles), old(os.env.pending))
      ensures err != NoError ==> os.env.troubles == old(os.env.troubles) + [FileNotWritten] && os.env.pending
    {
      r := items;
      err := CreateCertFile(os, path, data);
      if err != NoError { return; }
      r := AppendOptional(items, pairs, key, data, path);
    }

    static method AppendOptional(items: seq<string>, ghost pairs: seq<(string, string)>, key: string, setting: string,
                                 value: string)
      returns (r: seq<string>)
      requires items == Items(pairs)
      ensures r == Items(pairs + Optional(setting, key, value))
    {
      r := if setting != "" then items + [key + "=" + value] else items;
      assert setting == "" ==> pairs + [] == pairs;
    }

    /** The deferred removals run in reverse order and never fail. */
    method Close(os: Host)
      modifies os`files
      ensures os.files == old(os.files) - {sslCACertFile, sslUserCertFile, sslUserKeyFile}
    {
      os.Remove(sslUserKeyFile);
      os.Remove(sslUserCertFile);
      os.Remove(sslCACertFile);
    }

    method Copy() returns (c: Config)
      ensures fresh(c) && c.settings == settings && c.createCertificates == createCertificates
      ensures c.sslCACertFile == sslCACertFile && c.sslUserCertFile == sslUserCertFile &&
              c.sslUserKeyFile == sslUserKeyFile
    {
      c := new Config(settings);
      c.createCertificates := createCertificates;
      c.sslCACertFile, c.sslUserCertFile, c.sslUserKeyFile := sslCACertFile, sslUserCertFile, sslUserKeyFile;
    }
  }

  // ---- files of nested connections ----

  lemma ConcatCancel(a: string, x: string, y: string, b: string)
    requires a + x + b == a + y + b
    ensures x == y
  {
    assert |x| == |y|;
    forall i | 0 <= i < |x| ensures x[i] == y[i] {
      assert (a + x + b)[|a| + i] == x[i] && (a + y + b)[|a| + i] == y[i];
    }
  }

  lemma CertPathShape(home: string, db: Postgres, extension: string)
    ensures CertPath(home, db, extension) ==
            (home + "/postgres-certs/" + db.host + "/") + db.name + ("_" + db.user + extension)
  {
  }

  lemma ExtensionsDiffer(a: string, b: string)
    ensures a + ".ca" != b + ".crt" && a + ".ca" != b + ".key" && a + ".crt" != b + ".key"
  {
    var x, y, z := a + ".ca", b + ".crt", b + ".key";
    assert x[|x| - 1] == 'a' && y[|y| - 1] == 't' && z[|z| - 1] == 'y';
    assert (a + ".crt")[|a + ".crt"| - 1] == 't';
  }

  lemma CertPathStem(home: string, db: Postgres)
    ensures OnePlace(home, db, CertPath(home, db, ".ca"), CertPath(home, db, ".crt"), CertPath(home, db, ".key"))
  {
  }

  lemma PathsDiffer(home: string, db: Postgres)
    ensures CertPath(home, db, ".ca") != CertPath(home, db, ".crt")
    ensures CertPath(home, db, ".ca") != CertPath(home, db, ".key")
    ensures CertPath(home, db, ".crt") != CertPath(home, db, ".key")
  {
    var stem := home + "/postgres-certs/" + db.host + "/" + db.name + "_" + db.user;
    ExtensionsDiffer(stem, stem);
  }

  /** Connections to one server as one user share certificate paths exactly when they are
      to the same database. */
  lemma CertPathsDisjoint(home: string, db: Postgres, name: string)
    ensures CertPaths(home, db.(name := name)) !! CertPaths(home, db) <==> name != db.name
  {
    var other := db.(name := name);
    if name != db.name {
      forall e | e == ".ca" || e == ".crt" || e == ".key" ensures CertPath(home, other, e) != CertPath(home, db, e) {
        CertPathShape(home, other, e);
        CertPathShape(home, db, e);
        if CertPath(home, other, e) == CertPath(home, db, e) {
          ConcatCancel(home + "/postgres-certs/" + db.host + "/", name, db.name, "_" + db.user + e);
        }
      }
      var a := home + "/postgres-certs/" + db.host + "/" + db.name + "_" + db.user;
      var b := home + "/postgres-certs/" + db.host + "/" + name + "_" + db.user;
      ExtensionsDiffer(a, b);
      ExtensionsDiffer(b, a);
    } else {
      assert other == db && CertPath(home, db, ".ca") in CertPaths(home, db);
    }
  }
}
