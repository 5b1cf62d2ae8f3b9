/** The PostgreSQL adapter (pkg/database/postgresql/postgresql.go) over its connections
    (pkg/database/connection/default.go), driving the protocol's statements. */
module Adapter {
  import opened Text
  import opened Quoting
  import opened Statements
  import opened Server
  import opened Plans
  import opened Resources
  import opened Protocol
  import opened ConnString
  import opened Environment
  import opened Host
  import opened Configuration
  import opened Endings
  import opened Cluster

  /** A certificate path of a connection the privilege loop may open. */
  function NestedPaths(home: string, db: Postgres, ps: seq<PrivilegeSpec>): set<string> {
    if ps == [] then {} else NestedPaths(home, db, ps[..|ps| - 1]) + NestedPath(home, db, ps[|ps| - 1])
  }

  function NestedPath(home: string, db: Postgres, p: PrivilegeSpec): set<string> {
    if p.InDatabase() then CertPaths(home, db.(name := p.database)) else {}
  }

  /** The nested connections' paths are apart from the outer ones exactly when no entry is
      executed on a connection to the outer database. */
  lemma {:induction false} NestedPathsApart(home: string, db: Postgres, ps: seq<PrivilegeSpec>)
    ensures NestedPaths(home, db, ps) !! CertPaths(home, db) <==> forall p :: p in ps && p.InDatabase() ==>
            p.database != db.name
    ensures (exists p :: p in ps && p.InDatabase() && p.database == db.name) ==>
            CertPaths(home, db) <= NestedPaths(home, db, ps)
    decreases |ps|
  {
    hide CertPaths;
    if ps != [] {
      var init, last := ps[..|ps| - 1], ps[|ps| - 1];
      assert ps == init + [last];
      NestedPathsApart(home, db, init);
      CertPathsDisjoint(home, db, last.database);
    }
  }

  /** What the loop leaves on disk: after `k` entries the files that the outer connection
      string names are all there exactly when no entry so far was executed on a second
      connection to the ref's own database; those that are there have not changed. */
  lemma OuterFilesSurvive(files: Files, home: string, r: Ref, k: nat)
    requires k <= |r.Privileges()| && NamedFiles(home, r.database) <= files.Keys
    ensures var after := files - NestedPaths(home, r.database, r.Privileges()[..k]);
            && (NamedFiles(home, r.database) <= after.Keys <==> !r.FilesGone(k))
            && (forall path :: path in NamedFiles(home, r.database) && path in after ==> after[path] == files[path])
  {
    var db, ps := r.database, r.Privileges();
    NestedPathsApart(home, db, ps[..k]);
    NamedFilesAreWritten(files, home, db);
    hide NestedPaths, CertPaths, NamedFiles;
    if r.FilesGone(k) {
      var j :| 0 <= j < k && j < |ps| && r.TakesFiles(ps[j]);
      assert ps[..k][j] == ps[j];
      var path :| path in NamedFiles(home, db);
      assert path in NestedPaths(home, db, ps[..k]);
    } else if db.NamesFiles() {
      forall p | p in ps[..k] && p.InDatabase() ensures p.database != db.name {
        var j :| 0 <= j < k && ps[..k][j] == p;
        assert !r.TakesFiles(ps[j]);
      }
    }
  }

  /** The whole loop over a ref in certificate mode: the files are there afterwards exactly
      when no entry is on an object in the ref's own database. */
  lemma LoopKeepsFiles(files: Files, home: string, r: Ref)
    requires r.database.NamesFiles() && NamedFiles(home, r.database) <= files.Keys
    ensures NamedFiles(home, r.database) <= (files - NestedPaths(home, r.database, r.Privileges())).Keys <==>
            forall p :: p in r.Privileges() && p.InDatabase() ==> p.database != r.database.name
  {
    var ps := r.Privileges();
    assert ps[..|ps|] == ps;
    OuterFilesSurvive(files, home, r, |ps|);
    hide NestedPaths, NamedFiles;
    if r.FilesGone(|ps|) {
      var j :| 0 <= j < |ps| && r.TakesFiles(ps[j]);
      assert ps[j] in ps;
    }
  }

  class Connection {
    const os: Host
    const cluster: Cluster
    var open: bool
    var handle: nat
    var target: Postgres

    constructor (os: Host, cluster: Cluster, target: Postgres)
      ensures this.os == os && this.cluster == cluster && !open
    {
      this.os, this.cluster, this.target := os, cluster, target;
      open, handle := false, 0;
    }

    /** This connection is the one opened last. */
    ghost predicate OnTop(below: seq<nat>)
      reads this, os
    {
      open && Stack(os.journal) == Some(below + [handle])
    }

    method Copy() returns (c: Connection)
      ensures fresh(c) && c.os == os && c.cluster == cluster && !c.open
    {
      c := new Connection(os, cluster, target);
    }

    method Connect(connString: string, target: Postgres) returns (err: Error)
      requires os.Valid() && !open && connString == Printed(Pairs(target, os.home))
      modifies this, os`journal, os`next, os.env
      ensures os.Valid() && (err == NoError || err == Failure)
      ensures err == NoError ==> os.Untroubled(old(os.env.troubles), old(os.env.pending))
      ensures err != NoError ==> os.env.troubles == old(os.env.troubles) + [ConnectionRefused] && os.env.pending
      ensures err == NoError ==> this.target == target && OnTop(old(Stack(os.journal)).value)
      ensures err == NoError ==> os.journal == old(os.journal) + [Opened(handle)]
      ensures err != NoError ==> !open && os.journal == old(os.journal)
    {
      var h, e := os.Dial(connString);
      err := e;
      if err == NoError {
        open, handle, this.target := true, h, target;
      }
    }

    method Close(ghost below: seq<nat>)
      requires os.Valid() && OnTop(below)
      modifies this`open, os`journal
      ensures os.Valid() && !open && Stack(os.journal) == Some(below)
      ensures os.journal == old(os.journal) + [Closed(handle)]
    {
      os.Hangup(handle);
      open := false;
    }

    /** The files that the connection string names are on disk. */
    predicate FilesHere()
      reads this, os
    {
      NamedFiles(os.home, target) <= os.files.Keys
    }

    /** No connection is kept idle: each statement reads the certificate files anew, and is
        sent if and only if they are there. `before` is what others have left. */
    method Exec(query: string) returns (err: Error, ghost before: State)
      requires open && cluster.Valid() && SendsStatement(cluster.s.pc)
      requires OpAt(cluster.d, cluster.s.pc) == Send(target.name, query)
      requires cluster.d.refs[cluster.s.pc.i].database.Address() == target.Address()
      requires OutOfReach(cluster.d, cluster.s.pc) <==> !FilesHere()
      modifies cluster, cluster.env
      ensures cluster.Since(old(cluster.Now())) && cluster.env.pending == old(cluster.env.pending)
      ensures cluster.s.pc == AfterStatement(cluster.d, old(cluster.s.pc), err)
      ensures Leaves(cluster.d, old(cluster.s), before)
      ensures old(FilesHere()) && err != Failure ==>
                (At(cluster.s.servers, target.Address()), err) ==
                    ExecText(At(before.servers, target.Address()), target.name, query)
      ensures !old(FilesHere()) ==> err == Failure && forall a :: At(cluster.s.servers, a) == At(before.servers, a)
    {
      hide Run, Init, AfterStatement, OpAt, ExecText, OutOfReach, Leaves, From;
      if FilesHere() {
        err, before := cluster.Exec(target.Address(), target.name, query);
      } else {
        err, before := cluster.Refuse();
      }
    }
  }

  lemma CertsRemoved(files: Files, home: string, db: Postgres)
    ensures WithCerts(files, home, db) - CertPaths(home, db) == files - CertPaths(home, db)
  {
    hide CertPath;
  }

  /** After `k` entries of the list. */
  function Next(d: Desired, give: bool, c: Copy, i: nat, k: nat): Pc
    requires i < |d.refs|
  {
    if give then NextGrant(d, c, i, k) else NextRevoke(d, c, i, k)
  }

  /** After an entry that failed; `gone` tells whether the outer certificate files are. */
  function Stopped(give: bool, c: Copy, i: nat, err: Error, gone: bool): Pc {
    if give then Abort(c) else if IsNotExists(err) then Drop(c, i, gone) else DeleteSecret(c, i, false)
  }

  lemma EntryOp(d: Desired, give: bool, c: Copy, i: nat, k: nat)
    requires i < |d.refs| && k < |d.refs[i].Privileges()|
    ensures var pc := Next(d, give, c, i, k);
            && SendsStatement(pc) && PcInRange(d, pc) && pc.i == i
            && OpAt(d, pc) == PrivilegeOp(d.refs[i].database.name, d.name, give, d.refs[i].Privileges()[k])
            && OutOfReach(d, pc) == (d.refs[i].FilesGone(k) && !d.refs[i].Privileges()[k].InDatabase())
    ensures forall err :: AfterStatement(d, Next(d, give, c, i, k), err) ==
                     if err == NoError then Next(d, give, c, i, k + 1)
                         else Stopped(give, c, i, err, d.refs[i].FilesGone(k + 1))
  {
    hide PrivilegeOp;
  }

  lemma {:induction false} MoreNestedPaths(home: string, db: Postgres, ps: seq<PrivilegeSpec>, k: nat)
    requires k <= |ps|
    ensures NestedPaths(home, db, ps[..k]) <= NestedPaths(home, db, ps)
    decreases |ps|
  {
    hide NestedPath;
    if k < |ps| {
      var init := ps[..|ps| - 1];
      assert ps[..k] == init[..k];
      MoreNestedPaths(home, db, init, k);
    } else {
      assert ps[..k] == ps;
    }
  }

  lemma SameOutsideRemoved(files: Files, paths: set<string>)
    ensures SameOutside(files, files - paths, paths)
  {
  }

  /** The files after entry `k`, given those after the first `k`. */
  lemma OneMoreEntry(files: Files, before: Files, after: Files, home: string, db: Postgres, ps: seq<PrivilegeSpec>,
                     k: nat)
    requires k < |ps| && before == files - NestedPaths(home, db, ps[..k])
    requires SameOutside(before, after, NestedPath(home, db, ps[k]))
    ensures SameOutside(files, after, NestedPaths(home, db, ps))
    ensures after == before - NestedPath(home, db, ps[k]) ==> after == files - NestedPaths(home, db, ps[..k + 1])
  {
    hide NestedPath;
    assert ps[..k + 1][..k] == ps[..k];
    MoreNestedPaths(home, db, ps, k + 1);
    var some, last, all := NestedPaths(home, db, ps[..k]), NestedPath(home, db, ps[k]), NestedPaths(home, db, ps);
    assert some + last <= all;
    hide NestedPaths;
    assert files - all == (before - last) - all;
    assert after - all == (after - last) - all;
  }

  lemma NoNestedPaths(home: string, db: Postgres)
    ensures NestedPaths(home, db, []) == {}
  {
  }

  lemma SameOutsideRefl(files: Files, paths: set<string>)
    ensures SameOutside(files, files, paths)
  {
  }

  lemma StoppedBy(give: bool, c: Copy, i: nat, err: Error, a: bool, b: bool)
    requires err != Failure ==> a == b
    ensures Stopped(give, c, i, err, a) == Stopped(give, c, i, err, b)
  {
  }

  class Postgresql {
    const db: Connection
    const config: Config

    constructor (db: Connection, config: Config)
      ensures this.db == db && this.config == config
    {
      this.db, this.config := db, config;
    }

    /** Everything happens in one environment, and nothing is left to be reported. */
    ghost predicate Settled()
      reads db.os.env
    {
      db.cluster.env == db.os.env && !db.os.env.pending
    }

    /** Connected on top of the connections `below`, with its certificate paths set. */
    ghost predicate Serves(below: seq<nat>)
      reads config, db, db.os, db.os.env
    {
      Settled() && db.os.Valid() && config.Prepared(db.os.home) && db.target == config.settings && db.OnTop(below)
    }

    /** The protocol is at a statement for this adapter's server. */
    ghost predicate Sending()
      reads config, db, db.cluster, db.cluster.closings, db.os.env
    {
      && Settled() && db.open && db.target == config.settings
      && db.cluster.Valid() && SendsStatement(db.cluster.s.pc) && PcInRange(db.cluster.d, db.cluster.s.pc)
      && db.cluster.d.refs[db.cluster.s.pc.i].database == config.settings
    }

    /** So does the protocol judge whether a statement of this connection can be sent. */
    ghost predicate InReach()
      requires Sending()
      reads config, db, db.cluster, db.cluster.closings, db.os, db.os.env
    {
      OutOfReach(db.cluster.d, db.cluster.s.pc) <==> !db.FilesHere()
    }

    /** `written` counts the certificates dealt with; with all three the string was made, and
        a failure is then the server's. */
    method Connect() returns (err: Error, ghost written: nat)
      requires Settled() && db.os.Valid() && !db.open && config.Preparable()
      modifies config, db, db.os`files, db.os`journal, db.os`next, db.os.env
      ensures err == NoError ==> db.os.Untroubled(old(db.os.env.troubles), false)
      ensures err != NoError ==>
                db.os.env.pending && NotConnected(old(db.os.env.troubles), db.os.env.troubles, written)
      ensures CertsOnDisk(old(db.os.files), db.os.files, config.settings, config.sslCACertFile, config.sslUserCertFile,
                          config.sslUserKeyFile, written)
      ensures config.settings == old(config.settings) && db.os.Valid() && (err == NoError || err == Failure)
      ensures err == NoError ==>
              Serves(old(Stack(db.os.journal)).value) && db.os.journal == old(db.os.journal) + [Opened(db.handle)]
      ensures err == NoError ==> written == 3 && db.FilesHere()
      ensures err != NoError ==> !db.open && db.os.journal == old(db.os.journal)
      ensures written <= 3 && db.os.files == WithFirst(old(db.os.files), db.os.home, config.settings, written)
    {
      hide Stack, Printed, WithFirst, CertPaths, NamedFiles, CertsOnDisk;
      var connString, e, n := config.ConnString(db.os);
      err, written := e, n;
      if err == NoError {
        err := db.Connect(connString, config.settings);
        NamedFilesAreWritten(old(db.os.files), db.os.home, config.settings);
      }
    }

    /** A connection is not made because of a file, or of the server once all files are written. */
    ghost predicate NotConnected(before: seq<Trouble>, after: seq<Trouble>, written: nat) {
      after == before + [if written < 3 then FileNotWritten else ConnectionRefused]
    }

    method Close(ghost below: seq<nat>)
      requires Serves(below)
      modifies db`open, db.os`files, db.os`journal
      ensures db.os.Valid() && !db.open && Stack(db.os.journal) == Some(below)
      ensures db.os.journal == old(db.os.journal) + [Closed(db.handle)]
      ensures db.os.files == old(db.os.files) - CertPaths(db.os.home, config.settings)
    {
      hide Stack, CertPath;
      config.Close(db.os);
      db.Close(below);
    }

    /** CREATE USER; certificates are made unless the user existed already. */
    method CreateUser(username: string, password: string) returns (cert: Option<nat>, err: Error)
      requires Sending() && db.cluster.s.pc.Create? && config.Prepared(db.os.home) && db.FilesHere()
      requires username == db.cluster.d.name && password == db.cluster.d.refs[db.cluster.s.pc.i].password
      modifies db.cluster, db.os.env
      ensures db.cluster.Since(old(db.cluster.Now())) && Settled()
      ensures var pc := old(db.cluster.s.pc);
              db.cluster.s.pc == if err != NoError then Abort(pc.copy)
                                 else if cert.Some? then LookupSecret(pc.copy, pc.i, cert.value)
                                 else NextGrant(db.cluster.d, pc.copy, pc.i, 0)
    {
      hide Run, Init, CreateUserQuery, Reached, NextGrant, From;
      ghost var d, start := db.cluster.d, db.cluster.Now();
      cert := None;
      var (query, logInfo) := CreateUserQuery(username, password);
      ghost var before;
      err, before := db.Exec(query);
      if config.createCertificates && !IsAlreadyExists(err) {
        ghost var sent := db.cluster.Now();
        if err != NoError {
          // Certificates are made here too, and dropped.
          var made: bool := *;
          if !made { err := Failure; }
        } else {
          err := db.cluster.Prepare();
          if err == NoError {
            var serial := db.cluster.Issued();
            cert := Some(serial);
            FromOn(d, start, sent, db.cluster.Now());
          } else {
            err := db.cluster.Fail();
            FromMeans(d, start, sent);
            FromTrouble(d, start, sent, db.cluster.Now());
          }
        }
      }
      err := IgnoreAlreadyExists(err);
    }

    method DeleteUser(username: string) returns (err: Error)
      requires Sending() && db.cluster.s.pc.Drop? && InReach() && username == db.cluster.d.name
      modifies db.cluster, db.os.env
      ensures db.cluster.Since(old(db.cluster.Now())) && Settled()
      ensures db.cluster.s.pc == DeleteSecret(old(db.cluster.s.pc).copy, old(db.cluster.s.pc).i, err == NoError)
    {
      hide Run, Init, DeleteUserQuery, Reached, From;
      ghost var before;
      err, before := db.Exec(DeleteUserQuery(username));
      err := IgnoreNotExists(err);
    }

    /** A statement on a connection of its own to `dbname`. */
    method InDatabasePrivilege(username: string, dbname: string, on: string, privilege: string, statement: string,
                               arg: string, ghost below: seq<nat>)
      returns (err: Error, ghost written: nat)
      requires Sending() && Serves(below) && !OutOfReach(db.cluster.d, db.cluster.s.pc)
      requires OpAt(db.cluster.d, db.cluster.s.pc) ==
              Send(dbname, PrepareStatement(statement, arg, username, dbname, on, privilege))
      modifies db.cluster, db.os`files, db.os`journal, db.os`next, db.os.env
      ensures db.cluster.Since(old(db.cluster.Now())) && Settled()
      ensures db.cluster.s.pc == AfterStatement(db.cluster.d, old(db.cluster.s.pc), err)
      ensures Serves(below) && old(db.os.journal) <= db.os.journal
      ensures var nested := config.settings.(name := dbname);
              if db.os.journal == old(db.os.journal)
              then err == Failure && written <= 3 &&
                  db.os.files == WithFirst(old(db.os.files), db.os.home, nested, written)
              else db.os.files == old(db.os.files) - CertPaths(db.os.home, nested)
    {
      hide Run, Init, PrepareStatement, Reached, AfterStatement, OpAt, OutOfReach, Stack, CertPaths, WithFirst,
           NamedFiles;
      hide Leaves, SameOwn, ExecText, SendsStatement, PcInRange, CertPath, CertsOnDisk, From, Host.Valid, EndingsOf,
           Cluster.Valid;
      InOrder(db.os);
      ghost var d, start := db.cluster.d, db.cluster.Now();
      FromSelf(d, start);
      var newconf := config.Copy();
      newconf.settings := newconf.settings.(name := dbname);
      var conn := db.Copy();
      var newP := new Postgresql(conn, newconf);
      err, written := newP.Connect();
      if err != NoError {
        err := db.cluster.Fail();
        FromTrouble(d, start, start, db.cluster.Now());
        return;
      }
      CertsRemoved(old(db.os.files), db.os.home, newconf.settings);
      var query := PrepareStatement(statement, arg, username, dbname, on, privilege);
      ghost var before;
      err, before := newP.db.Exec(query);
      newP.Close(below + [db.handle]);
    }

    /** A statement on the adapter's own connection. */
    method OwnPrivilege(username: string, dbname: string, privilege: string, statement: string, arg: string)
      returns (err: Error)
      requires Sending() && InReach()
      requires OpAt(db.cluster.d, db.cluster.s.pc) ==
              Send(db.target.name, PrepareStatement(statement, arg, username, dbname, "", privilege))
      modifies db.cluster, db.os.env
      ensures db.cluster.Since(old(db.cluster.Now())) && Settled()
      ensures db.cluster.s.pc == AfterStatement(db.cluster.d, old(db.cluster.s.pc), err)
    {
      hide Run, Init, PrepareStatement, Reached, AfterStatement, OpAt, OutOfReach, NamedFiles, From;
      ghost var before;
      err, before := db.Exec(PrepareStatement(statement, arg, username, dbname, "", privilege));
    }

    /** One entry of a privilege list. */
    method Privilege(username: string, p: PrivilegeSpec, statement: string, arg: string, ghost give: bool,
                     ghost below: seq<nat>)
      returns (err: Error)
      requires Sending() && Serves(below) && statement == Verb(give) && arg == Preposition(give)
      requires OpAt(db.cluster.d, db.cluster.s.pc) == PrivilegeOp(config.settings.name, username, give, p)
      requires OutOfReach(db.cluster.d, db.cluster.s.pc) <==> !p.InDatabase() && !db.FilesHere()
      modifies db.cluster, db.os`files, db.os`journal, db.os`next, db.os.env
      ensures db.cluster.Since(old(db.cluster.Now())) && Settled()
      ensures db.cluster.s.pc == AfterStatement(db.cluster.d, old(db.cluster.s.pc), err)
      ensures Serves(below) && old(db.os.journal) <= db.os.journal
      ensures SameOutside(old(db.os.files), db.os.files, NestedPath(db.os.home, config.settings, p))
      ensures err != Failure ==> db.os.files == old(db.os.files) - NestedPath(db.os.home, config.settings, p)
    {
      hide Run, Init, PrepareStatement, Reached, AfterStatement, OpAt, OutOfReach, Stack, CertPaths, WithFirst,
           NamedFiles, SameOutside, From;
      SameOutsideRefl(db.os.files, NestedPath(db.os.home, config.settings, p));
      if p.database != "" && p.on != "" && p.privilege != "" {
        ghost var written;
        err, written := InDatabasePrivilege(username, p.database, p.on, p.privilege, statement, arg, below);
        FirstOutside(old(db.os.files), db.os.home, config.settings.(name := p.database), written);
        SameOutsideRemoved(old(db.os.files), CertPaths(db.os.home, config.settings.(name := p.database)));
      } else if p.database != "" && p.privilege != "" {
        err := OwnPrivilege(username, p.database, p.privilege, statement, arg);
      } else if p.privilege != "" {
        err := OwnPrivilege(username, "", p.privilege, statement, arg);
      } else {
        ghost var before;
        err, before := db.cluster.Refuse();
      }
    }

    /** One entry after another, up to the first error. */
    method PrivilegesProcessor(username: string, privileges: seq<PrivilegeSpec>, statement: string, arg: string,
                               ghost give: bool, ghost c: Copy, ghost i: nat, ghost below: seq<nat>)
      returns (err: Error)
      requires Working(username, privileges, i, below) && db.FilesHere() && statement == Verb(give) &&
              arg == Preposition(give)
      requires db.cluster.s.pc == Next(db.cluster.d, give, c, i, 0)
      modifies db.cluster, db.os`files, db.os`journal, db.os`next, db.os.env
      ensures db.cluster.Since(old(db.cluster.Now())) && Settled()
      ensures db.cluster.s.pc ==
              if err == NoError then Next(db.cluster.d, give, c, i, |privileges|)
                  else Stopped(give, c, i, err, !db.FilesHere())
      ensures err == NoError ==> (db.FilesHere() <==> !db.cluster.d.refs[i].FilesGone(|privileges|))
      ensures Serves(below) && old(db.os.journal) <= db.os.journal
      ensures SameOutside(old(db.os.files), db.os.files, NestedPaths(db.os.home, config.settings, privileges))
      ensures err == NoError ==> db.os.files == old(db.os.files) - NestedPaths(db.os.home, config.settings, privileges)
    {
      hide Run, Init, Reached, AfterStatement, OpAt, OutOfReach, Stack, CertPaths, NestedPath, NestedPaths, NamedFiles,
           Next, Stopped, PrivilegeOp, SameOutside, From;
      ghost var d, start := db.cluster.d, db.cluster.Now();
      FromSelf(d, start);
      ghost var r := db.cluster.d.refs[i];
      ghost var files := db.os.files;
      assert db.os.files == files - NestedPaths(db.os.home, config.settings, privileges[..0]) by {
        NoNestedPaths(db.os.home, config.settings);
      }
      for k := 0 to |privileges|
        invariant Working(username, privileges, i, below) && db.cluster.Since(start)
        invariant db.cluster.s.pc == Next(db.cluster.d, give, c, i, k)
        invariant old(db.os.journal) <= db.os.journal
        invariant db.os.files == files - NestedPaths(db.os.home, config.settings, privileges[..k])
      {
        EntryOp(db.cluster.d, give, c, i, k);
        OuterFilesSurvive(files, db.os.home, r, k);
        ghost var before, entry := db.os.files, db.cluster.Now();
        err := Privilege(username, privileges[k], statement, arg, give, below);
        FromOn(d, start, entry, db.cluster.Now());
        OneMoreEntry(files, before, db.os.files, db.os.home, config.settings, privileges, k);
        OuterFilesSurvive(files, db.os.home, r, k + 1);
        if err != NoError {
          StoppedBy(give, c, i, err, r.FilesGone(k + 1), !db.FilesHere());
          return;
        }
      }
      OuterFilesSurvive(files, db.os.home, r, |privileges|);
      assert privileges[..|privileges|] == privileges;
      SameOutsideRemoved(files, NestedPaths(db.os.home, config.settings, privileges));
      err := NoError;
    }

    /** Connected for ref `i`, whose privileges are at hand. */
    ghost predicate Working(username: string, privileges: seq<PrivilegeSpec>, i: nat, below: seq<nat>)
      reads config, db, db.os, db.cluster, db.cluster.closings, db.os.env
    {
      && db.cluster.Valid() && Serves(below)
      && i < |db.cluster.d.refs| && db.cluster.d.refs[i].database == config.settings
      && username == db.cluster.d.name && privileges == db.cluster.d.refs[i].Privileges()
    }

    method ApplyPrivileges(username: string, privileges: seq<PrivilegeSpec>, ghost c: Copy, ghost i: nat,
                           ghost below: seq<nat>)
      returns (err: Error)
      requires Working(username, privileges, i, below) && db.FilesHere() &&
              db.cluster.s.pc == NextGrant(db.cluster.d, c, i, 0)
      modifies db.cluster, db.os`files, db.os`journal, db.os`next, db.os.env
      ensures db.cluster.Since(old(db.cluster.Now())) && Settled()
      ensures db.cluster.s.pc == if err == NoError then Advance(db.cluster.d, c, i + 1) else Abort(c)
      ensures Serves(below) && old(db.os.journal) <= db.os.journal
      ensures SameOutside(old(db.os.files), db.os.files, NestedPaths(db.os.home, config.settings, privileges))
      ensures err == NoError ==> db.os.files == old(db.os.files) - NestedPaths(db.os.home, config.settings, privileges)
    {
      hide Run, Init, Reached, Stack, CertPaths, NestedPaths, NamedFiles, Advance, Abort, From;
      err := PrivilegesProcessor(username, privileges, "GRANT", "TO", true, c, i, below);
    }

    /** A missing role or object counts as revoked. */
    method RevokePrivileges(username: string, privileges: seq<PrivilegeSpec>, ghost c: Copy, ghost i: nat,
                            ghost below: seq<nat>)
      returns (err: Error)
      requires Working(username, privileges, i, below) && db.FilesHere() &&
              db.cluster.s.pc == NextRevoke(db.cluster.d, c, i, 0)
      modifies db.cluster, db.os`files, db.os`journal, db.os`next, db.os.env
      ensures db.cluster.Since(old(db.cluster.Now())) && Settled()
      ensures db.cluster.s.pc == if err == NoError then Drop(c, i, !db.FilesHere()) else DeleteSecret(c, i, false)
      ensures Serves(below) && old(db.os.journal) <= db.os.journal
      ensures SameOutside(old(db.os.files), db.os.files, NestedPaths(db.os.home, config.settings, privileges))
    {
      hide Run, Init, Reached, Stack, CertPaths, NestedPaths, NamedFiles, From;
      err := PrivilegesProcessor(username, privileges, "REVOKE", "FROM", false, c, i, below);
      err := IgnoreNotExists(err);
    }
  }
}
