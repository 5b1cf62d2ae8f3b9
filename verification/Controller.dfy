/** controllers/user_controller.go. The methods follow the source; their contracts say that
    whatever fails, they walk the protocol, close what they open and clean up after it, and
    that they give up only when something went wrong or the server refused. */
module Controller {
  import opened Text
  import opened Quoting
  import opened Statements
  import opened Resources
  import opened Protocol
  import opened Safety
  import opened Convergence
  import opened Obstacles
  import opened Deletion
  import opened Outcomes
  import opened Endings
  import opened Environment
  import opened Host
  import opened Configuration
  import opened Cluster
  import opened Adapter

  /** Every path at which reconciling this ref may put a certificate. */
  function RefPaths(home: string, r: Ref): set<string> {
    CertPaths(home, r.database) + NestedPaths(home, r.database, r.Privileges())
  }

  lemma RefFiles(files: Files, connected: Files, used: Files, home: string, r: Ref)
    requires connected == WithCerts(files, home, r.database)
    requires SameOutside(connected, used, NestedPaths(home, r.database, r.Privileges()))
    ensures SameOutside(files, used - CertPaths(home, r.database), RefPaths(home, r))
    ensures used == connected - NestedPaths(home, r.database, r.Privileges()) ==>
              used - CertPaths(home, r.database) == files - RefPaths(home, r)
  {
    CertsRemoved(files, home, r.database);
    hide WithCerts, CertPaths, NestedPaths;
    var outer, nested := CertPaths(home, r.database), NestedPaths(home, r.database, r.Privileges());
    assert (used - outer) - (outer + nested) == (used - nested) - outer;
    assert files - (outer + nested) == (files - outer) - nested == (connected - outer) - nested;
    assert (connected - nested) - outer == (connected - outer) - nested;
  }

  lemma NotConnected(files: Files, home: string, r: Ref, n: nat)
    ensures SameOutside(files, WithFirst(files, home, r.database, n), RefPaths(home, r))
    ensures n == 0 ==> WithFirst(files, home, r.database, n) == files
    ensures files.Keys !! CertPaths(home, r.database) ==>
              (WithFirst(files, home, r.database, n).Keys !! CertPaths(home, r.database) <==> !WritesAny(r.database, n))
  {
    FirstOutside(files, home, r.database, n);
    if files.Keys !! CertPaths(home, r.database) { OccupiedExactly(files, home, r.database, n); }
    var after := WithFirst(files, home, r.database, n);
    assert n == 0 ==> after == files;
    hide WithFirst, CertPaths, NestedPaths, WritesAny;
    SameOutsideMore(files, after, CertPaths(home, r.database), RefPaths(home, r));
  }

  class UserReconciler {
    const os: Host
    const cluster: Cluster

    constructor (os: Host, cluster: Cluster)
      ensures this.os == os && this.cluster == cluster
    {
      this.os, this.cluster := os, cluster;
    }

    ghost predicate Valid()
      reads os, cluster, cluster.closings, os.env
    {
      os.Valid() && cluster.Valid() && cluster.env == os.env && !os.env.pending
    }

    /** The entries of all referenced lists, in order; an error means that a list could not be
        read. */
    method Privileges(lists: seq<seq<PrivilegeSpec>>) returns (privileges: seq<PrivilegeSpec>, err: Error)
      modifies cluster.env
      ensures err == NoError ==> privileges == Flatten(lists)
      ensures err == NoError ==> forall i :: 0 <= i < |lists| ==>
                privileges == Flatten(lists[..i]) + lists[i] + Flatten(lists[i + 1..])
      ensures err == NoError ==>
                cluster.env.troubles == old(cluster.env.troubles) && cluster.env.pending == old(cluster.env.pending)
      ensures err != NoError ==> err == Failure && cluster.env.pending
      ensures err != NoError ==> cluster.env.troubles == old(cluster.env.troubles) + [ReferenceNotRead]
    {
      privileges, err := [], NoError;
      for i := 0 to |lists|
        invariant privileges == Flatten(lists[..i]) && err == NoError
        invariant cluster.env.troubles == old(cluster.env.troubles) && cluster.env.pending == old(cluster.env.pending)
      {
        err := cluster.ReadReference();
        if err != NoError { return [], err; }
        privileges := privileges + lists[i];
        assert lists[..i + 1][..i] == lists[..i];
      }
      assert lists[..|lists|] == lists;
      forall i | 0 <= i < |lists|
        ensures privileges == Flatten(lists[..i]) + lists[i] + Flatten(lists[i + 1..])
      {
        FlattenAt(lists, i);
      }
    }

    /** The Database of a ref is read, and then its lists. */
    method References(dbRef: Ref) returns (privileges: seq<PrivilegeSpec>, err: Error)
      modifies cluster.env
      ensures err == NoError ==> privileges == Flatten(dbRef.lists)
      ensures err == NoError ==>
                cluster.env.troubles == old(cluster.env.troubles) && cluster.env.pending == old(cluster.env.pending)
      ensures err != NoError ==> err == Failure && cluster.env.pending
      ensures err != NoError ==> cluster.env.troubles == old(cluster.env.troubles) + [ReferenceNotRead]
    {
      privileges := [];
      err := cluster.ReadReference();
      if err == NoError {
        privileges, err := Privileges(dbRef.lists);
      }
    }

    method CreateUserInDatabase(db: Postgresql, user: User, ghost c: Copy, i: nat, ghost below: seq<nat>)
      returns (err: Error)
      requires Valid() && db.db.os == os && db.db.cluster == cluster && cluster.s.pc == Create(c, i)
      requires i < |cluster.d.refs| && db.Working(user.name, cluster.d.refs[i].Privileges(), i, below) &&
              db.db.FilesHere()
      modifies cluster, os.env
      ensures Valid() && cluster.Since(old(cluster.Now()))
      ensures cluster.s.pc == if err == NoError then NextGrant(cluster.d, c, i, 0) else Abort(c)
    {
      hide Run, Init, Reached, NextGrant, Abort, Stack, CertPaths, From;
      ghost var d, start := cluster.d, cluster.Now();
      FromSelf(d, start);
      err := cluster.ReadReference();
      if err != NoError {
        err := cluster.Fail();
        FromTrouble(d, start, start, cluster.Now());
        return;
      }
      var cert, e := db.CreateUser(user.name, cluster.d.refs[i].password);
      err := e;
      if err != NoError || cert == None { return; }
      ghost var created := cluster.Now();
      var lookup := cluster.GetSecret(cluster.d.refs[i].createdSecret);
      FromOn(d, start, created, cluster.Now());
      if lookup == NoError { return NoError; }
      ghost var missing := cluster.Now();
      err := cluster.Prepare();
      if err != NoError {
        err := cluster.Fail();
        FromMeans(d, start, missing);
        FromTrouble(d, start, missing, cluster.Now());
        return;
      }
      err := cluster.PostSecret(cluster.d.refs[i].createdSecret, cert.value);
      FromOn(d, start, missing, cluster.Now());
    }

    method DatabaseUserApply(db: Postgresql, user: User, privileges: seq<PrivilegeSpec>, ghost c: Copy, i: nat,
                             ghost below: seq<nat>)
      returns (err: Error)
      requires Valid() && db.db.os == os && db.db.cluster == cluster && cluster.s.pc == Create(c, i)
      requires db.Working(user.name, privileges, i, below) && db.db.FilesHere()
      modifies cluster, os`files, os`journal, os`next, os.env
      ensures Valid() && cluster.Since(old(cluster.Now()))
      ensures cluster.s.pc == if err == NoError then Advance(cluster.d, c, i + 1) else Abort(c)
      ensures db.Serves(below) && old(os.journal) <= os.journal
      ensures SameOutside(old(os.files), os.files, NestedPaths(os.home, db.config.settings, privileges))
      ensures err == NoError ==> os.files == old(os.files) - NestedPaths(os.home, db.config.settings, privileges)
    {
      hide Run, Init, Reached, NextGrant, Advance, Abort, Stack, CertPaths, NestedPaths, From;
      SameOutsideRefl(os.files, NestedPaths(os.home, db.config.settings, privileges));
      hide SameOutside;
      ghost var start := cluster.Now();
      err := CreateUserInDatabase(db, user, c, i, below);
      if err != NoError { return; }
      ghost var created := cluster.Now();
      err := db.ApplyPrivileges(user.name, privileges, c, i, below);
      FromOn(cluster.d, start, created, cluster.Now());
    }

    /** The created Secret is deleted on the way out, whatever happened. */
    method DatabaseUserDelete(db: Postgresql, user: User, privileges: seq<PrivilegeSpec>, ghost c: Copy, i: nat,
                              ghost below: seq<nat>)
      returns (err: Error)
      requires Valid() && db.db.os == os && db.db.cluster == cluster
      requires db.Working(user.name, privileges, i, below) && db.db.FilesHere() &&
              cluster.s.pc == NextRevoke(cluster.d, c, i, 0)
      modifies cluster, os`files, os`journal, os`next, os.env
      ensures Valid() && cluster.Since(old(cluster.Now()))
      ensures cluster.s.pc == if err == NoError then Advance(cluster.d, c, i + 1) else Abort(c)
      ensures db.Serves(below) && old(os.journal) <= os.journal
      ensures SameOutside(old(os.files), os.files, NestedPaths(os.home, db.config.settings, privileges))
    {
      hide Run, Init, Reached, NextRevoke, Advance, Abort, Stack, CertPaths, SameOutside, NestedPaths, From;
      ghost var d, start := cluster.d, cluster.Now();
      err := db.RevokePrivileges(user.name, privileges, c, i, below);
      ghost var revoked := cluster.Now();
      FromSelf(d, revoked);
      if err == NoError {
        err := db.DeleteUser(user.name);
      }
      FromOn(d, start, revoked, cluster.Now());
      ghost var dropped := cluster.Now();
      cluster.RemoveSecret(cluster.d.refs[i].createdSecret);
      FromOn(d, start, dropped, cluster.Now());
    }

    /** The database behind a ref (pkg/database/database.go), connected once its Secrets have
        been read. */
    method NewDatabase(settings: Postgres) returns (db: Postgresql, err: Error, ghost written: nat)
      requires Valid()
      modifies os`files, os`journal, os`next, os.env
      ensures fresh(db) && fresh(db.db) && fresh(db.config) && db.db.os == os && db.db.cluster == cluster
      ensures os.Valid() && db.config.settings == settings && (err == NoError || err == Failure)
      ensures err == NoError ==> os.Untroubled(old(os.env.troubles), false)
      ensures err != NoError ==> os.env.pending && old(os.env.troubles) < os.env.troubles
      ensures err == NoError ==> db.Serves(old(Stack(os.journal)).value) && db.db.FilesHere() && written == 3
      ensures err == NoError ==> os.journal == old(os.journal) + [Opened(db.db.handle)]
      ensures err != NoError ==> os.journal == old(os.journal)
      ensures written <= 3 && os.files == WithFirst(old(os.files), os.home, settings, written)
    {
      hide Stack, CertPaths, WithFirst, NamedFiles, WithFile, CertsOnDisk, Run, Init, Reached;
      var conn := new Connection(os, cluster, settings);
      var config := new Config(settings);
      db := new Postgresql(conn, config);
      written := 0;
      FirstSteps(os.files, os.home, settings);
      err := cluster.ReadReference();
      if err != NoError { return; }
      err, written := db.Connect();
    }

    /** What is done once the connection stands; it is closed whatever happened. */
    method WithDatabase(db: Postgresql, user: User, deleteRequest: bool, privileges: seq<PrivilegeSpec>, i: nat,
                        ghost below: seq<nat>, ghost files: Files)
      returns (err: Error)
      requires Valid() && db.db.os == os && db.db.cluster == cluster
      requires db.Working(user.name, privileges, i, below) && db.db.FilesHere()
      requires cluster.s.pc.Open? && cluster.s.pc.i == i && deleteRequest == cluster.s.pc.copy.deleting
      requires os.files == WithCerts(files, os.home, cluster.d.refs[i].database)
      modifies cluster, os`files, os`journal, os`next, os.env, db.db`open
      ensures Valid() && cluster.Since(old(cluster.Now()))
      ensures var c := old(cluster.s.pc).copy;
              cluster.s.pc == if err == NoError then Advance(cluster.d, c, i + 1) else Abort(c)
      ensures old(os.journal) < os.journal && Stack(os.journal) == Some(below)
      ensures os.files.Keys !! CertPaths(os.home, cluster.d.refs[i].database)
      ensures SameOutside(files, os.files, RefPaths(os.home, cluster.d.refs[i]))
      ensures err == NoError && !deleteRequest ==> os.files == files - RefPaths(os.home, cluster.d.refs[i])
    {
      hide Run, Init, Reached, NextRevoke, Advance, Abort, Stack, CertPaths, SameOutside, NestedPaths, NamedFiles,
           WithFirst, WithCerts, RefPaths, From, SameOwn, HandlesDistinct, PcInRange;
      ghost var d, start, c, connected := cluster.d, cluster.Now(), cluster.s.pc.copy, os.files;
      cluster.Connected();
      ghost var connecting := cluster.Now();
      if deleteRequest {
        err := DatabaseUserDelete(db, user, privileges, c, i, below);
      } else {
        err := DatabaseUserApply(db, user, privileges, c, i, below);
      }
      FromOn(d, start, connecting, cluster.Now());
      RefFiles(files, connected, os.files, os.home, cluster.d.refs[i]);
      db.Close(below);
    }

    /** One database ref: read what it refers to, connect, apply or delete, close. Its
        certificate paths are left occupied exactly when the connection was not made and one
        of the certificates `written` before that is set. */
    method DatabaseReconciler(user: User, deleteRequest: bool, i: nat) returns (err: Error, ghost written: nat)
      requires Valid() && user.name == cluster.d.name && i < |cluster.d.refs|
      requires cluster.s.pc.Open? && cluster.s.pc.i == i && deleteRequest == cluster.s.pc.copy.deleting
      modifies cluster, os`files, os`journal, os`next, os.env
      ensures Valid() && cluster.Since(old(cluster.Now()))
      ensures var c := old(cluster.s.pc).copy;
              cluster.s.pc == if err == NoError then Advance(cluster.d, c, i + 1) else Abort(c)
      ensures old(os.journal) <= os.journal && Stack(os.journal) == old(Stack(os.journal))
      ensures SameOutside(old(os.files), os.files, RefPaths(os.home, cluster.d.refs[i]))
      ensures os.journal == old(os.journal) ==>
                written <= 3 && os.files == WithFirst(old(os.files), os.home, cluster.d.refs[i].database, written)
      ensures var db := cluster.d.refs[i].database;
              old(os.files).Keys !! CertPaths(os.home, db) ==>
                (os.files.Keys !! CertPaths(os.home, db) <==> os.journal != old(os.journal) || !WritesAny(db, written))
      ensures err == NoError && !deleteRequest ==> os.files == old(os.files) - RefPaths(os.home, cluster.d.refs[i])
    {
      hide Run, Init, Reached, NextRevoke, Advance, Abort, Stack, CertPaths, SameOutside, NestedPaths, NamedFiles,
           WithFirst, WritesAny, RefPaths, From, Host.Valid;
      hide SameOwn, Flatten, HandlesDistinct, PcInRange;
      written := 0;
      ghost var c := cluster.s.pc.copy;
      ghost var d, start := cluster.d, cluster.Now();
      FromSelf(d, start);
      InOrder(os);
      ghost var below := Stack(os.journal).value;
      var dbRef := cluster.d.refs[i];
      NotConnected(os.files, os.home, dbRef, 0);
      var privileges, e := References(dbRef);
      err := e;
      if err != NoError {
        err := cluster.Fail();
        FromTrouble(d, start, start, cluster.Now());
        return;
      }

      var db, refused, n := NewDatabase(dbRef.database);
      err, written := refused, n;
      if err != NoError {
        NotConnected(old(os.files), os.home, dbRef, written);
        err := cluster.Fail();
        FromTrouble(d, start, start, cluster.Now());
        return;
      }
      err := WithDatabase(db, user, deleteRequest, privileges, i, below, old(os.files));
    }

    /** All refs in order, up to the first error. */
    method Databases(user: User, deleteRequest: bool, ghost c: Copy) returns (err: Error)
      requires Valid() && user.name == cluster.d.name
      requires cluster.s.pc == Advance(cluster.d, c, 0) && deleteRequest == c.deleting
      modifies cluster, os`files, os`journal, os`next, os.env
      ensures Valid() && cluster.Since(old(cluster.Now()))
      ensures cluster.s.pc == if err == NoError then Advance(cluster.d, c, |cluster.d.refs|) else Abort(c)
      ensures old(os.journal) <= os.journal && Stack(os.journal) == old(Stack(os.journal))
    {
      hide Run, Init, Reached, Abort, Stack, CertPaths, SameOutside, RefPaths, From;
      ghost var start := cluster.Now();
      FromSelf(cluster.d, start);
      for i := 0 to |cluster.d.refs|
        invariant Valid() && cluster.Since(start)
        invariant cluster.s.pc == Advance(cluster.d, c, i)
        invariant old(os.journal) <= os.journal && Stack(os.journal) == old(Stack(os.journal))
      {
        ghost var written, next := 0, cluster.Now();
        err, written := DatabaseReconciler(user, deleteRequest, i);
        FromOn(cluster.d, start, next, cluster.Now());
        if err != NoError { return; }
      }
      err := NoError;
    }

    /** Only a finished deletion, or nothing to delete, is reported as success of a deletion;
        an object that stays because of an error stays as it was unless something went wrong. */
    method ReconcileUser(user: User) returns (deleting: bool, err: Error)
      requires Valid() && user.name == cluster.d.name && cluster.s.pc == AfterRead(cluster.d, user.AsCopy())
      modifies cluster, os`files, os`journal, os`next, os.env, cluster.closings, user
      ensures Valid() && Went(cluster.d, old(cluster.run), cluster.run, old(os.env.troubles), os.env.troubles)
      ensures deleting == old(user.deleting) && user.ready == old(user.ready)
      ensures deleting ==> cluster.s.pc.Idle?
      ensures deleting && err == NoError ==> !old(user.finalizer) || Latest(cluster.s).Absent?
      ensures deleting && !old(user.finalizer) ==> err == NoError
      ensures !deleting || !old(user.finalizer) ==>
                NotEnded(old(cluster.closings.endings), old(cluster.closings.answers), cluster.closings)
      ensures deleting && old(user.finalizer) ==>
                || (err != NoError &&
                    NotEnded(old(cluster.closings.endings), old(cluster.closings.answers), cluster.closings))
                || EndedBy(Releasing, err, old(cluster.closings.endings), old(cluster.closings.answers),
                          cluster.closings)
      ensures deleting && err != NoError && old(Fresh(cluster.s)) && os.env.troubles == old(os.env.troubles) ==>
                Latest(cluster.s) == old(Latest(cluster.s))
      ensures !deleting && err != NoError ==>
              cluster.s.pc.WriteStatus? && !cluster.s.pc.value && user.version == cluster.s.pc.copy.version
      ensures !deleting && err == NoError ==>
                cluster.s.pc == if user.ready then Idle else WriteStatus(user.AsCopy(), true)
      ensures old(os.journal) <= os.journal && Stack(os.journal) == old(Stack(os.journal))
    {
      hide Run, Init, Reached, Stack, Went, From, Fresh, Current, EndingsOf;
      deleting := false;
      ghost var d, s0, start := cluster.d, Init(cluster.base, cluster.stored), cluster.Now();
      WentNowhere(d, start.run, start.troubles);
      if user.deleting {
        deleting := true;
        if !user.finalizer { return deleting, NoError; }
        err := Databases(user, true, user.AsCopy());
        ghost var dropped := cluster.Now();
        FromMeans(d, start, dropped);
        if err != NoError { return; }
        if Fresh(Run(d, s0, start.run)) && dropped.troubles == start.troubles {
          StillFresh(d, s0, start.run, dropped.run, start.troubles, dropped.troubles);
        }
        CurrentCopy(cluster.s);
        user.finalizer := false;
        err := cluster.UpdateRemoving(user);
        Grown(d, dropped.run, cluster.run, dropped.troubles, os.env.troubles);
        WentOn(d, start.run, dropped.run, cluster.run, start.troubles, dropped.troubles, os.env.troubles);
        return;
      }
      if !user.finalizer {
        user.finalizer := true;
        err := cluster.UpdateAdding(user);
        if err != NoError { return; }
      }
      ghost var ready := cluster.Now();
      err := Databases(user, false, user.AsCopy());
      FromMeans(d, ready, cluster.Now());
      WentOn(d, start.run, ready.run, cluster.run, start.troubles, ready.troubles, os.env.troubles);
    }

    /** A status write with a current version is answered unless something goes wrong. */
    method SetStatus(user: User, ready: bool) returns (err: Error)
      requires Valid() && cluster.s.pc.WriteStatus? && user.version == cluster.s.pc.copy.version &&
              ready == cluster.s.pc.value
      modifies cluster, os.env, cluster.closings, user`ready
      ensures Valid() && Went(cluster.d, old(cluster.run), cluster.run, old(os.env.troubles), os.env.troubles)
      ensures cluster.s.pc.Idle? && (err == NoError ==> Latest(cluster.s).Present? && Latest(cluster.s).ready == ready)
      ensures EndedBy(Reporting(ready), err, old(cluster.closings.endings), old(cluster.closings.answers),
                     cluster.closings)
      ensures old(Fresh(cluster.s)) && err != NoError ==> os.env.troubles != old(os.env.troubles)
    {
      hide Run, Init, Reached, Went, Current;
      user.ready := ready;
      err := cluster.UpdateStatus(user);
    }

    /** One invocation, from the read of the object to the last write, is a run of the
        protocol from idle to idle. Safety and soundness of Ready are therefore its guarantees.
        Without a pass it says that the object was not read; with one, it ends as is due and
        tells the truth about it; and if nothing went wrong and no statement was refused, it has
        done all there was to do. */
    method Reconcile(name: string) returns (err: Error)
      requires Valid() && name == cluster.d.name && cluster.s.pc.Idle?
      modifies cluster, os`files, os`journal, os`next, os.env, cluster.closings
      ensures Valid() && cluster.s.pc.Idle? && old(os.env.troubles) <= os.env.troubles
      ensures cluster.run == old(cluster.run) ==> err == Failure && NotRead(old(os.env.troubles), os.env.troubles)
      ensures cluster.run != old(cluster.run) ==> OnePass(old(cluster.s), old(cluster.run), cluster.run)
      ensures cluster.run != old(cluster.run) ==>
                cluster.closings.endings == old(cluster.closings.endings) +
                    Due(ObjectRead(old(cluster.s), old(cluster.run), cluster.run),
                        Halted(cluster.d, Init(cluster.base, cluster.stored), old(cluster.run), cluster.run))
      ensures cluster.run != old(cluster.run) ==>
                Tells(ObjectRead(old(cluster.s), old(cluster.run), cluster.run), Latest(cluster.s), err,
                      old(cluster.closings.endings), old(cluster.closings.answers), cluster.closings)
      ensures os.env.troubles == old(os.env.troubles) ==>
                Succeeds(cluster.d, cluster.base, cluster.stored, old(cluster.run), cluster.run, err)
      ensures !HasFinalizer(Latest(cluster.s)) ==> NoNewRole(cluster.d, cluster.base, cluster.s)
      ensures var o := Latest(cluster.s); o.Present? && !o.deleting && o.ready ==> AllServed(cluster.d, cluster.s)
      ensures CleanInvocation(cluster.d, old(cluster.run), cluster.run, |old(cluster.s).log| - 1) &&
              Readable(cluster.d) ==>
                Goal(cluster.d, cluster.base, old(cluster.s), cluster.s)
      ensures old(os.journal) <= os.journal && Stack(os.journal) == old(Stack(os.journal))
      ensures forall h :: Opened(h) in os.journal[|old(os.journal)|..] ==>
                multiset(os.journal[|old(os.journal)|..])[Opened(h)] == 1 &&
                    multiset(os.journal[|old(os.journal)|..])[Closed(h)] == 1
    {
      hide Run, Init, Reached, Stack, HandlesDistinct, NoNewRole, AllServed, Readable, CleanInvocation, Goal;
      hide Tells, Succeeds, Blameless, OnePass, EndingsOf, Due, Halted, ObjectRead;
      err := ReconcileRun(name);
      if cluster.run != old(cluster.run) {
        PassEndings(cluster.d, cluster.base, cluster.stored, old(cluster.run), cluster.run);
      }
      Guarantees(cluster.d, cluster.base, cluster.stored, old(cluster.run), cluster.run);
      if os.env.troubles == old(os.env.troubles) {
        Undisturbed(cluster.d, cluster.base, cluster.stored, old(cluster.run), cluster.run, err);
      }
      forall h | Opened(h) in os.journal[|old(os.journal)|..]
        ensures multiset(os.journal[|old(os.journal)|..])[Opened(h)] == 1 &&
                multiset(os.journal[|old(os.journal)|..])[Closed(h)] == 1
      {
        ClosedWhatItOpened(old(os.journal), os.journal, h);
      }
    }

    method ReconcileRun(name: string) returns (err: Error)
      requires Valid() && name == cluster.d.name && cluster.s.pc.Idle?
      modifies cluster, os`files, os`journal, os`next, os.env, cluster.closings
      ensures Valid() && cluster.s.pc.Idle? && old(os.env.troubles) <= os.env.troubles
      ensures cluster.run == old(cluster.run) ==> err == Failure && NotRead(old(os.env.troubles), os.env.troubles)
      ensures cluster.run != old(cluster.run) ==> OnePass(old(cluster.s), old(cluster.run), cluster.run)
      ensures cluster.run != old(cluster.run) ==>
                Tells(ObjectRead(old(cluster.s), old(cluster.run), cluster.run), Latest(cluster.s), err,
                      old(cluster.closings.endings), old(cluster.closings.answers), cluster.closings)
      ensures os.env.troubles == old(os.env.troubles) ==>
                CleanInvocation(cluster.d, old(cluster.run), cluster.run, |old(cluster.s).log| - 1) &&
                Blameless(old(cluster.s), cluster.s, err)
      ensures old(os.journal) <= os.journal && Stack(os.journal) == old(Stack(os.journal))
    {
      hide Run, Init, Reached, Stack, AfterRead, BeginAt, Went, Fresh, OnePass, CleanInvocation, ObjectRead, EndingsOf,
           Host.Valid, SmoothStep, Smooth, Continues, Current;
      ghost var d, s0, a := cluster.d, Init(cluster.base, cluster.stored), cluster.run;
      ghost var s, before := cluster.s, os.env.troubles;
      var found, e, at := cluster.Get();
      err := e;
      if err != NoError { return; }
      ghost var b, read := cluster.run, os.env.troubles;
      WentNowhere(d, b, read);
      if found == None {
        OnePassed(d, s, a, at, b, read, read);
        return;
      }
      var user := new User(name, found.value);
      if at + 1 == |s.log| { ReadIsFresh(d, s, at); }
      var deleting, failed := ReconcileUser(user);
      err := failed;
      ghost var c, between := cluster.run, os.env.troubles;
      Grown(d, b, c, read, between);
      if at + 1 == |s.log| && read == between { StillFresh(d, s0, b, c, read, between); }
      if err != NoError {
        if deleting {
          OnePassed(d, s, a, at, c, read, between);
          return;
        }
        err := SetStatus(user, false);
        Grown(d, c, cluster.run, between, os.env.troubles);
        WentOn(d, b, c, cluster.run, read, between, os.env.troubles);
        OnePassed(d, s, a, at, cluster.run, read, os.env.troubles);
        return;
      }
      WentNowhere(d, c, between);
      if !user.ready && !deleting {
        err := SetStatus(user, true);
        Grown(d, c, cluster.run, between, os.env.troubles);
      }
      WentOn(d, b, c, cluster.run, read, between, os.env.troubles);
      OnePassed(d, s, a, at, cluster.run, read, os.env.troubles);
    }
  }

  /** `b` goes on from `a` with one read of the object, of a version the cache may serve, and
      what follows it. */
  predicate OnePass(s: State, a: seq<Action>, b: seq<Action>) {
    a < b && b[|a|].Begin? && s.seen <= b[|a|].at < |s.log| && Continues(b[..|a| + 1], b)
  }

  /** The read was not answered. */
  predicate NotRead(before: seq<Trouble>, after: seq<Trouble>) {
    after == before + [ObjectNotRead]
  }

  /** The version that the pass after `a` has read. */
  function ObjectRead(s: State, a: seq<Action>, b: seq<Action>): UserObject
    requires OnePass(s, a, b)
  {
    s.log[b[|a|].at]
  }

  /** What the result means: the answer of the write that ended the pass, and if that is no
      error, the object is gone or its status says what was written; without such a write, an
      error is a deletion that was not finished. */
  ghost predicate Tells(read: UserObject, stored: UserObject, err: Error, endings: seq<Ending>, answers: seq<Error>,
                        now: Closings)
    reads now
  {
    || (NotEnded(endings, answers, now) &&
        (err != NoError <==> read.Present? && read.deleting && read.finalizer))
    || (EndedBy(Releasing, err, endings, answers, now) && (err == NoError ==> stored.Absent?))
    || (exists ready :: EndedBy(Reporting(ready), err, endings, answers, now) &&
                        (err == NoError ==> stored.Present? && stored.ready == ready))
  }

  /** An error that nothing around the operator explains concerns a deletion, and leaves the
      object as it was. */
  predicate Blameless(s: State, t: State, err: Error) {
    && (err != NoError ==> Latest(s).Present? && Latest(s).deleting && Latest(t) == Latest(s))
    && (Latest(s).Absent? ==> Latest(t).Absent?)
  }

  /** What an invocation does that nothing has disturbed. An error is a deletion that a
      statement stopped; if no statement stopped it, the object is Ready, or gone if it was
      marked for deletion; and what it is for comes true. */
  ghost predicate Succeeds(d: Desired, base: Servers, stored: map<string, nat>,
                           before: seq<Action>, after: seq<Action>, err: Error)
  {
    var s0 := Init(base, stored);
    var s, t := Run(d, s0, before), Run(d, s0, after);
    && CleanInvocation(d, before, after, |s.log| - 1)
    && (err != NoError ==> Latest(s).Present? && Latest(s).deleting && Refused(d, s0, before, after))
    && (!Refused(d, s0, before, after) ==>
          err == NoError &&
          Latest(t) == if Latest(s).Present? && !Latest(s).deleting then Present(true, false, true) else Absent)
    && (Readable(d) ==> Goal(d, base, s, t))
  }

  lemma Undisturbed(d: Desired, base: Servers, stored: map<string, nat>, before: seq<Action>, after: seq<Action>,
                    err: Error)
    requires var s, t := Run(d, Init(base, stored), before), Run(d, Init(base, stored), after);
             && s.pc.Idle? && t.pc.Idle? && CleanInvocation(d, before, after, |s.log| - 1) && Blameless(s, t, err)
    ensures Succeeds(d, base, stored, before, after, err)
  {
    hide Run, Init, CleanInvocation, Refused, Readable, Goal;
    var s := Run(d, Init(base, stored), before);
    Guarantees(d, base, stored, before, after);
    MarkedHasFinalizer(d, Init(base, stored), before) by { StartUnmarked(d, base, stored); }
    if Latest(s).Present? { InvocationOutcome(d, base, stored, before, after); }
  }

  lemma OnePassed(d: Desired, s: State, a: seq<Action>, at: nat, c: seq<Action>, read: seq<Trouble>,
                  after: seq<Trouble>)
    requires s.seen <= at < |s.log| && Went(d, a + [Begin(at)], c, read, after)
    ensures OnePass(s, a, c) && c != a && ObjectRead(s, a, c) == s.log[at] && read <= after
    ensures at + 1 == |s.log| && read == after ==> CleanInvocation(d, a, c, |s.log| - 1)
  {
    hide Smooth;
    var b := a + [Begin(at)];
    assert c[|a|] == b[|a|] && c[..|a| + 1] == b && c[..|a|] == b[..|a|] == a;
  }

  lemma PassEndings(d: Desired, base: Servers, stored: map<string, nat>, a: seq<Action>, b: seq<Action>)
    requires var s := Run(d, Init(base, stored), a); s.pc.Idle? && OnePass(s, a, b)
    requires Run(d, Init(base, stored), b).pc.Idle?
    ensures var s0 := Init(base, stored);
            EndingsOf(d, s0, b) ==
            EndingsOf(d, s0, a) + Due(ObjectRead(Run(d, s0, a), a, b), Halted(d, s0, a, b))
  {
    hide Run, Init, Halted, Due, EndingsOf;
    var at := b[|a|].at;
    assert b[..|a| + 1] == a + [Begin(at)];
    EndsAsDue(d, base, stored, a, at, b);
  }

  /** A pass that has just read the stored version works from it. */
  lemma ReadIsFresh(d: Desired, s: State, at: nat)
    requires at + 1 == |s.log| && s.pc.Idle? && s.seen <= at
    ensures Fresh(BeginAt(d, s, at))
  {
  }

  lemma CurrentCopy(s: State)
    ensures Fresh(s) && HasCopy(s.pc) ==> Current(s, s.pc.copy)
  {
  }

  /** A pass in which nothing has gone wrong still works from the stored version. */
  lemma StillFresh(d: Desired, s0: State, a: seq<Action>, b: seq<Action>, before: seq<Trouble>, after: seq<Trouble>)
    requires Went(d, a, b, before, after) && Fresh(Run(d, s0, a)) && before == after
    ensures Fresh(Run(d, s0, b))
  {
    FreshSince(d, s0, a, b) by { hide Fresh, Run, Smooth; }
    hide *;
  }

  /** What an undisturbed Reconcile of a readable spec is for. */
  ghost predicate Goal(d: Desired, base: Servers, s: State, t: State) {
    && (Latest(s).Present? && !Latest(s).deleting && Sensible(d) && Available(d, s.servers) && KeepsFiles(d) ==>
          Latest(t) == Present(true, false, true) && FullyServed(d, t))
    && (Latest(s).Present? && Latest(s).deleting && AllDroppable(d, s.servers) ==>
          Latest(t).Absent? && NoNewRole(d, base, t) && NoSecrets(d, t))
  }

  lemma Guarantees(d: Desired, base: Servers, stored: map<string, nat>, before: seq<Action>, after: seq<Action>)
    requires Run(d, Init(base, stored), before).pc.Idle? && Run(d, Init(base, stored), after).pc.Idle?
    ensures var s, t := Run(d, Init(base, stored), before), Run(d, Init(base, stored), after);
            && (!HasFinalizer(Latest(t)) ==> NoNewRole(d, base, t))
            && (Latest(t).Present? && !Latest(t).deleting && Latest(t).ready ==> AllServed(d, t))
            && (CleanInvocation(d, before, after, |s.log| - 1) && Readable(d) ==> Goal(d, base, s, t))
  {
    hide Run, Init, RoleAt, AllServed, Sensible, Readable, Available, KeepsFiles, AllDroppable, FullyServed,
         CleanInvocation, NoSecrets;
    FinalizerSafety(d, base, stored, after);
    assert !HasFinalizer(Latest(Run(d, Init(base, stored), after))) ==>
        NoNewRole(d, base, Run(d, Init(base, stored), after));
    hide NoNewRole;
    ReadyIsSound(d, base, stored, after);
    var s := Run(d, Init(base, stored), before);
    RunReaches(d, base, stored, before);
    if CleanInvocation(d, before, after, |s.log| - 1) && Readable(d) {
      if Latest(s).Present? && !Latest(s).deleting && Sensible(d) && Available(d, s.servers) && KeepsFiles(d) {
        InvocationServes(d, base, stored, before, after);
      }
      if Latest(s).Present? && Latest(s).deleting && AllDroppable(d, s.servers) {
        InvocationDeletes(d, base, stored, before, after);
      }
    }
  }

  lemma SameOutsideMore(a: Files, b: Files, paths: set<string>, more: set<string>)
    requires SameOutside(a, b, paths) && paths <= more
    ensures SameOutside(a, b, more)
  {
    assert a - more == (a - paths) - more;
    assert b - more == (b - paths) - more;
  }
}
