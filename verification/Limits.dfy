/** Exactly when the goals can be reached, and why no run moves away from them. */
module Limits {
  import opened Text
  import opened Sql
  import opened Quoting
  import opened Statements
  import opened PrivilegeText
  import opened Server
  import opened Plans
  import opened Passes
  import opened Resources
  import opened Protocol
  import opened Safety
  import opened Convergence
  import opened Obstacles
  import opened Deletion
  import opened Revocation

  // ---- names the server cannot take ----

  /** Where a Reconcile of a name that cannot be created can be. */
  predicate UnreadyPlace(pc: Pc) {
    && (pc.Open? && !pc.copy.deleting ==> pc.i == 0)
    && !pc.Issue? && !pc.LookupSecret? && !pc.CreateSecret? && !pc.Grant?
    && (pc.WriteStatus? ==> !pc.value)
  }

  predicate Unready(s: State) {
    UnreadyPlace(s.pc) && (Latest(s).Present? ==> !Latest(s).ready)
  }

  /** Where a Reconcile of a name that cannot be dropped can be. */
  predicate UnreleasedPlace(pc: Pc) {
    && (pc.Open? && pc.copy.deleting ==> pc.i == 0)
    && !pc.RemoveFinalizer?
    && (pc.DeleteSecret? ==> !pc.dropped)
  }

  lemma CreateRefused(d: Desired, s: State, fault: Fault)
    requires !Creatable(d.name) && PcInRange(d, s.pc) && s.pc.Create?
    ensures var err := Answer(d, s, fault).1; err != NoError && !IsAlreadyExists(err)
  {
    var r := d.refs[s.pc.i];
    hide Perform, CreateOp;
    CreateMeaning(At(s.servers, r.database.Address()), r.database.name, d.name, r.password);
  }

  lemma DropRefused(d: Desired, s: State, fault: Fault)
    requires !Managed(d.name) && PcInRange(d, s.pc) && s.pc.Drop?
    ensures var err := Answer(d, s, fault).1; err != NoError && !IsNotExists(err)
  {
    var r := d.refs[s.pc.i];
    hide Perform, DropOp;
    DropMeaning(At(s.servers, r.database.Address()), r.database.name, d.name);
  }

  lemma UnreadyStatement(d: Desired, s: State, fault: Fault)
    requires !Creatable(d.name) && SendsStatement(s.pc) && PcInRange(d, s.pc) && PhaseMatches(s.pc) &&
            UnreadyPlace(s.pc)
    ensures var t := RespondStatement(d, s, fault); UnreadyPlace(t.pc) && t.log == s.log
  {
    hide Answer, Creatable;
    if s.pc.Create? { CreateRefused(d, s, fault); }
  }

  lemma UnreadyStep(d: Desired, s: State, a: Action)
    requires !Creatable(d.name) && d.refs != [] && PcInRange(d, s.pc) && PhaseMatches(s.pc) && Unready(s)
    ensures Unready(Step(d, s, a))
  {
    if a.Call? && SendsStatement(s.pc) {
      UnreadyStatement(d, s, a.fault);
    }
    hide RespondStatement, StepForeign, Creatable;
    if a.Foreign? { ForeignRoles(d, s, a.address, a.op); }
  }

  lemma UnreleasedStatement(d: Desired, s: State, fault: Fault)
    requires !Managed(d.name) && SendsStatement(s.pc) && PcInRange(d, s.pc) && PhaseMatches(s.pc) &&
            UnreleasedPlace(s.pc)
    ensures var t := RespondStatement(d, s, fault); UnreleasedPlace(t.pc) && t.log == s.log
  {
    hide Answer, Managed;
    if s.pc.Drop? { DropRefused(d, s, fault); }
  }

  lemma UnreleasedStep(d: Desired, s: State, a: Action)
    requires !Managed(d.name) && d.refs != [] && PcInRange(d, s.pc) && PhaseMatches(s.pc) && UnreleasedPlace(s.pc)
    ensures UnreleasedPlace(Step(d, s, a).pc)
    ensures HasFinalizer(Latest(s)) ==> HasFinalizer(Latest(Step(d, s, a)))
  {
    if a.Call? && SendsStatement(s.pc) {
      UnreleasedStatement(d, s, a.fault);
    }
    hide RespondStatement, StepForeign, Managed;
    if a.Foreign? { ForeignRoles(d, s, a.address, a.op); }
  }

  /** A name that CREATE USER does not take: no run ever reports Ready. */
  lemma {:induction false} UnreadyForever(d: Desired, base: Servers, s: State, actions: seq<Action>)
    requires !Creatable(d.name) && d.refs != [] && Inv(d, base, s) && Unready(s)
    ensures Unready(Run(d, s, actions))
    decreases |actions|
  {
    if actions != [] {
      var init, a := actions[..|actions| - 1], actions[|actions| - 1];
      UnreadyForever(d, base, s, init);
      InvRun(d, base, s, init);
      hide Step, Unready, Inv, Creatable;
      InvInPlace(d, base, Run(d, s, init));
      UnreadyStep(d, Run(d, s, init), a);
    }
  }

  /** A name that is no role name for the server: once the finalizer is set no run ever lets
      the object go, whoever else sends statements. */
  lemma {:induction false} StuckForever(d: Desired, base: Servers, s: State, actions: seq<Action>)
    requires !Managed(d.name) && d.refs != [] && Inv(d, base, s) && UnreleasedPlace(s.pc)
    ensures var t := Run(d, s, actions);
            UnreleasedPlace(t.pc) && (HasFinalizer(Latest(s)) ==> HasFinalizer(Latest(t)))
    decreases |actions|
  {
    if actions != [] {
      var init, a := actions[..|actions| - 1], actions[|actions| - 1];
      StuckForever(d, base, s, init);
      InvRun(d, base, s, init);
      hide Step, UnreleasedPlace, Inv, Managed;
      InvInPlace(d, base, Run(d, s, init));
      UnreleasedStep(d, Run(d, s, init), a);
    }
  }

  /** With such a name an object that has its finalizer stays. */
  lemma UnusableStays(d: Desired, base: Servers, secrets: map<string, nat>, actions: seq<Action>, more: seq<Action>)
    requires !Managed(d.name) && d.refs != [] && HasFinalizer(Latest(Run(d, Init(base, secrets), actions)))
    ensures HasFinalizer(Latest(Run(d, Run(d, Init(base, secrets), actions), more)))
  {
    InvInit(d, base, secrets);
    InvRun(d, base, Init(base, secrets), actions);
    assert UnreleasedPlace(Init(base, secrets).pc);
    hide Run, Inv, UnreleasedPlace, Init, Step, Managed;
    StuckForever(d, base, Init(base, secrets), actions);
    StuckForever(d, base, Run(d, Init(base, secrets), actions), more);
  }

  // ---- what a Ready status has passed ----

  /** The GRANT of entry `k` of ref `i` can succeed as far as the spec goes: it is usable,
      not membership of the role in itself, and does not need certificate files that are gone. */
  predicate EntryPasses(d: Desired, i: nat, k: nat)
    requires i < |d.refs| && k < |d.refs[i].Privileges()|
  {
    var r := d.refs[i];
    var p := r.Privileges()[k];
    Usable(p) && !NamedBy(p, Role(d)) && (r.FilesGone(k) ==> p.InDatabase())
  }

  predicate RefPassed(d: Desired, i: nat, n: nat)
    requires i < |d.refs|
  {
    forall k :: 0 <= k < n && k < |d.refs[i].Privileges()| ==> EntryPasses(d, i, k)
  }

  predicate RefsPassed(d: Desired, n: nat) {
    forall i :: 0 <= i < n && i < |d.refs| ==> RefPassed(d, i, |d.refs[i].Privileges()|)
  }

  /** The entries an apply pass has behind it could succeed. */
  predicate PlacePassed(d: Desired, pc: Pc) {
    && (pc.WriteStatus? && pc.value ==> RefsPassed(d, |d.refs|))
    && (InApply(pc) && PcInRange(d, pc) ==> RefsPassed(d, pc.i) && (pc.Grant? ==> RefPassed(d, pc.i, pc.k)))
  }

  ghost predicate ReadyPassed(d: Desired, s: State) {
    && (Latest(s).Present? && Latest(s).ready ==> RefsPassed(d, |d.refs|))
    && PlacePassed(d, s.pc)
  }

  lemma NextGrantPassed(d: Desired, c: Copy, i: nat, k: nat)
    requires i < |d.refs| && RefsPassed(d, i) && RefPassed(d, i, k)
    ensures PlacePassed(d, NextGrant(d, c, i, k))
  {
    hide EntryPasses;
    if k >= |d.refs[i].Privileges()| {
      assert RefsPassed(d, i + 1);
    }
  }

  /** A GRANT that succeeded was of an entry that can. */
  lemma GrantPasses(d: Desired, s: State, fault: Fault)
    requires Readable(d) && PcInRange(d, s.pc) && s.pc.Grant? && Answer(d, s, fault).1 == NoError
    ensures EntryPasses(d, s.pc.i, s.pc.k)
  {
    var r := d.refs[s.pc.i];
    var p := r.Privileges()[s.pc.k];
    var srv := At(s.servers, r.database.Address());
    assert r in d.refs;
    assert Perform(srv, OpAt(d, s.pc)).1 == NoError && !OutOfReach(d, s.pc);
    assert OpAt(d, s.pc) == PrivilegeOp(r.database.name, d.name, true, p);
    LegibleAt(r.Privileges(), s.pc.k);
    hide Perform, PrivilegeOp, Answer, AllLegible, Managed, NamedBy, Usable, LegibleEntry;
    PassedEntry(srv, r.database.name, d.name, p);
  }

  lemma PassedEntry(srv: Server, dbname: string, username: string, p: PrivilegeSpec)
    requires Managed(username) && LegibleEntry(p) && Perform(srv, PrivilegeOp(dbname, username, true, p)).1 == NoError
    ensures Usable(p) && !NamedBy(p, Strip(username))
  {
    if Strip(username) in srv.roles {
      EntryOutcome(srv, dbname, username, true, p);
      assert Accepted(srv.roles.Keys, Strip(username), true, p) by { hide *; }
    } else {
      NoGrantee(srv, dbname, username, p);
    }
    hide Perform, PrivilegeOp, LegibleEntry, Managed, Usable, Strip, Path;
  }

  lemma ApplyLeads(d: Desired, pc: Pc, err: Error)
    requires PcInRange(d, pc) && (pc.Create? || pc.Grant?)
    ensures var q := AfterStatement(d, pc, err);
            || q == Abort(pc.copy) || (pc.Create? && q == Issue(pc.copy, pc.i))
            || (pc.Create? && q == NextGrant(d, pc.copy, pc.i, 0))
            || (pc.Grant? && err == NoError && q == NextGrant(d, pc.copy, pc.i, pc.k + 1))
  {
    hide NextGrant, Abort;
  }

  lemma PassedApply(d: Desired, pc: Pc, err: Error)
    requires PcInRange(d, pc) && (pc.Create? || pc.Grant?) && PlacePassed(d, pc)
    requires pc.Grant? && err == NoError ==> EntryPasses(d, pc.i, pc.k)
    ensures PlacePassed(d, AfterStatement(d, pc, err))
  {
    var q := AfterStatement(d, pc, err);
    ApplyLeads(d, pc, err);
    hide AfterStatement;
    if q == Abort(pc.copy) || q == Issue(pc.copy, pc.i) {
      EndPassed(d, pc, q);
    } else {
      assert pc.Grant? ==> err == NoError;
      NextPassed(d, pc);
    }
  }

  lemma EndPassed(d: Desired, pc: Pc, q: Pc)
    requires PcInRange(d, pc) && InApply(pc) && PlacePassed(d, pc) && (q == Abort(pc.copy) || q == Issue(pc.copy, pc.i))
    ensures PlacePassed(d, q)
  {
    hide RefsPassed, RefPassed;
  }

  lemma NextPassed(d: Desired, pc: Pc)
    requires PcInRange(d, pc) && (pc.Create? || pc.Grant?) && PlacePassed(d, pc)
    requires pc.Grant? ==> EntryPasses(d, pc.i, pc.k)
    ensures PlacePassed(d, NextGrant(d, pc.copy, pc.i, if pc.Grant? then pc.k + 1 else 0))
  {
    hide NextGrant, RefsPassed, EntryPasses;
    NextGrantPassed(d, pc.copy, pc.i, if pc.Grant? then pc.k + 1 else 0);
  }

  lemma PassedStatement(d: Desired, s: State, fault: Fault)
    requires Readable(d) && PcInRange(d, s.pc) && SendsStatement(s.pc) && PhaseMatches(s.pc)
    requires PlacePassed(d, s.pc)
    ensures PlacePassed(d, RespondStatement(d, s, fault).pc)
  {
    var err := Answer(d, s, fault).1;
    assert RespondStatement(d, s, fault).pc == AfterStatement(d, s.pc, err);
    if s.pc.Create? || s.pc.Grant? {
      if s.pc.Grant? && err == NoError { GrantPasses(d, s, fault); }
      hide RespondStatement, Answer, EntryPasses, Readable, PlacePassed, AfterStatement;
      PassedApply(d, s.pc, err);
    } else {
      hide RespondStatement, Answer, Readable, AfterStatement;
      DeleteGoesNowhereElse(d, s.pc, err);
    }
  }

  lemma DeleteGoesNowhereElse(d: Desired, pc: Pc, err: Error)
    requires PcInRange(d, pc) && (pc.Revoke? || pc.Drop?)
    ensures !InApply(AfterStatement(d, pc, err)) && !AfterStatement(d, pc, err).WriteStatus?
  {
  }

  /** Where a pass can be after anything but a statement. */
  lemma OtherLeads(d: Desired, s: State, a: Action)
    requires PcInRange(d, s.pc) && PhaseMatches(s.pc) && !(a.Call? && SendsStatement(s.pc))
    ensures var q := Step(d, s, a).pc;
            || q == s.pc
            || ((s.pc.LookupSecret? || s.pc.CreateSecret?) && q == NextGrant(d, s.pc.copy, s.pc.i, 0))
            || (InApply(q) && !q.Grant? && ((InApply(s.pc) && q.i == s.pc.i) || q.i == 0))
            || (q.WriteStatus? && q.value && d.refs == [])
            || (!InApply(q) && !(q.WriteStatus? && q.value))
  {
    hide NextGrant, RespondStatement, StepForeign;
    if a.Foreign? { ForeignRoles(d, s, a.address, a.op); }
  }

  lemma ReadyLeads(d: Desired, s: State, a: Action)
    requires !(a.Call? && SendsStatement(s.pc))
    ensures var o, p := Latest(s), Latest(Step(d, s, a));
            p.Present? && p.ready ==> (o.Present? && o.ready) || (s.pc.WriteStatus? && s.pc.value)
  {
    hide NextGrant, RespondStatement, StepForeign;
    if a.Foreign? { ForeignRoles(d, s, a.address, a.op); }
  }

  lemma PassedOther(d: Desired, s: State, a: Action)
    requires PcInRange(d, s.pc) && PhaseMatches(s.pc) && !(a.Call? && SendsStatement(s.pc))
    requires ReadyPassed(d, s)
    ensures ReadyPassed(d, Step(d, s, a))
  {
    OtherLeads(d, s, a);
    ReadyLeads(d, s, a);
    hide Step, EntryPasses, RefPassed, NextGrant;
    var q := Step(d, s, a).pc;
    if (s.pc.LookupSecret? || s.pc.CreateSecret?) && q == NextGrant(d, s.pc.copy, s.pc.i, 0) {
      NothingPassed(d, s.pc.i);
      NextGrantPassed(d, s.pc.copy, s.pc.i, 0);
    }
  }

  lemma NothingPassed(d: Desired, i: nat)
    requires i < |d.refs|
    ensures RefPassed(d, i, 0)
  {
  }

  lemma {:induction false} ReadyPassedRun(d: Desired, base: Servers, secrets: map<string, nat>, actions: seq<Action>)
    requires Readable(d)
    ensures ReadyPassed(d, Run(d, Init(base, secrets), actions))
    decreases |actions|
  {
    hide Step, Readable, Inv, ReadyPassed;
    InvInit(d, base, secrets);
    if actions == [] {
      assert ReadyPassed(d, Init(base, secrets)) by { PassedInit(d, base, secrets); }
    } else {
      var init, a := actions[..|actions| - 1], actions[|actions| - 1];
      ReadyPassedRun(d, base, secrets, init);
      InvRun(d, base, Init(base, secrets), init);
      PassedStep(d, base, Run(d, Init(base, secrets), init), a);
    }
  }

  lemma PassedInit(d: Desired, base: Servers, secrets: map<string, nat>)
    ensures ReadyPassed(d, Init(base, secrets))
  {
  }

  lemma PassedStep(d: Desired, base: Servers, s: State, a: Action)
    requires Readable(d) && Inv(d, base, s) && ReadyPassed(d, s)
    ensures ReadyPassed(d, Step(d, s, a))
  {
    hide PlacePassed, Readable;
    if a.Call? && SendsStatement(s.pc) {
      assert Step(d, s, a) == RespondStatement(d, s, a.fault) && Step(d, s, a).log == s.log;
      PassedStatement(d, s, a.fault);
    } else {
      hide Step, ReadyPassed;
      PassedOther(d, s, a);
    }
  }

  // ---- exact conditions ----

  /** Everything about the spec but the name. */
  predicate LegibleEntries(d: Desired) {
    forall r :: r in d.refs ==> AllLegible(r.Privileges())
  }

  /** The operator can complete the deletion from here, while others do only what is
      unrelated. */
  ghost predicate CanRelease(d: Desired, s: State) {
    exists more :: Unmeddled(d, more) && Latest(Run(d, s, more)).Absent?
  }

  /** The operator can reach from here a Ready that is true, in the same way. */
  ghost predicate CanServe(d: Desired, s: State) {
    exists more :: Unmeddled(d, more) && Serves(d, Run(d, s, more))
  }

  ghost predicate Serves(d: Desired, s: State) {
    Latest(s).Present? && !Latest(s).deleting && Latest(s).ready && FullyServed(d, s)
  }

  /** Nobody else sends statements. */
  predicate Undisturbed(actions: seq<Action>) {
    forall a :: a in actions ==> !a.Foreign?
  }

  lemma CleanIsUndisturbed(d: Desired, s: State, n: nat)
    requires s.log != []
    ensures Undisturbed(CleanReconcile(s, n)) && Unmeddled(d, CleanReconcile(s, n))
  {
    UndisturbedIsUnmeddled(d, CleanReconcile(s, n));
  }

  lemma UndisturbedIsUnmeddled(d: Desired, actions: seq<Action>)
    requires Undisturbed(actions)
    ensures Unmeddled(d, actions)
  {
  }

  /** After any run, an object marked for deletion can be let go if its name is a role name
      for the server and nothing is in the way of a DROP USER: the REVOKE loops end with
      nothing or a swallowed error, leave the outer certificate files in place, and leave
      the role without anything that blocks. While no Reconcile is running, it can be let go
      only then. */
  lemma ReleaseExactly(d: Desired, base: Servers, secrets: map<string, nat>, actions: seq<Action>)
    requires d.refs != [] && LegibleEntries(d)
    requires var s := Run(d, Init(base, secrets), actions); Latest(s).Present? && Latest(s).deleting
    ensures var s := Run(d, Init(base, secrets), actions);
            && (Managed(d.name) && AllDroppable(d, s.servers) ==> CanRelease(d, s))
            && (s.pc.Idle? ==> (CanRelease(d, s) <==> Managed(d.name) && AllDroppable(d, s.servers)))
  {
    var s := Run(d, Init(base, secrets), actions);
    MarkedHasFinalizer(d, Init(base, secrets), actions);
    InvInit(d, base, secrets);
    InvRun(d, base, Init(base, secrets), actions);
    hide Run, Init, Step, Droppable, Inv, Managed, Unmeddled;
    if !Managed(d.name) {
      forall more ensures !Latest(Run(d, s, more)).Absent? {
        UnusableStays(d, base, secrets, actions, more);
      }
    } else if AllDroppable(d, s.servers) {
      var n := DeletionConverges(d, base, secrets, actions);
      CleanIsUndisturbed(d, s, n);
      assert Latest(Run(d, s, CleanReconcile(s, n))).Absent?;
    } else if s.pc.Idle? {
      var j: nat :| j < |d.refs| && !Droppable(d, s.servers, j);
      NeverReleased(d, base, s, j);
    }
  }

  lemma NeverReleased(d: Desired, base: Servers, s: State, j: nat)
    requires Readable(d) && Inv(d, base, s) && s.pc.Idle? && j < |d.refs|
    requires !Droppable(d, s.servers, j) && HasFinalizer(Latest(s))
    ensures !CanRelease(d, s)
  {
    hide Run, Droppable, Inv, Readable, Unmeddled;
    forall more | Unmeddled(d, more) ensures !Latest(Run(d, s, more)).Absent? {
      ObstacleStays(d, base, s, more, j);
    }
  }

  /** What "served" says of one entry, without texts: the role holds it. */
  lemma ServedHolds(d: Desired, s: State, i: nat, k: nat)
    requires Managed(d.name) && FullyServed(d, s)
    requires i < |d.refs| && k < |d.refs[i].Privileges()| && PlainPrivilege(d.refs[i].Privileges()[k].privilege)
    ensures var srv := At(s.servers, Home(d, i));
            Role(d) in srv.roles && HeldFor(d.refs[i].Privileges()[k]) in srv.roles[Role(d)]
  {
    var r := d.refs[i];
    var p := r.Privileges()[k];
    var srv := At(s.servers, r.database.Address());
    var clean := s.(dropped := {});
    assert RefServed(d, clean, i, |r.Privileges()|);
    assert EntryServed(d, clean, i, k) && !Excused(d, clean, i, k);
    assert Granted(srv, GrantOp(d, i, k)) || Astray(d, i, k);
    hide FullyServed, Managed, PlainPrivilege, PrivilegeOp, Request, Granted, Strip;
    GrantMeans(srv, r.database.name, d.name, p);
  }

  lemma GrantMeans(srv: Server, dbname: string, username: string, p: PrivilegeSpec)
    requires Managed(username) && PlainPrivilege(p.privilege)
    ensures var op := PrivilegeOp(dbname, username, true, p);
            && ParseOp(op).Some? && ParseOp(op).value.role == Strip(username)
            && (Granted(srv, op) ==> Strip(username) in srv.roles && HeldFor(p) in srv.roles[Strip(username)])
  {
    assert p.privilege != "" by { assert Lex("") == Some([]); }
    hide Lex, Legible, Managed, PrivilegeOp, Strip, Path;
    OpParses(dbname, username, true, p);
  }

  // ---- memberships name existing roles ----

  ghost predicate IntactServer(srv: Server) {
    forall r, h, n :: r in srv.roles && h in srv.roles[r] && MemberOf(h.privilege, h.target, n) ==> n in srv.roles
  }

  /** On every server, memberships are in roles that exist. */
  ghost predicate Intact(servers: Servers) {
    forall a :: IntactServer(At(servers, a))
  }

  lemma ExecIntact(srv: Server, db: string, st: Statement)
    requires IntactServer(srv)
    ensures IntactServer(Exec(srv, db, st).0)
  {
    hide ReadAsked, AskedError, IsPrivilegeWord, OtherDatabase, SpecialName, ReservedName, Blocks;
    var t := Exec(srv, db, st).0;
    forall r, h, n | r in t.roles && h in t.roles[r] && MemberOf(h.privilege, h.target, n) ensures n in t.roles {
      if st.Change? && r == st.role && (r !in srv.roles || h !in srv.roles[r]) {
        assert h == HeldOf(db, st.privilege, st.target);
      } else if r in srv.roles && h in srv.roles[r] {
        assert n in srv.roles;
      }
    }
  }

  lemma PerformIntact(srv: Server, op: Op)
    requires IntactServer(srv)
    ensures IntactServer(Perform(srv, op).0)
  {
    hide Parse, Exec, IntactServer;
    if op.Send? && Parse(op.text).Some? { ExecIntact(srv, op.database, Parse(op.text).value); }
  }

  lemma IntactStep(d: Desired, s: State, a: Action)
    requires Intact(s.servers)
    ensures Intact(Step(d, s, a).servers)
  {
    hide IntactServer, Perform, OpAt, OwnStatement, AfterStatement;
    if a.Call? && PcInRange(d, s.pc) && SendsStatement(s.pc) {
      StatementServers(d, s, a.fault);
      assert IntactServer(Answer(d, s, a.fault).0) by {
        PerformIntact(At(s.servers, d.refs[s.pc.i].database.Address()), OpAt(d, s.pc));
      }
      hide Answer, RespondStatement;
    } else if a.Foreign? {
      PerformIntact(At(s.servers, a.address), a.op);
      var t := StepForeign(d, s, a.address, a.op);
      assert Step(d, s, a) == t;
      forall x ensures IntactServer(At(t.servers, x)) {
        assert IntactServer(At(s.servers, x));
      }
    } else {
      assert Step(d, s, a).servers == s.servers by { hide RespondStatement; }
    }
  }

  lemma {:induction false} IntactRun(d: Desired, s: State, actions: seq<Action>)
    requires Intact(s.servers)
    ensures Intact(Run(d, s, actions).servers)
    decreases |actions|
  {
    hide Step, Intact;
    if actions != [] {
      IntactRun(d, s, actions[..|actions| - 1]);
      IntactStep(d, Run(d, s, actions[..|actions| - 1]), actions[|actions| - 1]);
    }
  }

  /** Where everything is served, every role that an entry names exists. */
  lemma ServedIsAvailable(d: Desired, s: State)
    requires Managed(d.name) && FullyServed(d, s) && Intact(s.servers) && RefsPassed(d, |d.refs|)
    ensures Available(d, s.servers)
  {
    hide FullyServed, Managed, IntactServer, Grantable;
    forall r, p | r in d.refs && p in r.Privileges()
      ensures Grantable(Keys(s.servers, r.database.Address()), Role(d), p)
    {
      var i: nat :| i < |d.refs| && d.refs[i] == r;
      var k: nat :| k < |r.Privileges()| && r.Privileges()[k] == p;
      assert RefPassed(d, i, |r.Privileges()|) && EntryPasses(d, i, k);
      UsableIsPlain(p);
      ServedHolds(d, s, i, k);
      hide Usable, NamedBy, HeldFor, Strip;
      HeldIsAvailable(At(s.servers, Home(d, i)), Role(d), p);
    }
  }

  lemma UsableIsPlain(p: PrivilegeSpec)
    requires Usable(p)
    ensures PlainPrivilege(p.privilege)
  {
  }

  lemma HeldIsAvailable(srv: Server, role: string, p: PrivilegeSpec)
    requires IntactServer(srv) && role in srv.roles && HeldFor(p) in srv.roles[role]
    requires Usable(p) && !NamedBy(p, role)
    ensures Grantable(srv.roles.Keys, role, p)
  {
    hide Lex, Path, Fold, PlainPrivilege, Applicable;
    var h := HeldFor(p);
    if SpecTarget(p).Membership? {
      assert MemberOf(h.privilege, h.target, Fold(Tokens(p)[0].text));
    }
  }

  /** A role that an entry names is there only if it was there before. */
  lemma {:induction false} NamedKeysRun(d: Desired, s: State, actions: seq<Action>, a: (string, nat), n: string)
    requires Unmeddled(d, actions) && NamedAt(d, a, n) && n != Role(d)
    ensures n in Keys(Run(d, s, actions).servers, a) ==> n in Keys(s.servers, a)
    decreases |actions|
  {
    hide Step, Unmeddled, Unrelated, Keys, NamedAt, Strip;
    if actions != [] {
      UnmeddledPrefix(d, actions);
      NamedKeysRun(d, s, actions[..|actions| - 1], a, n);
      NamedKeysStep(d, Run(d, s, actions[..|actions| - 1]), actions[|actions| - 1], a, n);
    }
  }

  lemma NamedKeysStep(d: Desired, s: State, a: Action, address: (string, nat), n: string)
    requires Unrelated(d, a) && NamedAt(d, address, n) && n != Role(d)
    ensures n in Keys(Step(d, s, a).servers, address) ==> n in Keys(s.servers, address)
  {
    if a.Foreign? {
      if a.address == address && !OwnStatement(d, a.op) { OtherKeys(At(s.servers, address), a.op, n); }
      hide Perform, OwnStatement, NamedAt, NewlyDropped, Strip;
    } else {
      OwnKeysStep(d, s, a, address);
      hide Step;
    }
  }

  lemma OwnKeysStep(d: Desired, s: State, a: Action, address: (string, nat))
    requires !a.Foreign?
    ensures Keys(Step(d, s, a).servers, address) <= Keys(s.servers, address) + {Role(d)}
  {
    if a.Call? && PcInRange(d, s.pc) && SendsStatement(s.pc) {
      assert Step(d, s, a) == RespondStatement(d, s, a.fault);
      StatementServers(d, s, a.fault);
      AnswerEffect(d, s, a.fault);
      hide Answer, RespondStatement, Granted, Extends, Strip, At, Step;
    } else {
      assert Step(d, s, a).servers == s.servers by { hide RespondStatement; }
    }
  }

  /** Every statement of the operator is about the user's own role. */
  lemma OwnStatements(d: Desired, pc: Pc)
    requires Readable(d) && PcInRange(d, pc) && SendsStatement(pc)
    ensures ParseOp(OpAt(d, pc)).Some? ==> ParseOp(OpAt(d, pc)).value.role == Role(d)
  {
    var r := d.refs[pc.i];
    assert r in d.refs;
    hide Parse, CreateUserQuery, DeleteUserQuery, PrivilegeOp, Legible, Strip, SpecialName;
    CreateUserRoundTrip(d.name, r.password);
    DropUserRoundTrip(d.name);
    if pc.Grant? || pc.Revoke? {
      LegibleAt(r.Privileges(), pc.k);
      OpParses(r.database.name, d.name, pc.Grant?, r.Privileges()[pc.k]);
    }
  }

  /** A statement leaves other rows as they are, but for memberships in its role. */
  lemma OtherRow(srv: Server, op: Op, r: string)
    requires ParseOp(op).Some? ==> ParseOp(op).value.role != r
    ensures var t := Perform(srv, op).0;
            (r in t.roles <==> r in srv.roles) && (r in srv.roles ==> t.roles[r] <= srv.roles[r])
  {
    hide Parse, MemberOf, EarlyError, ChangeError, Blocks;
  }

  lemma OtherRowStep(d: Desired, s: State, a: Action, address: (string, nat), r: string)
    requires Readable(d) && !a.Foreign? && r != Role(d)
    ensures var srv, t := At(s.servers, address), At(Step(d, s, a).servers, address);
            (r in t.roles <==> r in srv.roles) && (r in srv.roles ==> t.roles[r] <= srv.roles[r])
  {
    if a.Call? && PcInRange(d, s.pc) && SendsStatement(s.pc) {
      var mine := At(s.servers, d.refs[s.pc.i].database.Address());
      assert Step(d, s, a) == RespondStatement(d, s, a.fault);
      StatementServers(d, s, a.fault);
      OwnStatements(d, s.pc);
      OtherRow(mine, OpAt(d, s.pc), r);
      assert Answer(d, s, a.fault).0 == mine || Answer(d, s, a.fault).0 == Perform(mine, OpAt(d, s.pc)).0 by {
        hide Perform, OpAt, OutOfReach;
      }
      hide Answer, RespondStatement, Perform, OpAt, Strip, At, Step, Readable;
    } else {
      assert Step(d, s, a).servers == s.servers by { hide RespondStatement; }
    }
  }

  lemma LastUndisturbed(actions: seq<Action>)
    requires actions != [] && Undisturbed(actions)
    ensures Undisturbed(actions[..|actions| - 1]) && !actions[|actions| - 1].Foreign?
  {
  }

  /** The operator leaves the roles of others alone: they stay, and gain nothing. */
  lemma {:induction false} OtherRowRun(d: Desired, s: State, actions: seq<Action>, address: (string, nat), r: string)
    requires Readable(d) && Undisturbed(actions) && r != Role(d)
    ensures var srv, t := At(s.servers, address), At(Run(d, s, actions).servers, address);
            (r in t.roles <==> r in srv.roles) && (r in srv.roles ==> t.roles[r] <= srv.roles[r])
    decreases |actions|
  {
    hide Step, Undisturbed, Readable, At, Strip;
    if actions != [] {
      assert Undisturbed(actions[..|actions| - 1]) && !actions[|actions| - 1].Foreign? by { LastUndisturbed(actions); }
      OtherRowRun(d, s, actions[..|actions| - 1], address, r);
      OtherRowStep(d, Run(d, s, actions[..|actions| - 1]), actions[|actions| - 1], address, r);
    }
  }

  /** After any run without a deletion request, the operator can reach a true Ready exactly
      when CREATE USER takes the name, every entry is one that GRANT takes, every role named
      by an entry exists on its server and is not the user's own, and no entry is left to
      the ref's own connection once its certificate files are gone. */
  lemma ServeExactly(d: Desired, base: Servers, secrets: map<string, nat>, actions: seq<Action>)
    requires d.refs != [] && LegibleEntries(d) && Intact(base)
    requires var s := Run(d, Init(base, secrets), actions); Latest(s).Present? && !Latest(s).deleting
    ensures var s := Run(d, Init(base, secrets), actions);
            CanServe(d, s) <==> Sensible(d) && Available(d, s.servers) && KeepsFiles(d)
  {
    var s := Run(d, Init(base, secrets), actions);
    hide Run, Init, Step, FullyServed, Available, Sensible, KeepsFiles, LegibleEntries, Unmeddled, Intact, NamedAt,
         Strip;
    if Sensible(d) && Available(d, s.servers) && KeepsFiles(d) {
      var n := ApplyConverges(d, base, secrets, actions);
      CleanIsUndisturbed(d, s, n);
      assert Serves(d, Run(d, s, CleanReconcile(s, n)));
    }
    if CanServe(d, s) {
      var more :| Unmeddled(d, more) && Serves(d, Run(d, s, more));
      RunAppend(d, Init(base, secrets), actions, more);
      ServedConditions(d, base, secrets, actions + more);
      forall a, n | NamedAt(d, a, n) && n != Role(d) && n in Keys(Run(d, s, more).servers, a)
        ensures n in Keys(s.servers, a)
      {
        NamedKeysRun(d, s, more, a, n);
      }
      AvailableBack(d, s.servers, Run(d, s, more).servers);
    }
  }

  lemma AvailableBack(d: Desired, before: Servers, after: Servers)
    requires Available(d, after)
    requires forall a, n :: NamedAt(d, a, n) && n != Role(d) && n in Keys(after, a) ==> n in Keys(before, a)
    ensures Available(d, before)
  {
    hide Lex, Path, Fold, Strip, Keys, NamedAt;
    forall r, p | r in d.refs && p in r.Privileges() ensures Grantable(Keys(before, r.database.Address()), Role(d), p) {
      var a := r.database.Address();
      assert Grantable(Keys(after, a), Role(d), p);
      if SpecTarget(p).Membership? && Tokens(p) != [] && Tokens(p)[0].Word? {
        NamedHere(d, r, p, Fold(Tokens(p)[0].text));
      }
    }
  }

  lemma NamedHere(d: Desired, r: Ref, p: PrivilegeSpec, n: string)
    requires r in d.refs && p in r.Privileges() && NamedBy(p, n)
    ensures NamedAt(d, r.database.Address(), n)
  {
  }

  lemma ServedConditions(d: Desired, base: Servers, secrets: map<string, nat>, actions: seq<Action>)
    requires d.refs != [] && LegibleEntries(d) && Intact(base)
    requires Serves(d, Run(d, Init(base, secrets), actions))
    ensures Sensible(d) && Available(d, Run(d, Init(base, secrets), actions).servers) && KeepsFiles(d)
  {
    var t := Run(d, Init(base, secrets), actions);
    InvInit(d, base, secrets);
    assert Unready(Init(base, secrets)) && Intact(Init(base, secrets).servers);
    assert Creatable(d.name) by {
      hide Run, Step, Inv, Creatable, Intact;
      if !Creatable(d.name) { UnreadyForever(d, base, Init(base, secrets), actions); }
    }
    hide Run, Step, Inv, Init, Managed, FullyServed, Intact, RefsPassed;
    ReadyPassedRun(d, base, secrets, actions);
    IntactRun(d, Init(base, secrets), actions);
    PassedConditions(d);
    ServedIsAvailable(d, t);
  }

  lemma PassedConditions(d: Desired)
    requires Creatable(d.name) && RefsPassed(d, |d.refs|)
    ensures Sensible(d) && KeepsFiles(d)
  {
    hide Usable, NamedBy, Creatable;
    forall r, p | r in d.refs && p in r.Privileges() ensures Usable(p) {
      var i :| 0 <= i < |d.refs| && d.refs[i] == r;
      var k :| 0 <= k < |r.Privileges()| && r.Privileges()[k] == p;
      assert EntryPasses(d, i, k);
    }
    forall r, k | r in d.refs && 0 <= k < |r.Privileges()| && r.FilesGone(k) ensures r.Privileges()[k].InDatabase() {
      var i :| 0 <= i < |d.refs| && d.refs[i] == r;
      assert EntryPasses(d, i, k);
    }
  }

  /** Two refs on one server: a User that is fully served cannot be let go, if a later ref
      grants a database or table privilege that the first does not list. The DROP USER of
      the first comes before the REVOKEs of the second. */
  lemma SharedServerStays(d: Desired, base: Servers, secrets: map<string, nat>, actions: seq<Action>, j: nat, i: nat,
                          k: nat)
    requires Readable(d) && j < i < |d.refs| && !Shared(d, j) && Home(d, i) == Home(d, j)
    requires k < |d.refs[i].Privileges()|
    requires var p := d.refs[i].Privileges()[k];
             p.database != "" && PlainPrivilege(p.privilege) && HeldFor(p) !in Helds(d.refs[j].Privileges())
    requires var s := Run(d, Init(base, secrets), actions);
             s.pc.Idle? && Latest(s).Present? && Latest(s).deleting && FullyServed(d, s)
    ensures !CanRelease(d, Run(d, Init(base, secrets), actions))
  {
    var s := Run(d, Init(base, secrets), actions);
    var p, srv := d.refs[i].Privileges()[k], At(s.servers, Home(d, j));
    MarkedHasFinalizer(d, Init(base, secrets), actions);
    InvInit(d, base, secrets);
    InvRun(d, base, Init(base, secrets), actions);
    hide Run, Init, Inv, FullyServed, Helds, Managed, PlainPrivilege, AllLegible, Shared, Tokens, Path;
    ServedHolds(d, s, i, k);
    var ps, m := d.refs[j].Privileges(), Revocables(d, srv, d.refs[j].Privileges());
    HeldsMonotone(ps, m, |ps|);
    assert ps[..|ps|] == ps;
    assert HeldFor(p) in Left(d, srv, ps) && !HeldFor(p).target.Membership?;
    assert !DroppableOn(d, srv, d.refs[j]);
    hide DroppableOn, HeldFor, Left, Revocables;
    FoundThere(d, s.servers, j);
    NeverReleased(d, base, s, j);
  }

  // ---- remaining work ----

  /** Refs whose role is missing, and entries not yet granted. */
  function Missing(d: Desired, s: State): set<(nat, nat)> {
    set i: nat, k: nat | i < |d.refs| && k <= |d.refs[i].Privileges()| &&
      (if k == |d.refs[i].Privileges()| then !RoleAt(d, s.servers, Home(d, i)) else !EntryServed(d, s, i, k)) :: (i, k)
  }

  /** The cache has served the deletion. */
  predicate DeletionObserved(s: State)
    requires s.seen < |s.log|
  {
    Ended(s.log[s.seen])
  }

  /** The user's role is on `b` only if it is on `a`, and holds no more. */
  predicate NoMore(d: Desired, a: Server, b: Server) {
    Role(d) in b.roles ==> Role(d) in a.roles && b.roles[Role(d)] <= a.roles[Role(d)]
  }

  /** Remaining work never grows within a phase: until a pass has seen the deletion no step
      takes the role or a listed grant away, but for memberships in roles that others drop;
      from then on no step adds anything to the role. Failures, crashes, stale reads and
      statements of others included. */
  lemma WorkNeverGrows(d: Desired, base: Servers, s: State, a: Action)
    requires Inv(d, base, s)
    ensures var t := Step(d, s, a);
            && t.seen < |t.log|
            && (!DeletionObserved(t) ==> Missing(d, t) <= Missing(d, s))
            && (DeletionObserved(s) ==>
                   DeletionObserved(t) && forall x :: NoMore(d, At(s.servers, x), At(t.servers, x)))
  {
    ProtocolledStep(d, s, a);
    hide RolesHeld, ReadySound;
    if a.Call? && SendsStatement(s.pc) {
      assert Step(d, s, a) == RespondStatement(d, s, a.fault);
      hide Step;
      StatementWork(d, base, s, a.fault);
    } else if a.Foreign? {
      ForeignWork(d, s, a.address, a.op);
      hide StepForeign, NoMore, At, Missing;
    } else {
      OtherWork(d, s, a);
    }
  }

  lemma ForeignWork(d: Desired, s: State, address: (string, nat), op: Op)
    ensures var t := StepForeign(d, s, address, op);
            && t.log == s.log && t.seen == s.seen && Missing(d, t) <= Missing(d, s)
            && forall x :: NoMore(d, At(s.servers, x), At(t.servers, x))
  {
    var t := StepForeign(d, s, address, op);
    ForeignRoles(d, s, address, op);
    hide StepForeign, EntryServed, At;
    forall i: nat, k: nat | i < |d.refs| && k < |d.refs[i].Privileges()| && EntryServed(d, s, i, k)
      ensures EntryServed(d, t, i, k)
    {
      ForeignEntry(d, s, address, op, i, k);
    }
    forall x ensures NoMore(d, At(s.servers, x), At(t.servers, x)) { ForeignOwn(d, s, address, op, x); }
  }

  lemma StatementWork(d: Desired, base: Servers, s: State, fault: Fault)
    requires Inv(d, base, s) && SendsStatement(s.pc)
    ensures var t := RespondStatement(d, s, fault);
            && t.log == s.log && t.seen == s.seen
            && (!DeletionObserved(s) ==> Missing(d, t) <= Missing(d, s))
            && (DeletionObserved(s) ==> forall x :: NoMore(d, At(s.servers, x), At(t.servers, x)))
  {
    assert Follows(s.log[s.seen], s.log[s.pc.copy.version]);
    var t := RespondStatement(d, s, fault);
    StatementServers(d, s, fault);
    assert s.pc.Create? || s.pc.Grant? ==> !DeletionObserved(s);
    assert s.pc.Revoke? || s.pc.Drop? ==> DeletionObserved(s);
    hide RespondStatement, NoMore, DeletionObserved, Missing, Extends;
    if s.pc.Create? || s.pc.Grant? {
      ApplyExtends(d, s, fault);
      MissingShrinks(d, s, t);
    } else {
      forall x ensures NoMore(d, At(s.servers, x), At(t.servers, x)) { DeleteTakes(d, s, fault, x); }
    }
  }

  lemma OtherWork(d: Desired, s: State, a: Action)
    requires Protocolled(d, s) && Protocolled(d, Step(d, s, a)) && !(a.Call? && SendsStatement(s.pc)) && !a.Foreign?
    ensures var t := Step(d, s, a);
            && Missing(d, t) <= Missing(d, s)
            && (DeletionObserved(s) ==> DeletionObserved(t))
            && forall x :: NoMore(d, At(s.servers, x), At(t.servers, x))
  {
    var t := Step(d, s, a);
    SameServers(d, s, a);
    SameDropped(d, s, a);
    CacheAdvances(d, s, a);
    assert Follows(t.log[s.seen], t.log[t.seen]);
    hide Step, EntryServed, Protocolled, At;
    forall i: nat, k: nat | i < |d.refs| && k < |d.refs[i].Privileges()|
      ensures EntryServed(d, s, i, k) == EntryServed(d, t, i, k)
    {
      SameEntry(d, s, t, i, k);
    }
  }

  lemma SameEntry(d: Desired, s: State, t: State, i: nat, k: nat)
    requires i < |d.refs| && k < |d.refs[i].Privileges()| && t.servers == s.servers && t.dropped == s.dropped
    ensures EntryServed(d, s, i, k) == EntryServed(d, t, i, k)
  {
  }

  lemma CacheAdvances(d: Desired, s: State, a: Action)
    requires s.seen < |s.log| && !a.Foreign?
    ensures var t := Step(d, s, a); s.seen <= t.seen && s.seen < |t.log| && t.log[s.seen] == s.log[s.seen]
  {
    hide Answer, AfterStatement;
  }

  lemma MissingShrinks(d: Desired, s: State, t: State)
    requires s.dropped <= t.dropped && forall a :: Extends(At(s.servers, a), At(t.servers, a))
    ensures Missing(d, t) <= Missing(d, s)
  {
    hide EntryServed, At, Extends;
    forall i: nat, k: nat | i < |d.refs| && k < |d.refs[i].Privileges()| && EntryServed(d, s, i, k)
      ensures EntryServed(d, t, i, k)
    {
      EntryKept(d, s, t, i, k);
    }
    forall i: nat | i < |d.refs| && RoleAt(d, s.servers, Home(d, i)) ensures RoleAt(d, t.servers, Home(d, i)) {
      assert Extends(At(s.servers, Home(d, i)), At(t.servers, Home(d, i)));
      ExtendsKeys(At(s.servers, Home(d, i)), At(t.servers, Home(d, i)));
    }
  }

  lemma ExtendsKeys(a: Server, b: Server)
    requires Extends(a, b)
    ensures a.roles.Keys <= b.roles.Keys
  {
  }

  lemma EntryKept(d: Desired, s: State, t: State, i: nat, k: nat)
    requires i < |d.refs| && k < |d.refs[i].Privileges()| && EntryServed(d, s, i, k)
    requires s.dropped <= t.dropped && Extends(At(s.servers, Home(d, i)), At(t.servers, Home(d, i)))
    ensures EntryServed(d, t, i, k)
  {
    if Granted(At(s.servers, Home(d, i)), GrantOp(d, i, k)) {
      GrantedKept(At(s.servers, Home(d, i)), At(t.servers, Home(d, i)), GrantOp(d, i, k));
    }
    hide Granted, GrantOp, OfRole, At, Extends;
  }

  lemma DeleteTakes(d: Desired, s: State, fault: Fault, x: (string, nat))
    requires PcInRange(d, s.pc) && (s.pc.Revoke? || s.pc.Drop?)
    ensures NoMore(d, At(s.servers, x), At(RespondStatement(d, s, fault).servers, x))
  {
    var r := d.refs[s.pc.i];
    var srv := At(s.servers, r.database.Address());
    StatementServers(d, s, fault);
    assert NoMore(d, srv, Answer(d, s, fault).0) by {
      hide Perform, DropOp, PrivilegeOp, IsChangeOp, Nameable, Strip;
      if s.pc.Drop? {
        DropMeaning(srv, r.database.name, d.name);
      } else {
        PrivilegeOpIsChange(r.database.name, d.name, false, r.Privileges()[s.pc.k]);
        ChangeEffect(srv, OpAt(d, s.pc), false);
      }
    }
    hide Answer, RespondStatement, At, AfterStatement;
  }
}
