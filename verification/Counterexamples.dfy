/** Users that the operator cannot serve or cannot let go, with the runs that lead there. */
module Counterexamples {
  import opened Text
  import opened Sql
  import opened Quoting
  import opened Statements
  import opened PrivilegeText
  import opened Plans
  import opened Passes
  import Server
  import opened Resources
  import opened Protocol
  import opened Safety
  import opened Convergence
  import opened Obstacles
  import opened Deletion
  import opened Revocation
  import opened Limits
  import opened Secrets
  import opened Configuration
  import opened Adapter

  /** The finalizer is set, then deletion is requested. */
  const EARLY_DELETION: seq<Action> := [Begin(0), Call(Done), RequestDeletion]

  lemma MarkedEarly(d: Desired, base: Servers, secrets: map<string, nat>)
    ensures var s := Run(d, Init(base, secrets), EARLY_DELETION);
            Latest(s) == Present(true, true, false)
  {
    var s0 := Init(base, secrets);
    var s1 := Step(d, s0, Begin(0));
    var s2 := Step(d, s1, Call(Done));
    assert s1.pc == AddFinalizer(Copy(0, false, false, false)) && s1.log == s0.log;
    assert Latest(s2) == Present(true, false, false);
    assert Latest(Step(d, s2, RequestDeletion)) == Present(true, true, false);
    hide Step;
    ThreeSteps(d, s0, Begin(0), Call(Done), RequestDeletion);
  }

  lemma ThreeSteps(d: Desired, s: State, a: Action, b: Action, c: Action)
    ensures Run(d, s, [a, b, c]) == Step(d, Step(d, Step(d, s, a), b), c)
  {
    hide Step;
    RunOne(d, s, a);
    RunAppend(d, s, [a], [b]);
    RunOne(d, Step(d, s, a), b);
    RunAppend(d, s, [a, b], [c]);
    RunOne(d, Run(d, s, [a, b]), c);
    assert [a] + [b] == [a, b] && [a, b] + [c] == [a, b, c];
  }

  /** The role is created, the answer is lost, the process dies, deletion is requested. */
  const CREATED_THEN_MARKED: seq<Action> := [Begin(0), Call(Done), Call(Done), Call(Lost)] + [Crash, RequestDeletion]

  lemma CreatedThenMarked(d: Desired, base: Servers)
    requires Creatable(d.name) && d.refs != [] && Unmanaged(d, base)
    ensures var s := Run(d, Init(base, map[]), CREATED_THEN_MARKED);
            s.pc.Idle? && Latest(s) == Present(true, true, false) && RoleAt(d, s.servers, Home(d, 0))
  {
    var s0 := Init(base, map[]);
    var s := Run(d, s0, [Begin(0), Call(Done), Call(Done), Call(Lost)]);
    CreateIsLost(d, base);
    var idle := Step(d, s, Crash);
    assert idle == s.(pc := Idle);
    assert Step(d, idle, RequestDeletion) == idle.(log := s.log + [Present(true, true, false)]);
    hide Step, Run, Creatable, RoleAt;
    RunAppend(d, s0, [Begin(0), Call(Done), Call(Done), Call(Lost)], [Crash, RequestDeletion]);
    RunAppend(d, s, [Crash], [RequestDeletion]);
    RunOne(d, s, Crash);
    RunOne(d, idle, RequestDeletion);
    assert [Crash] + [RequestDeletion] == [Crash, RequestDeletion];
  }

  /** A User whose name is no role name, like `john.doe`, once marked for deletion, stays for
      ever. */
  lemma DottedNameStays(d: Desired, base: Servers, secrets: map<string, nat>)
    requires d.name == "john.doe" && d.refs != []
    ensures var s := Run(d, Init(base, secrets), EARLY_DELETION);
            Latest(s) == Present(true, true, false) && !CanRelease(d, s)
  {
    assert d.name[4] == '.';
    MarkedEarly(d, base, secrets);
    hide Run, Init, Strip;
    forall more ensures HasFinalizer(Latest(Run(d, Run(d, Init(base, secrets), EARLY_DELETION), more))) {
      UnusableStays(d, base, secrets, EARLY_DELETION, more);
    }
  }

  // ---- files that are taken away ----

  /** No delete pass has got beyond ref `i`, whose files are gone before its DROP USER. */
  predicate Blocked(pc: Pc, i: nat) {
    && !pc.RemoveFinalizer?
    && ((pc.Open? && pc.copy.deleting) || pc.Revoke? || pc.Drop? || pc.DeleteSecret? ==> pc.i <= i)
    && (pc.Drop? && pc.i == i ==> pc.gone)
    && (pc.DeleteSecret? && pc.i == i ==> !pc.dropped)
  }

  predicate FirstTakesFiles(r: Ref) {
    r.Privileges() != [] && r.TakesFiles(r.Privileges()[0])
  }

  lemma GoneForGood(r: Ref, n: nat)
    requires FirstTakesFiles(r) && n > 0
    ensures r.FilesGone(n)
  {
  }

  lemma BlockedAfter(d: Desired, pc: Pc, err: Error, i: nat)
    requires PcInRange(d, pc) && SendsStatement(pc) && PhaseMatches(pc) && Blocked(pc, i)
    requires i < |d.refs| && FirstTakesFiles(d.refs[i])
    requires pc.Drop? && pc.gone ==> err == Failure
    ensures Blocked(AfterStatement(d, pc, err), i)
  {
    if pc.Revoke? && pc.i == i { GoneForGood(d.refs[i], pc.k + 1); }
    hide FirstTakesFiles;
    if pc.Revoke? {
      RevokeLeads(d, pc, err);
      hide AfterStatement;
    }
  }

  lemma BlockedStep(d: Desired, s: State, a: Action, i: nat)
    requires PcInRange(d, s.pc) && PhaseMatches(s.pc) && Blocked(s.pc, i)
    requires i < |d.refs| && FirstTakesFiles(d.refs[i])
    ensures Blocked(Step(d, s, a).pc, i)
    ensures HasFinalizer(Latest(s)) ==> HasFinalizer(Latest(Step(d, s, a)))
  {
    FinalizerStays(d, s, a);
    if a.Call? && SendsStatement(s.pc) {
      assert Step(d, s, a) == RespondStatement(d, s, a.fault);
      StatementServers(d, s, a.fault);
      assert s.pc.Drop? && s.pc.gone ==> Answer(d, s, a.fault).1 == Failure;
      hide Step, RespondStatement, Answer;
      BlockedAfter(d, s.pc, Answer(d, s, a.fault).1, i);
    } else {
      hide RespondStatement, StepForeign;
      if a.Foreign? { ForeignRoles(d, s, a.address, a.op); }
    }
  }

  lemma FinalizerStays(d: Desired, s: State, a: Action)
    ensures HasFinalizer(Latest(s)) && !s.pc.RemoveFinalizer? ==> HasFinalizer(Latest(Step(d, s, a)))
  {
    if HasFinalizer(Latest(s)) { FinalizerLeaves(d, s, a); }
    hide Step;
  }

  lemma {:induction false} BlockedRun(d: Desired, base: Servers, s: State, actions: seq<Action>, i: nat)
    requires Inv(d, base, s) && Blocked(s.pc, i) && i < |d.refs| && FirstTakesFiles(d.refs[i])
    ensures var t := Run(d, s, actions);
            Inv(d, base, t) && Blocked(t.pc, i) && (HasFinalizer(Latest(s)) ==> HasFinalizer(Latest(t)))
    decreases |actions|
  {
    hide Step, Inv, Blocked, FirstTakesFiles;
    InvRun(d, base, s, actions);
    if actions != [] {
      var init, a := actions[..|actions| - 1], actions[|actions| - 1];
      BlockedRun(d, base, s, init, i);
      InvInPlace(d, base, Run(d, s, init));
      BlockedStep(d, Run(d, s, init), a, i);
    }
  }

  /** A ref in certificate mode whose first entry is on an object in the ref's own database:
      whatever the run, and whoever else sends statements, once the finalizer is set the
      object stays. */
  lemma OwnDatabaseFirstStays(d: Desired, base: Servers, secrets: map<string, nat>, actions: seq<Action>, i: nat)
    requires i < |d.refs| && FirstTakesFiles(d.refs[i])
    requires HasFinalizer(Latest(Run(d, Init(base, secrets), actions)))
    ensures forall more :: HasFinalizer(Latest(Run(d, Run(d, Init(base, secrets), actions), more)))
    ensures !CanRelease(d, Run(d, Init(base, secrets), actions))
  {
    InvInit(d, base, secrets);
    assert Blocked(Init(base, secrets).pc, i);
    hide Run, Init, Inv, Blocked, FirstTakesFiles;
    BlockedRun(d, base, Init(base, secrets), actions, i);
    var s := Run(d, Init(base, secrets), actions);
    forall more ensures HasFinalizer(Latest(Run(d, s, more))) {
      BlockedRun(d, base, s, more, i);
    }
  }

  // ---- a spec to try ----

  /** PostgreSQL with certificates; the adapter's own connections go to database `d`. */
  const CERTIFIED: Postgres := Postgres("pg", 5432, "operator", "", "d", "verify-full", "ca", "crt", "key")

  /** The same without. */
  const PLAIN: Postgres := Postgres("pg", 5432, "operator", "", "d", "disable", "", "", "")

  const ON_TABLE: PrivilegeSpec := PrivilegeSpec("SELECT", "t", "d")
  const ON_DATABASE: PrivilegeSpec := PrivilegeSpec("CREATE", "", "d")
  const READER: PrivilegeSpec := PrivilegeSpec("reader", "", "")
  const MISTYPED: PrivilegeSpec := PrivilegeSpec("SELEC", "", "d")
  const ALL_OF_NOTHING: PrivilegeSpec := PrivilegeSpec("ALL", "", "")

  function John(db: Postgres, ps: seq<PrivilegeSpec>): Desired {
    Desired("john", [Ref(db, "", "john-cert", [ps])])
  }

  lemma JohnsEntries(db: Postgres, ps: seq<PrivilegeSpec>)
    ensures John(db, ps).refs[0].Privileges() == ps
  {
    assert [ps][..0] == [];
    assert Flatten([ps]) == Flatten([]) + ps;
  }

  lemma CreateIsUsable()
    ensures Usable(ON_DATABASE) && !NamedBy(ON_DATABASE, "john")
  {
    FoldLetters("CREATE", "create");
    ShortPath("d");
    assert IsPrivilegeWord(Word("CREATE"));
    assert !Reserved(Word("CREATE")) && !OtherClause(Word("CREATE")) by {
      assert "CREATE"[0] == 'C' && Lower('C') == 'c';
    }
    assert Fits(true, Item("create", false));
    assert "create"[0] == 'c' && "all"[0] == 'a';
    hide Lex, IsPrivilegeWord, Reserved, OtherClause, Path, Fold, Applicable, Executable, Fits;
    PrivilegeExecutable("CREATE", "create", "", "d");
  }

  lemma TableIsUsable()
    ensures Usable(ON_TABLE) && !HeldFor(ON_TABLE).target.Membership?
  {
    SelectIsUsable();
    hide Usable;
  }

  lemma JohnIsReadable(db: Postgres, ps: seq<PrivilegeSpec>)
    requires AllLegible(ps)
    ensures var d := John(db, ps);
            Readable(d) && Managed(d.name) && Creatable(d.name) && Role(d) == "john" && LegibleEntries(d)
  {
    ExampleUser();
    JohnsEntries(db, ps);
    hide AllLegible, Managed, Flatten, Strip;
  }

  lemma JohnIsSensible(db: Postgres, ps: seq<PrivilegeSpec>)
    requires AllUsable(ps)
    ensures Sensible(John(db, ps)) && Readable(John(db, ps)) && LegibleEntries(John(db, ps))
  {
    UsableIsLegible(ps);
    JohnIsReadable(db, ps);
    JohnsEntries(db, ps);
    hide AllUsable, AllLegible, Managed, Creatable, Flatten;
  }

  lemma NoMembershipsAvailable(db: Postgres, ps: seq<PrivilegeSpec>, servers: Servers)
    requires forall p :: p in ps ==> p.database != ""
    ensures Available(John(db, ps), servers)
  {
    JohnsEntries(db, ps);
    hide Flatten, Tokens, Path;
  }

  lemma NobodyManaged(d: Desired)
    ensures Unmanaged(d, map[]) && Intact(map[])
  {
  }

  lemma OwnTableFirst(more: seq<PrivilegeSpec>)
    ensures var r := John(CERTIFIED, [ON_TABLE] + more).refs[0];
            r.Privileges() == [ON_TABLE] + more && FirstTakesFiles(r) && r.FilesGone(1)
  {
    JohnsEntries(CERTIFIED, [ON_TABLE] + more);
    hide Flatten;
    var r := John(CERTIFIED, [ON_TABLE] + more).refs[0];
    assert r.TakesFiles(r.Privileges()[0]);
  }

  /** One grant on a table of the adapter's own database: deletion never completes, though
      the spec meets every other condition and can be served. */
  lemma OwnTableStays()
    ensures var d := John(CERTIFIED, [ON_TABLE]);
            var s := Run(d, Init(map[], map[]), EARLY_DELETION);
            && Sensible(d) && Available(d, map[]) && KeepsFiles(d) && Unmanaged(d, map[])
            && Latest(s) == Present(true, true, false) && !CanRelease(d, s)
  {
    hide *;
    var d := John(CERTIFIED, [ON_TABLE]);
    TableIsUsable();
    OneUsable(ON_TABLE);
    JohnIsSensible(CERTIFIED, [ON_TABLE]);
    OnTableShape([ON_TABLE]);
    NoMembershipsAvailable(CERTIFIED, [ON_TABLE], map[]);
    NobodyManaged(d);
    MarkedEarly(d, map[], map[]);
    MarkedIs(Present(true, true, false));
    OwnDatabaseFirstStays(d, map[], map[], EARLY_DELETION, 0);
  }

  lemma MarkedIs(o: UserObject)
    ensures o == Present(true, true, false) ==> HasFinalizer(o)
  {
  }

  lemma OneUsable(p: PrivilegeSpec)
    requires Usable(p)
    ensures AllUsable([p])
  {
    hide Usable;
  }

  lemma OnTableShape(ps: seq<PrivilegeSpec>)
    requires ps == [ON_TABLE] || ps == [ON_TABLE, ON_DATABASE]
    ensures var d := John(CERTIFIED, ps);
            && |d.refs| == 1 && FirstTakesFiles(d.refs[0]) && (KeepsFiles(d) <==> ps == [ON_TABLE])
            && forall p :: p in ps ==> p.database != ""
  {
    var d := John(CERTIFIED, ps);
    OwnTableFirst(ps[1..]);
    assert [ON_TABLE] + ps[1..] == ps;
    OuterOrNot(d.refs[0], ps);
    hide FirstTakesFiles, OuterFirst, Flatten;
    assert d.refs == [d.refs[0]];
    Different(ON_TABLE, ON_DATABASE);
  }

  lemma OuterOrNot(r: Ref, ps: seq<PrivilegeSpec>)
    requires r.Privileges() == ps && (ps == [ON_TABLE] || ps == [ON_TABLE, ON_DATABASE]) && r.FilesGone(1)
    ensures OuterFirst(r) <==> |ps| == 1
  {
    if |ps| == 2 { assert r.FilesGone(1) && !r.Privileges()[1].InDatabase(); }
  }

  /** With a grant on the database after it, the User is never Ready either. */
  lemma OwnTableThenDatabaseNeverReady()
    ensures var d := John(CERTIFIED, [ON_TABLE, ON_DATABASE]);
            && Sensible(d) && Available(d, map[]) && Unmanaged(d, map[])
            && !CanServe(d, Init(map[], map[]))
  {
    hide *;
    var d := John(CERTIFIED, [ON_TABLE, ON_DATABASE]);
    TableIsUsable();
    CreateIsUsable();
    TwoUsable(ON_TABLE, ON_DATABASE);
    JohnIsSensible(CERTIFIED, [ON_TABLE, ON_DATABASE]);
    OnTableShape([ON_TABLE, ON_DATABASE]);
    NoMembershipsAvailable(CERTIFIED, [ON_TABLE, ON_DATABASE], map[]);
    NobodyManaged(d);
    Different(ON_TABLE, ON_DATABASE);
    NeverServed(d);
  }

  lemma Different(p: PrivilegeSpec, q: PrivilegeSpec)
    ensures [p, q] != [p]
  {
    assert |[p, q]| == 2 && |[p]| == 1;
  }

  lemma TwoUsable(p: PrivilegeSpec, q: PrivilegeSpec)
    requires Usable(p) && Usable(q)
    ensures AllUsable([p, q])
  {
    hide Usable;
  }

  lemma NeverServed(d: Desired)
    requires d.refs != [] && LegibleEntries(d) && !(Sensible(d) && Available(d, map[]) && KeepsFiles(d))
    ensures !CanServe(d, Init(map[], map[]))
  {
    NobodyManaged(d);
    assert Latest(Init(map[], map[])) == Present(false, false, false) &&
        Run(d, Init(map[], map[]), []) == Init(map[], map[]);
    hide Run, Sensible, Available, CanServe, LegibleEntries, Unmanaged, Intact, KeepsFiles;
    ServeExactly(d, map[], map[], []);
  }

  // ---- entries that the server refuses ----

  /** A privilege the server does not know: it takes the statement apart, finds the role, and
      then refuses. */
  lemma MistypedIsRefused()
    ensures LegibleEntry(MISTYPED) && Executable(MISTYPED) && !Usable(MISTYPED)
  {
    FoldLetters("SELEC", "selec");
    ShortPath("d");
    assert !IsKeyWord("selec") by { assert |"selec"| == 5 && "selec"[0] == 's' && "selec"[1] == 'e'; }
    assert IsPrivilegeWord(Word("SELEC"));
    assert !Reserved(Word("SELEC")) && !OtherClause(Word("SELEC")) by { assert |"SELEC"| == 5; }
    assert !Fits(true, Item("selec", false)) by { assert "selec"[0] == 's'; }
    assert |"selec"| != |"all"|;
    hide Lex, IsPrivilegeWord, Reserved, OtherClause, Path, Fold, Applicable, Executable, Fits, IsKeyWord;
    PrivilegeExecutable("SELEC", "selec", "", "d");
    assert LegibleEntry(MISTYPED) by { ExecutableIsPlain(MISTYPED); hide PlainPrivilege; LegiblePlain("SELEC"); }
  }

  /** ALL without a database asks for membership in a role that cannot exist. */
  lemma AllOfNothingIsRefused()
    ensures LegibleEntry(ALL_OF_NOTHING) && !Executable(ALL_OF_NOTHING)
  {
    FoldLetters("ALL", "all");
    assert !Reserved(Word("ALL")) && !OtherClause(Word("ALL")) by { assert "ALL"[0] == 'A' && Lower('A') == 'a'; }
    PlainWord("ALL");
    assert !IsPrivilegeWord(Word("ALL"));
    hide Lex, IsKeyword, Reserved, OtherClause;
    assert Tokens(ALL_OF_NOTHING) == [Word("ALL")];
  }

  /** An entry that the server refuses, the entries before it revocable: once the role is
      there, the object stays. */
  lemma RefusedEntryStays(d: Desired, base: Servers, secrets: map<string, nat>, actions: seq<Action>, i: nat, k: nat)
    requires Readable(d) && i < |d.refs| && !Shared(d, i) && k < |d.refs[i].Privileges()|
    requires var s := Run(d, Init(base, secrets), actions);
             var keys := Keys(s.servers, Home(d, i));
             && s.pc.Idle? && HasFinalizer(Latest(s)) && RoleAt(d, s.servers, Home(d, i))
             && !Usable(d.refs[i].Privileges()[k])
             && forall j :: 0 <= j < k ==> Accepted(keys, Role(d), false, d.refs[i].Privileges()[j])
    ensures !CanRelease(d, Run(d, Init(base, secrets), actions))
  {
    hide *;
    var s := Run(d, Init(base, secrets), actions);
    InvInit(d, base, secrets);
    InvRun(d, base, Init(base, secrets), actions);
    RefusedBlocks(d, s.servers, i, k);
    NeverReleased(d, base, s, i);
  }

  lemma RefusedBlocks(d: Desired, servers: Servers, i: nat, k: nat)
    requires i < |d.refs| && !Shared(d, i) && k < |d.refs[i].Privileges()| && RoleAt(d, servers, Home(d, i))
    requires !Usable(d.refs[i].Privileges()[k])
    requires forall j :: 0 <= j < k ==> Accepted(Keys(servers, Home(d, i)), Role(d), false, d.refs[i].Privileges()[j])
    ensures !Droppable(d, servers, i)
  {
    var srv, r := At(servers, Home(d, i)), d.refs[i];
    hide Usable, Strip, Shared, Accepted, Reach, Droppable;
    var m := Revocables(d, srv, r.Privileges());
    assert m == k by { ReachIs(srv.roles.Keys, Role(d), r.Privileges(), k); }
    assert !EndsSwallowed(d, srv, r.Privileges());
    hide EndsSwallowed, TriedOn, Left;
    FoundThere(d, servers, i);
  }

  lemma ReachIs(keys: set<string>, role: string, ps: seq<PrivilegeSpec>, k: nat)
    requires k < |ps| && !Usable(ps[k]) && forall j :: 0 <= j < k ==> Accepted(keys, role, false, ps[j])
    ensures Reach(keys, role, false, ps) == k
  {
    assert !Accepted(keys, role, false, ps[k]);
    hide Reach, Accepted, Usable;
  }

  /** A first entry whose statement is no statement for the server: the object stays even if
      the role was never created. */
  lemma RefusedFirstStays(d: Desired, base: Servers, secrets: map<string, nat>, actions: seq<Action>, i: nat)
    requires Readable(d) && i < |d.refs| && d.refs[i].Privileges() != [] && !Executable(d.refs[i].Privileges()[0])
    requires var s := Run(d, Init(base, secrets), actions); s.pc.Idle? && HasFinalizer(Latest(s))
    ensures !CanRelease(d, Run(d, Init(base, secrets), actions))
  {
    var s := Run(d, Init(base, secrets), actions);
    InvInit(d, base, secrets);
    InvRun(d, base, Init(base, secrets), actions);
    hide Run, Init, Inv, Readable, Executable, Strip, Found;
    NeverReleased(d, base, s, i);
  }

  /** A mistyped privilege: the User is never Ready, and once CREATE USER has made the role
      it is never let go. */
  lemma MistypedStays()
    ensures var d := John(PLAIN, [MISTYPED]);
            var s := Run(d, Init(map[], map[]), CREATED_THEN_MARKED);
            && !CanServe(d, Init(map[], map[]))
            && Latest(s) == Present(true, true, false) && !CanRelease(d, s)
  {
    var d := John(PLAIN, [MISTYPED]);
    MistypedIsRefused();
    hide Usable, Executable, LegibleEntry;
    JohnIsReadable(PLAIN, [MISTYPED]);
    JohnsEntries(PLAIN, [MISTYPED]);
    NobodyManaged(d);
    assert !Sensible(d) by { assert MISTYPED in d.refs[0].Privileges(); }
    CreatedThenMarked(d, map[]);
    hide Run, Init, Sensible, Readable, LegibleEntries, Flatten, Creatable, Managed, Unmanaged, CanServe, CanRelease;
    NeverServed(d);
    assert !Shared(d, 0);
    RefusedEntryStays(d, map[], map[], CREATED_THEN_MARKED, 0, 0);
  }

  /** ALL without a database: never let go, though no role was ever created. */
  lemma AllOfNothingStays()
    ensures var d := John(PLAIN, [ALL_OF_NOTHING]);
            var s := Run(d, Init(map[], map[]), EARLY_DELETION + [Crash]);
            Latest(s) == Present(true, true, false) && !CanRelease(d, s)
  {
    hide *;
    var d := John(PLAIN, [ALL_OF_NOTHING]);
    AllOfNothingIsRefused();
    OneLegible(ALL_OF_NOTHING);
    JohnIsReadable(PLAIN, [ALL_OF_NOTHING]);
    JohnsEntries(PLAIN, [ALL_OF_NOTHING]);
    OneRef(PLAIN, [ALL_OF_NOTHING]);
    MarkedEarly(d, map[], map[]);
    ThenCrash(d, Init(map[], map[]), EARLY_DELETION);
    RefusedFirstStays(d, map[], map[], EARLY_DELETION + [Crash], 0);
  }

  lemma OneLegible(p: PrivilegeSpec)
    requires LegibleEntry(p)
    ensures AllLegible([p])
  {
    hide LegibleEntry;
  }

  lemma OneRef(db: Postgres, ps: seq<PrivilegeSpec>)
    ensures |John(db, ps).refs| == 1
    ensures HasFinalizer(Present(true, true, false))
  {
  }

  lemma ThenCrash(d: Desired, s: State, actions: seq<Action>)
    ensures var t, u := Run(d, s, actions), Run(d, s, actions + [Crash]); u == t.(pc := Idle) && Latest(u) == Latest(t)
  {
    RunAppend(d, s, actions, [Crash]);
    RunOne(d, Run(d, s, actions), Crash);
    hide Run;
  }

  // ---- roles that others drop ----

  /** A named role is gone, and a privilege listed after it is still held. */
  lemma DroppedRoleBlocks(d: Desired, servers: Servers, i: nat, j: nat, k: nat, n: string)
    requires i < |d.refs| && !Shared(d, i) && j < k < |d.refs[i].Privileges()|
    requires var srv, ps := At(servers, Home(d, i)), d.refs[i].Privileges();
             && Role(d) in srv.roles && n !in srv.roles && NamedBy(ps[j], n)
             && HeldFor(ps[k]) in srv.roles[Role(d)] && !HeldFor(ps[k]).target.Membership?
             && HeldFor(ps[k]) !in Helds(ps[..j])
    ensures !Droppable(d, servers, i)
  {
    var srv, ps := At(servers, Home(d, i)), d.refs[i].Privileges();
    var m := Revocables(d, srv, ps);
    hide HeldFor, Helds, Usable, Strip, Shared, Tokens, SpecTarget, Fold;
    assert !Accepted(srv.roles.Keys, Role(d), false, ps[j]);
    HeldsMonotone(ps, m, j);
    assert HeldFor(ps[k]) in Left(d, srv, ps);
    assert !DroppableOn(d, srv, d.refs[i]);
    hide DroppableOn;
    FoundThere(d, servers, i);
  }

  /** Others drop a role that an entry names, while the User is fully served and marked for
      deletion: if a database or table privilege comes after that entry, the object stays. */
  lemma OthersDropStays(d: Desired, base: Servers, secrets: map<string, nat>, actions: seq<Action>,
                        op: Op, i: nat, j: nat, k: nat)
    requires Readable(d) && i < |d.refs| && !Shared(d, i) && j < k < |d.refs[i].Privileges()|
    requires var p := d.refs[i].Privileges()[k];
             PlainPrivilege(p.privilege) && p.database != "" && HeldFor(p) !in Helds(d.refs[i].Privileges()[..j])
    requires var s := Run(d, Init(base, secrets), actions);
             && s.pc.Idle? && Latest(s).Present? && Latest(s).deleting && FullyServed(d, s)
             && ParseOp(op).Some? && ParseOp(op).value.DropUser? && !OwnStatement(d, op)
             && Perform(At(s.servers, Home(d, i)), op).1 == NoError
             && NamedBy(d.refs[i].Privileges()[j], ParseOp(op).value.role)
    ensures !CanRelease(d, Run(d, Init(base, secrets), actions + [Foreign(Home(d, i), op)]))
  {
    hide *;
    var s := Run(d, Init(base, secrets), actions);
    var act := Foreign(Home(d, i), op);
    var t := Run(d, Init(base, secrets), actions + [act]);
    StartUnmarked(d, base, secrets);
    MarkedHasFinalizer(d, Init(base, secrets), actions);
    InvInit(d, base, secrets);
    InvRun(d, base, Init(base, secrets), actions + [act]);
    ForeignRun(d, Init(base, secrets), actions, Home(d, i), op);
    ReadableIsManaged(d);
    ServedHolds(d, s, i, k);
    NotAMembership(d.refs[i].Privileges()[k]);
    DropTakes(d, At(s.servers, Home(d, i)), op, HeldFor(d.refs[i].Privileges()[k]));
    DroppedRoleBlocks(d, t.servers, i, j, k, ParseOp(op).value.role);
    KeepsFinalizer(s, t);
    NeverReleased(d, base, t, i);
  }

  lemma ReadableIsManaged(d: Desired)
    requires Readable(d)
    ensures Managed(d.name)
  {
  }

  lemma NotAMembership(p: PrivilegeSpec)
    requires p.database != ""
    ensures !HeldFor(p).target.Membership?
  {
    hide Tokens, Path;
  }

  lemma KeepsFinalizer(s: State, t: State)
    requires Latest(s).Present? && Latest(s).finalizer && t.log == s.log
    ensures HasFinalizer(Latest(t))
  {
  }

  lemma ForeignRun(d: Desired, s: State, actions: seq<Action>, address: (string, nat), op: Op)
    requires !OwnStatement(d, op)
    ensures var t, u := Run(d, s, actions), Run(d, s, actions + [Foreign(address, op)]);
            u.log == t.log && u.pc == t.pc && At(u.servers, address) == Perform(At(t.servers, address), op).0
  {
    var t := Run(d, s, actions);
    RunAppend(d, s, actions, [Foreign(address, op)]);
    RunOne(d, t, Foreign(address, op));
    assert Step(d, t, Foreign(address, op)) == StepForeign(d, t, address, op);
    hide Run, Step, Perform, OwnStatement, NewlyDropped;
  }

  lemma DropTakes(d: Desired, srv: Server.Server, op: Op, h: Server.Held)
    requires ParseOp(op).Some? && ParseOp(op).value.DropUser? && !OwnStatement(d, op) && Perform(srv, op).1 == NoError
    requires Role(d) in srv.roles && h in srv.roles[Role(d)] && !h.target.Membership?
    ensures var t := Perform(srv, op).0;
            ParseOp(op).value.role !in t.roles && Role(d) in t.roles && h in t.roles[Role(d)]
  {
    hide Parse, Strip;
  }

  const SERVER: (string, nat) := ("pg", 5432)
  const WITH_READER: Servers := map[SERVER := Server.Server(map["reader" := {}])]

  lemma JohnReads()
    ensures var d := John(PLAIN, [READER, ON_TABLE]);
            && Sensible(d) && Readable(d) && LegibleEntries(d) && KeepsFiles(d) && Available(d, WITH_READER)
            && Unmanaged(d, WITH_READER) && DistinctServers(d) && Role(d) == "john"
            && d.refs[0].Privileges() == [READER, ON_TABLE] && AllUsable([READER, ON_TABLE])
            && NamedBy(READER, "reader")
  {
    var d := John(PLAIN, [READER, ON_TABLE]);
    TableIsUsable();
    ReaderIsUsable();
    ReaderIsName();
    ExampleUser();
    hide Usable, Fold, IsName, Tokens, Path, Flatten, HeldFor, Strip, Creatable;
    JohnIsSensible(PLAIN, [READER, ON_TABLE]);
    JohnsEntries(PLAIN, [READER, ON_TABLE]);
    assert d.refs[0].database.Address() == SERVER;
  }

  /** John is served, then marked for deletion. */
  lemma JohnIsServed() returns (actions: seq<Action>)
    ensures var d := John(PLAIN, [READER, ON_TABLE]);
            var s := Run(d, Init(WITH_READER, map[]), actions);
            && Undisturbed(actions) && s.pc.Idle? && Latest(s) == Present(true, true, true) && FullyServed(d, s)
  {
    hide *;
    var d := John(PLAIN, [READER, ON_TABLE]);
    JohnReads();
    Start(d, WITH_READER);
    var n := ApplyConverges(d, WITH_READER, map[], []);
    actions := CleanReconcile(Init(WITH_READER, map[]), n) + [RequestDeletion];
    CleanIsUndisturbed(d, Init(WITH_READER, map[]), n);
    MarkServed(d, Init(WITH_READER, map[]), CleanReconcile(Init(WITH_READER, map[]), n));
  }

  lemma Start(d: Desired, base: Servers)
    ensures var s := Init(base, map[]);
            Run(d, s, []) == s && Latest(s) == Present(false, false, false) && s.log != [] && s.servers == base
  {
  }

  lemma MarkServed(d: Desired, s: State, before: seq<Action>)
    requires var t := Run(d, s, before); t.pc.Idle? && Latest(t) == Present(true, false, true) && FullyServed(d, t)
    requires Undisturbed(before)
    ensures var t := Run(d, s, before + [RequestDeletion]);
            t.pc.Idle? && Latest(t) == Present(true, true, true) && FullyServed(d, t)
    ensures Undisturbed(before + [RequestDeletion])
  {
    var t := Run(d, s, before);
    RunAppend(d, s, before, [RequestDeletion]);
    RunOne(d, t, RequestDeletion);
    assert Step(d, t, RequestDeletion) == t.(log := t.log + [Present(true, true, true)]);
    hide Run, FullyServed, Step;
    SameFully(d, t, Step(d, t, RequestDeletion));
  }

  lemma SameFully(d: Desired, s: State, t: State)
    requires FullyServed(d, s) && t.servers == s.servers
    ensures FullyServed(d, t)
  {
    SameServed(d, s.(dropped := {}), t.(dropped := {}));
  }

  /** Others drop the role `reader` of a served User that is marked for deletion: before that
      the User could be let go, after it no more. */
  lemma JohnLosesReader() returns (actions: seq<Action>)
    ensures var d := John(PLAIN, [READER, ON_TABLE]);
            var s0, drop := Init(WITH_READER, map[]), Foreign(SERVER, DropOp("d", "reader"));
            CanRelease(d, Run(d, s0, actions)) && !CanRelease(d, Run(d, s0, actions + [drop]))
  {
    hide *;
    var d := John(PLAIN, [READER, ON_TABLE]);
    JohnReads();
    actions := JohnIsServed();
    OthersCanDrop(d, actions);
    OnlyReader();
    JohnsServer(d);
    OthersDropStays(d, WITH_READER, map[], actions, DropOp("d", "reader"), 0, 0, 1);
    JohnIsDroppable(d, actions);
    ReleaseExactly(d, WITH_READER, map[], actions);
  }

  lemma JohnsServer(d: Desired)
    requires d == John(PLAIN, [READER, ON_TABLE])
    ensures |d.refs| == 1 && Home(d, 0) == SERVER && !Shared(d, 0) && DropUser("reader").role == "reader"
  {
    hide Flatten;
  }

  lemma OnlyReader()
    ensures HeldFor(ON_TABLE) !in Helds([READER, ON_TABLE][..0])
    ensures PlainPrivilege(ON_TABLE.privilege) && ON_TABLE.database != ""
  {
    TableIsUsable();
    UsableIsPlain(ON_TABLE);
    assert [READER, ON_TABLE][..0] == [];
    HeldsNone();
    hide HeldFor, PlainPrivilege;
  }

  lemma OthersCanDrop(d: Desired, actions: seq<Action>)
    requires d == John(PLAIN, [READER, ON_TABLE]) && Undisturbed(actions)
    ensures var srv := At(Run(d, Init(WITH_READER, map[]), actions).servers, SERVER);
            var op := DropOp("d", "reader");
            ParseOp(op) == Some(DropUser("reader")) && !OwnStatement(d, op) && Perform(srv, op).1 == NoError
  {
    hide *;
    JohnReads();
    Start(d, WITH_READER);
    ReaderAlone();
    DropsReader(d);
    OtherRowRun(d, Init(WITH_READER, map[]), actions, SERVER, "reader");
    DropsEmpty(At(Run(d, Init(WITH_READER, map[]), actions).servers, SERVER));
  }

  lemma ReaderAlone()
    ensures var srv := At(WITH_READER, SERVER); "reader" in srv.roles && srv.roles["reader"] == {}
    ensures "reader" != "john"
  {
    assert "reader"[0] == 'r';
  }

  lemma DropsReader(d: Desired)
    requires Role(d) == "john"
    ensures var op := DropOp("d", "reader"); ParseOp(op) == Some(DropUser("reader")) && !OwnStatement(d, op)
  {
    ReaderName();
    DropUserRoundTrip("reader");
    hide Parse, DeleteUserQuery, Nameable, Strip;
    ReaderAlone();
  }

  lemma ReaderName()
    ensures Nameable("reader") && Strip("reader") == "reader" && !SpecialName("reader")
  {
    ReaderStays();
    ReaderIsPlain();
    hide Strip;
  }

  lemma ReaderStays()
    ensures Strip("reader") == "reader"
  {
    ReplaceAbsent("reader", NUL, "");
  }

  lemma ReaderIsPlain()
    ensures '.' !in "reader" && "reader" != "*" && !SpecialName("reader")
  {
    assert "reader"[0] == 'r' && "public"[0] == 'p' && "none"[0] == 'n' && |"*"| == 1;
  }

  lemma DropsEmpty(srv: Server.Server)
    requires "reader" in srv.roles && srv.roles["reader"] <= {}
    ensures Perform(srv, DropOp("d", "reader")).1 == NoError
  {
    ReaderName();
    NothingBlocks();
    hide Perform, DropOp, Nameable, Strip, Server.Blocks;
    DropMeaning(srv, "d", "reader");
    assert srv.roles["reader"] == {};
    assert |"reader"| == 6;
  }

  lemma JohnIsDroppable(d: Desired, actions: seq<Action>)
    requires d == John(PLAIN, [READER, ON_TABLE]) && Undisturbed(actions)
    ensures AllDroppable(d, Run(d, Init(WITH_READER, map[]), actions).servers) && Managed(d.name)
  {
    var s := Run(d, Init(WITH_READER, map[]), actions);
    JohnReads();
    NothingDropped(d, Init(WITH_READER, map[]), actions);
    assert s.dropped == {};
    hide Run, Readable, Sensible, Available, KeepsFiles, Unmanaged, LegibleEntries, Flatten, Usable, Executable, Strip,
         Managed, Creatable;
    assert AllDroppable(d, s.servers) by {
      DroppableUndisturbed(d, WITH_READER, map[], actions, 0);
      assert forall n :: !d.refs[0].FilesGone(n);
      EndsWell(d, At(s.servers, SERVER), [READER, ON_TABLE]);
      hide EndsSwallowed, Droppable;
    }
    ReadableIsManaged(d);
  }

  lemma EndsWell(d: Desired, srv: Server.Server, ps: seq<PrivilegeSpec>)
    requires AllUsable(ps)
    ensures EndsSwallowed(d, srv, ps)
  {
    var n := TriedOn(d, srv, ps);
    if n > 0 { assert ps[n - 1] in ps; }
    hide Executable, Applicable, TriedOn, Strip;
  }

  lemma {:induction false} NothingDropped(d: Desired, s: State, actions: seq<Action>)
    requires Undisturbed(actions)
    ensures Run(d, s, actions).dropped == s.dropped
    decreases |actions|
  {
    hide Step, Undisturbed;
    if actions != [] {
      LastUndisturbed(actions);
      NothingDropped(d, s, actions[..|actions| - 1]);
      SameDropped(d, Run(d, s, actions[..|actions| - 1]), actions[|actions| - 1]);
    }
  }

  // ---- two refs on one server ----

  /** Two refs, both to the same server. */
  function JohnTwice(): Desired {
    Desired("john", [Ref(PLAIN, "", "john-cert", [[ON_TABLE]]), Ref(PLAIN, "", "john-too", [[ON_DATABASE]])])
  }

  lemma TwoRefs()
    ensures var d := JohnTwice();
            && Sensible(d) && Readable(d) && KeepsFiles(d) && Available(d, map[]) && |d.refs| == 2
            && d.refs[0].Privileges() == [ON_TABLE] && d.refs[1].Privileges() == [ON_DATABASE]
            && Home(d, 0) == Home(d, 1) && !Shared(d, 0)
  {
    hide *;
    var d := JohnTwice();
    TwoRefsShape();
    TableIsUsable();
    CreateIsUsable();
    ExampleUser();
    TwoSensible(d);
    SensibleIsReadable(d);
  }

  lemma TwoRefsShape()
    ensures var d := JohnTwice();
            && |d.refs| == 2 && d.name == "john"
            && d.refs[0].Privileges() == [ON_TABLE] && d.refs[1].Privileges() == [ON_DATABASE]
            && Home(d, 0) == Home(d, 1) && !Shared(d, 0) && KeepsFiles(d)
  {
    JohnsEntries(PLAIN, [ON_TABLE]);
    JohnsEntries(PLAIN, [ON_DATABASE]);
    assert JohnTwice().refs[1].Privileges() == John(PLAIN, [ON_DATABASE]).refs[0].Privileges();
    hide Flatten;
  }

  lemma TwoSensible(d: Desired)
    requires |d.refs| == 2 && d.refs[0].Privileges() == [ON_TABLE] && d.refs[1].Privileges() == [ON_DATABASE]
    requires Creatable(d.name) && Usable(ON_TABLE) && Usable(ON_DATABASE)
    ensures Sensible(d) && Available(d, map[])
  {
    hide Usable, Creatable, Tokens, Path, Strip, Keys;
    forall r | r in d.refs ensures AllUsable(r.Privileges()) { assert r == d.refs[0] || r == d.refs[1]; }
  }

  lemma DifferentHeld()
    ensures HeldFor(ON_DATABASE) !in Helds([ON_TABLE]) && PlainPrivilege(ON_DATABASE.privilege) &&
            ON_DATABASE.database != ""
  {
    CreateIsUsable();
    UsableIsPlain(ON_DATABASE);
    hide Tokens, Path, PlainPrivilege, Usable;
    assert HeldFor(ON_TABLE).target != HeldFor(ON_DATABASE).target;
  }

  /** John is served on both refs; once marked for deletion he stays for ever. */
  lemma JohnTwiceStays() returns (actions: seq<Action>)
    ensures var d := JohnTwice();
            var s := Run(d, Init(map[], map[]), actions);
            Latest(s) == Present(true, true, true) && FullyServed(d, s) && !CanRelease(d, s)
  {
    hide *;
    var d := JohnTwice();
    TwoRefs();
    DifferentHeld();
    Start(d, map[]);
    var n := ApplyConverges(d, map[], map[], []);
    actions := CleanReconcile(Init(map[], map[]), n) + [RequestDeletion];
    CleanIsUndisturbed(d, Init(map[], map[]), n);
    MarkServed(d, Init(map[], map[]), CleanReconcile(Init(map[], map[]), n));
    SharedServerStays(d, map[], map[], actions, 0, 1, 0);
  }

  // ---- files ----

  /** The same entry on disk: after the loop the outer connection's files are not all there. */
  lemma OwnTableTakesFiles(files: Files, home: string)
    requires NamedFiles(home, CERTIFIED) <= files.Keys
    ensures var r := John(CERTIFIED, [ON_TABLE]).refs[0];
            !(NamedFiles(home, CERTIFIED) <= (files - NestedPaths(home, CERTIFIED, r.Privileges())).Keys)
  {
    assert [ON_TABLE] + [] == [ON_TABLE];
    OwnTableFirst([]);
    hide NestedPaths, NamedFiles, Flatten;
    LoopKeepsFiles(files, home, John(CERTIFIED, [ON_TABLE]).refs[0]);
  }

  /** A connection that the server refuses after its string was made leaves its files
      behind, if any certificate is configured. */
  method RefusedConnectionLeavesFiles(db: Postgresql) returns (err: Error, ghost written: nat)
    requires db.Settled() && db.db.os.Valid() && !db.db.open && db.config.Preparable()
    requires db.db.os.files.Keys !! CertPaths(db.db.os.home, db.config.settings)
    modifies db.config, db.db, db.db.os`files, db.db.os`journal, db.db.os`next, db.db.os.env
    ensures db.config.settings == old(db.config.settings)
    ensures err != NoError && written == 3 ==>
              (db.db.os.files.Keys !! CertPaths(db.db.os.home, db.config.settings) <==>
                  !db.config.settings.NamesFiles())
  {
    hide CertPaths, WithFirst, CertsOnDisk, NamedFiles;
    err, written := db.Connect();
    OccupiedExactly(old(db.db.os.files), db.db.os.home, db.config.settings, written);
  }
}
