/** From every reachable state one undisturbed Reconcile reaches the goal: everything
    served and Ready, or everything cleaned and the object gone. Others may go on with what
    is unrelated meanwhile. */
module Convergence {
  import opened Sql
  import opened Quoting
  import opened Statements
  import opened Server
  import opened Plans
  import opened Passes
  import opened Resources
  import opened Protocol
  import opened Safety

  // ---- an undisturbed Reconcile ----

  function Stage(pc: Pc): nat {
    match pc
    case Idle => 0
    case WriteStatus(_, _) => 1
    case RemoveFinalizer(_) => 1
    case AddFinalizer(_) => 3
    case _ => 2
  }

  function RefsLeft(d: Desired, pc: Pc): nat
    requires PcInRange(d, pc)
  {
    if Stage(pc) == 2 then |d.refs| - pc.i else 0
  }

  function CallsLeft(d: Desired, pc: Pc): nat
    requires PcInRange(d, pc)
  {
    if Stage(pc) != 2 then 0
    else
      var n := |d.refs[pc.i].Privileges()|;
      match pc
      case Open(_, _) => n + 7
      case Create(_, _) => n + 6
      case Issue(_, _) => n + 5
      case LookupSecret(_, _, _) => n + 4
      case CreateSecret(_, _, _) => n + 3
      case Grant(_, _, k) => n - k
      case Revoke(_, _, k) => n - k + 3
      case Drop(_, _, _) => 2
      case _ => 1
  }

  /** Every answered call brings Reconcile closer to its end. */
  lemma CallAdvances(d: Desired, s: State)
    requires PcInRange(d, s.pc) && !s.pc.Idle?
    ensures Nearer(d, s.pc, Respond(d, s, Done).pc)
  {
    hide Answer;
    if SendsStatement(s.pc) {
      AfterStatementAdvances(d, s.pc, Answer(d, s, Done).1);
      hide AfterStatement, Nearer;
    } else {
      OtherCallAdvances(d, s);
      hide Respond, Nearer;
    }
  }

  lemma OtherCallAdvances(d: Desired, s: State)
    requires PcInRange(d, s.pc) && !s.pc.Idle? && !SendsStatement(s.pc)
    ensures Nearer(d, s.pc, Respond(d, s, Done).pc)
  {
    hide RespondStatement;
  }

  /** The next pc is in range and nearer to the end. */
  predicate Nearer(d: Desired, pc: Pc, q: Pc)
    requires PcInRange(d, pc)
  {
    && PcInRange(d, q)
    && (Stage(q) < Stage(pc) ||
        (Stage(q) == Stage(pc) &&
         (RefsLeft(d, q) < RefsLeft(d, pc) ||
             (RefsLeft(d, q) == RefsLeft(d, pc) && CallsLeft(d, q) < CallsLeft(d, pc)))))
  }

  lemma AfterStatementAdvances(d: Desired, pc: Pc, err: Error)
    requires SendsStatement(pc) && PcInRange(d, pc)
    ensures Nearer(d, pc, AfterStatement(d, pc, err))
  {
    var c, i := pc.copy, pc.i;
    var n := |d.refs[i].Privileges()|;
    AdvanceIsNearer(d, pc);
    var q := AfterStatement(d, pc, err);
    if pc.Create? || pc.Grant? {
      assert q == Abort(c) || q == Issue(c, i) ||
          (exists k: nat :: k <= n && q == NextGrant(d, c, i, k) && (pc.Grant? ==> k == pc.k + 1)) by {
        hide Nearer, NextGrant, Abort;
        assert pc.Create? && q != Abort(c) && q != Issue(c, i) ==> q == NextGrant(d, c, i, 0);
        assert pc.Grant? && q != Abort(c) ==> q == NextGrant(d, c, i, pc.k + 1);
      }
      hide AfterStatement, Advance;
    } else {
      hide Advance;
    }
  }

  lemma AdvanceIsNearer(d: Desired, pc: Pc)
    requires SendsStatement(pc) && PcInRange(d, pc)
    ensures Nearer(d, pc, Advance(d, pc.copy, pc.i + 1))
  {
  }

  /** `n` calls, all answered. */
  function Answered(n: nat): seq<Action> {
    seq(n, _ => Call(Done))
  }

  /** Reconcile starts afresh with an up-to-date cache and is not disturbed for `n` calls. */
  function CleanReconcile(s: State, n: nat): seq<Action>
    requires s.log != []
  {
    [Crash, Begin(|s.log| - 1)] + Answered(n)
  }

  /** A pass whose calls are answered comes to its end. */
  lemma {:induction false} PassEnds(d: Desired, s: State) returns (n: nat)
    requires PcInRange(d, s.pc)
    ensures Run(d, s, Answered(n)).pc.Idle?
    decreases Stage(s.pc), RefsLeft(d, s.pc), CallsLeft(d, s.pc)
  {
    if s.pc.Idle? {
      n := 0;
    } else {
      CallAdvances(d, s);
      hide Respond;
      var m := PassEnds(d, Respond(d, s, Done));
      n := m + 1;
      assert Answered(n) == [Call(Done)] + Answered(m);
      RunAppend(d, s, [Call(Done)], Answered(m));
      assert Run(d, s, [Call(Done)]) == Respond(d, s, Done) by { RunOne(d, s, Call(Done)); }
    }
  }

  lemma RunOne(d: Desired, s: State, a: Action)
    ensures Run(d, s, [a]) == Step(d, s, a)
  {
    hide Step;
    assert [a][..0] == [];
  }

  /** `dropped` is a memory of the past: no step of Reconcile looks at it. */
  function Unexcused(s: State): State {
    s.(dropped := {})
  }

  lemma DroppedIsHistory(d: Desired, s: State, fault: Fault)
    ensures Respond(d, Unexcused(s), fault) == Unexcused(Respond(d, s, fault))
  {
    if PcInRange(d, s.pc) && SendsStatement(s.pc) {
      AnswerIgnoresHistory(d, s, fault);
      hide Answer, AfterStatement;
    } else {
      hide RespondStatement, NextGrant, NextRevoke, Advance, Abort;
      if WritesObject(s.pc) { WritesIgnoreHistory(d, s, fault); }
    }
  }

  lemma WritesIgnoreHistory(d: Desired, s: State, fault: Fault)
    requires WritesObject(s.pc)
    ensures Respond(d, Unexcused(s), fault) == Unexcused(Respond(d, s, fault))
  {
    hide Advance;
    assert Written(Unexcused(s), s.pc.copy, fault) == Written(s, s.pc.copy, fault);
    hide Written;
  }

  lemma AnswerIgnoresHistory(d: Desired, s: State, fault: Fault)
    requires PcInRange(d, s.pc) && SendsStatement(s.pc)
    ensures Answer(d, Unexcused(s), fault) == Answer(d, s, fault)
  {
    hide Perform, OpAt, OutOfReach;
  }

  // ---- what others may do meanwhile ----

  function Home(d: Desired, i: nat): (string, nat)
    requires i < |d.refs|
  {
    d.refs[i].database.Address()
  }

  /** An entry of a ref on this server is membership in role `n`. */
  predicate NamedAt(d: Desired, address: (string, nat), n: string) {
    exists r, p :: r in d.refs && r.database.Address() == address && p in r.Privileges() && NamedBy(p, n)
  }

  /** Others do not create or drop a role that an entry names on that server. */
  predicate Unrelated(d: Desired, a: Action) {
    a.Foreign? && ParseOp(a.op).Some? && !ParseOp(a.op).value.Change? ==>
        !NamedAt(d, a.address, ParseOp(a.op).value.role)
  }

  predicate Unmeddled(d: Desired, actions: seq<Action>) {
    forall a :: a in actions ==> Unrelated(d, a)
  }

  lemma UnmeddledPrefix(d: Desired, actions: seq<Action>)
    requires actions != [] && Unmeddled(d, actions)
    ensures Unmeddled(d, actions[..|actions| - 1]) && Unrelated(d, actions[|actions| - 1])
  {
  }

  /** An undisturbed invocation: calls are answered, and others do nothing but what is
      unrelated. */
  predicate SmoothStep(d: Desired, a: Action) {
    a == Call(Done) || (a.Foreign? && Unrelated(d, a))
  }

  predicate Smooth(d: Desired, actions: seq<Action>) {
    forall a :: a in actions ==> SmoothStep(d, a)
  }

  lemma SmoothPrefix(d: Desired, actions: seq<Action>)
    requires actions != [] && Smooth(d, actions)
    ensures Smooth(d, actions[..|actions| - 1]) && SmoothStep(d, actions[|actions| - 1])
  {
  }

  lemma AnsweredIsSmooth(d: Desired, n: nat)
    ensures Smooth(d, Answered(n))
  {
  }

  /** An unrelated statement of others leaves the roles that entries name where they are. */
  lemma NamedStay(d: Desired, s: State, address: (string, nat), op: Op, r: Ref, p: PrivilegeSpec)
    requires Unrelated(d, Foreign(address, op)) && r in d.refs && p in r.Privileges()
    ensures var a := r.database.Address();
            var keys, more := Keys(s.servers, a), Keys(StepForeign(d, s, address, op).servers, a);
            && (forall role :: Grantable(keys, role, p) <==> Grantable(more, role, p))
            && (Revocable(keys, p) <==> Revocable(more, p))
  {
    var a := r.database.Address();
    var keys, more := Keys(s.servers, a), Keys(StepForeign(d, s, address, op).servers, a);
    forall n | NamedBy(p, n) ensures n in keys <==> n in more {
      assert a == address ==> NamedAt(d, address, n);
      if a == address && !OwnStatement(d, op) { OtherKeys(At(s.servers, a), op, n); }
      hide Perform, OwnStatement, NewlyDropped, NamedBy;
    }
    hide StepForeign, NamedBy, Grantable, Revocable;
    forall role ensures Grantable(keys, role, p) <==> Grantable(more, role, p) { NamedMatters(keys, more, role, p); }
    NamedMatters(keys, more, "", p);
  }

  lemma OtherKeys(srv: Server, op: Op, n: string)
    requires ParseOp(op).Some? && !ParseOp(op).value.Change? ==> ParseOp(op).value.role != n
    ensures n in srv.roles <==> n in Perform(srv, op).0.roles
  {
    hide Parse, Grammatical, OtherDatabase, MemberOf, Blocks;
  }

  // ---- what the spec must be for the goal to be reachable ----

  /** The name is one that CREATE USER takes and every entry prints a statement that the
      server knows. */
  predicate Sensible(d: Desired) {
    Creatable(d.name) && forall r :: r in d.refs ==> AllUsable(r.Privileges())
  }

  /** The name is one identifier and every entry's text can be read. */
  predicate Readable(d: Desired) {
    Managed(d.name) && forall r :: r in d.refs ==> AllLegible(r.Privileges())
  }

  lemma SensibleIsReadable(d: Desired)
    requires Sensible(d)
    ensures Readable(d)
  {
    forall r | r in d.refs ensures AllLegible(r.Privileges()) { UsableIsLegible(r.Privileges()); }
  }

  /** No entry is left to the ref's own connection once its certificate files are gone. */
  predicate OuterFirst(r: Ref) {
    forall k :: 0 <= k < |r.Privileges()| && r.FilesGone(k) ==> r.Privileges()[k].InDatabase()
  }

  predicate KeepsFiles(d: Desired) {
    forall r :: r in d.refs ==> OuterFirst(r)
  }

  /** No two refs name the same server. */
  predicate DistinctServers(d: Desired) {
    forall i, j :: 0 <= i < j < |d.refs| ==> d.refs[i].database.Address() != d.refs[j].database.Address()
  }

  function Role(d: Desired): string {
    Strip(d.name)
  }

  /** Every role an entry grants membership in exists on its server, and is not the user's own. */
  predicate Available(d: Desired, servers: Servers) {
    forall r, p :: r in d.refs && p in r.Privileges() ==> Grantable(Keys(servers, r.database.Address()), Role(d), p)
  }

  /** The user's role does not exist before the run. */
  predicate Unmanaged(d: Desired, base: Servers) {
    forall r :: r in d.refs ==> !RoleAt(d, base, r.database.Address())
  }

  // ---- apply ----

  /** The running Reconcile is on its way to Ready, or has got there. What others have
      dropped in the past is no excuse. */
  ghost predicate Serving(d: Desired, s: State) {
    && s.dropped == {} && Protocolled(d, s) && Available(d, s.servers) && ServingPlace(d, s)
    && Progress(d, s) && (s.pc.Idle? ==> AllServed(d, s))
  }

  predicate ServingPlace(d: Desired, s: State) {
    && PcInRange(d, s.pc)
    && Latest(s).Present? && !Latest(s).deleting
    && (HasCopy(s.pc) ==> s.pc.copy == CopyOf(|s.log| - 1, Latest(s)))
    && (!s.pc.AddFinalizer? ==> Latest(s).finalizer)
    && (s.pc.Idle? ==> Latest(s).ready)
    && (s.pc.WriteStatus? ==> s.pc.value)
    && (s.pc.CreateSecret? ==> d.refs[s.pc.i].createdSecret !in s.secrets)
    && !InDelete(s.pc)
  }

  lemma InvStep(d: Desired, base: Servers, s: State, a: Action)
    requires Inv(d, base, s)
    ensures Inv(d, base, Step(d, s, a))
  {
    hide Protocolled, RolesHeld, ReadySound, Step;
    ProtocolledStep(d, s, a);
    RolesStep(d, base, s, a);
    ReadyStep(d, s, a);
  }

  /** An undisturbed CREATE USER of a sensible name, and GRANT of an available entry to an
      existing role, do not fail. */
  lemma ServingAnswer(d: Desired, s: State)
    requires Serving(d, s) && Sensible(d) && KeepsFiles(d) && SendsStatement(s.pc)
    ensures var err := Answer(d, s, Done).1;
            (s.pc.Create? || s.pc.Grant?) && (err == NoError || (s.pc.Create? && IsAlreadyExists(err)))
  {
    NotDeleting(d, s);
    var r := d.refs[s.pc.i];
    var a := r.database.Address();
    var srv := At(s.servers, a);
    assert r in d.refs;
    if s.pc.Create? {
      hide Perform, Protocolled, Progress, CreateOp, Strip;
      CreateMeaning(srv, r.database.name, d.name, r.password);
    } else {
      var p := r.Privileges()[s.pc.k];
      assert p in r.Privileges();
      assert OuterFirst(r) && !OutOfReach(d, s.pc);
      assert RoleAt(d, s.servers, a) by { assert RefServed(d, s, s.pc.i, s.pc.k); }
      assert Grantable(Keys(s.servers, a), Role(d), p) && Usable(p) && Managed(d.name);
      hide Protocolled, Progress, Grantable, Usable, Managed, Perform, Strip, Available, ServingPlace;
      GrantAnswered(srv, r.database.name, d.name, p);
    }
  }

  lemma GrantAnswered(srv: Server, dbname: string, username: string, p: PrivilegeSpec)
    requires Managed(username) && Usable(p) && Strip(username) in srv.roles
    requires Grantable(srv.roles.Keys, Strip(username), p)
    ensures Perform(srv, PrivilegeOp(dbname, username, true, p)).1 == NoError
  {
    UsableIsLegible([p]);
    assert Accepted(srv.roles.Keys, Strip(username), true, p);
    hide *;
    EntryOutcomeOf(srv, dbname, username, p);
  }

  lemma EntryOutcomeOf(srv: Server, dbname: string, username: string, p: PrivilegeSpec)
    requires Managed(username) && AllLegible([p]) && Strip(username) in srv.roles
    requires Accepted(srv.roles.Keys, Strip(username), true, p)
    ensures Perform(srv, PrivilegeOp(dbname, username, true, p)).1 == NoError
  {
    hide LegibleEntry, Accepted, Managed, Perform, PrivilegeOp, Strip;
    assert LegibleEntry([p][0]);
    EntryOutcome(srv, dbname, username, true, p);
  }

  lemma NextGrantPlace(d: Desired, s: State, t: State, i: nat, k: nat)
    requires ServingPlace(d, s) && HasCopy(s.pc) && Latest(s).finalizer && i < |d.refs|
    requires t.log == s.log && t.pc == NextGrant(d, s.pc.copy, i, k)
    ensures ServingPlace(d, t)
  {
  }

  lemma ServingStatement(d: Desired, s: State)
    requires ServingPlace(d, s) && (s.pc.Create? || s.pc.Grant?)
    requires var err := Answer(d, s, Done).1; err == NoError || (s.pc.Create? && IsAlreadyExists(err))
    ensures ServingPlace(d, Respond(d, s, Done))
  {
    var t := Respond(d, s, Done);
    var err := Answer(d, s, Done).1;
    var k := if s.pc.Grant? then s.pc.k + 1 else 0;
    assert t.log == s.log && t.pc == AfterStatement(d, s.pc, err);
    ServingLeads(d, s.pc, err);
    hide Answer, Respond, AfterStatement, NextGrant;
    if t.pc == NextGrant(d, s.pc.copy, s.pc.i, k) {
      hide ServingPlace;
      PlaceInRange(d, s);
      NextGrantPlace(d, s, t, s.pc.i, k);
    }
  }

  lemma ServingLeads(d: Desired, pc: Pc, err: Error)
    requires PcInRange(d, pc) && (pc.Create? || pc.Grant?)
    requires err == NoError || (pc.Create? && IsAlreadyExists(err))
    ensures var q := AfterStatement(d, pc, err);
            || q == NextGrant(d, pc.copy, pc.i, if pc.Grant? then pc.k + 1 else 0)
            || (pc.Create? && q == Issue(pc.copy, pc.i))
  {
    hide NextGrant;
  }

  lemma ServingCall(d: Desired, s: State)
    requires ServingPlace(d, s) && !s.pc.Idle? && !SendsStatement(s.pc)
    ensures ServingPlace(d, Respond(d, s, Done))
  {
    var t := Respond(d, s, Done);
    if (s.pc.LookupSecret? || s.pc.CreateSecret?) && t.pc == NextGrant(d, s.pc.copy, s.pc.i, 0) {
      NextGrantPlace(d, s, t, s.pc.i, 0);
    }
  }

  /** What has been served stays and grows. */
  lemma ServingProgress(d: Desired, s: State)
    requires ServingPlace(d, s) && !s.pc.Idle? && Progress(d, s) && !s.pc.copy.deleting
    ensures var t := Respond(d, s, Done); Progress(d, t) && (t.pc.Idle? ==> AllServed(d, t))
  {
    if s.pc.Create? || s.pc.Grant? {
      assert Respond(d, s, Done) == RespondStatement(d, s, Done);
      hide Respond, RespondStatement, Progress, AllServed;
      ReadyApply(d, s, Done);
    } else if WritesObject(s.pc) {
      ServingWrite(d, s);
    } else {
      hide Respond, Progress, AllServed;
      ReadyPlace(d, s, Done);
    }
  }

  lemma ServingWrite(d: Desired, s: State)
    requires ServingPlace(d, s) && WritesObject(s.pc) && Progress(d, s)
    ensures var t := Respond(d, s, Done); Progress(d, t) && (t.pc.Idle? ==> AllServed(d, t))
  {
    var t := Respond(d, s, Done);
    assert t.servers == s.servers && t.dropped == s.dropped;
    SameServed(d, s, t);
    assert RefsServed(d, t, 0);
    hide RefsServed, RefServed;
  }

  /** Apply statements take no role away. */
  lemma AvailableStep(d: Desired, s: State)
    requires PcInRange(d, s.pc) && !InDelete(s.pc) && Available(d, s.servers)
    ensures Available(d, Respond(d, s, Done).servers)
  {
    var t := Respond(d, s, Done);
    if SendsStatement(s.pc) {
      assert t == RespondStatement(d, s, Done);
      ApplyExtends(d, s, Done);
      hide Respond, RespondStatement;
      forall r, p | r in d.refs && p in r.Privileges()
        ensures Grantable(Keys(t.servers, r.database.Address()), Role(d), p)
      {
        var a := r.database.Address();
        assert Extends(At(s.servers, a), At(t.servers, a));
        assert Grantable(Keys(s.servers, a), Role(d), p);
      }
    } else {
      assert t.servers == s.servers;
    }
  }

  lemma ServingStep(d: Desired, s: State)
    requires Serving(d, s) && Sensible(d) && KeepsFiles(d) && !s.pc.Idle?
    ensures Serving(d, Respond(d, s, Done))
  {
    NotDeleting(d, s);
    hide Protocolled, ServingPlace, Answer, Respond, Sensible, Available, KeepsFiles, Progress;
    ProtocolledStep(d, s, Call(Done));
    PlaceInRange(d, s);
    AvailableStep(d, s);
    ServingProgress(d, s);
    assert Respond(d, s, Done).dropped == s.dropped by { DroppedStays(d, s); }
    if SendsStatement(s.pc) {
      ServingAnswer(d, s);
      ServingStatement(d, s);
    } else {
      ServingCall(d, s);
    }
  }

  lemma DroppedStays(d: Desired, s: State)
    ensures Respond(d, s, Done).dropped == s.dropped
  {
    hide Answer, AfterStatement;
  }

  lemma PlaceInRange(d: Desired, s: State)
    requires ServingPlace(d, s)
    ensures PcInRange(d, s.pc) && !InDelete(s.pc)
    ensures !s.pc.AddFinalizer? ==> Latest(s).Present? && Latest(s).finalizer
    ensures HasCopy(s.pc) ==> !s.pc.copy.deleting
  {
  }

  lemma ServingCallStep(d: Desired, s: State)
    requires Serving(d, Unexcused(s)) && Sensible(d) && KeepsFiles(d)
    ensures Serving(d, Unexcused(Respond(d, s, Done)))
  {
    hide Serving, Respond, Sensible, KeepsFiles;
    DroppedIsHistory(d, s, Done);
    if s.pc.Idle? { IdleCall(d, s, Done); } else { ServingStep(d, Unexcused(s)); }
  }

  /** What others do that is unrelated takes nothing away from what has been served. */
  lemma ServingForeign(d: Desired, s: State, address: (string, nat), op: Op)
    requires Serving(d, Unexcused(s)) && Sensible(d) && Unrelated(d, Foreign(address, op))
    ensures Serving(d, Unexcused(StepForeign(d, s, address, op)))
  {
    var t := StepForeign(d, s, address, op);
    ForeignRoles(d, s, address, op);
    hide StepForeign, Sensible, Unrelated, Protocolled, ServingPlace, Available, RefServed;
    ProtocolledSame(d, Unexcused(s), Unexcused(t));
    SamePlace(d, Unexcused(s), Unexcused(t));
    AvailableStays(d, s, address, op);
    forall i: nat, m: nat | i < |d.refs| && RefServed(d, Unexcused(s), i, m) ensures RefServed(d, Unexcused(t), i, m) {
      RefUntouched(d, s, address, op, i, m);
    }
    hide PcInRange;
  }

  lemma SamePlace(d: Desired, s: State, t: State)
    requires ServingPlace(d, s) && t.log == s.log && t.pc == s.pc && t.secrets == s.secrets
    ensures ServingPlace(d, t)
  {
  }

  lemma AvailableStays(d: Desired, s: State, address: (string, nat), op: Op)
    requires Available(d, s.servers) && Unrelated(d, Foreign(address, op))
    ensures Available(d, StepForeign(d, s, address, op).servers)
  {
    hide StepForeign, Unrelated, Grantable, Strip;
    forall r, p | r in d.refs && p in r.Privileges()
      ensures Grantable(Keys(StepForeign(d, s, address, op).servers, r.database.Address()), Role(d), p)
    {
      NamedStay(d, s, address, op, r, p);
    }
  }

  lemma RefUntouched(d: Desired, s: State, address: (string, nat), op: Op, i: nat, m: nat)
    requires Sensible(d) && Unrelated(d, Foreign(address, op)) && i < |d.refs| && RefServed(d, Unexcused(s), i, m)
    ensures RefServed(d, Unexcused(StepForeign(d, s, address, op)), i, m)
  {
    var t := StepForeign(d, s, address, op);
    ForeignRoles(d, s, address, op);
    assert RoleAt(d, t.servers, d.refs[i].database.Address()) == RoleAt(d, s.servers, d.refs[i].database.Address());
    hide StepForeign, EntryServed, RoleAt, Sensible, Unrelated;
    forall k | 0 <= k < m && k < |d.refs[i].Privileges()| ensures EntryServed(d, Unexcused(t), i, k) {
      EntryUntouched(d, s, address, op, i, k);
    }
  }

  lemma EntryUntouched(d: Desired, s: State, address: (string, nat), op: Op, i: nat, k: nat)
    requires Sensible(d) && Unrelated(d, Foreign(address, op))
    requires i < |d.refs| && k < |d.refs[i].Privileges()| && EntryServed(d, Unexcused(s), i, k)
    ensures EntryServed(d, Unexcused(StepForeign(d, s, address, op)), i, k)
  {
    var t := StepForeign(d, s, address, op);
    var r := d.refs[i];
    var a, p := r.database.Address(), r.Privileges()[k];
    assert r in d.refs && p in r.Privileges();
    if Granted(At(s.servers, a), GrantOp(d, i, k)) && !Astray(d, i, k) && a == address && !OwnStatement(d, op) {
      ForeignGranted(d, At(s.servers, a), op, GrantOp(d, i, k));
      if ParseOp(op).Some? && OfRole(GrantOp(d, i, k), ParseOp(op).value.role) {
        OfRoleNames(d, r, p, ParseOp(op).value.role);
        assert NamedAt(d, address, ParseOp(op).value.role);
      }
    }
    hide Perform, OfRole, GrantOp, OwnStatement, Granted, Parse, Sensible, NamedBy;
  }

  lemma OfRoleNames(d: Desired, r: Ref, p: PrivilegeSpec, n: string)
    requires Sensible(d) && r in d.refs && p in r.Privileges() &&
            OfRole(PrivilegeOp(r.database.name, d.name, true, p), n)
    ensures NamedBy(p, n)
  {
    assert AllUsable(r.Privileges());
    UsableIsLegible(r.Privileges());
    assert LegibleEntry(p) && Managed(d.name) by { hide LegibleEntry, Managed; }
    hide Lex, Legible, Managed, PrivilegeOp, Path, Sensible, Usable;
    OpParses(r.database.name, d.name, true, p);
  }

  /** While calls are answered and others do only what is unrelated, Reconcile stays on its
      way to Ready. */
  lemma {:induction false} ServingRun(d: Desired, s: State, more: seq<Action>)
    requires Serving(d, Unexcused(s)) && Sensible(d) && KeepsFiles(d) && Smooth(d, more)
    ensures Serving(d, Unexcused(Run(d, s, more)))
    decreases |more|
  {
    hide Step, Serving, Sensible, KeepsFiles, Smooth, Unrelated;
    if more != [] {
      var init, a := more[..|more| - 1], more[|more| - 1];
      var u := Run(d, s, init);
      SmoothPrefix(d, more);
      ServingRun(d, s, init);
      StepKinds(d, u);
      if a.Foreign? { ServingForeign(d, u, a.address, a.op); } else { ServingCallStep(d, u); }
    }
  }

  lemma StepKinds(d: Desired, s: State)
    ensures Step(d, s, Call(Done)) == Respond(d, s, Done)
    ensures forall address, op :: Step(d, s, Foreign(address, op)) == StepForeign(d, s, address, op)
  {
  }

  /** Begin with an up-to-date cache, then answered calls and what is unrelated. */
  predicate CleanInvocation(d: Desired, before: seq<Action>, after: seq<Action>, latest: int) {
    0 <= latest && before + [Begin(latest)] <= after && Smooth(d, after[|before| + 1..])
  }

  /** An undisturbed Reconcile whose end has come: if it was possible, everything is served
      and Ready. */
  lemma InvocationServes(d: Desired, base: Servers, secrets: map<string, nat>, before: seq<Action>, after: seq<Action>)
    requires Sensible(d) && KeepsFiles(d)
    requires var s := Run(d, Init(base, secrets), before);
             && s.pc.Idle? && Latest(s).Present? && !Latest(s).deleting && Available(d, s.servers)
             && CleanInvocation(d, before, after, |s.log| - 1)
    requires Run(d, Init(base, secrets), after).pc.Idle?
    ensures var t := Run(d, Init(base, secrets), after);
            Latest(t) == Present(true, false, true) && FullyServed(d, t)
  {
    hide Inv, Run, Init, Sensible, Available, KeepsFiles, Serving, Smooth, BeginAt;
    var s0 := Init(base, secrets);
    var s := Run(d, s0, before);
    var more := after[|before| + 1..];
    InvInit(d, base, secrets);
    InvRun(d, base, s0, before);
    SeenStored(d, base, s);
    ServingBegin(d, base, s);
    assert s.(pc := Idle) == s;
    assert Step(d, s, Begin(|s.log| - 1)) == BeginAt(d, s, |s.log| - 1);
    hide Step;
    assert after == before + ([Begin(|s.log| - 1)] + more);
    RunAppend(d, s0, before, [Begin(|s.log| - 1)] + more);
    RunAppend(d, s, [Begin(|s.log| - 1)], more);
    RunOne(d, s, Begin(|s.log| - 1));
    ServingRun(d, BeginAt(d, s, |s.log| - 1), more);
    ServingGoal(d, Unexcused(Run(d, s0, after)));
  }

  lemma CleanEnds(d: Desired, s: State) returns (n: nat)
    requires s.seen < |s.log|
    ensures Run(d, s, CleanReconcile(s, n)).pc.Idle?
    ensures CleanReconcile(s, n) == [Crash] + ([Begin(|s.log| - 1)] + Answered(n))
  {
    hide Run, BeginAt, PcInRange;
    CleanStart(d, s);
    var idle := s.(pc := Idle);
    var begun := BeginAt(d, idle, |s.log| - 1);
    assert Step(d, s, Crash) == idle && Step(d, idle, Begin(|s.log| - 1)) == begun;
    n := PassEnds(d, begun);
    hide Step;
    RunAppend(d, s, [Crash], [Begin(|s.log| - 1)] + Answered(n));
    RunAppend(d, idle, [Begin(|s.log| - 1)], Answered(n));
    RunOne(d, s, Crash);
    RunOne(d, idle, Begin(|s.log| - 1));
    assert CleanReconcile(s, n) == [Crash] + ([Begin(|s.log| - 1)] + Answered(n));
  }

  lemma CleanStart(d: Desired, s: State)
    requires s.seen < |s.log|
    ensures PcInRange(d, BeginAt(d, s.(pc := Idle), |s.log| - 1).pc)
  {
  }

  /** After a crash, a clean Reconcile is a clean invocation. */
  lemma CleanIsInvocation(d: Desired, s0: State, actions: seq<Action>, n: nat)
    requires var s := Run(d, s0, actions);
             s.log != [] && CleanReconcile(s, n) == [Crash] + ([Begin(|s.log| - 1)] + Answered(n))
    ensures var s := Run(d, s0, actions);
            var idle := Run(d, s0, actions + [Crash]);
            && idle == s.(pc := Idle)
            && CleanInvocation(d, actions + [Crash], actions + CleanReconcile(s, n), |idle.log| - 1)
            && Run(d, s0, actions + CleanReconcile(s, n)) == Run(d, s, CleanReconcile(s, n))
  {
    var s := Run(d, s0, actions);
    RunAppend(d, s0, actions, [Crash]);
    RunOne(d, s, Crash);
    assert Step(d, s, Crash) == s.(pc := Idle);
    RunAppend(d, s0, actions, CleanReconcile(s, n));
    hide *;
    AfterCrash(d, actions, n, |s.log| - 1);
  }

  lemma AfterCrash(d: Desired, actions: seq<Action>, n: nat, latest: nat)
    ensures CleanInvocation(d, actions + [Crash], actions + ([Crash] + ([Begin(latest)] + Answered(n))), latest)
  {
    AnsweredIsSmooth(d, n);
    hide Smooth, Answered;
    var after := actions + ([Crash] + ([Begin(latest)] + Answered(n)));
    assert after == (actions + [Crash]) + [Begin(latest)] + Answered(n);
    assert after[|actions| + 2..] == Answered(n);
  }

  /** Convergence, deletion not requested: after any run, one undisturbed Reconcile ends
      with the role and every listed grant on every server and a true Ready status, if
      the roles that entries name exist when it begins. */
  lemma ApplyConverges(d: Desired, base: Servers, secrets: map<string, nat>, actions: seq<Action>) returns (n: nat)
    requires Sensible(d) && KeepsFiles(d)
    requires var s := Run(d, Init(base, secrets), actions);
             Latest(s).Present? && !Latest(s).deleting && Available(d, s.servers)
    ensures var s := Run(d, Init(base, secrets), actions);
            s.log != [] &&
            var t := Run(d, s, CleanReconcile(s, n));
            t.pc.Idle? && Latest(t) == Present(true, false, true) && FullyServed(d, t)
  {
    hide Run, Init, Sensible, Available, KeepsFiles, FullyServed, Inv, CleanReconcile, CleanInvocation;
    var s0 := Init(base, secrets);
    var s := Run(d, s0, actions);
    InvInit(d, base, secrets);
    InvRun(d, base, s0, actions);
    SeenStored(d, base, s);
    n := CleanEnds(d, s);
    CleanIsInvocation(d, s0, actions, n);
    InvocationServes(d, base, secrets, actions + [Crash], actions + CleanReconcile(s, n));
  }

  lemma SeenStored(d: Desired, base: Servers, s: State)
    requires Inv(d, base, s)
    ensures s.seen < |s.log|
  {
  }

  lemma ServingBegin(d: Desired, base: Servers, s: State)
    requires Inv(d, base, s) && Available(d, s.servers) && Latest(s).Present? && !Latest(s).deleting && s.seen < |s.log|
    ensures Serving(d, Unexcused(BeginAt(d, s.(pc := Idle), |s.log| - 1)))
  {
    var idle := s.(pc := Idle);
    var begun := BeginAt(d, idle, |s.log| - 1);
    var clean := begun.(dropped := {});
    assert Step(d, s, Crash) == idle && Step(d, idle, Begin(|s.log| - 1)) == begun;
    assert begun.log == s.log && begun.servers == s.servers;
    assert ServingPlace(d, clean) && Progress(d, clean) && (clean.pc.Idle? ==> AllServed(d, clean)) by {
      FreshPlace(d, s, clean);
    }
    hide Step, RolesHeld, ReadySound, BeginAt, ServingPlace, Progress, AllServed;
    ProtocolledStep(d, s, Crash);
    ProtocolledStep(d, idle, Begin(|s.log| - 1));
    ProtocolledSame(d, begun, clean);
  }

  lemma FreshPlace(d: Desired, s: State, t: State)
    requires s.log != [] && Latest(s).Present? && !Latest(s).deleting && t.log == s.log
    requires t.pc == AfterRead(d, CopyOf(|s.log| - 1, Latest(s)))
    ensures ServingPlace(d, t) && Progress(d, t) && (t.pc.Idle? ==> AllServed(d, t))
  {
    assert RefsServed(d, t, 0);
    hide RefsServed;
  }

  lemma ServingGoal(d: Desired, t: State)
    requires Serving(d, t) && t.pc.Idle?
    ensures Latest(t) == Present(true, false, true) && AllServed(d, t)
  {
  }
}
