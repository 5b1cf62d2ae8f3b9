/** Drop order over whole runs: while nobody drops a role that an entry names, the REVOKEs
    leave nothing behind when DROP USER comes. */
module Revocation {
  import opened Sql
  import opened Quoting
  import opened Statements
  import opened Server
  import opened Plans
  import opened Passes
  import opened Resources
  import opened Protocol
  import opened Safety
  import opened Convergence
  import opened Obstacles

  /** Nobody has dropped a role that an entry of ref `i` names. */
  predicate KeepsNamed(d: Desired, s: State, i: nat)
    requires i < |d.refs|
  {
    forall x, p :: x in s.dropped && p in d.refs[i].Privileges() && x.0 == Home(d, i) ==> !NamedBy(p, x.1)
  }

  /** How far an apply pass can get in the privileges of ref `i`. */
  function Limit(d: Desired, servers: Servers, i: nat): (n: nat)
    requires i < |d.refs|
    ensures n <= |d.refs[i].Privileges()|
  {
    Reach(Keys(servers, Home(d, i)) + {Role(d)}, Role(d), true, d.refs[i].Privileges())
  }

  /** The user's row holds nothing beyond what these entries name. */
  predicate RowBounded(d: Desired, srv: Server, ps: seq<PrivilegeSpec>) {
    Role(d) in srv.roles ==> srv.roles[Role(d)] <= Helds(ps)
  }

  predicate RowEmpty(d: Desired, srv: Server) {
    Role(d) in srv.roles ==> srv.roles[Role(d)] == {}
  }

  /** Ref `i` holds nothing beyond what apply passes can reach, and its pass is not beyond it either. */
  ghost predicate RefBounded(d: Desired, s: State, i: nat)
    requires i < |d.refs|
  {
    && RowBounded(d, At(s.servers, Home(d, i)), d.refs[i].Privileges()[..Limit(d, s.servers, i)])
    && (s.pc.Grant? && s.pc.i == i && PcInRange(d, s.pc) ==> s.pc.k <= Limit(d, s.servers, i))
  }

  /** The REVOKEs so far have done their work; before DROP USER nothing is left. */
  predicate Revoked(d: Desired, s: State, i: nat)
    requires i < |d.refs|
  {
    && (s.pc.Revoke? && s.pc.i == i && PcInRange(d, s.pc) ==>
           RowClear(d, At(s.servers, Home(d, i)), d.refs[i].Privileges()[..s.pc.k]))
    && (s.pc.Drop? && s.pc.i == i ==> RowEmpty(d, At(s.servers, Home(d, i))))
  }

  // ---- one statement ----

  lemma {:induction false} ReachGrows(keys: set<string>, more: set<string>, role: string, ps: seq<PrivilegeSpec>)
    requires forall p :: p in ps && Grantable(keys, role, p) ==> Grantable(more, role, p)
    ensures Reach(keys, role, true, ps) <= Reach(more, role, true, ps)
  {
    hide Grantable, Usable;
    if ps != [] && Accepted(keys, role, true, ps[0]) {
      ReachGrows(keys, more, role, ps[1..]);
    }
  }

  /** A GRANT at or before the limit stays within it; if it was accepted, the next one is
      at or before the limit too. */
  lemma GrantBounded(d: Desired, srv: Server, dbname: string, ps: seq<PrivilegeSpec>, k: nat)
    requires Managed(d.name) && AllLegible(ps)
    requires k < |ps| && k <= Reach(srv.roles.Keys + {Role(d)}, Role(d), true, ps)
    requires RowBounded(d, srv, ps[..Reach(srv.roles.Keys + {Role(d)}, Role(d), true, ps)])
    ensures var n := Reach(srv.roles.Keys + {Role(d)}, Role(d), true, ps);
            var (t, err) := Perform(srv, PrivilegeOp(dbname, d.name, true, ps[k]));
            RowBounded(d, t, ps[..n]) && (err == NoError ==> k < n)
  {
    hide *;
    var n := Reach(srv.roles.Keys + {Role(d)}, Role(d), true, ps);
    var p := ps[k];
    LegibleAt(ps, k);
    BoundedMeans(d, srv, ps[..n]);
    if Role(d) in srv.roles {
      assert srv.roles.Keys + {Role(d)} == srv.roles.Keys;
      if k < n { HeldAmong(ps, k, n); }
      GrantedRow(srv, dbname, d.name, p, Helds(ps[..n]));
    } else {
      NoGrantee(srv, dbname, d.name, p);
    }
    BoundedMeans(d, Perform(srv, PrivilegeOp(dbname, d.name, true, p)).0, ps[..n]);
  }

  lemma BoundedMeans(d: Desired, srv: Server, ps: seq<PrivilegeSpec>)
    ensures RowBounded(d, srv, ps) <==> (Role(d) in srv.roles ==> srv.roles[Role(d)] <= Helds(ps))
    ensures Role(d) == Strip(d.name)
  {
    hide Helds, Strip;
  }

  lemma LegibleAt(ps: seq<PrivilegeSpec>, k: nat)
    requires AllLegible(ps) && k < |ps|
    ensures LegibleEntry(ps[k])
  {
  }

  lemma GrantedRow(srv: Server, dbname: string, username: string, p: PrivilegeSpec, all: set<Held>)
    requires Managed(username) && LegibleEntry(p) && Strip(username) in srv.roles && srv.roles[Strip(username)] <= all
    requires Accepted(srv.roles.Keys, Strip(username), true, p) ==> HeldFor(p) in all
    ensures var (t, err) := Perform(srv, PrivilegeOp(dbname, username, true, p));
            && (Strip(username) in t.roles ==> t.roles[Strip(username)] <= all)
            && (err == NoError ==> Accepted(srv.roles.Keys, Strip(username), true, p))
  {
    hide Accepted, LegibleEntry, Managed, HeldFor, Strip, StopError, Perform, PrivilegeOp;
    EntryOutcome(srv, dbname, username, true, p);
  }

  lemma NoGrantee(srv: Server, dbname: string, username: string, p: PrivilegeSpec)
    requires Managed(username) && LegibleEntry(p) && Strip(username) !in srv.roles
    ensures var (t, err) := Perform(srv, PrivilegeOp(dbname, username, true, p)); t == srv && err != NoError
  {
    TextRefinesRequest(srv, dbname, username, true, p);
    if Executable(p) { MissingGrantee(srv, p, Strip(username)); }
    hide Perform, PrivilegeOp, Executable, Request, LegibleEntry, Strip, Exec, Managed;
  }

  /** A statement of the user's own pass does not move the limit of any ref. */
  lemma SameLimit(d: Desired, s: State, fault: Fault, i: nat)
    requires PcInRange(d, s.pc) && SendsStatement(s.pc) && i < |d.refs|
    ensures Limit(d, RespondStatement(d, s, fault).servers, i) == Limit(d, s.servers, i)
  {
    var t := RespondStatement(d, s, fault);
    StatementServers(d, s, fault);
    AnswerEffect(d, s, fault);
    hide RespondStatement, Answer, At, Granted, Extends, Reach;
    assert Keys(t.servers, Home(d, i)) + {Role(d)} == Keys(s.servers, Home(d, i)) + {Role(d)};
  }

  lemma AnswerBounded(d: Desired, s: State, fault: Fault)
    requires Readable(d) && SendsStatement(s.pc) && PcInRange(d, s.pc) && RefBounded(d, s, s.pc.i)
    ensures var i := s.pc.i;
            var (t, err) := Answer(d, s, fault);
            RowBounded(d, t, d.refs[i].Privileges()[..Limit(d, s.servers, i)]) &&
            (s.pc.Grant? && err == NoError ==> s.pc.k < Limit(d, s.servers, i))
  {
    var r := d.refs[s.pc.i];
    assert r in d.refs;
    var srv := At(s.servers, r.database.Address());
    var ps := r.Privileges();
    hide CreateOp, DropOp, PrivilegeOp, Nameable, Helds, Reach, IsChangeOp, Perform, LegibleEntry, Strip;
    match s.pc
    case Create(_, _) => CreateMeaning(srv, r.database.name, d.name, r.password);
    case Drop(_, _, _) => DropMeaning(srv, r.database.name, d.name);
    case Grant(_, _, k) => GrantBounded(d, srv, r.database.name, ps, k);
    case Revoke(_, _, k) =>
      PrivilegeOpIsChange(r.database.name, d.name, false, ps[k]);
      RevokeShrinksRow(d, srv, PrivilegeOp(r.database.name, d.name, false, ps[k]), ps[..Limit(d, s.servers, s.pc.i)]);
  }

  lemma RevokeShrinksRow(d: Desired, srv: Server, op: Op, ps: seq<PrivilegeSpec>)
    requires IsChangeOp(op, false) && RowBounded(d, srv, ps)
    ensures RowBounded(d, Perform(srv, op).0, ps)
  {
    hide Perform, IsChangeOp, Helds;
    ChangeEffect(srv, op, false);
  }

  /** A pass comes to a GRANT from its predecessor in the same ref, or at the first one. */
  lemma GrantPlace(d: Desired, pc: Pc, err: Error)
    requires SendsStatement(pc) && PcInRange(d, pc)
    ensures var q := AfterStatement(d, pc, err);
            PcInRange(d, q) && (q.Grant? ==>
                q.k == 0 || (pc.Grant? && err == NoError && q.i == pc.i && q.k == pc.k + 1))
  {
  }

  lemma BoundedStatement(d: Desired, s: State, fault: Fault, i: nat)
    requires Readable(d) && DistinctServers(d) && SendsStatement(s.pc) && PcInRange(d, s.pc)
    requires i < |d.refs| && RefBounded(d, s, i)
    ensures RefBounded(d, RespondStatement(d, s, fault), i)
  {
    var t := RespondStatement(d, s, fault);
    SameLimit(d, s, fault, i);
    StatementServers(d, s, fault);
    if i == s.pc.i { AnswerBounded(d, s, fault); }
    hide Answer, RespondStatement, AfterStatement, Limit, RowBounded, At, Readable;
    GrantPlace(d, s.pc, Answer(d, s, fault).1);
    assert i != s.pc.i ==> Home(d, i) != Home(d, s.pc.i);
  }

  lemma OtherGrantPlace(d: Desired, s: State, a: Action)
    requires !(a.Call? && SendsStatement(s.pc)) && !a.Foreign?
    ensures var t := Step(d, s, a);
            t.servers == s.servers && (t.pc.Grant? ==> t.pc.k == 0 || t.pc == s.pc)
  {
  }

  // ---- statements of others ----

  lemma NamedMattersOnly(keys: set<string>, more: set<string>, role: string, p: PrivilegeSpec, n: string)
    requires keys - {n} <= more && !NamedBy(p, n) && Grantable(keys, role, p)
    ensures Grantable(more, role, p)
  {
    hide Lex, Path, Fold;
  }

  lemma GrantableMore(keys: set<string>, more: set<string>, role: string, p: PrivilegeSpec)
    requires keys <= more && Grantable(keys, role, p)
    ensures Grantable(more, role, p)
  {
    hide Lex, Path, Fold;
  }

  /** What a statement of others leaves of the roles. */
  lemma ForeignKeys(srv: Server, op: Op)
    ensures var (t, err) := Perform(srv, op);
            var drops := ParseOp(op).Some? && ParseOp(op).value.DropUser? && err == NoError;
            if drops then srv.roles.Keys - {ParseOp(op).value.role} <= t.roles.Keys else srv.roles.Keys <= t.roles.Keys
  {
    hide Parse, EarlyError, ChangeError, Blocks;
  }

  lemma ForeignLimit(d: Desired, s: State, address: (string, nat), op: Op, i: nat)
    requires i < |d.refs| && KeepsNamed(d, StepForeign(d, s, address, op), i)
    ensures Limit(d, s.servers, i) <= Limit(d, StepForeign(d, s, address, op).servers, i)
    ensures KeepsNamed(d, s, i)
  {
    var t := StepForeign(d, s, address, op);
    var srv := At(s.servers, Home(d, i));
    var keys, more := Keys(s.servers, Home(d, i)) + {Role(d)}, Keys(t.servers, Home(d, i)) + {Role(d)};
    ForeignKeys(srv, op);
    assert s.dropped <= t.dropped;
    assert !OwnStatement(d, op) ==> NewlyDropped(address, At(s.servers, address), op) <= t.dropped;
    if address != Home(d, i) || OwnStatement(d, op) {
      assert more == keys by { hide Perform, OwnStatement, Strip, NewlyDropped; }
    }
    var drops := ParseOp(op).Some? && ParseOp(op).value.DropUser? && Perform(srv, op).1 == NoError;
    forall p | p in d.refs[i].Privileges() && Grantable(keys, Role(d), p) ensures Grantable(more, Role(d), p) {
      hide Perform, Grantable, NamedBy, OwnStatement, Parse, Strip;
      if more != keys {
        if drops {
          NamedMattersOnly(keys, more, Role(d), p, ParseOp(op).value.role);
        } else {
          GrantableMore(keys, more, Role(d), p);
        }
      }
    }
    hide StepForeign, Perform, Grantable, NamedBy, OwnStatement, Strip;
    ReachGrows(keys, more, Role(d), d.refs[i].Privileges());
  }

  lemma ForeignBounded(d: Desired, s: State, address: (string, nat), op: Op, i: nat)
    requires i < |d.refs| && KeepsNamed(d, StepForeign(d, s, address, op), i)
    requires RefBounded(d, s, i) && Revoked(d, s, i)
    ensures RefBounded(d, StepForeign(d, s, address, op), i) && Revoked(d, StepForeign(d, s, address, op), i)
  {
    var t := StepForeign(d, s, address, op);
    ForeignLimit(d, s, address, op, i);
    ForeignOwn(d, s, address, op, Home(d, i));
    ForeignRoles(d, s, address, op);
    hide StepForeign, Limit, KeepsNamed, Helds, Strip, At, PcInRange;
    HeldsMonotone(d.refs[i].Privileges(), Limit(d, s.servers, i), Limit(d, t.servers, i));
  }

  // ---- REVOKE ----

  /** A REVOKE that was not answered is an error that is not swallowed: DROP USER is skipped. */
  lemma UnansweredRevoke(d: Desired, s: State, fault: Fault)
    requires PcInRange(d, s.pc) && s.pc.Revoke? && !fault.Done?
    ensures RespondStatement(d, s, fault).pc == DeleteSecret(s.pc.copy, s.pc.i, false)
  {
    hide Perform, OpAt;
  }

  /** One undisturbed REVOKE: it is done and the role no longer holds the entry, or the loop
      stops early and nothing was left to revoke, or the error is not swallowed. */
  lemma RevokeAnswered(d: Desired, srv: Server, dbname: string, ps: seq<PrivilegeSpec>, k: nat)
    requires Managed(d.name) && AllLegible(ps) && k < |ps|
    requires RowBounded(d, srv, ps[..Reach(srv.roles.Keys + {Role(d)}, Role(d), true, ps)])
    requires RowClear(d, srv, ps[..k])
    ensures var (t, err) := Perform(srv, PrivilegeOp(dbname, d.name, false, ps[k]));
            && (err == NoError ==> RowClear(d, t, ps[..k + 1]) && (k + 1 == |ps| ==> RowEmpty(d, t)))
            && (IsNotExists(err) ==> RowEmpty(d, t))
  {
    hide *;
    var p := ps[k];
    var t := Perform(srv, PrivilegeOp(dbname, d.name, false, p)).0;
    var n := Reach(srv.roles.Keys + {Role(d)}, Role(d), true, ps);
    LegibleAt(ps, k);
    RevokeVerdict(srv, dbname, d.name, p);
    BoundedMeans(d, srv, ps[..n]);
    ClearMeans(d, srv, ps[..k]);
    if Role(d) in srv.roles {
      assert srv.roles.Keys + {Role(d)} == srv.roles.Keys;
      if k < n { AcceptedBoth(srv.roles.Keys, Role(d), p); } else { HeldsMonotone(ps, n, k); }
      HeldsSnoc(ps, k);
      if k + 1 == |ps| { HeldsMonotone(ps, n, k + 1); }
      ClearedRow(srv.roles[Role(d)], HeldFor(p), Helds(ps[..k]), Helds(ps[..n]));
    }
    ClearMeans(d, t, ps[..k + 1]);
  }

  lemma ClearMeans(d: Desired, srv: Server, ps: seq<PrivilegeSpec>)
    ensures RowClear(d, srv, ps) <==> (Role(d) in srv.roles ==> srv.roles[Role(d)] * Helds(ps) == {})
    ensures RowEmpty(d, srv) <==> (Role(d) in srv.roles ==> srv.roles[Role(d)] == {})
    ensures forall err :: IsNotExists(err) ==> err != NoError
  {
    hide Helds, Strip;
  }

  lemma AcceptedBoth(keys: set<string>, role: string, p: PrivilegeSpec)
    requires Accepted(keys, role, true, p)
    ensures Accepted(keys, role, false, p)
  {
  }

  lemma ClearedRow(row: set<Held>, h: Held, before: set<Held>, all: set<Held>)
    requires row * before == {} && row <= all
    ensures (row - {h}) * (before + {h}) == {}
    ensures all <= before + {h} ==> row - {h} == {}
    ensures all <= before ==> row == {}
  {
  }

  lemma RevokeStep(d: Desired, s: State)
    requires Readable(d) && PcInRange(d, s.pc) && s.pc.Revoke? && RefBounded(d, s, s.pc.i) && Revoked(d, s, s.pc.i)
    ensures Revoked(d, RespondStatement(d, s, Done), s.pc.i)
  {
    var r := d.refs[s.pc.i];
    assert r in d.refs;
    var srv := At(s.servers, Home(d, s.pc.i));
    var (v, err) := Answer(d, s, Done);
    RevokeLeads(d, s.pc, err);
    StatementServers(d, s, Done);
    assert OutOfReach(d, s.pc) || (v, err) == Perform(srv, OpAt(d, s.pc));
    hide Answer, RespondStatement, AfterStatement, Perform, PrivilegeOp, RowBounded, RowClear, RowEmpty, Reach,
         AllLegible, Managed, At, Strip;
    RevokeAnswered(d, srv, r.database.name, r.Privileges(), s.pc.k);
  }

  lemma FirstRevoke(d: Desired, s: State, i: nat)
    requires i < |d.refs| && RefBounded(d, s, i)
    ensures var srv := At(s.servers, Home(d, i));
            var ps := d.refs[i].Privileges();
            RowClear(d, srv, ps[..0]) && (|ps| == 0 ==> RowEmpty(d, srv))
  {
    var ps := d.refs[i].Privileges();
    assert ps[..0] == [];
    if |ps| == 0 { assert ps[..Limit(d, s.servers, i)] == []; }
    hide Reach, Strip;
  }

  // ---- runs ----

  ghost predicate Kept(d: Desired, s: State, i: nat)
    requires i < |d.refs|
  {
    KeepsNamed(d, s, i) ==> RefBounded(d, s, i) && Revoked(d, s, i)
  }

  lemma KeptStatement(d: Desired, s: State, fault: Fault, i: nat)
    requires Readable(d) && DistinctServers(d) && SendsStatement(s.pc) && PcInRange(d, s.pc)
    requires i < |d.refs| && RefBounded(d, s, i) && Revoked(d, s, i)
    ensures var t := RespondStatement(d, s, fault); RefBounded(d, t, i) && Revoked(d, t, i)
  {
    var t := RespondStatement(d, s, fault);
    BoundedStatement(d, s, fault, i);
    if s.pc.Revoke? {
      RevokeRef(d, s.pc, Answer(d, s, fault).1);
      assert t.pc == AfterStatement(d, s.pc, Answer(d, s, fault).1);
      hide RefBounded, Revoked, RespondStatement, AfterStatement, Answer, DistinctServers, Readable;
      if i == s.pc.i {
        if fault.Done? {
          RevokeStep(d, s);
        } else {
          UnansweredRevoke(d, s, fault);
          NotRevoking(d, t, i);
        }
      } else {
        NotRevoking(d, t, i);
      }
    } else {
      NoRevokeAfter(d, s.pc, Answer(d, s, fault).1);
      assert t.pc == AfterStatement(d, s.pc, Answer(d, s, fault).1);
      hide RefBounded, Revoked, RespondStatement, AfterStatement, Answer, DistinctServers, Readable;
      NotRevoking(d, t, i);
    }
  }

  lemma RevokeRef(d: Desired, pc: Pc, err: Error)
    requires PcInRange(d, pc) && pc.Revoke?
    ensures var q := AfterStatement(d, pc, err); q.Revoke? || q.Drop? ==> q.i == pc.i
  {
  }

  lemma NotRevoking(d: Desired, s: State, i: nat)
    requires i < |d.refs| && (s.pc.Revoke? || s.pc.Drop? ==> s.pc.i != i)
    ensures Revoked(d, s, i)
  {
  }

  lemma KeptQuiet(d: Desired, s: State, a: Action, i: nat)
    requires PcInRange(d, s.pc) && i < |d.refs| && RefBounded(d, s, i) && Revoked(d, s, i)
    requires !(a.Call? && SendsStatement(s.pc)) && !a.Foreign?
    ensures var t := Step(d, s, a); RefBounded(d, t, i) && Revoked(d, t, i)
  {
    OtherGrantPlace(d, s, a);
    RevokePlace(d, s, a);
    FirstRevoke(d, s, i);
    if s.pc.Open? { FirstPlace(d, s.pc); }
    hide Step, Limit, RowBounded, RowClear, RowEmpty, At, NextRevoke;
  }

  lemma FirstPlace(d: Desired, pc: Pc)
    requires PcInRange(d, pc) && pc.Open?
    ensures var q := NextRevoke(d, pc.copy, pc.i, 0);
            q.i == pc.i && (q.Revoke? ==> q.k == 0) && (q.Drop? ==> |d.refs[pc.i].Privileges()| == 0)
  {
  }

  lemma KeptStep(d: Desired, s: State, a: Action, i: nat)
    requires Readable(d) && DistinctServers(d) && PcInRange(d, s.pc) && i < |d.refs| && Kept(d, s, i)
    ensures Kept(d, Step(d, s, a), i)
  {
    var t := Step(d, s, a);
    if KeepsNamed(d, t, i) {
      if a.Foreign? {
        ForeignLimit(d, s, a.address, a.op, i);
        hide KeepsNamed, RefBounded, Revoked, StepForeign;
        ForeignBounded(d, s, a.address, a.op, i);
      } else {
        SameDropped(d, s, a);
        assert KeepsNamed(d, s, i);
        hide KeepsNamed, RefBounded, Revoked, Readable, DistinctServers;
        if a.Call? && SendsStatement(s.pc) {
          assert t == RespondStatement(d, s, a.fault);
          KeptStatement(d, s, a.fault, i);
        } else {
          KeptQuiet(d, s, a, i);
        }
      }
    }
  }

  lemma SameDropped(d: Desired, s: State, a: Action)
    requires !a.Foreign?
    ensures Step(d, s, a).dropped == s.dropped
  {
    hide Answer, AfterStatement;
  }

  lemma KeptInit(d: Desired, base: Servers, secrets: map<string, nat>, i: nat)
    requires Unmanaged(d, base) && i < |d.refs|
    ensures Kept(d, Init(base, secrets), i)
  {
    assert d.refs[i] in d.refs;
    assert Role(d) !in Keys(base, Home(d, i));
    hide Limit, Helds, Strip;
  }

  lemma {:induction false} KeptRun(d: Desired, base: Servers, secrets: map<string, nat>, actions: seq<Action>, i: nat)
    requires Readable(d) && DistinctServers(d) && Unmanaged(d, base) && i < |d.refs|
    ensures Kept(d, Run(d, Init(base, secrets), actions), i)
    decreases |actions|
  {
    hide Step, Readable, DistinctServers, Unmanaged, Inv, Kept;
    if actions == [] {
      KeptInit(d, base, secrets, i);
    } else {
      var init, a := actions[..|actions| - 1], actions[|actions| - 1];
      KeptRun(d, base, secrets, init, i);
      InvInit(d, base, secrets);
      InvRun(d, base, Init(base, secrets), init);
      InvInPlace(d, base, Run(d, Init(base, secrets), init));
      KeptStep(d, Run(d, Init(base, secrets), init), a, i);
    }
  }

  /** Drop order. On every run, with any faults, crashes, stale reads and statements of
      others: when DROP USER is about to be sent, the role is absent or holds nothing at all,
      unless others have dropped a role that an entry names. The named roles need not exist,
      nor entries be executable: a REVOKE loop that stops early leaves nothing behind,
      because the GRANT pass stopped there too. */
  lemma DropFindsNothing(d: Desired, base: Servers, secrets: map<string, nat>, actions: seq<Action>)
    requires Readable(d) && DistinctServers(d) && Unmanaged(d, base)
    ensures var s := Run(d, Init(base, secrets), actions);
            s.pc.Drop? ==>
              PcInRange(d, s.pc) &&
              (KeepsNamed(d, s, s.pc.i) ==>
                 var srv := At(s.servers, Home(d, s.pc.i));
                 (Role(d) in srv.roles ==> srv.roles[Role(d)] == {}) &&
                 (var err := Perform(srv, OpAt(d, s.pc)).1; err == NoError || IsNotExists(err)))
  {
    var s := Run(d, Init(base, secrets), actions);
    InvInit(d, base, secrets);
    InvRun(d, base, Init(base, secrets), actions);
    InvInPlace(d, base, s);
    if s.pc.Drop? && KeepsNamed(d, s, s.pc.i) {
      var r := d.refs[s.pc.i];
      KeptRun(d, base, secrets, actions, s.pc.i);
      hide Run, Perform, DropOp, Inv, KeepsNamed, Strip;
      DropMeaning(At(s.servers, Home(d, s.pc.i)), r.database.name, d.name);
    }
  }

  /** So the row condition of droppability can fail only where others have dropped a role
      that an entry names. */
  lemma DroppableUndisturbed(d: Desired, base: Servers, secrets: map<string, nat>, actions: seq<Action>, i: nat)
    requires Readable(d) && DistinctServers(d) && Unmanaged(d, base) && i < |d.refs|
    requires KeepsNamed(d, Run(d, Init(base, secrets), actions), i)
    ensures var s := Run(d, Init(base, secrets), actions);
            var r, srv := d.refs[i], At(s.servers, Home(d, i));
            Droppable(d, s.servers, i) <==>
              !r.FilesGone(TriedOn(d, srv, r.Privileges())) && EndsSwallowed(d, srv, r.Privileges())
  {
    var s := Run(d, Init(base, secrets), actions);
    var r, srv := d.refs[i], At(s.servers, Home(d, i));
    var ps := r.Privileges();
    KeptRun(d, base, secrets, actions, i);
    assert RefBounded(d, s, i);
    assert !Shared(d, i);
    hide Run, KeepsNamed;
    FoundThere(d, s.servers, i);
    if Role(d) in srv.roles {
      assert srv.roles.Keys + {Role(d)} == srv.roles.Keys;
      ReachOrder(srv.roles.Keys, Role(d), ps);
      HeldsMonotone(ps, Limit(d, s.servers, i), Revocables(d, srv, ps));
      assert srv.roles[Role(d)] <= Helds(ps[..Limit(d, s.servers, i)]);
    }
    assert Left(d, srv, ps) == {};
    NothingBlocks();
    hide Reach, EndsSwallowed, TriedOn, Left, Helds, Blocks, Strip;
  }
}
