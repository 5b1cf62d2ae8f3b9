/** What can keep a delete pass from ever dropping a role: an entry whose REVOKE fails for
    good, the certificate files that a connection to the ref's own database takes away, and
    privileges behind an entry about a role that does not exist. */
module Obstacles {
  import opened Quoting
  import opened Statements
  import opened Server
  import opened Plans
  import opened Passes
  import opened Resources
  import opened Protocol
  import opened Safety
  import opened Convergence

  /** How far the REVOKE loop gets where the role exists. */
  function Revocables(d: Desired, srv: Server, ps: seq<PrivilegeSpec>): (n: nat)
    ensures n <= |ps|
  {
    Reach(srv.roles.Keys, Role(d), false, ps)
  }

  /** How many entries the REVOKE loop sends: without the role the first already fails,
      with it the loop goes on to the first that is not accepted. */
  function TriedOn(d: Desired, srv: Server, ps: seq<PrivilegeSpec>): (n: nat)
    ensures n <= |ps|
  {
    if Role(d) !in srv.roles then (if ps == [] then 0 else 1)
    else
      var m := Revocables(d, srv, ps);
      if m < |ps| then m + 1 else m
  }

  /** The error that ends the REVOKE loop, if any, is one that is swallowed. */
  predicate EndsSwallowed(d: Desired, srv: Server, ps: seq<PrivilegeSpec>) {
    var n := TriedOn(d, srv, ps);
    n > 0 ==> if Role(d) in srv.roles then Usable(ps[n - 1]) else Executable(ps[n - 1])
  }

  /** What the role holds when the loop has ended. */
  function Left(d: Desired, srv: Server, ps: seq<PrivilegeSpec>): set<Held> {
    if Role(d) in srv.roles then srv.roles[Role(d)] - Helds(ps[..Revocables(d, srv, ps)]) else {}
  }

  /** The loop ends with nothing or with a swallowed error, the connection that DROP USER
      needs still has its files, and the role no longer holds what would block it. */
  predicate DroppableOn(d: Desired, srv: Server, r: Ref) {
    var ps := r.Privileges();
    !r.FilesGone(TriedOn(d, srv, ps)) && EndsSwallowed(d, srv, ps) && !Blocks(Left(d, srv, ps))
  }

  /** An earlier ref is on the same server. */
  predicate Shared(d: Desired, i: nat)
    requires i < |d.refs|
  {
    exists j: nat :: j < i && Home(d, j) == Home(d, i)
  }

  /** The server as a delete pass finds it when it comes to ref `i`: without the role, if an
      earlier ref is on the same server. */
  function Found(d: Desired, servers: Servers, i: nat): Server
    requires i < |d.refs|
  {
    var srv := At(servers, Home(d, i));
    if Shared(d, i) then Server(Forget(srv.roles, Role(d))) else srv
  }

  predicate Droppable(d: Desired, servers: Servers, i: nat)
    requires i < |d.refs|
  {
    DroppableOn(d, Found(d, servers, i), d.refs[i])
  }

  predicate AllDroppable(d: Desired, servers: Servers) {
    forall i :: 0 <= i < |d.refs| ==> Droppable(d, servers, i)
  }

  /** The user's row holds none of what these entries name. */
  predicate RowClear(d: Desired, srv: Server, ps: seq<PrivilegeSpec>) {
    Role(d) in srv.roles ==> srv.roles[Role(d)] * Helds(ps) == {}
  }

  lemma FilesStayGone(r: Ref, n: nat, m: nat)
    requires r.FilesGone(n) && n <= m
    ensures r.FilesGone(m)
  {
  }

  /** The role is on both servers or on neither, among the same roles. */
  predicate SameRoles(d: Desired, a: Server, b: Server) {
    a.roles.Keys == b.roles.Keys && (Role(d) in a.roles <==> Role(d) in b.roles)
  }

  lemma SameKeysSameRoles(d: Desired, a: Server, b: Server)
    requires a.roles.Keys == b.roles.Keys
    ensures SameRoles(d, a, b)
  {
    assert Role(d) in a.roles <==> Role(d) in a.roles.Keys;
    assert Role(d) in b.roles <==> Role(d) in b.roles.Keys;
  }

  /** Among the same roles, only what the role is left with matters, and less is better. */
  lemma LessLeftIsEasier(d: Desired, a: Server, b: Server, r: Ref)
    requires SameRoles(d, a, b) && Left(d, a, r.Privileges()) <= Left(d, b, r.Privileges())
    ensures TriedOn(d, a, r.Privileges()) == TriedOn(d, b, r.Privileges())
    ensures EndsSwallowed(d, a, r.Privileges()) == EndsSwallowed(d, b, r.Privileges())
    ensures DroppableOn(d, b, r) ==> DroppableOn(d, a, r)
  {
    hide Usable, Executable, Accepted, Helds, Left, Reach;
  }

  /** What does not stop a pass that finds the role stops no pass that does not. */
  lemma AbsentIsEasier(d: Desired, a: Server, b: Server, r: Ref)
    requires Role(d) !in a.roles && Role(d) in b.roles && DroppableOn(d, b, r)
    ensures DroppableOn(d, a, r)
  {
    var ps := r.Privileges();
    hide Applicable, Grantable, Revocable, Helds;
    if ps != [] {
      var n := TriedOn(d, b, ps);
      assert n >= 1;
      if r.FilesGone(1) { FilesStayGone(r, 1, n); }
      assert Executable(ps[0]) by {
        hide Executable;
        if n > 1 { assert Accepted(b.roles.Keys, Role(d), false, ps[0]); }
      }
    }
    assert Left(d, a, ps) == {};
    hide Executable;
  }

  /** Every entry the loop of a droppable ref sends is executable and within reach. */
  lemma TriedIsFine(d: Desired, srv: Server, r: Ref, k: nat)
    requires DroppableOn(d, srv, r) && k < TriedOn(d, srv, r.Privileges())
    ensures !r.FilesGone(k) && Executable(r.Privileges()[k])
    ensures Role(d) in srv.roles ==> Usable(r.Privileges()[k])
  {
    hide Executable, Applicable, Grantable, Revocable, Blocks, Left;
    var ps := r.Privileges();
    var n := TriedOn(d, srv, ps);
    if r.FilesGone(k) { FilesStayGone(r, k, n); }
    if k + 1 < n { assert Accepted(srv.roles.Keys, Role(d), false, ps[k]); }
  }

  // ---- one statement at a time ----

  /** The verdict on one REVOKE, and what it does. */
  lemma RevokeVerdict(srv: Server, dbname: string, username: string, p: PrivilegeSpec)
    requires Managed(username) && LegibleEntry(p)
    ensures var (t, err) := Perform(srv, PrivilegeOp(dbname, username, false, p));
            var role := Strip(username);
            && (err == NoError <==> role in srv.roles && Accepted(srv.roles.Keys, role, false, p))
            && (IsNotExists(err) <==> err != NoError && if role in srv.roles then Usable(p) else Executable(p))
            && t == if err == NoError then Server(srv.roles[role := srv.roles[role] - {HeldFor(p)}]) else srv
  {
    var role := Strip(username);
    if role in srv.roles {
      EntryOutcome(srv, dbname, username, false, p);
      RevokeStop(srv.roles.Keys, role, [p]);
      ReachOne(srv.roles.Keys, role, p);
    } else {
      TextRefinesRequest(srv, dbname, username, false, p);
      if Executable(p) { MissingGrantee(srv, p, role); }
    }
    hide Perform, PrivilegeOp, Exec, Accepted, Executable, Usable, HeldFor, Request, LegibleEntry, Managed, Strip,
         StopError, Reach;
  }

  lemma ReachOne(keys: set<string>, role: string, p: PrivilegeSpec)
    ensures Reach(keys, role, false, [p]) == if Accepted(keys, role, false, p) then 1 else 0
  {
    hide Accepted;
    assert [p][1..] == [];
  }

  lemma GrantVerdict(srv: Server, dbname: string, username: string, p: PrivilegeSpec)
    requires Managed(username) && LegibleEntry(p)
    ensures var t := Perform(srv, PrivilegeOp(dbname, username, true, p)).0;
            var role := Strip(username);
            t == srv || (role in srv.roles && t == Server(srv.roles[role := srv.roles[role] + {HeldFor(p)}]))
  {
    var role := Strip(username);
    if role in srv.roles {
      EntryOutcome(srv, dbname, username, true, p);
    } else {
      TextRefinesRequest(srv, dbname, username, true, p);
      if Executable(p) { MissingGrantee(srv, p, role); }
    }
    hide Perform, PrivilegeOp, Exec, Accepted, Executable, HeldFor, Request, LegibleEntry, Managed, Strip, StopError;
  }

  /** A delete pass is at an entry its loop sends, the entries before it revoked; at DROP
      USER the loop has ended. */
  predicate OnTrackAt(d: Desired, srv: Server, r: Ref, pc: Pc) {
    var ps := r.Privileges();
    && (pc.Revoke? ==> pc.k < TriedOn(d, srv, ps) && RowClear(d, srv, ps[..pc.k]))
    && (pc.Drop? ==>
          && (pc.gone <==> r.FilesGone(TriedOn(d, srv, ps)))
          && EndsSwallowed(d, srv, ps) && RowClear(d, srv, ps[..Revocables(d, srv, ps)]))
  }

  predicate OnTrack(d: Desired, s: State)
    requires PcInRange(d, s.pc)
  {
    s.pc.Revoke? || s.pc.Drop? ==> OnTrackAt(d, At(s.servers, d.refs[s.pc.i].database.Address()), d.refs[s.pc.i], s.pc)
  }

  /** At DROP USER the ref is droppable exactly when the files are there and the role holds
      nothing that blocks. */
  lemma DropTells(d: Desired, srv: Server, r: Ref, pc: Pc)
    requires pc.Drop? && OnTrackAt(d, srv, r, pc)
    ensures DroppableOn(d, srv, r) <==> !pc.gone && (Role(d) in srv.roles ==> !Blocks(srv.roles[Role(d)]))
  {
    hide Blocks, EndsSwallowed, TriedOn, Revocables, Helds, Strip;
    var ps := r.Privileges();
    if Role(d) in srv.roles {
      MinusDisjoint(srv.roles[Role(d)], Helds(ps[..Revocables(d, srv, ps)]));
    } else {
      assert !Blocks(Left(d, srv, ps)) by { NothingBlocks(); }
    }
  }

  lemma MinusDisjoint(row: set<Held>, hs: set<Held>)
    requires row * hs == {}
    ensures row - hs == row
  {
    assert forall h :: h in row ==> h !in row * hs;
  }

  lemma NothingBlocks()
    ensures !Blocks({})
  {
  }

  /** The loop after one REVOKE. */
  lemma RevokeTells(d: Desired, srv: Server, dbname: string, ps: seq<PrivilegeSpec>, k: nat)
    requires Managed(d.name) && AllLegible(ps) && k < TriedOn(d, srv, ps) && RowClear(d, srv, ps[..k])
    ensures var (t, err) := Perform(srv, PrivilegeOp(dbname, d.name, false, ps[k]));
            && SameRoles(d, srv, t) && Left(d, t, ps) == Left(d, srv, ps)
            && RowClear(d, t, ps[..k]) && (err == NoError ==> RowClear(d, t, ps[..k + 1]))
            && LoopTold(d, srv, ps, k, err)
  {
    var p, role := ps[k], Role(d);
    var (t, err) := Perform(srv, PrivilegeOp(dbname, d.name, false, p));
    assert LegibleEntry(p) by { assert p in ps; }
    RevokeVerdict(srv, dbname, d.name, p);
    TriedMeans(d, srv, ps, k, err);
    if role in srv.roles && err == NoError {
      RevokedRow(d, srv, t, ps, k);
    } else {
      SameKeysSameRoles(d, srv, t);
    }
    hide *;
  }

  /** What the error of the REVOKE of entry `k` says about the rest of the loop. */
  predicate LoopTold(d: Desired, srv: Server, ps: seq<PrivilegeSpec>, k: nat, err: Error) {
    var n, m := TriedOn(d, srv, ps), Revocables(d, srv, ps);
    && (err == NoError && k + 1 < |ps| ==> k + 1 < n)
    && (err == NoError && k + 1 == |ps| ==> n == m == k + 1 && EndsSwallowed(d, srv, ps))
    && (IsNotExists(err) ==> n == k + 1 && EndsSwallowed(d, srv, ps) && (Role(d) in srv.roles ==> m == k))
  }

  lemma TriedMeans(d: Desired, srv: Server, ps: seq<PrivilegeSpec>, k: nat, err: Error)
    requires k < TriedOn(d, srv, ps)
    requires err == NoError <==> Role(d) in srv.roles && Accepted(srv.roles.Keys, Role(d), false, ps[k])
    requires IsNotExists(err) <==> err != NoError && if Role(d) in srv.roles then Usable(ps[k]) else Executable(ps[k])
    ensures LoopTold(d, srv, ps, k, err)
    ensures err == NoError ==> k < Revocables(d, srv, ps)
  {
    hide Executable, Applicable, Revocable, Grantable, Strip, Reach;
    if Role(d) in srv.roles {
      assert Accepted(srv.roles.Keys, Role(d), false, ps[k]) <==> k < Revocables(d, srv, ps);
    }
  }

  lemma HeldAmong(ps: seq<PrivilegeSpec>, k: nat, m: nat)
    requires k < m <= |ps|
    ensures HeldFor(ps[k]) in Helds(ps[..m])
  {
    assert ps[..m][k] == ps[k];
  }

  lemma RevokedRow(d: Desired, srv: Server, t: Server, ps: seq<PrivilegeSpec>, k: nat)
    requires k < Revocables(d, srv, ps) && Role(d) in srv.roles && RowClear(d, srv, ps[..k])
    requires t == Server(srv.roles[Role(d) := srv.roles[Role(d)] - {HeldFor(ps[k])}])
    ensures SameRoles(d, srv, t) && Left(d, t, ps) == Left(d, srv, ps)
    ensures RowClear(d, t, ps[..k]) && RowClear(d, t, ps[..k + 1])
  {
    var m := Revocables(d, srv, ps);
    var row, h := srv.roles[Role(d)], HeldFor(ps[k]);
    assert t.roles.Keys == srv.roles.Keys && t.roles[Role(d)] == row - {h};
    assert Revocables(d, t, ps) == m;
    assert row * Helds(ps[..k]) == {};
    HeldsSnoc(ps, k);
    HeldAmong(ps, k, m);
    SetFacts(row, h, Helds(ps[..k]), Helds(ps[..m]));
    hide Helds, HeldFor, Revocables, Strip;
  }

  lemma SetFacts(row: set<Held>, h: Held, before: set<Held>, all: set<Held>)
    requires row * before == {} && h in all
    ensures row - {h} - all == row - all && (row - {h}) * before == {} && (row - {h}) * (before + {h}) == {}
  {
  }

  lemma HeldsSnoc(ps: seq<PrivilegeSpec>, k: nat)
    requires k < |ps|
    ensures Helds(ps[..k + 1]) == Helds(ps[..k]) + {HeldFor(ps[k])}
  {
    var a, b := ps[..k + 1], ps[..k];
    forall h | h in Helds(a) ensures h in Helds(b) + {HeldFor(ps[k])} {
      var p :| p in a && HeldFor(p) == h;
      assert p in b || p == ps[k];
    }
    forall h | h in Helds(b) ensures h in Helds(a) {
      var p :| p in b && HeldFor(p) == h;
      assert p in a;
    }
    assert a[k] == ps[k];
  }

  /** Where an answered REVOKE leads. */
  lemma RevokeLeads(d: Desired, pc: Pc, err: Error)
    requires PcInRange(d, pc) && pc.Revoke?
    ensures var q := AfterStatement(d, pc, err);
            var r := d.refs[pc.i];
            && (err == NoError && pc.k + 1 < |r.Privileges()| ==> q == Revoke(pc.copy, pc.i, pc.k + 1))
            && (err == NoError && pc.k + 1 == |r.Privileges()| ==> q == Drop(pc.copy, pc.i, r.FilesGone(pc.k + 1)))
            && (err != NoError && IsNotExists(err) ==> q == Drop(pc.copy, pc.i, r.FilesGone(pc.k + 1)))
            && (err != NoError && !IsNotExists(err) ==> q == DeleteSecret(pc.copy, pc.i, false))
  {
  }

  /** The pass stays on track when its REVOKE is answered, or leaves the ref. */
  lemma RevokeStaysOnTrackAt(d: Desired, srv: Server, t: Server, r: Ref, pc: Pc, err: Error)
    requires Readable(d) && r in d.refs && PcInRange(d, pc) && pc.Revoke? && d.refs[pc.i] == r &&
            OnTrackAt(d, srv, r, pc)
    requires (t, err) == Perform(srv, PrivilegeOp(r.database.name, d.name, false, r.Privileges()[pc.k])) ||
             (SameRoles(d, srv, t) && err != NoError && !IsNotExists(err))
    ensures var q := AfterStatement(d, pc, err); q.Revoke? || q.Drop? ==> OnTrackAt(d, t, r, q)
  {
    var ps, k := r.Privileges(), pc.k;
    RevokeLeads(d, pc, err);
    if err == NoError || IsNotExists(err) {
      RevokeTells(d, srv, r.database.name, ps, k);
      LessLeftIsEasier(d, srv, t, r);
      assert Revocables(d, srv, ps) == Revocables(d, t, ps);
      if Role(d) !in t.roles { assert forall qs :: RowClear(d, t, qs); }
    }
    hide AfterStatement, Perform, PrivilegeOp, Readable, TriedOn, Revocables, EndsSwallowed, RowClear, Left, SameRoles;
  }

  lemma RevokeStaysOnTrack(d: Desired, s: State, fault: Fault)
    requires Readable(d) && PcInRange(d, s.pc) && OnTrack(d, s) && s.pc.Revoke?
    requires PcInRange(d, RespondStatement(d, s, fault).pc)
    ensures OnTrack(d, RespondStatement(d, s, fault))
  {
    var t := RespondStatement(d, s, fault);
    var r := d.refs[s.pc.i];
    var srv := At(s.servers, r.database.Address());
    var (v, err) := Answer(d, s, fault);
    assert r in d.refs;
    StatementServers(d, s, fault);
    RevokeKeepsRoles(d, s, fault);
    RevokeLeads(d, s.pc, err);
    assert (v, err) == Perform(srv, OpAt(d, s.pc)) || (err != NoError && !IsNotExists(err)) by { hide Perform; }
    hide Answer, RespondStatement, AfterStatement, Perform, Readable, OnTrackAt, PrivilegeOp, At;
    RevokeStaysOnTrackAt(d, srv, v, r, s.pc, err);
  }

  lemma RevokeKeepsRoles(d: Desired, s: State, fault: Fault)
    requires PcInRange(d, s.pc) && s.pc.Revoke?
    ensures SameRoles(d, At(s.servers, d.refs[s.pc.i].database.Address()), Answer(d, s, fault).0)
  {
    AnswerEffect(d, s, fault);
    hide Answer, Granted;
    SameKeysSameRoles(d, At(s.servers, d.refs[s.pc.i].database.Address()), Answer(d, s, fault).0);
  }

  lemma FreshTrack(d: Desired, srv: Server, r: Ref, c: Copy, i: nat)
    requires i < |d.refs| && d.refs[i] == r
    ensures OnTrackAt(d, srv, r, NextRevoke(d, c, i, 0))
  {
    hide Executable, Usable, Accepted;
    assert r.Privileges()[..0] == [];
    HeldsNone();
  }

  /** Only an answered REVOKE and a fresh connection lead to REVOKE or DROP USER. */
  lemma RevokePlace(d: Desired, s: State, a: Action)
    requires PcInRange(d, s.pc) && !(a.Call? && s.pc.Revoke?) && !a.Foreign?
    ensures var t := Step(d, s, a);
            t.pc.Revoke? || t.pc.Drop? ==>
              t.servers == s.servers &&
              (t.pc == s.pc || (s.pc.Open? && t.pc == NextRevoke(d, s.pc.copy, s.pc.i, 0)))
  {
    hide Answer, OutOfReach;
    if a.Call? && SendsStatement(s.pc) {
      NoRevokeAfter(d, s.pc, Answer(d, s, a.fault).1);
      assert Step(d, s, a).pc == AfterStatement(d, s.pc, Answer(d, s, a.fault).1);
      hide Step;
    }
  }

  lemma NoRevokeAfter(d: Desired, pc: Pc, err: Error)
    requires PcInRange(d, pc) && SendsStatement(pc) && !pc.Revoke?
    ensures var q := AfterStatement(d, pc, err); !q.Revoke? && !q.Drop?
  {
  }

  lemma OtherStaysOnTrack(d: Desired, s: State, a: Action)
    requires PcInRange(d, s.pc) && OnTrack(d, s) && !(a.Call? && s.pc.Revoke?) && !a.Foreign?
    requires PcInRange(d, Step(d, s, a).pc)
    ensures OnTrack(d, Step(d, s, a))
  {
    RevokePlace(d, s, a);
    if s.pc.Open? {
      FreshTrack(d, At(s.servers, d.refs[s.pc.i].database.Address()), d.refs[s.pc.i], s.pc.copy, s.pc.i);
    }
    hide Step, OnTrackAt, At, NextRevoke;
    var t := Step(d, s, a);
    if t.pc.Revoke? || t.pc.Drop? { assert t.pc == s.pc || t.pc.i == s.pc.i by { NextRevokeRef(d, s.pc); } }
  }

  lemma NextRevokeRef(d: Desired, pc: Pc)
    requires PcInRange(d, pc)
    ensures pc.Open? ==> NextRevoke(d, pc.copy, pc.i, 0).i == pc.i
  {
  }

  // ---- statements of others ----

  /** The REVOKE loop ends in the same place, and of what the role holds at most memberships
      have gone. */
  predicate Alike(d: Desired, a: Server, b: Server, ps: seq<PrivilegeSpec>) {
    && (Role(d) in a.roles <==> Role(d) in b.roles)
    && Revocables(d, a, ps) == Revocables(d, b, ps)
    && (Role(d) in a.roles ==>
          b.roles[Role(d)] <= a.roles[Role(d)] && forall h :: h in a.roles[Role(d)] && !h.target.Membership? ==>
              h in b.roles[Role(d)])
  }

  lemma {:induction false} ReachSame(keys: set<string>, more: set<string>, role: string, ps: seq<PrivilegeSpec>)
    requires forall p :: p in ps ==> (Revocable(keys, p) <==> Revocable(more, p))
    ensures Reach(keys, role, false, ps) == Reach(more, role, false, ps)
  {
    hide Revocable, Grantable, Usable;
    if ps != [] { ReachSame(keys, more, role, ps[1..]); }
  }

  lemma ForeignAlike(d: Desired, s: State, address: (string, nat), op: Op, i: nat)
    requires Unrelated(d, Foreign(address, op)) && i < |d.refs|
    ensures Alike(d, At(s.servers, Home(d, i)), At(StepForeign(d, s, address, op).servers, Home(d, i)),
            d.refs[i].Privileges())
  {
    var t := StepForeign(d, s, address, op);
    var keys, more := Keys(s.servers, Home(d, i)), Keys(t.servers, Home(d, i));
    hide StepForeign, Unrelated, Revocable, Grantable, Reach, At, Strip;
    forall p | p in d.refs[i].Privileges() ensures Revocable(keys, p) <==> Revocable(more, p) {
      assert d.refs[i] in d.refs;
      NamedStay(d, s, address, op, d.refs[i], p);
    }
    ReachSame(keys, more, Role(d), d.refs[i].Privileges());
    ForeignOwn(d, s, address, op, Home(d, i));
    ForeignKeeps(d, s, address, op, Home(d, i));
  }

  /** Others take nothing but memberships from the user's role. */
  lemma ForeignKeeps(d: Desired, s: State, address: (string, nat), op: Op, a: (string, nat))
    ensures var srv, t := At(s.servers, a), At(StepForeign(d, s, address, op).servers, a);
            Role(d) in srv.roles && Role(d) in t.roles ==>
              forall h :: h in srv.roles[Role(d)] && !h.target.Membership? ==> h in t.roles[Role(d)]
  {
    if !OwnStatement(d, op) { ForeignEffect(d, At(s.servers, address), op); }
    hide Perform, OwnStatement, Strip, NewlyDropped;
  }

  lemma AlikeDroppable(d: Desired, a: Server, b: Server, r: Ref)
    requires Alike(d, a, b, r.Privileges())
    ensures DroppableOn(d, a, r) <==> DroppableOn(d, b, r)
    ensures forall pc :: OnTrackAt(d, a, r, pc) ==> OnTrackAt(d, b, r, pc)
  {
    var ps := r.Privileges();
    hide Revocables, Helds, Executable, Usable, Strip;
    assert TriedOn(d, a, ps) == TriedOn(d, b, ps);
    assert EndsSwallowed(d, a, ps) == EndsSwallowed(d, b, ps);
    SameBlocks(d, a, b, ps);
    forall qs | RowClear(d, a, qs) ensures RowClear(d, b, qs) { ClearStays(d, a, b, ps, qs); }
    hide TriedOn, EndsSwallowed, Left, Blocks, RowClear, Alike;
  }

  lemma SameBlocks(d: Desired, a: Server, b: Server, ps: seq<PrivilegeSpec>)
    requires Alike(d, a, b, ps)
    ensures Blocks(Left(d, a, ps)) <==> Blocks(Left(d, b, ps))
  {
    hide Revocables, Helds, Strip;
    if h :| h in Left(d, a, ps) && !h.target.Membership? { assert h in Left(d, b, ps); }
    if h :| h in Left(d, b, ps) && !h.target.Membership? { assert h in Left(d, a, ps); }
  }

  lemma ClearStays(d: Desired, a: Server, b: Server, ps: seq<PrivilegeSpec>, qs: seq<PrivilegeSpec>)
    requires Alike(d, a, b, ps) && RowClear(d, a, qs)
    ensures RowClear(d, b, qs)
  {
    hide Revocables, Helds, Strip;
  }

  lemma ForeignOnTrack(d: Desired, s: State, address: (string, nat), op: Op)
    requires PcInRange(d, s.pc) && OnTrack(d, s) && Unrelated(d, Foreign(address, op))
    ensures OnTrack(d, StepForeign(d, s, address, op))
  {
    var t := StepForeign(d, s, address, op);
    ForeignRoles(d, s, address, op);
    hide StepForeign, Unrelated, OnTrackAt, Alike, At;
    if s.pc.Revoke? || s.pc.Drop? {
      ForeignAlike(d, s, address, op, s.pc.i);
      AlikeDroppable(d, At(s.servers, Home(d, s.pc.i)), At(t.servers, Home(d, s.pc.i)), d.refs[s.pc.i]);
    }
  }

  lemma OnTrackStep(d: Desired, s: State, a: Action)
    requires Readable(d) && PcInRange(d, s.pc) && OnTrack(d, s) && Unrelated(d, a)
    requires PcInRange(d, Step(d, s, a).pc)
    ensures OnTrack(d, Step(d, s, a))
  {
    if a.Foreign? {
      StepKinds(d, s);
      hide OnTrack, Step, Unrelated;
      ForeignOnTrack(d, s, a.address, a.op);
    } else if a.Call? && s.pc.Revoke? {
      assert Step(d, s, a) == RespondStatement(d, s, a.fault);
      RevokeStaysOnTrack(d, s, a.fault);
    } else {
      hide Readable, OnTrack;
      OtherStaysOnTrack(d, s, a);
    }
  }

  // ---- what one statement does to droppability ----

  /** Without the role all servers are alike. */
  lemma AbsentAlike(d: Desired, a: Server, b: Server, r: Ref)
    requires Role(d) !in a.roles && Role(d) !in b.roles
    ensures DroppableOn(d, a, r) <==> DroppableOn(d, b, r)
  {
    assert Left(d, a, r.Privileges()) == Left(d, b, r.Privileges()) == {};
    hide Left, Executable, Usable, Blocks, Strip, Revocables;
  }

  /** A ref that finds the role only where no earlier ref is. */
  lemma FoundThere(d: Desired, servers: Servers, i: nat)
    requires i < |d.refs| && (Shared(d, i) ==> !RoleAt(d, servers, Home(d, i)))
    ensures Droppable(d, servers, i) <==> DroppableOn(d, At(servers, Home(d, i)), d.refs[i])
  {
    if Shared(d, i) { AbsentAlike(d, Found(d, servers, i), At(servers, Home(d, i)), d.refs[i]); }
    hide DroppableOn, Shared;
  }

  /** A ref that shares its server meets the same whatever happens there. */
  lemma SharedAlike(d: Desired, a: Servers, b: Servers, i: nat)
    requires i < |d.refs| && Shared(d, i)
    ensures Droppable(d, a, i) <==> Droppable(d, b, i)
  {
    AbsentAlike(d, Found(d, a, i), Found(d, b, i), d.refs[i]);
    hide DroppableOn, Shared;
  }

  /** CREATE USER and GRANT never make it easier, for any ref. */
  lemma ApplyIsHarder(d: Desired, s: State, fault: Fault, r: Ref)
    requires Readable(d) && PcInRange(d, s.pc) && (s.pc.Create? || s.pc.Grant?)
    requires DroppableOn(d, Answer(d, s, fault).0, r)
    ensures DroppableOn(d, At(s.servers, Home(d, s.pc.i)), r)
  {
    var mine := d.refs[s.pc.i];
    assert mine in d.refs;
    var srv, t := At(s.servers, Home(d, s.pc.i)), Answer(d, s, fault).0;
    if t == srv { return; }
    assert t == Perform(srv, OpAt(d, s.pc)).0 by { hide Perform, DroppableOn; }
    if s.pc.Create? {
      assert Role(d) !in srv.roles && Role(d) in t.roles by {
        hide Perform, CreateOp, DroppableOn, Strip;
        CreateMeaning(srv, mine.database.name, d.name, mine.password);
      }
      hide *;
      AbsentIsEasier(d, srv, t, r);
    } else {
      var p := mine.Privileges()[s.pc.k];
      assert LegibleEntry(p) by { hide LegibleEntry; assert p in mine.Privileges(); }
      assert OpAt(d, s.pc) == PrivilegeOp(mine.database.name, d.name, true, p);
      hide *;
      GrantIsHarder(d, srv, mine.database.name, p, r);
    }
  }

  lemma GrantIsHarder(d: Desired, srv: Server, dbname: string, p: PrivilegeSpec, r: Ref)
    requires Managed(d.name) && LegibleEntry(p)
    ensures var t := Perform(srv, PrivilegeOp(dbname, d.name, true, p)).0;
            DroppableOn(d, t, r) ==> DroppableOn(d, srv, r)
  {
    var t := Perform(srv, PrivilegeOp(dbname, d.name, true, p)).0;
    GrantVerdict(srv, dbname, d.name, p);
    if t != srv {
      assert t.roles.Keys == srv.roles.Keys;
      assert Left(d, srv, r.Privileges()) <= Left(d, t, r.Privileges()) by {
        hide Perform, PrivilegeOp, Accepted, HeldFor, Helds, Strip, Legible;
      }
      SameKeysSameRoles(d, srv, t);
      hide *;
      LessLeftIsEasier(d, srv, t, r);
    }
  }

  /** REVOKE leaves its own ref as it is. */
  lemma RevokeIsSame(d: Desired, s: State, fault: Fault)
    requires Readable(d) && PcInRange(d, s.pc) && s.pc.Revoke? && OnTrack(d, s)
    ensures var r := d.refs[s.pc.i];
            DroppableOn(d, Answer(d, s, fault).0, r) <==> DroppableOn(d, At(s.servers, Home(d, s.pc.i)), r)
  {
    var r := d.refs[s.pc.i];
    assert r in d.refs;
    var srv, t := At(s.servers, Home(d, s.pc.i)), Answer(d, s, fault).0;
    if t != srv {
      assert t == Perform(srv, OpAt(d, s.pc)).0 by { hide Perform; }
      assert OnTrackAt(d, srv, r, s.pc);
      hide Answer, Perform, PrivilegeOp, Managed, AllLegible, Left, SameRoles, TriedOn, RowClear, Strip, LoopTold,
           DroppableOn;
      RevokeTells(d, srv, r.database.name, r.Privileges(), s.pc.k);
      hide *;
      LessLeftIsEasier(d, srv, t, r);
      LessLeftIsEasier(d, t, srv, r) by { SameRolesBack(d, srv, t); }
    }
  }

  lemma SameRolesBack(d: Desired, a: Server, b: Server)
    requires SameRoles(d, a, b)
    ensures SameRoles(d, b, a)
  {
  }

  /** DROP USER does something only where the ref was droppable, and a ref it has cleaned
      stays droppable. */
  lemma DropIsDroppable(d: Desired, s: State, fault: Fault)
    requires Readable(d) && PcInRange(d, s.pc) && s.pc.Drop? && OnTrack(d, s)
    ensures var r := d.refs[s.pc.i];
            var srv := At(s.servers, Home(d, s.pc.i));
            var (t, err) := Answer(d, s, fault);
            && (t != srv ==> DroppableOn(d, srv, r))
            && (Dropped(s.pc, err) ==> DroppableOn(d, t, r))
  {
    var r := d.refs[s.pc.i];
    var srv := At(s.servers, Home(d, s.pc.i));
    var (t, err) := Answer(d, s, fault);
    assert OnTrackAt(d, srv, r, s.pc);
    DropTells(d, srv, r, s.pc);
    assert s.pc.gone ==> t == srv && err == Failure;
    assert t == srv || Role(d) !in t.roles by {
      hide Perform, DropOp, DroppableOn, OnTrackAt, Strip;
      DropMeaning(srv, r.database.name, d.name);
    }
    assert t != srv || Dropped(s.pc, err) ==> Role(d) !in srv.roles || !Blocks(srv.roles[Role(d)]) by {
      hide Perform, DropOp, DroppableOn, OnTrackAt, Strip, Blocks;
      DropMeaning(srv, r.database.name, d.name);
    }
    assert t == srv ==> Role(d) in srv.roles ==> Role(d) in t.roles;
    hide Answer, DroppableOn, OnTrackAt, Blocks, Strip;
    if t != srv && Role(d) in srv.roles { AbsentIsEasier(d, t, srv, r); }
    if t != srv && Role(d) !in srv.roles { AbsentAlike(d, t, srv, r); }
  }

  // ---- obstacles do not go away ----

  /** The servers behind the running delete pass have lost the role, and their refs were
      and are droppable. */
  predicate DoneDroppable(d: Desired, s: State) {
    forall j: nat :: j < CleanedCount(d, s.pc) && j < |d.refs| ==>
      !RoleAt(d, s.servers, Home(d, j)) && Droppable(d, s.servers, j)
  }

  /** A delete pass at a ref that shares its server finds no role there. */
  lemma SharedIsClean(d: Desired, s: State)
    requires PcInRange(d, s.pc) && (s.pc.Revoke? || s.pc.Drop?) && DoneDroppable(d, s)
    ensures Shared(d, s.pc.i) ==> !RoleAt(d, s.servers, Home(d, s.pc.i))
  {
    hide RoleAt, Droppable, Home;
    if Shared(d, s.pc.i) {
      var j: nat :| j < s.pc.i && Home(d, j) == Home(d, s.pc.i);
      assert j < CleanedCount(d, s.pc);
    }
  }

  lemma ObstacleHere(d: Desired, s: State, fault: Fault, j: nat)
    requires Readable(d) && PcInRange(d, s.pc) && SendsStatement(s.pc) && PhaseMatches(s.pc)
    requires OnTrack(d, s) && DoneDroppable(d, s)
    requires j < |d.refs| && !Shared(d, j) && Home(d, j) == Home(d, s.pc.i)
    requires !DroppableOn(d, At(s.servers, Home(d, j)), d.refs[j])
    ensures !DroppableOn(d, Answer(d, s, fault).0, d.refs[j])
  {
    hide DroppableOn, Answer, OnTrack, RoleAt, Readable;
    if s.pc.Create? || s.pc.Grant? {
      if DroppableOn(d, Answer(d, s, fault).0, d.refs[j]) { ApplyIsHarder(d, s, fault, d.refs[j]); }
    } else if j == s.pc.i {
      if s.pc.Revoke? { RevokeIsSame(d, s, fault); } else { DropIsDroppable(d, s, fault); }
    } else if j < s.pc.i {
      assert j < CleanedCount(d, s.pc);
      FoundThere(d, s.servers, j);
    }
  }

  lemma ObstacleStatement(d: Desired, s: State, fault: Fault, j: nat)
    requires Readable(d) && PcInRange(d, s.pc) && SendsStatement(s.pc) && PhaseMatches(s.pc)
    requires OnTrack(d, s) && DoneDroppable(d, s)
    requires j < |d.refs| && !Droppable(d, s.servers, j)
    ensures !Droppable(d, RespondStatement(d, s, fault).servers, j)
  {
    var t := RespondStatement(d, s, fault);
    if Shared(d, j) { SharedAlike(d, s.servers, t.servers, j); return; }
    FoundThere(d, s.servers, j);
    FoundThere(d, t.servers, j);
    StatementServers(d, s, fault);
    if Home(d, j) == Home(d, s.pc.i) { ObstacleHere(d, s, fault, j); }
    hide RespondStatement, Answer, At, DroppableOn, AfterStatement, Droppable, Shared, OnTrack, DoneDroppable;
  }

  lemma ForeignDroppable(d: Desired, s: State, address: (string, nat), op: Op, j: nat)
    requires Unrelated(d, Foreign(address, op)) && j < |d.refs|
    ensures Droppable(d, s.servers, j) <==> Droppable(d, StepForeign(d, s, address, op).servers, j)
  {
    var t := StepForeign(d, s, address, op);
    hide StepForeign, Unrelated, DroppableOn, Alike, At, Shared, Droppable;
    if Shared(d, j) {
      SharedAlike(d, s.servers, t.servers, j);
    } else {
      ForeignAlike(d, s, address, op, j);
      AlikeDroppable(d, At(s.servers, Home(d, j)), At(t.servers, Home(d, j)), d.refs[j]);
      FoundThere(d, s.servers, j);
      FoundThere(d, t.servers, j);
    }
  }

  lemma ForeignDone(d: Desired, s: State, address: (string, nat), op: Op)
    requires Unrelated(d, Foreign(address, op)) && DoneDroppable(d, s)
    ensures DoneDroppable(d, StepForeign(d, s, address, op))
  {
    var t := StepForeign(d, s, address, op);
    ForeignRoles(d, s, address, op);
    hide StepForeign, Unrelated, Droppable, RoleAt, CleanedCount;
    forall j: nat | j < CleanedCount(d, t.pc) && j < |d.refs|
      ensures !RoleAt(d, t.servers, Home(d, j)) && Droppable(d, t.servers, j)
    {
      ForeignDroppable(d, s, address, op, j);
    }
  }

  lemma SameServers(d: Desired, s: State, a: Action)
    requires !(a.Call? && SendsStatement(s.pc)) && !a.Foreign?
    ensures Step(d, s, a).servers == s.servers
  {
  }

  lemma ObstacleStep(d: Desired, s: State, a: Action, j: nat)
    requires Readable(d) && PcInRange(d, s.pc) && PhaseMatches(s.pc) && OnTrack(d, s) && DoneDroppable(d, s)
    requires j < |d.refs| && !Droppable(d, s.servers, j) && Unrelated(d, a)
    ensures !Droppable(d, Step(d, s, a).servers, j)
  {
    if a.Foreign? {
      StepKinds(d, s);
      hide Droppable, Step, Unrelated;
      ForeignDroppable(d, s, a.address, a.op, j);
    } else if a.Call? && SendsStatement(s.pc) {
      assert Step(d, s, a) == RespondStatement(d, s, a.fault);
      ObstacleStatement(d, s, a.fault, j);
    } else {
      hide Droppable;
      SameServers(d, s, a);
    }
  }

  /** What a delete statement leaves of the refs that are done. */
  lemma DoneStays(d: Desired, s: State, fault: Fault, j: nat)
    requires Readable(d) && PcInRange(d, s.pc) && (s.pc.Revoke? || s.pc.Drop?) && OnTrack(d, s) && DoneDroppable(d, s)
    requires j < s.pc.i
    ensures var t := RespondStatement(d, s, fault); !RoleAt(d, t.servers, Home(d, j)) && Droppable(d, t.servers, j)
  {
    var t := RespondStatement(d, s, fault);
    assert j < CleanedCount(d, s.pc);
    DeleteShrinks(d, s, fault);
    hide RespondStatement, OnTrack, RoleAt, DroppableOn, Dropped, Droppable, AfterStatement;
    assert !RoleAt(d, s.servers, Home(d, j)) && !RoleAt(d, t.servers, Home(d, j));
    FoundThere(d, s.servers, j);
    FoundThere(d, t.servers, j);
    AbsentThere(d, s.servers, t.servers, j);
  }

  lemma AbsentThere(d: Desired, a: Servers, b: Servers, j: nat)
    requires j < |d.refs| && !RoleAt(d, a, Home(d, j)) && !RoleAt(d, b, Home(d, j))
    ensures DroppableOn(d, At(a, Home(d, j)), d.refs[j]) <==> DroppableOn(d, At(b, Home(d, j)), d.refs[j])
  {
    AbsentAlike(d, At(a, Home(d, j)), At(b, Home(d, j)), d.refs[j]);
    hide DroppableOn;
  }

  lemma DropIsDone(d: Desired, s: State, fault: Fault)
    requires Readable(d) && PcInRange(d, s.pc) && s.pc.Drop? && OnTrack(d, s) && DoneDroppable(d, s)
    requires Dropped(s.pc, Answer(d, s, fault).1)
    ensures var t := RespondStatement(d, s, fault);
            !RoleAt(d, t.servers, Home(d, s.pc.i)) && Droppable(d, t.servers, s.pc.i)
  {
    var t := RespondStatement(d, s, fault);
    DeleteShrinks(d, s, fault);
    DropIsDroppable(d, s, fault);
    StatementServers(d, s, fault);
    hide RespondStatement, Answer, OnTrack, RoleAt, DroppableOn, Droppable, AfterStatement, DoneDroppable;
    FoundThere(d, t.servers, s.pc.i);
  }

  lemma DoneStatement(d: Desired, s: State, fault: Fault)
    requires Readable(d) && PcInRange(d, s.pc) && PhaseMatches(s.pc) && SendsStatement(s.pc)
    requires OnTrack(d, s) && DoneDroppable(d, s)
    ensures DoneDroppable(d, RespondStatement(d, s, fault))
  {
    var t := RespondStatement(d, s, fault);
    var err := Answer(d, s, fault).1;
    StatementFlow(d, s.pc, err);
    assert t.pc == AfterStatement(d, s.pc, err);
    hide RespondStatement, Answer, AfterStatement, FlowsTo, CleanedCount, OnTrack, Droppable, RoleAt, Home, Readable,
         PcInRange, PhaseMatches, Dropped;
    forall j: nat | j < CleanedCount(d, t.pc) && j < |d.refs|
      ensures !RoleAt(d, t.servers, Home(d, j)) && Droppable(d, t.servers, j)
    {
      hide DoneDroppable;
      DoneOne(d, s, fault, j);
    }
  }

  lemma DoneOne(d: Desired, s: State, fault: Fault, j: nat)
    requires Readable(d) && PcInRange(d, s.pc) && PhaseMatches(s.pc) && SendsStatement(s.pc)
    requires OnTrack(d, s) && DoneDroppable(d, s)
    requires j < CleanedCount(d, RespondStatement(d, s, fault).pc) && j < |d.refs|
    ensures var t := RespondStatement(d, s, fault);
            !RoleAt(d, t.servers, Home(d, j)) && Droppable(d, t.servers, j)
  {
    var err := Answer(d, s, fault).1;
    StatementFlow(d, s.pc, err);
    assert RespondStatement(d, s, fault).pc == AfterStatement(d, s.pc, err);
    assert j < s.pc.i || (j == s.pc.i && Dropped(s.pc, err));
    assert !(s.pc.Create? || s.pc.Grant?);
    hide *;
    if j < s.pc.i { DoneStays(d, s, fault, j); } else { DropIsDone(d, s, fault); }
  }

  lemma DoneStep(d: Desired, base: Servers, s: State, a: Action)
    requires Readable(d) && Inv(d, base, s) && OnTrack(d, s) && DoneDroppable(d, s) && Unrelated(d, a)
    ensures DoneDroppable(d, Step(d, s, a))
  {
    if a.Foreign? {
      StepKinds(d, s);
      hide DoneDroppable, Step, Unrelated;
      ForeignDone(d, s, a.address, a.op);
    } else if a.Call? && SendsStatement(s.pc) {
      assert Step(d, s, a) == RespondStatement(d, s, a.fault);
      DoneStatement(d, s, a.fault);
    } else {
      hide Inv, Droppable, OnTrack, RoleAt;
      OtherCount(d, base, s, a);
      SameServers(d, s, a);
      hide Step, CleanedCount;
    }
  }

  lemma OtherCount(d: Desired, base: Servers, s: State, a: Action)
    requires Inv(d, base, s) && !(a.Call? && SendsStatement(s.pc)) && !a.Foreign?
    ensures CleanedCount(d, Step(d, s, a).pc) <= CleanedCount(d, s.pc)
  {
    hide RolesHeld, ReadySound, History, ReleaseObserved;
    if a.Call? && !WritesObject(s.pc) {
      CallFlow(d, s, a.fault);
    }
  }

  /** From where no Reconcile is running, and while others do only what is unrelated, a
      delete pass is always where the servers say it is. */
  lemma {:induction false} OnTrackRun(d: Desired, base: Servers, s: State, actions: seq<Action>)
    requires Readable(d) && Inv(d, base, s) && s.pc.Idle? && Unmeddled(d, actions)
    ensures var t := Run(d, s, actions); Inv(d, base, t) && PcInRange(d, t.pc) && OnTrack(d, t) && DoneDroppable(d, t)
    decreases |actions|
  {
    hide Step, Readable, Inv, OnTrack, DoneDroppable, Unmeddled, Unrelated;
    InvRun(d, base, s, actions);
    InvInPlace(d, base, Run(d, s, actions));
    if actions == [] {
      assert OnTrack(d, s) && DoneDroppable(d, s) by { IdleOnTrack(d, s); }
    } else {
      var init, a := actions[..|actions| - 1], actions[|actions| - 1];
      UnmeddledPrefix(d, actions);
      OnTrackRun(d, base, s, init);
      OnTrackStep(d, Run(d, s, init), a);
      DoneStep(d, base, Run(d, s, init), a);
    }
  }

  lemma IdleOnTrack(d: Desired, s: State)
    requires s.pc.Idle?
    ensures OnTrack(d, s) && DoneDroppable(d, s)
  {
  }

  lemma InvInPlace(d: Desired, base: Servers, s: State)
    requires Inv(d, base, s)
    ensures PcInRange(d, s.pc) && PhaseMatches(s.pc)
  {
  }

  /** An obstacle, once there, keeps the object: nothing the operator does, and nothing unrelated
      that others do, removes the obstacle or the finalizer. */
  lemma {:induction false} ObstacleStays(d: Desired, base: Servers, s: State, more: seq<Action>, j: nat)
    requires Readable(d) && Inv(d, base, s) && s.pc.Idle? && Unmeddled(d, more) && j < |d.refs|
    requires !Droppable(d, s.servers, j) && HasFinalizer(Latest(s))
    ensures var t := Run(d, s, more); !Droppable(d, t.servers, j) && HasFinalizer(Latest(t))
    decreases |more|
  {
    hide Step, Readable, Inv, Droppable, OnTrack, Unmeddled, Unrelated, DoneDroppable;
    if more != [] {
      var init, a := more[..|more| - 1], more[|more| - 1];
      var u := Run(d, s, init);
      UnmeddledPrefix(d, more);
      ObstacleStays(d, base, s, init, j);
      OnTrackRun(d, base, s, init);
      InvInPlace(d, base, u);
      ObstacleStep(d, u, a, j);
      FinalizerLeaves(d, u, a);
      if u.pc.RemoveFinalizer? { AllDone(d, u, j); }
    }
  }

  lemma AllDone(d: Desired, s: State, j: nat)
    requires s.pc.RemoveFinalizer? && DoneDroppable(d, s) && j < |d.refs|
    ensures Droppable(d, s.servers, j)
  {
  }

  /** The finalizer goes only with the write that ends a complete delete pass. */
  lemma FinalizerLeaves(d: Desired, s: State, a: Action)
    requires HasFinalizer(Latest(s))
    ensures HasFinalizer(Latest(Step(d, s, a))) || s.pc.RemoveFinalizer?
  {
    hide Answer, AfterStatement, Perform;
  }
}
