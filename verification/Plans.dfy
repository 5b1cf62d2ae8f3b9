/** The statements one pass over one database issues, in order, and the adapter's
    stop-at-first-error loop over them (pkg/database/postgresql/postgresql.go). */
module Plans {
  import opened Text
  import opened Sql
  import opened Quoting
  import opened Statements
  import opened PrivilegeText
  import opened Server

  /** One turn of the privilege loop: refused before any statement, or a statement text
      sent on a connection to `database`. */
  datatype Op = Invalid | Send(database: string, text: string)

  function PrivilegeOp(dbname: string, username: string, give: bool, p: PrivilegeSpec): Op {
    if p.InDatabase() then
      Send(p.database, PrepareStatement(Verb(give), Preposition(give), username, p.database, p.on, p.privilege))
    else if p.database != "" && p.privilege != "" then
      Send(dbname, PrepareStatement(Verb(give), Preposition(give), username, p.database, "", p.privilege))
    else if p.privilege != "" then
      Send(dbname, PrepareStatement(Verb(give), Preposition(give), username, "", "", p.privilege))
    else Invalid
  }

  function PrivilegeOps(dbname: string, username: string, give: bool, ps: seq<PrivilegeSpec>): (ops: seq<Op>)
    ensures |ops| == |ps|
  {
    seq(|ps|, i requires 0 <= i < |ps| => PrivilegeOp(dbname, username, give, ps[i]))
  }

  function CreateOp(dbname: string, username: string, password: string): Op {
    Send(dbname, CreateUserQuery(username, password).0)
  }

  function DropOp(dbname: string, username: string): Op {
    Send(dbname, DeleteUserQuery(username))
  }

  function Perform(srv: Server, op: Op): (Server, Error) {
    match op
    case Invalid => (srv, Failure)
    case Send(db, text) => ExecText(srv, db, text)
  }

  /** `privilegesProcessor`: one operation after another, up to the first error. */
  function Loop(srv: Server, ops: seq<Op>): (Server, Error)
    decreases |ops|
  {
    if ops == [] then (srv, NoError)
    else
      var (s, err) := Perform(srv, ops[0]);
      if err != NoError then (s, err) else Loop(s, ops[1..])
  }

  /** `databaseUserApply`: CREATE USER, tolerating an existing user, then the privileges. */
  function ApplyPass(srv: Server, create: Op, grants: seq<Op>): (Server, Error) {
    var (s, err) := Perform(srv, create);
    if IgnoreAlreadyExists(err) != NoError then (s, err) else Loop(s, grants)
  }

  /** `databaseUserDelete`: REVOKE up to the first error, tolerating a missing object, then DROP USER. */
  function DeletePass(srv: Server, revokes: seq<Op>, drop: Op): (Server, Error) {
    var (s, err) := Loop(srv, revokes);
    if IgnoreNotExists(err) != NoError then (s, err)
    else var (t, dropErr) := Perform(s, drop); (t, IgnoreNotExists(dropErr))
  }

  // ---- what each statement text means, for every privilege text ----

  function ParseOp(op: Op): Option<Statement> {
    match op
    case Invalid => None
    case Send(_, text) => Parse(text)
  }

  predicate IsChangeOp(op: Op, give: bool) {
    ParseOp(op).Some? ==> ParseOp(op).value.Change? && ParseOp(op).value.give == give
  }

  lemma PrivilegeOpIsChange(dbname: string, username: string, give: bool, p: PrivilegeSpec)
    ensures IsChangeOp(PrivilegeOp(dbname, username, give, p), give)
  {
    hide Parse, PrepareStatement;
    ChangeStaysChange(give, username, p.database, p.on, p.privilege);
    ChangeStaysChange(give, username, p.database, "", p.privilege);
    ChangeStaysChange(give, username, "", "", p.privilege);
  }

  lemma CreateMeaning(srv: Server, dbname: string, username: string, password: string)
    ensures var (s, err) := Perform(srv, CreateOp(dbname, username, password));
            var n := Strip(username);
            if !Nameable(username) || n == "" then s == srv && err == FromServer(SyntaxError)
            else if SpecialName(n) || ReservedName(n) then s == srv && err == FromServer(ReservedRoleName)
            else if n in srv.roles then s == srv && err == FromServer(DuplicateObject)
            else s == Server(srv.roles[n := {}]) && err == NoError
  {
    hide Parse, CreateUserQuery, Nameable;
    CreateUserRoundTrip(username, password);
  }

  lemma DropMeaning(srv: Server, dbname: string, username: string)
    ensures var (s, err) := Perform(srv, DropOp(dbname, username));
            var n := Strip(username);
            if !Nameable(username) || n == "" then s == srv && err == FromServer(SyntaxError)
            else if n == "public" then s == srv && err == FromServer(InvalidParameterValue)
            else if n == "none" then s == srv && err == FromServer(ReservedRoleName)
            else if n !in srv.roles then s == srv && err == FromServer(UndefinedObject)
            else if Blocks(srv.roles[n]) then s == srv && err == FromServer(DependentObjectsExist)
            else s == Server(Forget(srv.roles, n)) && err == NoError
  {
    hide Parse, DeleteUserQuery, Nameable;
    DropUserRoundTrip(username);
  }

  /** GRANT and REVOKE never add or remove a role; GRANT only adds holdings and REVOKE
      only removes them. */
  lemma ChangeEffect(srv: Server, op: Op, give: bool)
    requires IsChangeOp(op, give)
    ensures var s := Perform(srv, op).0;
            s.roles.Keys == srv.roles.Keys && if give then Extends(srv, s) else Extends(s, srv)
    ensures Perform(srv, op).1 != NoError ==> Perform(srv, op).0 == srv
  {
    hide Parse;
  }

  lemma {:induction false} LoopEffect(srv: Server, ops: seq<Op>, give: bool)
    requires forall op :: op in ops ==> IsChangeOp(op, give)
    ensures var s := Loop(srv, ops).0;
            s.roles.Keys == srv.roles.Keys && if give then Extends(srv, s) else Extends(s, srv)
    decreases |ops|
  {
    hide Perform, IsChangeOp;
    if ops != [] {
      var (s, err) := Perform(srv, ops[0]);
      ChangeEffect(srv, ops[0], give);
      if err == NoError {
        LoopEffect(s, ops[1..], give);
        var t := Loop(s, ops[1..]).0;
        if give { ExtendsTransitive(srv, s, t); } else { ExtendsTransitive(t, s, srv); }
      }
    }
  }

  // ---- replay ----

  /** Once granted, granting again changes nothing; and the answer depends only on which roles exist. */
  lemma GrantIdempotent(a: Server, b: Server, op: Op)
    requires IsChangeOp(op, true) && a.roles.Keys == b.roles.Keys
    ensures Perform(a, op).1 == Perform(b, op).1
    ensures Perform(a, op).1 == NoError && Extends(Perform(a, op).0, b) ==> Perform(b, op).0 == b
  {
    hide Parse;
    if Perform(a, op).1 == NoError && Extends(Perform(a, op).0, b) {
      var st := ParseOp(op).value;
      var h := HeldOf(op.database, st.privilege, st.target);
      assert h in Perform(a, op).0.roles[st.role];
      assert b.roles[st.role] + {h} == b.roles[st.role];
    }
  }

  /** Repeating the loop after it was cut anywhere ends as if it had never been cut. */
  lemma {:induction false} ReplayLoop(srv: Server, ops: seq<Op>, cut: nat)
    requires cut <= |ops|
    requires forall op :: op in ops ==> IsChangeOp(op, true)
    ensures Loop(Loop(srv, ops[..cut]).0, ops) == Loop(srv, ops)
    decreases |ops|
  {
    hide Perform, IsChangeOp;
    if cut > 0 {
      var (s, err) := Perform(srv, ops[0]);
      ChangeEffect(srv, ops[0], true);
      assert ops[..cut][1..] == ops[1..][..cut - 1];
      if err == NoError {
        ReplayLoop(s, ops[1..], cut - 1);
        var t := Loop(s, ops[1..][..cut - 1]).0;
        LoopEffect(s, ops[1..][..cut - 1], true);
        GrantIdempotent(srv, t, ops[0]);
      }
    }
  }

  /** One apply pass interrupted after `cut` statements; 0 stops before CREATE USER. */
  function CutPass(srv: Server, create: Op, grants: seq<Op>, cut: nat): Server {
    if cut == 0 then srv else ApplyPass(srv, create, if cut <= |grants| then grants[..cut - 1] else grants).0
  }

  function CutPasses(srv: Server, create: Op, grants: seq<Op>, cuts: seq<nat>): Server
    decreases |cuts|
  {
    if cuts == [] then srv else CutPasses(CutPass(srv, create, grants, cuts[0]), create, grants, cuts[1..])
  }

  lemma ReplayPass(srv: Server, dbname: string, username: string, password: string, grants: seq<Op>, cut: nat)
    requires forall op :: op in grants ==> IsChangeOp(op, true)
    ensures var create := CreateOp(dbname, username, password);
            ApplyPass(CutPass(srv, create, grants, cut), create, grants) == ApplyPass(srv, create, grants)
  {
    hide Perform, IsChangeOp, CreateOp, Nameable;
    if cut > 0 {
      var create := CreateOp(dbname, username, password);
      var done := if cut <= |grants| then cut - 1 else |grants|;
      assert grants[..|grants|] == grants;
      var (s, err) := Perform(srv, create);
      CreateMeaning(srv, dbname, username, password);
      if IgnoreAlreadyExists(err) == NoError {
        LoopEffect(s, grants[..done], true);
        CreateMeaning(Loop(s, grants[..done]).0, dbname, username, password);
        ReplayLoop(s, grants, done);
      }
    }
  }

  /** Replay equivalence: any number of apply passes, each cut at any statement, followed
      by one full pass leave the same server and report the same error as one clean pass. */
  lemma {:induction false} ReplayEquivalence(srv: Server, dbname: string, username: string, password: string,
                                             ps: seq<PrivilegeSpec>, cuts: seq<nat>)
    ensures var create := CreateOp(dbname, username, password);
            var grants := PrivilegeOps(dbname, username, true, ps);
            ApplyPass(CutPasses(srv, create, grants, cuts), create, grants) == ApplyPass(srv, create, grants)
    decreases |cuts|
  {
    hide ApplyPass, IsChangeOp, CreateOp, PrivilegeOp, CutPass;
    if cuts != [] {
      var create := CreateOp(dbname, username, password);
      var grants := PrivilegeOps(dbname, username, true, ps);
      forall op | op in grants ensures IsChangeOp(op, true) {
        var i :| 0 <= i < |grants| && grants[i] == op;
        PrivilegeOpIsChange(dbname, username, true, ps[i]);
      }
      ReplayPass(srv, dbname, username, password, grants, cuts[0]);
      ReplayEquivalence(CutPass(srv, create, grants, cuts[0]), dbname, username, password, ps, cuts[1..]);
    }
  }
}
