/** A PostgreSQL server as the operator sees it: roles with what they hold, and the
    effect of one statement. */
module Server {
  import opened Sql
  import opened Quoting
  import opened PrivilegeText

  /** Something granted to a role. An object privilege belongs to the database of the
      connection that granted it; database privileges and memberships do not. */
  datatype Held = Held(privilege: seq<Token>, target: Target, database: string)

  datatype Server = Server(roles: map<string, set<Held>>)

  function HeldOf(db: string, privilege: seq<Token>, target: Target): Held {
    Held(privilege, target, if target.OnObject? then db else "")
  }

  predicate NamedPath(path: seq<Segment>) {
    forall g :: g in path ==> g.Name? && g.text != ""
  }

  /** Statements of the fragment the server accepts as grammatical: no zero-length name, one
      name for a database, up to three for a table, one bare role name for a membership. */
  predicate Grammatical(st: Statement) {
    && st.role != ""
    && (st.Change? ==>
          match st.target
          case Membership => |st.privilege| == 1 && IsPrivilegeWord(st.privilege[0])
          case OnDatabase(path) => ReadAsked(st.privilege).Some? && |path| == 1 && NamedPath(path)
          case OnObject(path) => ReadAsked(st.privilege).Some? && |path| <= 3 && NamedPath(path))
  }

  /** A table of three names is in the database of its first. */
  predicate OtherDatabase(db: string, target: Target) {
    target.OnObject? && |target.path| == 3 && target.path[0] != Name(db)
  }

  /** A membership in role `n`. */
  predicate MemberOf(privilege: seq<Token>, target: Target, n: string) {
    target.Membership? && |privilege| == 1 && privilege[0].Word? && Fold(privilege[0].text) == n
  }

  predicate Names(st: Statement, n: string) {
    st.Change? && MemberOf(st.privilege, st.target, n)
  }

  /** What is left of a row when role `n` disappears. */
  function WithoutMemberships(row: set<Held>, n: string): set<Held> {
    set h | h in row && !MemberOf(h.privilege, h.target, n)
  }

  function Forget(roles: map<string, set<Held>>, n: string): map<string, set<Held>> {
    map r | r in roles && r != n :: WithoutMemberships(roles[r], n)
  }

  /** Privileges on objects and databases block DROP USER; memberships do not. */
  predicate Blocks(row: set<Held>) {
    exists h :: h in row && !h.target.Membership?
  }

  /** The error a grammatical GRANT or REVOKE meets, if any. */
  function ChangeError(keys: set<string>, st: Statement): Error
    requires st.Change? && Grammatical(st)
  {
    if st.role !in keys then FromServer(UndefinedObject)
    else if !st.target.Membership? then AskedError(st.target.OnDatabase?, ReadAsked(st.privilege).value)
    else if Fold(st.privilege[0].text) !in keys then FromServer(UndefinedObject)
    else if st.give && Fold(st.privilege[0].text) == st.role then FromServer(InvalidGrantOperation)
    else NoError
  }

  /** The error of a statement that can be told without looking at the roles. */
  function EarlyError(db: string, st: Statement): Error {
    if !Grammatical(st) then FromServer(SyntaxError)
    else if SpecialName(st.role)
        then FromServer(if st.DropUser? && st.role == "public" then InvalidParameterValue else ReservedRoleName)
    else if st.CreateUser? && ReservedName(st.role) then FromServer(ReservedRoleName)
    else if st.Change? && OtherDatabase(db, st.target) then FromServer(FeatureNotSupported)
    else NoError
  }

  function Exec(srv: Server, db: string, st: Statement): (Server, Error) {
    if EarlyError(db, st) != NoError then (srv, EarlyError(db, st))
    else
      match st
      case CreateUser(n, _) =>
        if n in srv.roles then (srv, FromServer(DuplicateObject)) else (Server(srv.roles[n := {}]), NoError)
      case DropUser(n) =>
        if n !in srv.roles then (srv, FromServer(UndefinedObject))
        else if Blocks(srv.roles[n]) then (srv, FromServer(DependentObjectsExist))
        else (Server(Forget(srv.roles, n)), NoError)
      case Change(give, privilege, target, n) =>
        var err := ChangeError(srv.roles.Keys, st);
        if err != NoError then (srv, err)
        else
          var h := HeldOf(db, privilege, target);
          (Server(srv.roles[n := if give then srv.roles[n] + {h} else srv.roles[n] - {h}]), NoError)
  }

  /** The server reading one statement text on a connection to database `db`. */
  function ExecText(srv: Server, db: string, text: string): (Server, Error) {
    match Parse(text)
    case None => (srv, FromServer(SyntaxError))
    case Some(st) => Exec(srv, db, st)
  }

  /** `b` has every role of `a`, with at least the same holdings. */
  predicate Extends(a: Server, b: Server) {
    a.roles.Keys <= b.roles.Keys && forall r :: r in a.roles ==> a.roles[r] <= b.roles[r]
  }

  lemma ExtendsTransitive(a: Server, b: Server, c: Server)
    requires Extends(a, b) && Extends(b, c)
    ensures Extends(a, c)
  {
    forall r | r in a.roles ensures a.roles[r] <= c.roles[r] {
      assert r in b.roles;
    }
  }

  /** Statements about different roles, neither naming the other's role, commute: same
      final server and same outcome for each, whichever runs first. */
  lemma Commute(srv: Server, dbA: string, a: Statement, dbB: string, b: Statement)
    requires a.role != b.role && !Names(a, b.role) && !Names(b, a.role)
    ensures var (sa, ea) := Exec(srv, dbA, a);
            var (sb, eb) := Exec(srv, dbB, b);
            && Exec(sa, dbB, b).1 == eb
            && Exec(sb, dbA, a).1 == ea
            && Exec(sa, dbB, b).0 == Exec(sb, dbA, a).0
  {
    hide Exec, RowEdit, Names;
    var (sa, ea) := Exec(srv, dbA, a);
    var (sb, eb) := Exec(srv, dbB, b);
    SameOutcome(srv, dbA, a, dbB, b);
    SameOutcome(srv, dbB, b, dbA, a);
    ErrorKeeps(srv, dbA, a);
    ErrorKeeps(srv, dbB, b);
    if ea == NoError && eb == NoError {
      var sab, sba := Exec(sa, dbB, b).0, Exec(sb, dbA, a).0;
      KeysAfter(srv, dbA, a);
      KeysAfter(srv, dbB, b);
      KeysAfter(sa, dbB, b);
      KeysAfter(sb, dbA, a);
      forall r | r in sab.roles ensures sab.roles[r] == sba.roles[r] {
        RowAfter(srv, dbA, a, r);
        RowAfter(srv, dbB, b, r);
        RowAfter(sa, dbB, b, r);
        RowAfter(sb, dbA, a, r);
        RowEditsCommute(srv, dbA, a, dbB, b, r);
        EmptyRow(dbA, a, r);
        EmptyRow(dbB, b, r);
      }
      assert sab.roles == sba.roles;
    }
  }

  lemma ErrorKeeps(srv: Server, db: string, st: Statement)
    ensures Exec(srv, db, st).1 != NoError ==> Exec(srv, db, st).0 == srv
  {
  }

  lemma KeysAfter(srv: Server, db: string, st: Statement)
    requires Exec(srv, db, st).1 == NoError
    ensures var s := Exec(srv, db, st).0;
            s.roles.Keys == if st.DropUser? then srv.roles.Keys - {st.role} else srv.roles.Keys + {st.role}
  {
  }

  /** The effect of an accepted statement on one row. */
  function RowEdit(row: set<Held>, db: string, st: Statement, r: string): set<Held> {
    match st
    case CreateUser(n, _) => if r == n then {} else row
    case DropUser(n) => WithoutMemberships(row, n)
    case Change(give, privilege, target, n) =>
      if r != n then row
      else if give then row + {HeldOf(db, privilege, target)} else row - {HeldOf(db, privilege, target)}
  }

  lemma EmptyRow(db: string, st: Statement, r: string)
    ensures r != st.role ==> RowEdit({}, db, st, r) == {}
  {
  }

  lemma RowAfter(srv: Server, db: string, st: Statement, r: string)
    requires Exec(srv, db, st).1 == NoError
    ensures var s := Exec(srv, db, st).0;
            r in s.roles ==> s.roles[r] == RowEdit(if r in srv.roles then srv.roles[r] else {}, db, st, r)
  {
  }

  lemma RowEditsCommute(srv: Server, dbA: string, a: Statement, dbB: string, b: Statement, r: string)
    requires a.role != b.role && !Names(a, b.role) && !Names(b, a.role)
    ensures var row := if r in srv.roles then srv.roles[r] else {};
            RowEdit(RowEdit(row, dbA, a, r), dbB, b, r) == RowEdit(RowEdit(row, dbB, b, r), dbA, a, r)
  {
  }

  /** Running `a` first does not change what the server answers to `b`. */
  lemma SameOutcome(srv: Server, dbA: string, a: Statement, dbB: string, b: Statement)
    requires a.role != b.role && !Names(a, b.role) && !Names(b, a.role)
    ensures Exec(Exec(srv, dbA, a).0, dbB, b).1 == Exec(srv, dbB, b).1
    ensures Exec(srv, dbB, b).1 != NoError ==> Exec(Exec(srv, dbA, a).0, dbB, b).0 == Exec(srv, dbA, a).0
  {
    if Exec(srv, dbA, a).1 == NoError {
      var sa := Exec(srv, dbA, a).0;
      KeysAfter(srv, dbA, a);
      assert b.role in sa.roles <==> b.role in srv.roles;
      RowAfter(srv, dbA, a, b.role);
      if b.DropUser? && b.role in srv.roles {
        var row := srv.roles[b.role];
        assert Blocks(RowEdit(row, dbA, a, b.role)) <==> Blocks(row);
      }
    }
  }
}
