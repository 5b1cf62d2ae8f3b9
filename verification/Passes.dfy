/** What apply and delete passes do to a server, stated without texts or loops: the text
    adapter refines a plain account of roles and what they hold. */
module Passes {
  import opened Text
  import opened Sql
  import opened Quoting
  import opened Statements
  import opened PrivilegeText
  import opened Server
  import opened Plans

  /** What an entry asks for: the source's three cases on `database` and `on`. */
  function SpecTarget(p: PrivilegeSpec): Target {
    if p.database == "" then Membership
    else if p.on != "" then OnObject(Path(p.on))
    else OnDatabase(Path(p.database))
  }

  function Tokens(p: PrivilegeSpec): seq<Token> {
    if Lex(p.privilege).Some? then Lex(p.privilege).value else []
  }

  function Request(give: bool, p: PrivilegeSpec, role: string): Statement {
    Change(give, Tokens(p), SpecTarget(p), role)
  }

  function HeldFor(p: PrivilegeSpec): Held {
    HeldOf(p.database, Tokens(p), SpecTarget(p))
  }

  /** An entry whose printed statement is grammatical for the server and, if it names a
      table with its database, is executed there. */
  predicate Executable(p: PrivilegeSpec) {
    && PlainPrivilege(p.privilege)
    && Grammatical(Request(true, p, "role"))
    && !OtherDatabase(p.database, SpecTarget(p))
  }

  /** The privileges are known to the server and fit the target; a server looks at that only
      once it has found the grantee. */
  predicate Applicable(p: PrivilegeSpec)
    requires Executable(p)
  {
    SpecTarget(p).Membership? || AskedError(SpecTarget(p).OnDatabase?, ReadAsked(Tokens(p)).value) == NoError
  }

  predicate Usable(p: PrivilegeSpec) {
    Executable(p) && Applicable(p)
  }

  predicate AllUsable(ps: seq<PrivilegeSpec>) {
    forall p :: p in ps ==> Usable(p)
  }

  /** Entries whose texts can be read, a membership without commas and parentheses; they may
      still be refused, ungrammatical or unknown to the server. */
  predicate LegibleEntry(p: PrivilegeSpec) {
    Legible(p.privilege) && (p.database == "" ==> forall t :: t in Tokens(p) ==> t.Word?)
  }

  predicate AllLegible(ps: seq<PrivilegeSpec>) {
    forall p :: p in ps ==> LegibleEntry(p)
  }

  /** Why an entry that is not executable fails: without a privilege it is refused before
      any statement; otherwise its statement is a syntax error or about another database. */
  function Refusal(p: PrivilegeSpec): Error {
    if p.privilege == "" then Failure
    else if !PlainPrivilege(p.privilege) || !Grammatical(Request(true, p, "role")) then FromServer(SyntaxError)
    else FromServer(FeatureNotSupported)
  }

  /** User names that become one non-empty identifier, and not one with a meaning of its own. */
  predicate Managed(username: string) {
    Nameable(username) && Strip(username) != "" && !SpecialName(Strip(username))
  }

  /** User names that CREATE USER takes. */
  predicate Creatable(username: string) {
    Managed(username) && !ReservedName(Strip(username))
  }

  /** The printed statement does to the server exactly what the entry asks for; an entry
      that is not executable does nothing and fails. */
  lemma TextRefinesRequest(srv: Server, dbname: string, username: string, give: bool, p: PrivilegeSpec)
    requires Managed(username) && Legible(p.privilege)
    ensures Perform(srv, PrivilegeOp(dbname, username, give, p)) ==
            if Executable(p) then Exec(srv, p.database, Request(give, p, Strip(username))) else (srv, Refusal(p))
  {
    assert Lex("") == Some([]);
    var st := Request(give, p, Strip(username));
    OpParses(dbname, username, give, p);
    UngrammaticalRequest(give, p, Strip(username));
    assert p.privilege != "" && PlainPrivilege(p.privilege) && !Executable(p) ==>
        Exec(srv, p.database, st) == (srv, Refusal(p)) by {
          hide Legible, Grammatical, OtherDatabase, Lex, Path, Strip;
        }
    hide Legible, Lex, Path, Strip, Parse, PrivilegeOp, Exec, Grammatical, OtherDatabase, Request, Managed;
  }

  /** How the server reads the operation of one entry. */
  lemma OpParses(dbname: string, username: string, give: bool, p: PrivilegeSpec)
    requires Managed(username) && Legible(p.privilege)
    ensures var op := PrivilegeOp(dbname, username, give, p);
            && (op.Invalid? <==> p.privilege == "")
            && (ParseOp(op) == if PlainPrivilege(p.privilege) then Some(Request(give, p, Strip(username))) else None)
            && (op.Send? && SpecTarget(p).OnObject? ==> op.database == p.database)
  {
    assert Lex("") == Some([]);
    hide Parse, PrepareStatement, Legible, Nameable, Path, Lex, SpecialName, Strip;
    ChangeRoundTrip(give, username, p.database, p.on, p.privilege);
    ChangeRoundTrip(give, username, p.database, "", p.privilege);
    ChangeRoundTrip(give, username, "", "", p.privilege);
  }

  lemma UngrammaticalRequest(give: bool, p: PrivilegeSpec, role: string)
    requires role != ""
    ensures Grammatical(Request(true, p, "role")) <==> Grammatical(Request(give, p, role))
  {
    hide Lex, Path, NamedPath;
  }

  function Helds(ps: seq<PrivilegeSpec>): (hs: set<Held>)
    ensures forall p :: p in ps ==> HeldFor(p) in hs
    ensures forall h :: h in hs ==> exists p :: p in ps && HeldFor(p) == h
  {
    if ps == [] then {} else
      assert forall p :: p in ps ==> p == ps[0] || p in ps[1..];
      {HeldFor(ps[0])} + Helds(ps[1..])
  }

  /** GRANT of this entry is accepted: a membership names another existing role. */
  predicate Grantable(keys: set<string>, role: string, p: PrivilegeSpec) {
    SpecTarget(p).Membership? && Tokens(p) != [] && Tokens(p)[0].Word? ==>
      Fold(Tokens(p)[0].text) in keys && Fold(Tokens(p)[0].text) != role
  }

  /** REVOKE of this entry is accepted: a membership names an existing role. */
  predicate Revocable(keys: set<string>, p: PrivilegeSpec) {
    SpecTarget(p).Membership? && Tokens(p) != [] && Tokens(p)[0].Word? ==> Fold(Tokens(p)[0].text) in keys
  }

  /** The entry is membership in role `n`. */
  predicate NamedBy(p: PrivilegeSpec, n: string) {
    SpecTarget(p).Membership? && Tokens(p) != [] && Tokens(p)[0].Word? && Fold(Tokens(p)[0].text) == n
  }

  /** Only the role that an entry names matters to it. */
  lemma NamedMatters(keys: set<string>, more: set<string>, role: string, p: PrivilegeSpec)
    requires forall n :: NamedBy(p, n) ==> (n in keys <==> n in more)
    ensures Grantable(keys, role, p) <==> Grantable(more, role, p)
    ensures Revocable(keys, p) <==> Revocable(more, p)
  {
    hide Lex, Path, Fold;
    if SpecTarget(p).Membership? && Tokens(p) != [] && Tokens(p)[0].Word? {
      assert NamedBy(p, Fold(Tokens(p)[0].text));
    }
  }

  predicate Accepted(keys: set<string>, role: string, give: bool, p: PrivilegeSpec) {
    Usable(p) && if give then Grantable(keys, role, p) else Revocable(keys, p)
  }

  /** How far the loop gets when the role exists. */
  function Reach(keys: set<string>, role: string, give: bool, ps: seq<PrivilegeSpec>): (n: nat)
    ensures n <= |ps|
    ensures forall i :: 0 <= i < n ==> Accepted(keys, role, give, ps[i])
    ensures n < |ps| ==> !Accepted(keys, role, give, ps[n])
  {
    if ps == [] || !Accepted(keys, role, give, ps[0]) then 0 else 1 + Reach(keys, role, give, ps[1..])
  }

  lemma RequestEffect(srv: Server, role: string, give: bool, p: PrivilegeSpec)
    requires Executable(p) && role != "" && !SpecialName(role) && role in srv.roles
    ensures var (s, err) := Exec(srv, p.database, Request(give, p, role));
            if Accepted(srv.roles.Keys, role, give, p)
            then err == NoError && s == Server(srv.roles[role := Edited(give, srv.roles[role], {HeldFor(p)})])
            else s == srv && err == StopError(srv.roles.Keys, give, [p], 0)
  {
    hide PlainPrivilege, Path, Lex, Fold;
  }

  /** A row after gaining (or losing) some holdings. */
  function Edited(give: bool, row: set<Held>, hs: set<Held>): set<Held> {
    if give then row + hs else row - hs
  }

  lemma EditedTwice(give: bool, row: set<Held>, h: Held, hs: set<Held>)
    ensures Edited(give, Edited(give, row, {h}), hs) == Edited(give, row, {h} + hs)
    ensures Edited(give, row, {}) == row
    ensures Edited(true, {}, hs) == hs
  {
  }

  lemma ReachStep(keys: set<string>, role: string, give: bool, ps: seq<PrivilegeSpec>)
    requires ps != []
    ensures var n := Reach(keys, role, give, ps);
            if Accepted(keys, role, give, ps[0])
            then n == 1 + Reach(keys, role, give, ps[1..]) &&
                Helds(ps[..n]) == {HeldFor(ps[0])} + Helds(ps[1..][..n - 1])
            else n == 0 && Helds(ps[..n]) == {}
  {
    hide Accepted, HeldFor;
    var n := Reach(keys, role, give, ps);
    if n > 0 {
      assert ps[..n][1..] == ps[1..][..n - 1] && ps[..n][0] == ps[0];
    }
  }

  /** Why the loop stopped at entry `n`. */
  function StopError(keys: set<string>, give: bool, ps: seq<PrivilegeSpec>, n: nat): Error
    requires n <= |ps|
  {
    if n == |ps| then NoError
    else if !Executable(ps[n]) then Refusal(ps[n])
    else if !Applicable(ps[n]) then AskedError(SpecTarget(ps[n]).OnDatabase?, ReadAsked(Tokens(ps[n])).value)
    else if give && Revocable(keys, ps[n]) then FromServer(InvalidGrantOperation)
    else FromServer(UndefinedObject)
  }

  lemma StopErrorStep(keys: set<string>, role: string, give: bool, ps: seq<PrivilegeSpec>)
    ensures var n := Reach(keys, role, give, ps);
            StopError(keys, give, ps, n) ==
            if ps == [] then NoError
            else if Accepted(keys, role, give, ps[0])
                then StopError(keys, give, ps[1..], Reach(keys, role, give, ps[1..]))
            else StopError(keys, give, [ps[0]], 0)
    ensures ps != [] && !Executable(ps[0]) ==>
            !Accepted(keys, role, give, ps[0]) && StopError(keys, give, [ps[0]], 0) == Refusal(ps[0])
    ensures ps != [] && !Accepted(keys, role, give, ps[0]) ==> StopError(keys, give, [ps[0]], 0) != NoError
  {
    if ps != [] {
      if Executable(ps[0]) { AskedErrorMeans(SpecTarget(ps[0]).OnDatabase?, AskedOf(ps[0])); }
      hide Executable, Grantable, Revocable, AskedError, SpecTarget, ReadAsked, Tokens, Fits;
    }
  }

  function AskedOf(p: PrivilegeSpec): Asked {
    if ReadAsked(Tokens(p)).Some? then ReadAsked(Tokens(p)).value else Everything(false)
  }

  /** The privilege loop, for every list: the role gains (or loses) exactly what the
      entries before the first refused one name, and the error says why it stopped. */
  lemma {:induction false} LoopMeaning(srv: Server, dbname: string, username: string, give: bool,
                                       ps: seq<PrivilegeSpec>)
    requires Managed(username) && AllLegible(ps) && Strip(username) in srv.roles
    ensures var role := Strip(username);
            var n := Reach(srv.roles.Keys, role, give, ps);
            Loop(srv, PrivilegeOps(dbname, username, give, ps)) ==
            (Server(srv.roles[role := Edited(give, srv.roles[role], Helds(ps[..n]))]),
                StopError(srv.roles.Keys, give, ps, n))
    decreases |ps|
  {
    hide Accepted, Usable, Executable, Applicable, Grantable, Revocable, LegibleEntry, AllLegible, Managed, Strip;
    hide Perform, PrivilegeOp, HeldFor, Helds, Edited, StopError, Reach;
    var role := Strip(username);
    var row := srv.roles[role];
    StopErrorStep(srv.roles.Keys, role, give, ps);
    if ps == [] {
      EditedTwice(give, row, HeldFor(PrivilegeSpec("", "", "")), {});
      HeldsNone();
      assert ps[..Reach(srv.roles.Keys, role, give, ps)] == [];
      assert srv.roles[role := row] == srv.roles;
    } else {
      var p, keys := ps[0], srv.roles.Keys;
      LoopStep(srv, dbname, username, give, ps);
      EntryOutcome(srv, dbname, username, give, p);
      ReachStep(keys, role, give, ps);
      EditedTwice(give, row, HeldFor(p), Helds(ps[1..][..Reach(keys, role, give, ps[1..])]));
      if Accepted(keys, role, give, p) {
        var s := Server(srv.roles[role := Edited(give, row, {HeldFor(p)})]);
        assert s.roles.Keys == keys;
        LoopMeaning(s, dbname, username, give, ps[1..]);
        hide *;
        var after := Edited(give, row, Helds(ps[..Reach(keys, role, give, ps)]));
        assert s.roles[role := after] == srv.roles[role := after];
      } else {
        hide *;
        assert srv.roles[role := row] == srv.roles;
      }
    }
  }

  lemma LoopStep(srv: Server, dbname: string, username: string, give: bool, ps: seq<PrivilegeSpec>)
    requires ps != [] && AllLegible(ps)
    ensures LegibleEntry(ps[0]) && AllLegible(ps[1..])
    ensures var (s, err) := Perform(srv, PrivilegeOp(dbname, username, give, ps[0]));
            Loop(srv, PrivilegeOps(dbname, username, give, ps)) ==
            if err != NoError then (s, err) else Loop(s, PrivilegeOps(dbname, username, give, ps[1..]))
  {
    hide LegibleEntry, Perform, PrivilegeOp;
    var ops := PrivilegeOps(dbname, username, give, ps);
    assert ops[1..] == PrivilegeOps(dbname, username, give, ps[1..]);
  }

  /** One entry sent to a server that has the role. */
  lemma EntryOutcome(srv: Server, dbname: string, username: string, give: bool, p: PrivilegeSpec)
    requires Managed(username) && LegibleEntry(p) && Strip(username) in srv.roles
    ensures var (s, err) := Perform(srv, PrivilegeOp(dbname, username, give, p));
            var role := Strip(username);
            if Accepted(srv.roles.Keys, role, give, p)
            then err == NoError && s == Server(srv.roles[role := Edited(give, srv.roles[role], {HeldFor(p)})])
            else s == srv && err == StopError(srv.roles.Keys, give, [p], 0) && err != NoError
  {
    TextRefinesRequest(srv, dbname, username, give, p);
    StopErrorStep(srv.roles.Keys, Strip(username), give, [p]);
    if Executable(p) { RequestEffect(srv, Strip(username), give, p); }
    hide *;
  }

  lemma ExecutableIsPlain(p: PrivilegeSpec)
    requires Executable(p)
    ensures PlainPrivilege(p.privilege)
  {
  }

  lemma UsableIsLegible(ps: seq<PrivilegeSpec>)
    requires AllUsable(ps)
    ensures AllLegible(ps)
  {
  }

  lemma MissingGrantee(srv: Server, p: PrivilegeSpec, role: string)
    requires Executable(p) && role !in srv.roles && role != "" && !SpecialName(role)
    ensures forall give :: Exec(srv, p.database, Request(give, p, role)) == (srv, FromServer(UndefinedObject))
  {
    hide Legible, Path, Lex;
  }

  /** On a server without the role, REVOKE changes nothing, and the caller swallows its
      error exactly when the first entry is executable. */
  lemma RevokeWithoutRole(srv: Server, dbname: string, username: string, ps: seq<PrivilegeSpec>)
    requires Managed(username) && AllLegible(ps) && Strip(username) !in srv.roles
    ensures var (s, err) := Loop(srv, PrivilegeOps(dbname, username, false, ps));
            s == srv && (IgnoreNotExists(err) == NoError <==> ps == [] || Executable(ps[0]))
  {
    if ps != [] {
      assert LegibleEntry(ps[0]);
      TextRefinesRequest(srv, dbname, username, false, ps[0]);
      hide SpecialName, Perform, PrivilegeOp, Lex, Path, Legible, Nameable, Strip, Executable, Request;
      if Executable(ps[0]) { MissingGrantee(srv, ps[0], Strip(username)); }
    }
  }

  lemma CreateAdds(srv: Server, dbname: string, username: string, password: string)
    requires Creatable(username) && Strip(username) !in srv.roles
    ensures Managed(username)
    ensures forall grants ::
              ApplyPass(srv, CreateOp(dbname, username, password), grants) ==
              Loop(Server(srv.roles[Strip(username) := {}]), grants)
  {
    hide Perform, CreateOp, Nameable, Loop, Strip;
    CreateMeaning(srv, dbname, username, password);
  }

  /** Apply pass from nothing: the role appears holding exactly the reachable entries. */
  lemma ApplyMeaning(srv: Server, dbname: string, username: string, password: string, ps: seq<PrivilegeSpec>)
    requires Creatable(username) && AllLegible(ps) && Strip(username) !in srv.roles
    ensures var role := Strip(username);
            var n := Reach(srv.roles.Keys + {role}, role, true, ps);
            var grants := PrivilegeOps(dbname, username, true, ps);
            var (s, err) := ApplyPass(srv, CreateOp(dbname, username, password), grants);
            s == Server(srv.roles[role := Helds(ps[..n])]) && (err == NoError <==> n == |ps|)
  {
    hide *;
    var role := Strip(username);
    var s := Server(srv.roles[role := {}]);
    assert s.roles.Keys == srv.roles.Keys + {role};
    CreateAdds(srv, dbname, username, password);
    LoopMeaning(s, dbname, username, true, ps);
    StopErrorIsError(s.roles.Keys, role, true, ps);
    var hs := Helds(ps[..Reach(srv.roles.Keys + {role}, role, true, ps)]);
    EditedTwice(true, {}, HeldFor(PrivilegeSpec("", "", "")), hs);
    assert s.roles[role := hs] == srv.roles[role := hs];
  }

  lemma StopErrorIsError(keys: set<string>, role: string, give: bool, ps: seq<PrivilegeSpec>)
    ensures var n := Reach(keys, role, give, ps); StopError(keys, give, ps, n) == NoError <==> n == |ps|
  {
    var n := Reach(keys, role, give, ps);
    if n < |ps| {
      StopErrorStep(keys, role, give, [ps[n]]);
      assert !Accepted(keys, role, give, ps[n]);
      hide Accepted, Executable, Applicable, Revocable;
      assert [ps[n]][0] == ps[n];
    }
  }

  lemma DropDecides(srv: Server, dbname: string, username: string)
    requires Managed(username) && Strip(username) in srv.roles
    ensures Perform(srv, DropOp(dbname, username)) ==
            if Blocks(srv.roles[Strip(username)]) then (srv, FromServer(DependentObjectsExist))
            else (Server(Forget(srv.roles, Strip(username))), NoError)
  {
    hide Perform, DropOp, Nameable;
    DropMeaning(srv, dbname, username);
  }

  /** Delete pass: it stops at an entry that is not usable; otherwise DROP USER is refused
      exactly when a database or table privilege survives the REVOKEs that came before the
      first missing role. */
  lemma DeleteMeaning(srv: Server, dbname: string, username: string, ps: seq<PrivilegeSpec>)
    requires Managed(username) && AllLegible(ps) && Strip(username) in srv.roles
    ensures var role := Strip(username);
            var n := Reach(srv.roles.Keys, role, false, ps);
            var left := srv.roles[role] - Helds(ps[..n]);
            DeletePass(srv, PrivilegeOps(dbname, username, false, ps), DropOp(dbname, username)) ==
            if n < |ps| && !Usable(ps[n])
            then (Server(srv.roles[role := left]), StopError(srv.roles.Keys, false, ps, n))
            else if Blocks(left) then (Server(srv.roles[role := left]), FromServer(DependentObjectsExist))
            else (Server(Forget(srv.roles, role)), NoError)
  {
    hide Perform, Loop, DropOp, PrivilegeOps, Managed, Helds, Blocks, AllLegible, Strip, Reach, StopError, Usable,
         Accepted;
    var role := Strip(username);
    var n := Reach(srv.roles.Keys, role, false, ps);
    var left := srv.roles[role] - Helds(ps[..n]);
    var s := Server(srv.roles[role := left]);
    DropDecides(s, dbname, username);
    RevokeStop(srv.roles.Keys, role, ps);
    LoopMeaning(srv, dbname, username, false, ps);
    assert s.roles[role] == left;
    assert Forget(srv.roles[role := left], role) == Forget(srv.roles, role);
  }

  /** The REVOKE loop ends with an error that is swallowed exactly when it ends at a usable
      entry, or at the end of the list. */
  lemma RevokeStop(keys: set<string>, role: string, ps: seq<PrivilegeSpec>)
    ensures var n := Reach(keys, role, false, ps);
            IgnoreNotExists(StopError(keys, false, ps, n)) ==
                (if n < |ps| && !Usable(ps[n]) then StopError(keys, false, ps, n) else NoError)
    ensures var n := Reach(keys, role, false, ps);
            n < |ps| && !Usable(ps[n]) ==>
                StopError(keys, false, ps, n) != NoError && !IsNotExists(StopError(keys, false, ps, n))
  {
    var n := Reach(keys, role, false, ps);
    if n < |ps| && Executable(ps[n]) {
      AskedErrorMeans(SpecTarget(ps[n]).OnDatabase?, AskedOf(ps[n]));
      hide AskedError, Executable, Revocable;
    }
  }

  /** Drop order: when every role named by the entries exists, DROP USER runs on a role
      that holds none of the listed grants, so whatever a server refuses to drop, the
      listed grants are not the reason. */
  lemma DropOrder(srv: Server, dbname: string, username: string, ps: seq<PrivilegeSpec>)
    requires Managed(username) && AllUsable(ps) && Strip(username) in srv.roles
    requires forall p :: p in ps ==> Revocable(srv.roles.Keys, p)
    ensures var role := Strip(username);
            var (s, err) := Loop(srv, PrivilegeOps(dbname, username, false, ps));
            err == NoError && role in s.roles && s.roles[role] * Helds(ps) == {}
  {
    UsableIsLegible(ps);
    hide Perform, Loop, PrivilegeOps, Nameable, Helds, Executable, Revocable, AllLegible;
    LoopMeaning(srv, dbname, username, false, ps);
    assert ps[..|ps|] == ps;
  }

  lemma ExampleUser()
    ensures Creatable("john") && Strip("john") == "john"
  {
    ReplaceAbsent("john", NUL, "");
    assert "john"[0] == 'j' && "public"[0] == 'p' && "none"[0] == 'n' && "john"[..3][0] == 'j' && "pg_"[0] == 'p';
  }

  /** A missing role named first, an object privilege held second: DROP USER is refused. */
  lemma DropBlocked(srv: Server, username: string, missing: PrivilegeSpec, held: PrivilegeSpec)
    requires Managed(username) && Usable(missing) && Usable(held)
    requires Strip(username) in srv.roles && srv.roles[Strip(username)] == {HeldFor(held)}
    requires !Revocable(srv.roles.Keys, missing) && held.database != ""
    ensures DeletePass(srv, PrivilegeOps("", username, false, [missing, held]), DropOp("", username)) ==
            (srv, FromServer(DependentObjectsExist))
  {
    hide Nameable, Usable, Lex, Path, DeletePass, PrivilegeOps, DropOp, Revocable, Helds, Managed, Strip;
    var ps := [missing, held];
    var role := Strip(username);
    UsableIsLegible(ps);
    DeleteMeaning(srv, "", username, ps);
    assert Reach(srv.roles.Keys, role, false, ps) == 0;
    assert ps[..0] == [];
    HeldsNone();
    var left := srv.roles[role] - Helds(ps[..0]);
    assert left == srv.roles[role] && srv.roles[role := left] == srv.roles;
    assert HeldFor(held) in left && !HeldFor(held).target.Membership?;
  }

  /** The order can fail: once a role named by an earlier entry is gone, the swallowed
      error skips the later REVOKEs and DROP USER is refused. */
  lemma DropBlockedByMissingRole()
    ensures var reader := PrivilegeSpec("reader", "", "");
            var onTable := PrivilegeSpec("SELECT", "t", "d");
            var srv := Server(map["john" := {HeldFor(onTable)}]);
            var pass := DeletePass(srv, PrivilegeOps("", "john", false, [reader, onTable]), DropOp("", "john"));
            AllUsable([reader, onTable]) && pass == (srv, FromServer(DependentObjectsExist))
  {
    var reader := PrivilegeSpec("reader", "", "");
    var onTable := PrivilegeSpec("SELECT", "t", "d");
    var srv := Server(map["john" := {HeldFor(onTable)}]);
    ReaderIsUsable();
    ReaderIsName();
    SelectIsUsable();
    ExampleUser();
    hide Nameable, Usable, Lex, DeletePass, HeldFor, PrivilegeOps, DropOp, Strip, Tokens, Fold, Managed, IsName;
    assert srv.roles == map["john" := {HeldFor(onTable)}];
    DropBlocked(srv, "john", reader, onTable);
  }

  lemma HeldsNone()
    ensures Helds([]) == {}
  {
  }

  lemma LexOneWord(w: string)
    requires IsWord(w)
    ensures Lex(w) == Some([Word(w)])
  {
    LexWord(w, "");
    assert w + "" == w && [Word(w)] + [] == [Word(w)];
  }

  /** Text of one word that is not one of the clause words. */
  lemma PlainWord(w: string)
    requires IsWord(w) && !Reserved(Word(w)) && !OtherClause(Word(w))
    ensures PlainPrivilege(w) && Lex(w) == Some([Word(w)])
  {
    LexOneWord(w);
    hide Lex, IsKeyword;
  }

  lemma MembershipUsable(w: string)
    requires IsWord(w) && !Reserved(Word(w)) && !OtherClause(Word(w)) && IsPrivilegeWord(Word(w))
    ensures var p := PrivilegeSpec(w, "", ""); Usable(p) && Tokens(p) == [Word(w)]
  {
    PlainWord(w);
    hide Lex, IsWord, Reserved, OtherClause, IsPrivilegeWord, PlainPrivilege;
  }

  /** A one-word privilege on a table or on a whole database. */
  lemma PrivilegeExecutable(w: string, word: string, on: string, database: string)
    requires IsWord(w) && !Reserved(Word(w)) && !OtherClause(Word(w))
    requires IsPrivilegeWord(Word(w)) && Fold(w) == word && word != "all"
    requires database != "" && Path(if on != "" then on else database) == [Name(if on != "" then on else database)]
    ensures var p := PrivilegeSpec(w, on, database);
            && Executable(p)
            && (Applicable(p) <==> Fits(on == "", Item(word, false)))
  {
    PlainWord(w);
    OneWordAsked(w, word);
    AskedErrorMeans(on == "", Listed([Item(word, false)]));
    hide Lex, IsWord, Reserved, OtherClause, IsPrivilegeWord, PlainPrivilege, Path, ReadAsked, Fits, AskedError, Fold;
    var p := PrivilegeSpec(w, on, database);
    assert Tokens(p) == [Word(w)];
    assert SpecTarget(p) == if on != "" then OnObject([Name(on)]) else OnDatabase([Name(database)]);
  }

  lemma ReaderIsName()
    ensures IsName(Word("reader")) && Fold("reader") == "reader" && Fold("reader") != "john"
    ensures !Reserved(Word("reader")) && !OtherClause(Word("reader"))
  {
    FoldLetters("reader", "reader");
    assert !IsKeyWord("reader") by {
      var k := "reader";
      assert |k| == 6 && k[0] == 'r';
    }
    assert "reader"[0] == 'r' && |"reader"| == 6 && |"rule"| == 4;
  }

  lemma SelectIsWord()
    ensures IsPrivilegeWord(Word("SELECT")) && Fold("SELECT") == "select"
    ensures !Reserved(Word("SELECT")) && !OtherClause(Word("SELECT"))
  {
    FoldLetters("SELECT", "select");
    assert "SELECT"[1] == 'E' && "system"[1] == 'y' && |"SELECT"| == 6;
  }

  lemma ShortPath(name: string)
    requires name == "t" || name == "d"
    ensures Path(name) == [Name(name)]
  {
    SplitWhole(name, '.');
    ReplaceAbsent(name, NUL, "");
  }

  lemma ReaderIsUsable()
    ensures var p := PrivilegeSpec("reader", "", ""); Usable(p) && Tokens(p) == [Word("reader")]
  {
    ReaderIsName();
    hide Lex, IsName, Reserved, OtherClause;
    MembershipUsable("reader");
  }

  lemma SelectIsUsable()
    ensures Usable(PrivilegeSpec("SELECT", "t", "d"))
  {
    SelectIsWord();
    ShortPath("t");
    hide Lex, IsPrivilegeWord, Reserved, OtherClause, Path, Fold, Applicable, Executable;
    PrivilegeExecutable("SELECT", "select", "t", "d");
  }

  // ---- apply, then delete ----

  lemma CutPassBounds(srv: Server, dbname: string, username: string, password: string, grants: seq<Op>, cut: nat)
    requires forall op :: op in grants ==> IsChangeOp(op, true)
    ensures var create := CreateOp(dbname, username, password);
            Extends(srv, CutPass(srv, create, grants, cut))
  {
    hide Perform, Loop, CreateOp, Nameable, IsChangeOp;
    CreateMeaning(srv, dbname, username, password);
    var create := CreateOp(dbname, username, password);
    var s := Perform(srv, create).0;
    var part := if 0 < cut <= |grants| then grants[..cut - 1] else grants;
    LoopEffect(s, part, true);
    assert Extends(srv, s);
    ExtendsTransitive(srv, s, Loop(s, part).0);
  }

  lemma {:induction false} CutPassesBounds(srv: Server, dbname: string, username: string, password: string,
                                           grants: seq<Op>, cuts: seq<nat>)
    requires forall op :: op in grants ==> IsChangeOp(op, true)
    ensures var create := CreateOp(dbname, username, password);
            Extends(srv, CutPasses(srv, create, grants, cuts))
    decreases |cuts|
  {
    hide CutPass, CreateOp, IsChangeOp;
    if cuts != [] {
      var create := CreateOp(dbname, username, password);
      var s := CutPass(srv, create, grants, cuts[0]);
      CutPassBounds(srv, dbname, username, password, grants, cuts[0]);
      CutPassesBounds(s, dbname, username, password, grants, cuts[1..]);
      ExtendsTransitive(srv, s, CutPasses(s, create, grants, cuts[1..]));
    }
  }

  lemma ApplyPassExtends(srv: Server, dbname: string, username: string, password: string, grants: seq<Op>)
    requires forall op :: op in grants ==> IsChangeOp(op, true)
    ensures Extends(srv, ApplyPass(srv, CreateOp(dbname, username, password), grants).0)
  {
    CutPassBounds(srv, dbname, username, password, grants, |grants| + 1);
  }

  /** No role is a member of role `n`. */
  predicate NoMembers(srv: Server, n: string) {
    forall r, h :: r in srv.roles && h in srv.roles[r] ==> !MemberOf(h.privilege, h.target, n)
  }

  lemma ForgetAdded(srv: Server, s: Server, role: string, ps: seq<PrivilegeSpec>)
    requires OnlyRoleAdded(srv, s, role, ps) && NoMembers(srv, role)
    ensures Forget(s.roles, role) == srv.roles
  {
    hide MemberOf, Helds, Reach;
    forall r | r in srv.roles ensures WithoutMemberships(srv.roles[r], role) == srv.roles[r] {}
  }

  /** A server that is as before but for the role, holding what a GRANT pass can reach. */
  predicate OnlyRoleAdded(srv: Server, s: Server, role: string, ps: seq<PrivilegeSpec>) {
    && role !in srv.roles && s.roles.Keys == srv.roles.Keys + {role}
    && (forall r :: r in srv.roles ==> s.roles[r] == srv.roles[r])
    && s.roles[role] <= Helds(ps[..Reach(s.roles.Keys, role, true, ps)])
  }

  lemma DeleteRemovesAdded(srv: Server, s: Server, dbname: string, username: string, ps: seq<PrivilegeSpec>)
    requires Managed(username) && AllUsable(ps) && OnlyRoleAdded(srv, s, Strip(username), ps)
    requires NoMembers(srv, Strip(username))
    ensures DeletePass(s, PrivilegeOps(dbname, username, false, ps), DropOp(dbname, username)) == (srv, NoError)
  {
    UsableIsLegible(ps);
    ForgetAdded(srv, s, Strip(username), ps);
    hide Perform, Loop, DropOp, PrivilegeOps, Nameable, Helds, Executable, NoMembers, Forget, AllLegible, Accepted,
         DeletePass, Strip;
    var role := Strip(username);
    var n, m := Reach(s.roles.Keys, role, true, ps), Reach(s.roles.Keys, role, false, ps);
    ReachOrder(s.roles.Keys, role, ps);
    HeldsMonotone(ps, n, m);
    DeleteMeaning(s, dbname, username, ps);
    hide Reach;
    assert m < |ps| ==> ps[m] in ps;
    assert s.roles[role] - Helds(ps[..m]) == {};
  }

  /** A server between `srv` and `srv` with one more row. */
  lemma BetweenServers(srv: Server, s: Server, role: string, row: set<Held>)
    requires role !in srv.roles && Extends(srv, s) && Extends(s, Server(srv.roles[role := row]))
    ensures forall r :: r in srv.roles ==> r in s.roles && s.roles[r] == srv.roles[r]
    ensures if role in s.roles then s.roles.Keys == srv.roles.Keys + {role} && s.roles[role] <= row else s == srv
  {
    var full := srv.roles[role := row];
    assert s.roles.Keys <= srv.roles.Keys + {role} && srv.roles.Keys <= s.roles.Keys;
    forall r | r in srv.roles ensures s.roles[r] == srv.roles[r] { assert full[r] == srv.roles[r]; }
    if role !in s.roles { assert s.roles == srv.roles; }
  }

  /** A name that CREATE USER does not take: apply passes do nothing. */
  lemma {:induction false} ReservedPasses(srv: Server, dbname: string, username: string, password: string,
                                          grants: seq<Op>, cuts: seq<nat>)
    requires Managed(username) && !Creatable(username)
    ensures CutPasses(srv, CreateOp(dbname, username, password), grants, cuts) == srv
    decreases |cuts|
  {
    if cuts != [] {
      CreateMeaning(srv, dbname, username, password);
      assert CutPass(srv, CreateOp(dbname, username, password), grants, cuts[0]) == srv by {
        hide Perform, CreateOp, Nameable, Strip;
      }
      hide CutPass, CreateOp, Managed, Creatable;
      ReservedPasses(srv, dbname, username, password, grants, cuts[1..]);
    }
  }

  /** Cut apply passes from a server without the role add nothing but the role. */
  lemma CutPassesAddRole(srv: Server, dbname: string, username: string, password: string, ps: seq<PrivilegeSpec>,
                         cuts: seq<nat>)
    requires Managed(username) && AllLegible(ps) && Strip(username) !in srv.roles
    ensures var role := Strip(username);
            var grants := PrivilegeOps(dbname, username, true, ps);
            var s := CutPasses(srv, CreateOp(dbname, username, password), grants, cuts);
            if role in s.roles then OnlyRoleAdded(srv, s, role, ps) else s == srv
  {
    hide Perform, Loop, CreateOp, PrivilegeOp, Creatable, Managed, Helds, IsChangeOp, CutPasses, ApplyPass, AllLegible,
         Accepted, Strip, Extends, Reach;
    var role := Strip(username);
    var create := CreateOp(dbname, username, password);
    var grants := PrivilegeOps(dbname, username, true, ps);
    if !Creatable(username) {
      ReservedPasses(srv, dbname, username, password, grants, cuts);
      return;
    }
    forall op | op in grants ensures IsChangeOp(op, true) {
      var i :| 0 <= i < |grants| && grants[i] == op;
      PrivilegeOpIsChange(dbname, username, true, ps[i]);
    }
    var s := CutPasses(srv, create, grants, cuts);
    CutPassesBounds(srv, dbname, username, password, grants, cuts);
    ApplyPassExtends(s, dbname, username, password, grants);
    ReplayEquivalence(srv, dbname, username, password, ps, cuts);
    ApplyMeaning(srv, dbname, username, password, ps);
    BetweenServers(srv, s, role, Helds(ps[..Reach(srv.roles.Keys + {role}, role, true, ps)]));
  }

  /** Whatever interrupted apply passes did from a server without the role, and whether or
      not they could finish, one delete pass succeeds and gives back the server as it was. */
  lemma DeleteUndoesApply(srv: Server, dbname: string, username: string, password: string,
                          ps: seq<PrivilegeSpec>, cuts: seq<nat>)
    requires Managed(username) && AllUsable(ps) && Strip(username) !in srv.roles
    requires NoMembers(srv, Strip(username))
    ensures var grants := PrivilegeOps(dbname, username, true, ps);
            var s := CutPasses(srv, CreateOp(dbname, username, password), grants, cuts);
            var (t, err) := DeletePass(s, PrivilegeOps(dbname, username, false, ps), DropOp(dbname, username));
            t == srv && err == NoError
  {
    UsableIsLegible(ps);
    hide CreateOp, DropOp, PrivilegeOps, Nameable, AllUsable, AllLegible, CutPasses, DeletePass, OnlyRoleAdded,
         NoMembers, Strip, Managed;
    CutPassesAddRole(srv, dbname, username, password, ps, cuts);
    var s := CutPasses(srv, CreateOp(dbname, username, password), PrivilegeOps(dbname, username, true, ps), cuts);
    if Strip(username) in s.roles {
      DeleteRemovesAdded(srv, s, dbname, username, ps);
    } else {
      DeleteWithoutRole(s, dbname, username, ps);
    }
  }

  lemma DeleteWithoutRole(srv: Server, dbname: string, username: string, ps: seq<PrivilegeSpec>)
    requires Managed(username) && AllUsable(ps) && Strip(username) !in srv.roles
    ensures DeletePass(srv, PrivilegeOps(dbname, username, false, ps), DropOp(dbname, username)) == (srv, NoError)
  {
    UsableIsLegible(ps);
    hide Perform, Loop, DropOp, PrivilegeOps, Nameable, Executable, AllLegible, Strip;
    assert ps != [] ==> ps[0] in ps;
    RevokeWithoutRole(srv, dbname, username, ps);
    DropMeaning(srv, dbname, username);
  }

  /** REVOKE is accepted wherever GRANT was. */
  lemma {:induction false} ReachOrder(keys: set<string>, role: string, ps: seq<PrivilegeSpec>)
    ensures Reach(keys, role, true, ps) <= Reach(keys, role, false, ps)
  {
    if ps != [] && Accepted(keys, role, true, ps[0]) {
      ReachOrder(keys, role, ps[1..]);
    }
  }

  lemma HeldsMonotone(ps: seq<PrivilegeSpec>, n: nat, m: nat)
    requires n <= m <= |ps|
    ensures Helds(ps[..n]) <= Helds(ps[..m])
  {
    forall h | h in Helds(ps[..n]) ensures h in Helds(ps[..m]) {
      var p :| p in ps[..n] && HeldFor(p) == h;
      var i :| 0 <= i < n && ps[..n][i] == p;
      assert ps[..m][i] == p;
    }
  }
}
