/** Passes for User objects with different names, run against one server in any
    interleaving. A pass is any rule that picks its next statement from the answers it has
    had so far, so the result covers apply and delete passes, retries and aborted ones. */
module Interleaving {
  import opened Text
  import opened Sql
  import opened Quoting
  import opened Statements
  import opened Server
  import opened Plans
  import opened Passes

  /** The next operation after these answers, or None when the pass is over. */
  type Strategy = seq<Error> -> Option<Op>

  /** Up to `n` operations of one pass alone: the server and the answers so far. */
  function Alone(srv: Server, f: Strategy, answers: seq<Error>, n: nat): (Server, seq<Error>)
    decreases n
  {
    if n == 0 || f(answers).None? then (srv, answers)
    else
      var (s, err) := Perform(srv, f(answers).value);
      Alone(s, f, answers + [err], n - 1)
  }

  /** Passes sharing a server: the server, and the answers that each has had. */
  datatype Crowd = Crowd(server: Server, answers: seq<seq<Error>>)

  /** Any number of passes: each turn of the schedule lets one of them act, unless it is over. */
  function Together(c: Crowd, fs: seq<Strategy>, schedule: seq<nat>): (r: Crowd)
    requires |c.answers| == |fs|
    ensures |r.answers| == |fs|
    decreases |schedule|
  {
    if schedule == [] then c
    else
      var i := schedule[0];
      if i >= |fs| || fs[i](c.answers[i]).None? then Together(c, fs, schedule[1..])
      else
        var (s, err) := Perform(c.server, fs[i](c.answers[i]).value);
        Together(Crowd(s, c.answers[i := c.answers[i] + [err]]), fs, schedule[1..])
  }

  /** How many answers are still to come. */
  function ToCome(count: nat, answers: seq<Error>): nat {
    if count > |answers| then count - |answers| else 0
  }

  /** The same passes one after the other, each up to a number of answers. */
  function InTurn(c: Crowd, fs: seq<Strategy>, counts: seq<nat>): Crowd
    requires |c.answers| == |fs| == |counts|
    decreases |fs|
  {
    if fs == [] then c
    else
      var more := ToCome(counts[0], c.answers[0]);
      var (s, first) := Alone(c.server, fs[0], c.answers[0], more);
      var rest := InTurn(Crowd(s, c.answers[1..]), fs[1..], counts[1..]);
      Crowd(rest.server, [first] + rest.answers)
  }

  /** The operation concerns `role` only and never names `other`. */
  predicate About(op: Op, role: string, other: string) {
    ParseOp(op).Some? ==> ParseOp(op).value.role == role && !Names(ParseOp(op).value, other)
  }

  ghost predicate AlwaysAbout(f: Strategy, role: string, other: string) {
    forall answers :: f(answers).Some? ==> About(f(answers).value, role, other)
  }

  lemma OpsCommute(srv: Server, a: Op, b: Op, roleA: string, roleB: string)
    requires roleA != roleB && About(a, roleA, roleB) && About(b, roleB, roleA)
    ensures var (sa, ea) := Perform(srv, a);
            var (sb, eb) := Perform(srv, b);
            Perform(sa, b) == (Perform(sb, a).0, eb) && Perform(sb, a).1 == ea
  {
    hide Parse, Exec, Names;
    if ParseOp(a).Some? && ParseOp(b).Some? {
      Commute(srv, a.database, ParseOp(a).value, b.database, ParseOp(b).value);
    }
  }

  /** Another pass's statement can be moved behind all of this pass's statements. */
  lemma {:induction false} MoveBehind(srv: Server, b: Op, f: Strategy, answers: seq<Error>, n: nat, roleA: string,
                                      roleB: string)
    requires roleA != roleB && AlwaysAbout(f, roleA, roleB) && About(b, roleB, roleA)
    ensures var (s, rest) := Alone(srv, f, answers, n);
            && Alone(Perform(srv, b).0, f, answers, n) == (Perform(s, b).0, rest)
            && Perform(s, b).1 == Perform(srv, b).1
    decreases n
  {
    hide Perform, About;
    if n > 0 && f(answers).Some? {
      var a := f(answers).value;
      OpsCommute(srv, a, b, roleA, roleB);
      MoveBehind(Perform(srv, a).0, b, f, answers + [Perform(srv, a).1], n - 1, roleA, roleB);
    }
  }

  /** Every rule is about its own role, and never names another's. */
  ghost predicate Separate(fs: seq<Strategy>, roles: seq<string>) {
    && |fs| == |roles|
    && forall i, j :: 0 <= i < |fs| && 0 <= j < |fs| && i != j ==>
           roles[i] != roles[j] && AlwaysAbout(fs[i], roles[i], roles[j])
  }

  lemma SeparateRest(fs: seq<Strategy>, roles: seq<string>)
    requires Separate(fs, roles) && fs != []
    ensures Separate(fs[1..], roles[1..])
  {
    hide AlwaysAbout;
  }

  /** A statement of pass `i` that runs before everything else runs first in its turn. */
  lemma {:induction false} TakesItsTurn(c: Crowd, fs: seq<Strategy>, counts: seq<nat>, roles: seq<string>, i: nat)
    requires |c.answers| == |fs| == |counts| && Separate(fs, roles)
    requires i < |fs| && fs[i](c.answers[i]).Some? && counts[i] > |c.answers[i]|
    ensures var (s, err) := Perform(c.server, fs[i](c.answers[i]).value);
            InTurn(Crowd(s, c.answers[i := c.answers[i] + [err]]), fs, counts) == InTurn(c, fs, counts)
    decreases |fs|
  {
    hide Perform, About, AlwaysAbout;
    var op := fs[i](c.answers[i]).value;
    var (s, err) := Perform(c.server, op);
    var after := c.answers[i := c.answers[i] + [err]];
    if i == 0 {
      assert after[1..] == c.answers[1..];
    } else {
      var more := ToCome(counts[0], c.answers[0]);
      assert About(op, roles[i], roles[0]) by { NextIsAbout(fs[i], c.answers[i], roles[i], roles[0]); }
      MoveBehind(c.server, op, fs[0], c.answers[0], more, roles[0], roles[i]);
      SeparateRest(fs, roles);
      var t := Alone(c.server, fs[0], c.answers[0], more).0;
      TakesItsTurn(Crowd(t, c.answers[1..]), fs[1..], counts[1..], roles[1..], i - 1);
      assert after[1..] == c.answers[1..][i - 1 := c.answers[1..][i - 1] + [err]];
    }
  }

  lemma NextIsAbout(f: Strategy, answers: seq<Error>, role: string, other: string)
    requires AlwaysAbout(f, role, other) && f(answers).Some?
    ensures About(f(answers).value, role, other)
  {
  }

  predicate Counted(answers: seq<seq<Error>>, counts: seq<nat>) {
    |answers| == |counts| && forall i :: 0 <= i < |counts| ==> counts[i] == |answers[i]|
  }

  lemma {:induction false} NothingMore(c: Crowd, fs: seq<Strategy>, counts: seq<nat>)
    requires |c.answers| == |fs| && Counted(c.answers, counts)
    ensures InTurn(c, fs, counts) == c
    decreases |fs|
  {
    if fs != [] { NothingMore(Crowd(c.server, c.answers[1..]), fs[1..], counts[1..]); }
  }

  lemma {:induction false} AnswersGrow(c: Crowd, fs: seq<Strategy>, schedule: seq<nat>, i: nat)
    requires |c.answers| == |fs| && i < |fs|
    ensures |c.answers[i]| <= |Together(c, fs, schedule).answers[i]|
    decreases |schedule|
  {
    hide Perform;
    if schedule != [] {
      var j := schedule[0];
      if j >= |fs| || fs[j](c.answers[j]).None? {
        AnswersGrow(c, fs, schedule[1..], i);
      } else {
        var (s, err) := Perform(c.server, fs[j](c.answers[j]).value);
        AnswersGrow(Crowd(s, c.answers[j := c.answers[j] + [err]]), fs, schedule[1..], i);
      }
    }
  }

  /** Non-interference: whatever the schedule, the server and every pass's answers end as if
      the passes had run one after the other. */
  lemma {:induction false} Serializable(c: Crowd, fs: seq<Strategy>, schedule: seq<nat>, roles: seq<string>,
                                        counts: seq<nat>)
    requires |c.answers| == |fs| && Separate(fs, roles) && Counted(Together(c, fs, schedule).answers, counts)
    ensures Together(c, fs, schedule) == InTurn(c, fs, counts)
    decreases |schedule|
  {
    hide Perform, About, InTurn;
    if schedule == [] {
      NothingMore(c, fs, counts);
    } else {
      var i := schedule[0];
      if i >= |fs| || fs[i](c.answers[i]).None? {
        Serializable(c, fs, schedule[1..], roles, counts);
      } else {
        var (s, err) := Perform(c.server, fs[i](c.answers[i]).value);
        var after := Crowd(s, c.answers[i := c.answers[i] + [err]]);
        Serializable(after, fs, schedule[1..], roles, counts);
        AnswersGrow(after, fs, schedule[1..], i);
        TakesItsTurn(c, fs, counts, roles, i);
      }
    }
  }

  /** Any operation the adapter sends for `username` with these entries. */
  predicate OperationOf(op: Op, dbname: string, username: string, password: string, ps: seq<PrivilegeSpec>) {
    || op == CreateOp(dbname, username, password)
    || op == DropOp(dbname, username)
    || exists give, p :: p in ps && op == PrivilegeOp(dbname, username, give, p)
  }

  /** No entry grants membership in role `n`. */
  predicate NoEntryNames(ps: seq<PrivilegeSpec>, n: string) {
    forall p :: p in ps ==> !MemberOf(Tokens(p), SpecTarget(p), n)
  }

  /** The adapter's operations for one user concern that user's role only. */
  lemma OperationsAbout(op: Op, dbname: string, username: string, password: string, ps: seq<PrivilegeSpec>,
                        other: string)
    requires OperationOf(op, dbname, username, password, ps)
    requires forall p :: p in ps ==> Legible(p.privilege)
    requires NoEntryNames(ps, other)
    ensures About(op, Strip(username), other)
  {
    hide Parse, Nameable, PrepareStatement, Bare, CreateUserQuery, DeleteUserQuery, Lex, Path, MemberOf;
    CreateUserRoundTrip(username, password);
    DropUserRoundTrip(username);
    if give, p :| p in ps && op == PrivilegeOp(dbname, username, give, p) {
      ChangeRoundTrip(give, username, p.database, p.on, p.privilege);
      ChangeRoundTrip(give, username, p.database, "", p.privilege);
      ChangeRoundTrip(give, username, "", "", p.privilege);
      assert !MemberOf(Tokens(p), SpecTarget(p), other);
    }
  }

  /** What one pass does, done before or after what another does. */
  lemma {:induction false} MoveAllBehind(srv: Server, f: Strategy, fa: seq<Error>, n: nat, g: Strategy, ga: seq<Error>,
                                         m: nat, roleA: string, roleB: string)
    requires roleA != roleB && AlwaysAbout(f, roleA, roleB) && AlwaysAbout(g, roleB, roleA)
    ensures Alone(Alone(srv, f, fa, n).0, g, ga, m).0 == Alone(Alone(srv, g, ga, m).0, f, fa, n).0
    ensures Alone(Alone(srv, g, ga, m).0, f, fa, n).1 == Alone(srv, f, fa, n).1
    decreases m
  {
    hide Perform, About;
    if m > 0 && g(ga).Some? {
      var b := g(ga).value;
      MoveBehind(srv, b, f, fa, n, roleA, roleB);
      MoveAllBehind(Perform(srv, b).0, f, fa, n, g, ga + [Perform(srv, b).1], m - 1, roleA, roleB);
    }
  }

  /** Every operation the strategy can send belongs to this user and these entries. */
  ghost predicate StrategyOf(f: Strategy, dbname: string, username: string, password: string, ps: seq<PrivilegeSpec>) {
    forall answers :: f(answers).Some? ==> OperationOf(f(answers).value, dbname, username, password, ps)
  }

  /** What the passes of one User object are about. */
  datatype Subject = Subject(dbname: string, username: string, password: string, ps: seq<PrivilegeSpec>)

  ghost predicate PassOf(f: Strategy, u: Subject) {
    StrategyOf(f, u.dbname, u.username, u.password, u.ps)
  }

  /** Users whose role names differ, none named by the entries of another. */
  predicate Apart(us: seq<Subject>) {
    && (forall i, j :: 0 <= i < |us| && 0 <= j < |us| && i != j ==> Strip(us[i].username) != Strip(us[j].username))
    && (forall i, j :: 0 <= i < |us| && 0 <= j < |us| && i != j ==> NoEntryNames(us[i].ps, Strip(us[j].username)))
    && (forall i, p :: 0 <= i < |us| && p in us[i].ps ==> Legible(p.privilege))
  }

  function Roles(us: seq<Subject>): seq<string> {
    seq(|us|, i requires 0 <= i < |us| => Strip(us[i].username))
  }

  lemma SubjectsSeparate(fs: seq<Strategy>, us: seq<Subject>)
    requires |fs| == |us| && Apart(us) && forall i :: 0 <= i < |fs| ==> PassOf(fs[i], us[i])
    ensures Separate(fs, Roles(us))
  {
    hide About, OperationOf, NoEntryNames, Legible, Strip;
    forall i, j | 0 <= i < |fs| && 0 <= j < |fs| && i != j ensures AlwaysAbout(fs[i], Roles(us)[i], Roles(us)[j]) {
      var u := us[i];
      assert PassOf(fs[i], u);
      forall answers | fs[i](answers).Some? ensures About(fs[i](answers).value, Roles(us)[i], Roles(us)[j]) {
        OperationsAbout(fs[i](answers).value, u.dbname, u.username, u.password, u.ps, Strip(us[j].username));
      }
    }
  }

  function Nothing(n: nat): (answers: seq<seq<Error>>)
    ensures |answers| == n
  {
    seq(n, _ => [])
  }

  /** Passes for any number of User objects, on any schedule: the server, and the answers
      that each pass gets, are those of running the passes one after the other. As the
      order of the list is arbitrary, so is that of the passes. */
  lemma UsersDoNotInterfere(srv: Server, fs: seq<Strategy>, us: seq<Subject>, schedule: seq<nat>, counts: seq<nat>)
    requires |fs| == |us| && Apart(us) && forall i :: 0 <= i < |fs| ==> PassOf(fs[i], us[i])
    requires Counted(Together(Crowd(srv, Nothing(|fs|)), fs, schedule).answers, counts)
    ensures Together(Crowd(srv, Nothing(|fs|)), fs, schedule) == InTurn(Crowd(srv, Nothing(|fs|)), fs, counts)
    ensures forall i :: 0 <= i < |fs| ==>
              Together(Crowd(srv, Nothing(|fs|)), fs, schedule).answers[i] == Alone(srv, fs[i], [], counts[i]).1
  {
    hide Apart, PassOf, Separate, Together, InTurn, Counted;
    SubjectsSeparate(fs, us);
    Serializable(Crowd(srv, Nothing(|fs|)), fs, schedule, Roles(us), counts);
    CountsFit(Together(Crowd(srv, Nothing(|fs|)), fs, schedule).answers, counts);
    forall i | 0 <= i < |fs|
      ensures Together(Crowd(srv, Nothing(|fs|)), fs, schedule).answers[i] == Alone(srv, fs[i], [], counts[i]).1
    {
      AnswersOfOne(Crowd(srv, Nothing(|fs|)), fs, counts, Roles(us), i);
    }
  }

  lemma CountsFit(answers: seq<seq<Error>>, counts: seq<nat>)
    requires Counted(answers, counts)
    ensures |answers| == |counts|
  {
  }

  /** In turn, each pass still gets the answers it gets alone. */
  lemma {:induction false} AnswersOfOne(c: Crowd, fs: seq<Strategy>, counts: seq<nat>, roles: seq<string>, i: nat)
    requires |c.answers| == |fs| == |counts| && Separate(fs, roles) && i < |fs| && c.answers[i] == []
    ensures |InTurn(c, fs, counts).answers| == |fs|
    ensures InTurn(c, fs, counts).answers[i] == Alone(c.server, fs[i], [], counts[i]).1
    decreases |fs|
  {
    hide Alone, AlwaysAbout;
    InTurnFits(c, fs, counts);
    if i > 0 {
      var more := ToCome(counts[0], c.answers[0]);
      var s := Alone(c.server, fs[0], c.answers[0], more).0;
      SeparateRest(fs, roles);
      AnswersOfOne(Crowd(s, c.answers[1..]), fs[1..], counts[1..], roles[1..], i - 1);
      MoveAllBehind(c.server, fs[i], [], counts[i], fs[0], c.answers[0], more, roles[i], roles[0]);
    }
  }

  lemma {:induction false} InTurnFits(c: Crowd, fs: seq<Strategy>, counts: seq<nat>)
    requires |c.answers| == |fs| == |counts|
    ensures |InTurn(c, fs, counts).answers| == |fs|
    decreases |fs|
  {
    hide Alone;
    if fs != [] {
      var more := ToCome(counts[0], c.answers[0]);
      InTurnFits(Crowd(Alone(c.server, fs[0], c.answers[0], more).0, c.answers[1..]), fs[1..], counts[1..]);
    }
  }

  /** A pass changes only its own role's row, and memberships in that role. */
  lemma {:induction false} OnlyOwnRow(srv: Server, f: Strategy, answers: seq<Error>, n: nat, role: string,
                                      other: string, r: string)
    requires AlwaysAbout(f, role, other) && r != role
    ensures var s := Alone(srv, f, answers, n).0;
            && (r in s.roles <==> r in srv.roles)
            && (r in srv.roles ==> WithoutMemberships(srv.roles[r], role) <= s.roles[r] <= srv.roles[r])
    decreases n
  {
    hide Perform, About, MemberOf;
    if n > 0 && f(answers).Some? {
      var (s, err) := Perform(srv, f(answers).value);
      StatementRow(srv, f(answers).value, role, other, r);
      OnlyOwnRow(s, f, answers + [err], n - 1, role, other, r);
    }
  }

  lemma StatementRow(srv: Server, op: Op, role: string, other: string, r: string)
    requires About(op, role, other) && r != role
    ensures var s := Perform(srv, op).0;
            && (r in s.roles <==> r in srv.roles)
            && (r in srv.roles ==> WithoutMemberships(srv.roles[r], role) <= s.roles[r] <= srv.roles[r])
  {
    hide Parse, MemberOf, Names;
  }
}
