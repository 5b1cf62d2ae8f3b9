/** The passes of the controller as rules that pick the next statement from the answers so
    far: what is proved of interleaved rules holds of them. */
module Strategies {
  import opened Text
  import opened Quoting
  import opened Statements
  import opened Server
  import opened Plans
  import opened Interleaving

  predicate AllGood(answers: seq<Error>) {
    forall err :: err in answers ==> err == NoError
  }

  /** `privilegesProcessor`: the next entry, if there was no error. */
  function LoopNext(ops: seq<Op>, answers: seq<Error>): Option<Op> {
    if |answers| < |ops| && AllGood(answers) then Some(ops[|answers|]) else None
  }

  function ApplyNext(create: Op, grants: seq<Op>, answers: seq<Error>): Option<Op> {
    if answers == [] then Some(create)
    else if IgnoreAlreadyExists(answers[0]) != NoError then None
    else LoopNext(grants, answers[1..])
  }

  /** The REVOKEs up to the first error, then DROP USER unless that error counts. */
  function DeleteNext(revokes: seq<Op>, drop: Op, answers: seq<Error>): Option<Op>
    decreases |revokes|
  {
    if revokes == [] then (if answers == [] then Some(drop) else None)
    else if answers == [] then Some(revokes[0])
    else if answers[0] == NoError then DeleteNext(revokes[1..], drop, answers[1..])
    else if IgnoreNotExists(answers[0]) == NoError && |answers| == 1 then Some(drop)
    else None
  }

  function ApplyStrategy(create: Op, grants: seq<Op>): Strategy {
    (answers: seq<Error>) => ApplyNext(create, grants, answers)
  }

  function DeleteStrategy(revokes: seq<Op>, drop: Op): Strategy {
    (answers: seq<Error>) => DeleteNext(revokes, drop, answers)
  }

  /** After the answers `a`, the rule `f` goes through `ops`. */
  ghost predicate Loops(f: Strategy, a: seq<Error>, ops: seq<Op>) {
    forall b :: f(a + b) == LoopNext(ops, b)
  }

  lemma LoopsOn(f: Strategy, a: seq<Error>, ops: seq<Op>)
    requires Loops(f, a, ops) && ops != []
    ensures Loops(f, a + [NoError], ops[1..])
  {
    forall b ensures f((a + [NoError]) + b) == LoopNext(ops[1..], b) {
      assert (a + [NoError]) + b == a + ([NoError] + b);
      assert AllGood([NoError] + b) <==> AllGood(b) by {
        if AllGood([NoError] + b) { forall err | err in b ensures err == NoError { assert err in [NoError] + b; } }
      }
      assert |b| + 1 < |ops| ==> ops[1..][|b|] == ops[|b| + 1];
    }
  }

  /** `n` turns of a looping rule are the loop over the first `n` operations. */
  lemma {:induction false} LoopIsAlone(srv: Server, f: Strategy, a: seq<Error>, ops: seq<Op>, n: nat)
    requires Loops(f, a, ops)
    ensures Alone(srv, f, a, n).0 == Loop(srv, if n < |ops| then ops[..n] else ops).0
    decreases n
  {
    hide Perform;
    assert f(a + []) == LoopNext(ops, []) && a + [] == a;
    if n > 0 && ops != [] {
      var (s, err) := Perform(srv, ops[0]);
      if err == NoError {
        LoopsOn(f, a, ops);
        LoopIsAlone(s, f, a + [err], ops[1..], n - 1);
        assert n < |ops| ==> ops[..n][1..] == ops[1..][..n - 1];
      } else {
        assert f(a + [err]) == LoopNext(ops, [err]) && err in [err];
      }
    }
  }

  /** Cut after `n` statements, the apply rule run alone is the apply pass cut there. */
  lemma ApplyIsAlone(srv: Server, create: Op, grants: seq<Op>, n: nat)
    ensures Alone(srv, ApplyStrategy(create, grants), [], n).0 == CutPass(srv, create, grants, n)
  {
    hide Perform, IgnoreAlreadyExists, Loop;
    var f := ApplyStrategy(create, grants);
    if n > 0 {
      var (s, err) := Perform(srv, create);
      assert Alone(srv, f, [], n) == Alone(s, f, [err], n - 1) by { assert [] + [err] == [err]; }
      if IgnoreAlreadyExists(err) == NoError {
        forall b ensures f([err] + b) == LoopNext(grants, b) { assert ([err] + b)[1..] == b; }
        LoopIsAlone(s, f, [err], grants, n - 1);
        assert n - 1 == |grants| ==> grants[..n - 1] == grants;
      }
    }
  }

  /** After the answers `a`, the rule `f` goes through the delete pass. */
  ghost predicate Deletes(f: Strategy, a: seq<Error>, revokes: seq<Op>, drop: Op) {
    forall b :: f(a + b) == DeleteNext(revokes, drop, b)
  }

  lemma {:induction false} DeletesAlone(srv: Server, f: Strategy, a: seq<Error>, revokes: seq<Op>, drop: Op, n: nat)
    requires Deletes(f, a, revokes, drop) && n > |revokes|
    ensures Alone(srv, f, a, n).0 == DeletePass(srv, revokes, drop).0
    decreases |revokes|
  {
    hide Perform, Code;
    assert f(a + []) == DeleteNext(revokes, drop, []) && a + [] == a;
    var op := if revokes == [] then drop else revokes[0];
    var (s, err) := Perform(srv, op);
    assert Alone(srv, f, a, n) == Alone(s, f, a + [err], n - 1);
    assert f(a + [err]) == DeleteNext(revokes, drop, [err]);
    if revokes != [] && err == NoError {
      forall b ensures f((a + [err]) + b) == DeleteNext(revokes[1..], drop, b) {
        assert (a + [err]) + b == a + ([err] + b) && ([err] + b)[1..] == b;
      }
      DeletesAlone(s, f, a + [err], revokes[1..], drop, n - 1);
    } else if revokes != [] && IgnoreNotExists(err) == NoError {
      var (t, dropErr) := Perform(s, drop);
      assert Alone(s, f, a + [err], n - 1) == Alone(t, f, a + [err] + [dropErr], n - 2);
      assert a + [err] + [dropErr] == a + [err, dropErr];
      assert f(a + [err, dropErr]) == DeleteNext(revokes, drop, [err, dropErr]);
    }
  }

  lemma DeleteIsAlone(srv: Server, revokes: seq<Op>, drop: Op)
    ensures Alone(srv, DeleteStrategy(revokes, drop), [], |revokes| + 1).0 == DeletePass(srv, revokes, drop).0
  {
    hide Alone, DeletePass;
    var f := DeleteStrategy(revokes, drop);
    forall b ensures f([] + b) == DeleteNext(revokes, drop, b) { assert [] + b == b; }
    DeletesAlone(srv, f, [], revokes, drop, |revokes| + 1);
  }

  lemma {:induction false} DeleteNextIsOne(revokes: seq<Op>, drop: Op, answers: seq<Error>)
    ensures var o := DeleteNext(revokes, drop, answers); o.Some? ==> o.value == drop || o.value in revokes
    decreases |revokes|
  {
    if revokes != [] && answers != [] { DeleteNextIsOne(revokes[1..], drop, answers[1..]); }
  }

  /** The rules of one user's passes send that user's operations only. */
  lemma PassesAreOfTheirUser(dbname: string, username: string, password: string, ps: seq<PrivilegeSpec>)
    ensures var create, grants := CreateOp(dbname, username, password), PrivilegeOps(dbname, username, true, ps);
            StrategyOf(ApplyStrategy(create, grants), dbname, username, password, ps)
    ensures var revokes, drop := PrivilegeOps(dbname, username, false, ps), DropOp(dbname, username);
            StrategyOf(DeleteStrategy(revokes, drop), dbname, username, password, ps)
  {
    hide CreateOp, DropOp, PrivilegeOp;
    var create, grants := CreateOp(dbname, username, password), PrivilegeOps(dbname, username, true, ps);
    forall answers | ApplyNext(create, grants, answers).Some?
      ensures OperationOf(ApplyNext(create, grants, answers).value, dbname, username, password, ps)
    {
      if answers != [] { assert grants[|answers| - 1] == PrivilegeOp(dbname, username, true, ps[|answers| - 1]); }
    }
    var revokes, drop := PrivilegeOps(dbname, username, false, ps), DropOp(dbname, username);
    forall answers | DeleteNext(revokes, drop, answers).Some?
      ensures OperationOf(DeleteNext(revokes, drop, answers).value, dbname, username, password, ps)
    {
      var op := DeleteNext(revokes, drop, answers).value;
      DeleteNextIsOne(revokes, drop, answers);
      if op in revokes {
        var i :| 0 <= i < |revokes| && revokes[i] == op;
        assert ps[i] in ps && op == PrivilegeOp(dbname, username, false, ps[i]);
      }
    }
  }

  /** The pass that the controller runs for this User: DELETE if deletion is requested,
      otherwise APPLY. */
  function PassFor(u: Subject, deleting: bool): Strategy {
    if deleting then DeleteStrategy(PrivilegeOps(u.dbname, u.username, false, u.ps), DropOp(u.dbname, u.username))
    else ApplyStrategy(CreateOp(u.dbname, u.username, u.password), PrivilegeOps(u.dbname, u.username, true, u.ps))
  }

  function PassesFor(us: seq<Subject>, deleting: seq<bool>): (fs: seq<Strategy>)
    requires |us| == |deleting|
    ensures |fs| == |us|
  {
    seq(|us|, i requires 0 <= i < |us| => PassFor(us[i], deleting[i]))
  }

  /** The controller's passes for any number of Users on one server, interleaved in any way
      and cut anywhere: the server ends as if they had run one after the other, and each
      pass saw what it sees alone. */
  lemma ControllersDoNotInterfere(srv: Server, us: seq<Subject>, deleting: seq<bool>, schedule: seq<nat>,
                                  counts: seq<nat>)
    requires |us| == |deleting| && Apart(us)
    requires Counted(Together(Crowd(srv, Nothing(|us|)), PassesFor(us, deleting), schedule).answers, counts)
    ensures var fs := PassesFor(us, deleting);
            var end := Together(Crowd(srv, Nothing(|us|)), fs, schedule);
            && end == InTurn(Crowd(srv, Nothing(|us|)), fs, counts)
            && forall i :: 0 <= i < |us| ==> end.answers[i] == Alone(srv, fs[i], [], counts[i]).1
  {
    hide Together, InTurn, Apart, StrategyOf, Counted, ApplyStrategy, DeleteStrategy;
    forall i | 0 <= i < |us| ensures PassOf(PassesFor(us, deleting)[i], us[i]) {
      PassesAreOfTheirUser(us[i].dbname, us[i].username, us[i].password, us[i].ps);
    }
    UsersDoNotInterfere(srv, PassesFor(us, deleting), us, schedule, counts);
  }
}
