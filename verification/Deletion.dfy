/** Deletion converges: whatever happened before, one undisturbed Reconcile of an object
    marked for deletion drops the role everywhere and lets the object go. */
module Deletion {
  import opened Quoting
  import opened Statements
  import opened Server
  import opened Plans
  import opened Passes
  import opened Resources
  import opened Protocol
  import opened Safety
  import opened Convergence
  import opened Obstacles

  // ---- the clean delete pass ----

  predicate DeletePlace(d: Desired, s: State) {
    && PcInRange(d, s.pc)
    && (s.pc.Idle? || InDelete(s.pc))
    && (s.pc.Idle? ==> Latest(s).Absent?)
    && (HasCopy(s.pc) ==> Latest(s).Present? && s.pc.copy == CopyOf(|s.log| - 1, Latest(s)))
    && (s.pc.DeleteSecret? ==> s.pc.dropped)
  }

  /** The first ref whose role the delete pass has still to drop. */
  function FirstAhead(d: Desired, pc: Pc): nat {
    if pc.Open? || pc.Revoke? || pc.Drop? then pc.i
    else if pc.DeleteSecret? then pc.i + 1
    else |d.refs|
  }

  /** Nothing is in the way of the rest of the pass. */
  ghost predicate ClearAhead(d: Desired, s: State)
    requires PcInRange(d, s.pc)
  {
    && OnTrack(d, s) && DoneDroppable(d, s)
    && forall j: nat :: FirstAhead(d, s.pc) <= j < |d.refs| ==> Droppable(d, s.servers, j)
  }

  /** How many refs' created Secrets the pass has had deleted. */
  function SecretsDone(d: Desired, pc: Pc): nat {
    if pc.Open? || pc.Revoke? || pc.Drop? || pc.DeleteSecret? then pc.i else |d.refs|
  }

  /** Their Secrets are gone. */
  predicate SecretsGone(d: Desired, s: State) {
    forall j :: 0 <= j < SecretsDone(d, s.pc) && j < |d.refs| ==> d.refs[j].createdSecret !in s.secrets
  }

  ghost predicate Deleting(d: Desired, base: Servers, s: State) {
    Inv(d, base, s) && DeletePlace(d, s) && ClearAhead(d, s) && SecretsGone(d, s)
  }

  /** A delete step takes the Secret of the ref it leaves, and brings none back. */
  lemma SecretsStep(d: Desired, s: State)
    requires DeletePlace(d, s) && SecretsGone(d, s) && PhaseMatches(s.pc) && !s.pc.Idle?
    requires DeletePlace(d, Respond(d, s, Done))
    ensures SecretsGone(d, Respond(d, s, Done))
  {
    var t := Respond(d, s, Done);
    SecretsLead(d, s);
    hide Respond, DeletePlace;
  }

  lemma SecretsLead(d: Desired, s: State)
    requires PcInRange(d, s.pc) && InDelete(s.pc) && PhaseMatches(s.pc)
    ensures var t := Respond(d, s, Done);
            && (s.pc.DeleteSecret? ==>
                  t.secrets == s.secrets - {d.refs[s.pc.i].createdSecret}
                  && (t.pc == Abort(s.pc.copy) || SecretsDone(d, t.pc) == s.pc.i + 1))
            && (!s.pc.DeleteSecret? ==> t.secrets == s.secrets)
            && (s.pc.DeleteSecret? ==> (s.pc.dropped <==> t.pc != Abort(s.pc.copy)))
            && (!s.pc.DeleteSecret? && !s.pc.RemoveFinalizer? ==> SecretsDone(d, t.pc) == SecretsDone(d, s.pc))
  {
    hide Answer;
    if SendsStatement(s.pc) {
      DoneAfter(d, s.pc, Answer(d, s, Done).1);
      assert Respond(d, s, Done) == RespondStatement(d, s, Done);
      StatementServers(d, s, Done);
      hide Respond, RespondStatement, AfterStatement;
    }
  }

  lemma DoneAfter(d: Desired, pc: Pc, err: Error)
    requires PcInRange(d, pc) && (pc.Revoke? || pc.Drop?)
    ensures SecretsDone(d, AfterStatement(d, pc, err)) == pc.i
  {
  }

  /** The ref at hand is droppable as it is on its server. */
  lemma DroppableHere(d: Desired, s: State)
    requires PcInRange(d, s.pc) && (s.pc.Revoke? || s.pc.Drop?) && ClearAhead(d, s)
    ensures DroppableOn(d, At(s.servers, Home(d, s.pc.i)), d.refs[s.pc.i])
    ensures OnTrackAt(d, At(s.servers, Home(d, s.pc.i)), d.refs[s.pc.i], s.pc)
  {
    hide RoleAt, Droppable, OnTrackAt, DroppableOn, Shared, DoneDroppable;
    SharedIsClean(d, s);
    FoundThere(d, s.servers, s.pc.i);
  }

  /** A REVOKE on the way to a possible DROP USER is done, or its error is swallowed. */
  lemma RevokeReply(d: Desired, s: State)
    requires Readable(d) && PcInRange(d, s.pc) && s.pc.Revoke? && ClearAhead(d, s)
    ensures var err := Answer(d, s, Done).1; err == NoError || IsNotExists(err)
  {
    var r, k := d.refs[s.pc.i], s.pc.k;
    assert r in d.refs && r.Privileges()[k] in r.Privileges();
    var srv := At(s.servers, Home(d, s.pc.i));
    DroppableHere(d, s);
    hide ClearAhead, Perform, PrivilegeOp, Accepted, Executable, Usable, HeldFor, DroppableOn, Strip, TriedOn, Legible;
    TriedIsFine(d, srv, r, k);
    RevokeVerdict(srv, r.database.name, d.name, r.Privileges()[k]);
  }

  lemma DropReply(d: Desired, s: State)
    requires Readable(d) && PcInRange(d, s.pc) && s.pc.Drop? && ClearAhead(d, s)
    ensures var err := Answer(d, s, Done).1; err == NoError || IsNotExists(err)
  {
    var r := d.refs[s.pc.i];
    var srv := At(s.servers, Home(d, s.pc.i));
    DroppableHere(d, s);
    DropTells(d, srv, r, s.pc);
    hide ClearAhead, Perform, DropOp, Nameable, DroppableOn, OnTrackAt, Blocks, Strip;
    DropMeaning(srv, r.database.name, d.name);
  }

  /** With no error, or one that is swallowed, the delete pass goes on. */
  lemma DeleteNext(d: Desired, pc: Pc, err: Error)
    requires PcInRange(d, pc) && (pc.Revoke? || pc.Drop?) && (err == NoError || IsNotExists(err))
    ensures var q := AfterStatement(d, pc, err);
            PcInRange(d, q) && InDelete(q) && q.copy == pc.copy && (q.DeleteSecret? ==> q.dropped)
  {
  }

  lemma PlaceAfterStatement(d: Desired, s: State)
    requires DeletePlace(d, s) && ClearAhead(d, s) && Readable(d) && SendsStatement(s.pc)
    ensures DeletePlace(d, RespondStatement(d, s, Done))
  {
    assert s.pc.Revoke? || s.pc.Drop?;
    hide RespondStatement, Answer, Readable, AfterStatement, ClearAhead, At;
    StatementServers(d, s, Done);
    if s.pc.Revoke? { RevokeReply(d, s); } else { DropReply(d, s); }
    DeleteNext(d, s.pc, Answer(d, s, Done).1);
  }

  lemma PassOpens(d: Desired, s: State)
    requires DeletePlace(d, s) && PhaseMatches(s.pc) && !s.pc.Idle? && !SendsStatement(s.pc)
    ensures DeletePlace(d, Respond(d, s, Done))
  {
  }

  /** The rest of the pass stays clear. */
  lemma AheadStep(d: Desired, base: Servers, s: State)
    requires Readable(d) && Inv(d, base, s) && PcInRange(d, s.pc) && ClearAhead(d, s) && InDelete(s.pc)
    requires PcInRange(d, Respond(d, s, Done).pc)
    ensures ClearAhead(d, Respond(d, s, Done))
  {
    var t := Respond(d, s, Done);
    assert t == Step(d, s, Call(Done));
    AheadCount(d, s);
    hide Respond, Step, Inv, OnTrack, DoneDroppable, Readable, Droppable, FirstAhead, InDelete;
    OnTrackStep(d, s, Call(Done));
    DoneStep(d, base, s, Call(Done));
    forall j: nat | FirstAhead(d, t.pc) <= j < |d.refs| ensures Droppable(d, t.servers, j) {
      StillDroppable(d, s, j);
    }
  }

  /** A delete step leaves the refs ahead as they are, and a REVOKE its own. */
  lemma StillDroppable(d: Desired, s: State, j: nat)
    requires Readable(d) && PcInRange(d, s.pc) && ClearAhead(d, s) && InDelete(s.pc)
    requires FirstAhead(d, Respond(d, s, Done).pc) <= j < |d.refs|
    ensures Droppable(d, Respond(d, s, Done).servers, j)
  {
    var t := Respond(d, s, Done);
    assert t == Step(d, s, Call(Done));
    AheadCount(d, s);
    assert Droppable(d, s.servers, j);
    hide Droppable, Step, Respond, OnTrack, DoneDroppable, Shared;
    if !SendsStatement(s.pc) {
      SameServers(d, s, Call(Done));
    } else if Shared(d, j) {
      SharedAlike(d, s.servers, t.servers, j);
    } else {
      assert s.pc.Drop? ==> s.pc.i < j;
      StillThere(d, s, j);
    }
  }

  lemma StillThere(d: Desired, s: State, j: nat)
    requires Readable(d) && PcInRange(d, s.pc) && ClearAhead(d, s) && (s.pc.Revoke? || s.pc.Drop?)
    requires j < |d.refs| && !Shared(d, j) && Droppable(d, s.servers, j)
    requires s.pc.i <= j && (s.pc.Drop? ==> s.pc.i < j)
    ensures Droppable(d, Respond(d, s, Done).servers, j)
  {
    assert Respond(d, s, Done) == RespondStatement(d, s, Done);
    StatementServers(d, s, Done);
    hide Respond, RespondStatement, DroppableOn, Droppable, Answer, At, ClearAhead, AfterStatement, Readable;
    FoundThere(d, s.servers, j);
    FoundThere(d, RespondStatement(d, s, Done).servers, j);
    if j == s.pc.i { OwnStillDroppable(d, s); } else { assert Home(d, j) != Home(d, s.pc.i); }
  }

  lemma OwnStillDroppable(d: Desired, s: State)
    requires Readable(d) && PcInRange(d, s.pc) && s.pc.Revoke? && ClearAhead(d, s)
    requires DroppableOn(d, At(s.servers, Home(d, s.pc.i)), d.refs[s.pc.i])
    ensures DroppableOn(d, Answer(d, s, Done).0, d.refs[s.pc.i])
  {
    hide Readable, OnTrack, DoneDroppable, DroppableOn, Answer, At;
    RevokeIsSame(d, s, Done);
  }

  lemma AheadCount(d: Desired, s: State)
    requires PcInRange(d, s.pc) && InDelete(s.pc)
    ensures var q := Respond(d, s, Done).pc;
            FirstAhead(d, s.pc) <= FirstAhead(d, q) && (s.pc.Drop? ==> s.pc.i < FirstAhead(d, q))
    ensures SendsStatement(s.pc) ==> FirstAhead(d, s.pc) == s.pc.i && (s.pc.Revoke? || s.pc.Drop?)
  {
    hide Answer;
    if SendsStatement(s.pc) {
      AfterDelete(d, s.pc, Answer(d, s, Done).1);
      assert Respond(d, s, Done).pc == AfterStatement(d, s.pc, Answer(d, s, Done).1);
      hide Respond, AfterStatement;
    }
  }

  lemma AfterDelete(d: Desired, pc: Pc, err: Error)
    requires PcInRange(d, pc) && (pc.Revoke? || pc.Drop?)
    ensures var q := AfterStatement(d, pc, err);
            pc.i <= FirstAhead(d, q) && (pc.Drop? ==> pc.i < FirstAhead(d, q))
  {
  }

  lemma DeletingStep(d: Desired, base: Servers, s: State)
    requires Deleting(d, base, s) && Readable(d) && !s.pc.Idle?
    ensures Deleting(d, base, Respond(d, s, Done))
  {
    hide *;
    var t := Respond(d, s, Done);
    DeletingMeans(d, base, s);
    InvInPlace(d, base, s);
    if SendsStatement(s.pc) { PlaceAfterStatement(d, s); DoneStatementIs(d, s); } else { PassOpens(d, s); }
    DeletePlaceInRange(d, t);
    SecretsStep(d, s);
    StepKinds(d, s);
    InvStep(d, base, s, Call(Done));
    AheadStep(d, base, s);
    DeletingIs(d, base, t);
  }

  lemma DoneStatementIs(d: Desired, s: State)
    requires PcInRange(d, s.pc) && SendsStatement(s.pc)
    ensures Respond(d, s, Done) == RespondStatement(d, s, Done)
  {
    hide RespondStatement;
  }

  lemma DeletingMeans(d: Desired, base: Servers, s: State)
    requires Deleting(d, base, s)
    ensures Inv(d, base, s) && DeletePlace(d, s) && PcInRange(d, s.pc) && ClearAhead(d, s) && SecretsGone(d, s)
    ensures !s.pc.Idle? ==> InDelete(s.pc)
  {
    hide Inv, ClearAhead, SecretsGone;
  }

  lemma DeletingIs(d: Desired, base: Servers, s: State)
    requires Inv(d, base, s) && DeletePlace(d, s) && PcInRange(d, s.pc) && ClearAhead(d, s) && SecretsGone(d, s)
    ensures Deleting(d, base, s)
  {
    hide Inv, ClearAhead, SecretsGone, DeletePlace;
  }

  lemma DeletePlaceInRange(d: Desired, s: State)
    requires DeletePlace(d, s)
    ensures PcInRange(d, s.pc)
  {
  }

  /** Unrelated statements of others leave the pass where it is. */
  lemma DeletingForeign(d: Desired, base: Servers, s: State, address: (string, nat), op: Op)
    requires Deleting(d, base, s) && Unrelated(d, Foreign(address, op))
    ensures Deleting(d, base, StepForeign(d, s, address, op))
  {
    var t := StepForeign(d, s, address, op);
    ForeignRoles(d, s, address, op);
    StepKinds(d, s);
    SameDeletePlace(d, s, t);
    assert FirstAhead(d, t.pc) == FirstAhead(d, s.pc);
    hide StepForeign, Unrelated, Inv, OnTrack, DoneDroppable, Droppable, Step, DeletePlace, FirstAhead;
    InvStep(d, base, s, Foreign(address, op));
    DeletePlaceInRange(d, s);
    DeletePlaceInRange(d, t);
    ForeignOnTrack(d, s, address, op);
    ForeignDone(d, s, address, op);
    forall j: nat | FirstAhead(d, t.pc) <= j < |d.refs| ensures Droppable(d, t.servers, j) {
      ForeignDroppable(d, s, address, op, j);
    }
  }

  lemma SameDeletePlace(d: Desired, s: State, t: State)
    requires DeletePlace(d, s) && t.log == s.log && t.pc == s.pc
    ensures DeletePlace(d, t)
  {
  }

  /** While calls are answered and others do only what is unrelated, the pass goes on to the
      end of the object. */
  lemma {:induction false} DeletingRun(d: Desired, base: Servers, s: State, more: seq<Action>)
    requires Deleting(d, base, s) && Readable(d) && Smooth(d, more)
    ensures Deleting(d, base, Run(d, s, more))
    decreases |more|
  {
    hide Step, Deleting, Readable, Smooth, Unrelated;
    if more != [] {
      var init, a := more[..|more| - 1], more[|more| - 1];
      var u := Run(d, s, init);
      SmoothPrefix(d, more);
      DeletingRun(d, base, s, init);
      StepKinds(d, u);
      if a.Foreign? { DeletingForeign(d, base, u, a.address, a.op); }
      else if u.pc.Idle? { IdleCall(d, u, Done); }
      else { DeletingStep(d, base, u); }
    }
  }

  lemma DeletingBegin(d: Desired, base: Servers, s: State)
    requires Inv(d, base, s) && AllDroppable(d, s.servers)
    requires Latest(s).Present? && Latest(s).deleting && Latest(s).finalizer && s.seen < |s.log|
    ensures Deleting(d, base, BeginAt(d, s.(pc := Idle), |s.log| - 1))
  {
    var idle := s.(pc := Idle);
    var begun := BeginAt(d, idle, |s.log| - 1);
    assert Step(d, s, Crash) == idle && Step(d, idle, Begin(|s.log| - 1)) == begun;
    assert begun.pc == Advance(d, CopyOf(|s.log| - 1, Latest(s)), 0);
    assert begun.servers == s.servers && CleanedCount(d, begun.pc) == if d.refs == [] then |d.refs| else 0;
    hide Step, Inv, Droppable, BeginAt, CleanedCount;
    InvStep(d, base, s, Crash);
    InvStep(d, base, idle, Begin(|s.log| - 1));
  }

  lemma DeletingGoal(d: Desired, base: Servers, t: State)
    requires Deleting(d, base, t) && t.pc.Idle?
    ensures Latest(t).Absent? && NoNewRole(d, base, t) && NoSecrets(d, t)
  {
  }

  /** No ref's created Secret is left. */
  predicate NoSecrets(d: Desired, s: State) {
    forall r :: r in d.refs ==> r.createdSecret !in s.secrets
  }

  /** Only the last delete step takes the finalizer away, and the object with it. */
  lemma LatestStep(d: Desired, s: State, a: Action)
    ensures var o, p := Latest(s), Latest(Step(d, s, a));
            p.Present? ==> o.Present? && (o.finalizer ==> p.finalizer) && (p.deleting && !o.deleting ==> p.finalizer)
  {
    if a.Call? && SendsStatement(s.pc) {
      hide Answer, AfterStatement;
    }
    hide Perform, OwnStatement;
  }

  /** An object marked for deletion still has the finalizer. */
  lemma {:induction false} MarkedHasFinalizer(d: Desired, s: State, actions: seq<Action>)
    requires Latest(s).Present? && Latest(s).deleting ==> Latest(s).finalizer
    ensures var t := Run(d, s, actions); Latest(t).Present? && Latest(t).deleting ==> Latest(t).finalizer
    decreases |actions|
  {
    if actions != [] {
      var init, a := actions[..|actions| - 1], actions[|actions| - 1];
      MarkedHasFinalizer(d, s, init);
      hide Step;
      LatestStep(d, Run(d, s, init), a);
    }
  }

  /** An undisturbed Reconcile whose end has come: if nothing was in the way, the role is
      gone, and so are the created Secrets and the object. */
  lemma InvocationDeletes(d: Desired, base: Servers, secrets: map<string, nat>, before: seq<Action>, after: seq<Action>)
    requires Readable(d)
    requires var s := Run(d, Init(base, secrets), before);
             && s.pc.Idle? && Latest(s).Present? && Latest(s).deleting && AllDroppable(d, s.servers)
             && CleanInvocation(d, before, after, |s.log| - 1)
    requires Run(d, Init(base, secrets), after).pc.Idle?
    ensures var t := Run(d, Init(base, secrets), after);
            Latest(t).Absent? && NoNewRole(d, base, t) && NoSecrets(d, t)
  {
    hide Inv, Run, Init, Readable, Deleting, Smooth, BeginAt, NoNewRole, AllDroppable;
    var s0 := Init(base, secrets);
    var s := Run(d, s0, before);
    var more := after[|before| + 1..];
    MarkedHasFinalizer(d, s0, before) by { StartUnmarked(d, base, secrets); }
    InvInit(d, base, secrets);
    InvRun(d, base, s0, before);
    SeenStored(d, base, s);
    DeletingBegin(d, base, s);
    assert s.(pc := Idle) == s;
    assert Step(d, s, Begin(|s.log| - 1)) == BeginAt(d, s, |s.log| - 1);
    hide Step;
    assert after == before + ([Begin(|s.log| - 1)] + more);
    RunAppend(d, s0, before, [Begin(|s.log| - 1)] + more);
    RunAppend(d, s, [Begin(|s.log| - 1)], more);
    RunOne(d, s, Begin(|s.log| - 1));
    DeletingRun(d, base, BeginAt(d, s, |s.log| - 1), more);
    DeletingGoal(d, base, Run(d, s0, after));
  }

  lemma StartUnmarked(d: Desired, base: Servers, secrets: map<string, nat>)
    ensures var s := Init(base, secrets); Latest(s).Present? && Latest(s).deleting ==> Latest(s).finalizer
  {
  }

  /** Convergence, deletion requested: after any run, one undisturbed Reconcile drops the
      role from every server and removes the object, if nothing is in the way of a DROP
      USER; no created Secret is left either. It does not need the roles named by the entries to exist,
          nor the apply passes
      to have been able to finish, nor the refs to be on different servers. */
  lemma DeletionConverges(d: Desired, base: Servers, secrets: map<string, nat>, actions: seq<Action>) returns (n: nat)
    requires Readable(d)
    requires var s := Run(d, Init(base, secrets), actions);
             Latest(s).Present? && Latest(s).deleting && AllDroppable(d, s.servers)
    ensures var s := Run(d, Init(base, secrets), actions);
            s.log != [] &&
            var t := Run(d, s, CleanReconcile(s, n));
            t.pc.Idle? && Latest(t).Absent? && NoNewRole(d, base, t) && NoSecrets(d, t)
  {
    hide Run, Init, Readable, NoNewRole, Inv, CleanReconcile, CleanInvocation, AllDroppable;
    var s0 := Init(base, secrets);
    var s := Run(d, s0, actions);
    InvInit(d, base, secrets);
    InvRun(d, base, s0, actions);
    SeenStored(d, base, s);
    n := CleanEnds(d, s);
    CleanIsInvocation(d, s0, actions, n);
    InvocationDeletes(d, base, secrets, actions + [Crash], actions + CleanReconcile(s, n));
  }
}
