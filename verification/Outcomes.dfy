/** How an undisturbed invocation ends: at Ready or without the object, unless a statement
    stopped it. */
module Outcomes {
  import opened Quoting
  import opened Plans
  import opened Protocol
  import opened Resources
  import opened Safety
  import opened Convergence
  import opened Deletion

  /** An error that ends the pass: not one that its caller tolerates at this statement. */
  predicate Stops(pc: Pc, err: Error) {
    && err != NoError
    && !(pc.Create? && IsAlreadyExists(err))
    && !((pc.Revoke? || pc.Drop?) && IsNotExists(err))
  }

  /** Action `k` of the run is a statement whose answer, or the lack of a way to send it, stops
      the pass. */
  ghost predicate RefusedAt(d: Desired, s0: State, run: seq<Action>, k: nat) {
    k < |run| && run[k] == Call(Done) &&
    var u := Run(d, s0, run[..k]);
    PcInRange(d, u.pc) && SendsStatement(u.pc) && Stops(u.pc, Answer(d, u, Done).1)
  }

  /** A statement was refused between these points of the run. */
  ghost predicate Refused(d: Desired, s0: State, before: seq<Action>, after: seq<Action>) {
    exists k: nat :: |before| <= k && RefusedAt(d, s0, after, k)
  }

  /** The pass, of an object marked for deletion or not, is where one is that nothing has
      stopped. */
  predicate Healthy(d: Desired, marked: bool, s: State) {
    if marked then DeletePlace(d, s) else ServingPlace(d, s)
  }

  lemma HealthyStep(d: Desired, marked: bool, s: State)
    requires Healthy(d, marked, s) && PhaseMatches(s.pc) && PcInRange(d, s.pc)
    requires SendsStatement(s.pc) ==> !Stops(s.pc, Answer(d, s, Done).1)
    ensures Healthy(d, marked, Respond(d, s, Done))
  {
    if s.pc.Idle? {
      IdleCall(d, s, Done);
    } else if !marked {
      assert !InDelete(s.pc);
      hide ServingPlace, Answer;
      if SendsStatement(s.pc) { ServingStatement(d, s); } else { ServingCall(d, s); }
      hide Respond, DeletePlace;
    } else if SendsStatement(s.pc) {
      hide Answer;
      HealthyDelete(d, s);
      hide Respond, ServingPlace, DeletePlace;
    } else {
      PassOpens(d, s);
      hide Respond, ServingPlace, DeletePlace;
    }
  }

  lemma HealthyDelete(d: Desired, s: State)
    requires DeletePlace(d, s) && SendsStatement(s.pc) && !Stops(s.pc, Answer(d, s, Done).1)
    ensures DeletePlace(d, Respond(d, s, Done))
  {
    hide RespondStatement, Respond, Answer, AfterStatement, At;
    assert s.pc.Revoke? || s.pc.Drop?;
    DoneStatementIs(d, s);
    StatementServers(d, s, Done);
    DeleteNext(d, s.pc, Answer(d, s, Done).1);
  }

  lemma HealthyForeign(d: Desired, marked: bool, s: State, address: (string, nat), op: Op)
    requires Healthy(d, marked, s)
    ensures Healthy(d, marked, StepForeign(d, s, address, op))
  {
    var t := StepForeign(d, s, address, op);
    ForeignRoles(d, s, address, op);
    hide StepForeign;
    if marked { SameDeletePlace(d, s, t); } else { SamePlace(d, s, t); }
  }

  /** A pass that nothing disturbs and no statement stops stays where it should be. */
  lemma {:induction false} HealthyRun(d: Desired, base: Servers, s0: State, marked: bool,
                                      before: seq<Action>, after: seq<Action>)
    requires before <= after && Smooth(d, after[|before|..]) && !Refused(d, s0, before, after)
    requires Inv(d, base, Run(d, s0, before)) && Healthy(d, marked, Run(d, s0, before))
    ensures Inv(d, base, Run(d, s0, after)) && Healthy(d, marked, Run(d, s0, after))
    decreases |after|
  {
    hide *;
    if |after| == |before| {
      assert after == before;
    } else {
      var init, a := after[..|after| - 1], after[|after| - 1];
      var u := Run(d, s0, init);
      LastStep(d, s0, before, after);
      SoonerRefused(d, s0, before, init, after);
      HealthyRun(d, base, s0, marked, before, init);
      InvStep(d, base, u, a);
      InPlace(d, base, u);
      if a.Foreign? {
        HealthyForeign(d, marked, u, a.address, a.op);
      } else {
        NotRefused(d, s0, before, after);
        HealthyStep(d, marked, u);
      }
    }
  }

  lemma LastStep(d: Desired, s0: State, before: seq<Action>, after: seq<Action>)
    requires before <= after && |before| < |after| && Smooth(d, after[|before|..])
    ensures var init, a := after[..|after| - 1], after[|after| - 1];
            && before <= init && Smooth(d, init[|before|..])
            && (a == Call(Done) || a.Foreign?)
            && Run(d, s0, after) == Step(d, Run(d, s0, init), a)
            && (a == Call(Done) ==> Step(d, Run(d, s0, init), a) == Respond(d, Run(d, s0, init), Done))
            && (a.Foreign? ==> Step(d, Run(d, s0, init), a) == StepForeign(d, Run(d, s0, init), a.address, a.op))
  {
    var init := after[..|after| - 1];
    SmoothPrefix(d, after[|before|..]);
    assert after[|before|..][..|after| - |before| - 1] == init[|before|..];
    StepKinds(d, Run(d, s0, init));
    hide Step, Smooth, Unrelated, Respond, StepForeign;
  }

  lemma InPlace(d: Desired, base: Servers, s: State)
    requires Inv(d, base, s)
    ensures PcInRange(d, s.pc) && PhaseMatches(s.pc)
  {
  }

  lemma NotRefused(d: Desired, s0: State, before: seq<Action>, after: seq<Action>)
    requires |before| < |after| && after[|after| - 1] == Call(Done) && !Refused(d, s0, before, after)
    ensures var u := Run(d, s0, after[..|after| - 1]);
            PcInRange(d, u.pc) && SendsStatement(u.pc) ==> !Stops(u.pc, Answer(d, u, Done).1)
  {
    hide Run, Answer, Stops;
    assert !RefusedAt(d, s0, after, |after| - 1);
  }

  lemma SoonerRefused(d: Desired, s0: State, before: seq<Action>, init: seq<Action>, after: seq<Action>)
    requires init <= after
    ensures Refused(d, s0, before, init) ==> Refused(d, s0, before, after)
  {
    hide Run, Answer, Stops;
    if Refused(d, s0, before, init) {
      var k: nat :| |before| <= k && RefusedAt(d, s0, init, k);
      assert after[..k] == init[..k];
      assert RefusedAt(d, s0, after, k);
    }
  }

  /** An undisturbed invocation for an object that is there, and is not merely waiting to go:
      at its end the object is Ready, or gone if it was marked for deletion, unless a
      statement stopped the pass. */
  lemma InvocationOutcome(d: Desired, base: Servers, stored: map<string, nat>, before: seq<Action>, after: seq<Action>)
    requires var s := Run(d, Init(base, stored), before);
             && s.pc.Idle? && Latest(s).Present? && (Latest(s).deleting ==> Latest(s).finalizer)
             && CleanInvocation(d, before, after, |s.log| - 1)
    requires Run(d, Init(base, stored), after).pc.Idle?
    ensures var s, t := Run(d, Init(base, stored), before), Run(d, Init(base, stored), after);
            || Latest(t) == (if Latest(s).deleting then Absent else Present(true, false, true))
            || Refused(d, Init(base, stored), before, after)
  {
    hide Run, Init, Inv, Smooth, Healthy, Refused;
    var s0 := Init(base, stored);
    var s := Run(d, s0, before);
    var begun := before + [Begin(|s.log| - 1)];
    InvInit(d, base, stored);
    InvRun(d, base, s0, begun);
    RunAppend(d, s0, before, [Begin(|s.log| - 1)]);
    RunOne(d, s, Begin(|s.log| - 1));
    InvRun(d, base, s0, before);
    SeenStored(d, base, s);
    HealthyStart(d, s);
    var marked := Latest(s).deleting;
    if !Refused(d, s0, before, after) {
      assert !Refused(d, s0, begun, after) by { LaterRefused(d, s0, before, begun, after); }
      HealthyRun(d, base, s0, marked, begun, after);
      HealthyEnd(d, marked, Run(d, s0, after));
    }
  }

  lemma LaterRefused(d: Desired, s0: State, before: seq<Action>, begun: seq<Action>, after: seq<Action>)
    requires before <= begun
    ensures Refused(d, s0, begun, after) ==> Refused(d, s0, before, after)
  {
  }

  lemma HealthyStart(d: Desired, s: State)
    requires s.pc.Idle? && s.seen < |s.log| && Latest(s).Present? && (Latest(s).deleting ==> Latest(s).finalizer)
    ensures Healthy(d, Latest(s).deleting, Step(d, s, Begin(|s.log| - 1)))
  {
  }

  lemma HealthyEnd(d: Desired, marked: bool, t: State)
    requires Healthy(d, marked, t) && t.pc.Idle?
    ensures Latest(t) == if marked then Absent else Present(true, false, true)
  {
  }

  // ---- the copy stays current ----

  /** The pass works from the stored version. */
  predicate Fresh(s: State) {
    HasCopy(s.pc) ==> Current(s, s.pc.copy)
  }

  lemma FreshStep(d: Desired, s: State, a: Action)
    requires Fresh(s) && SmoothStep(d, a)
    ensures Fresh(Step(d, s, a))
  {
    if a.Foreign? {
      ForeignRoles(d, s, a.address, a.op);
      hide StepForeign;
    } else if !PcInRange(d, s.pc) {
    } else if SendsStatement(s.pc) {
      CopyAfter(d, s.pc, Answer(d, s, Done).1);
      assert Step(d, s, a) == RespondStatement(d, s, Done);
      StatementServers(d, s, Done);
      hide Step, RespondStatement, AfterStatement, Answer;
    } else if WritesObject(s.pc) {
      WriteCases(d, s, Done);
      hide Respond;
    } else {
      CopyStays(d, s);
      hide Respond;
    }
  }

  lemma CopyAfter(d: Desired, pc: Pc, err: Error)
    requires PcInRange(d, pc) && SendsStatement(pc)
    ensures var q := AfterStatement(d, pc, err); HasCopy(q) ==> q.copy == pc.copy
  {
  }

  lemma CopyStays(d: Desired, s: State)
    requires PcInRange(d, s.pc) && !SendsStatement(s.pc) && !WritesObject(s.pc)
    ensures var t := Respond(d, s, Done); t.log == s.log && (HasCopy(t.pc) ==> HasCopy(s.pc) && t.pc.copy == s.pc.copy)
  {
  }

  lemma {:induction false} FreshRun(d: Desired, s: State, more: seq<Action>)
    requires Fresh(s) && Smooth(d, more)
    ensures Fresh(Run(d, s, more))
    decreases |more|
  {
    hide Step, Fresh, Smooth, SmoothStep;
    if more != [] {
      SmoothPrefix(d, more);
      FreshRun(d, s, more[..|more| - 1]);
      FreshStep(d, Run(d, s, more[..|more| - 1]), more[|more| - 1]);
    }
  }

  lemma FreshSince(d: Desired, s0: State, before: seq<Action>, after: seq<Action>)
    requires before <= after && Fresh(Run(d, s0, before)) && Smooth(d, after[|before|..])
    ensures Fresh(Run(d, s0, after))
  {
    hide *;
    assert after == before + after[|before|..];
    RunAppend(d, s0, before, after[|before|..]);
    FreshRun(d, Run(d, s0, before), after[|before|..]);
  }
}
