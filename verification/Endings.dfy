/** How a pass ends: the one write that says so, or none. Whatever fails, is lost or is
    changed by others on the way, that write tells whether a step of the pass halted it. */
module Endings {
  import opened Quoting
  import opened Plans
  import opened Resources
  import opened Protocol
  import opened Safety
  import opened Convergence
  import opened Outcomes

  // ---- passes ----

  /** A step of others: a write of the object, or a statement about another role. */
  predicate OfOthers(a: Action) {
    a.RequestDeletion? || a.Touch? || a.Foreign?
  }

  /** `b` goes on from `a` with answers to calls and steps of others. */
  predicate Continues(a: seq<Action>, b: seq<Action>) {
    a <= b && forall k :: |a| <= k < |b| ==> b[k].Call? || OfOthers(b[k])
  }

  /** What holds wherever a run has got to. */
  predicate Reached(d: Desired, s: State) {
    && PcInRange(d, s.pc) && s.seen < |s.log|
    && (!s.pc.Idle? ==> CopyStored(s, s.pc.copy)) && PhaseMatches(s.pc)
  }

  lemma RunReaches(d: Desired, base: Servers, secrets: map<string, nat>, run: seq<Action>)
    ensures Reached(d, Run(d, Init(base, secrets), run))
  {
    hide Run, RolesHeld, ReadySound;
    InvInit(d, base, secrets);
    InvRun(d, base, Init(base, secrets), run);
  }

  lemma RunStep(d: Desired, s: State, run: seq<Action>, a: Action)
    ensures Run(d, s, run + [a]) == Step(d, Run(d, s, run), a)
  {
    hide Step;
    assert (run + [a])[..|run|] == run;
  }

  // ---- endings ----

  /** A pass ends with a write of the status or by letting the object go. */
  datatype Ending = Reporting(ready: bool) | Releasing

  function EndingAt(pc: Pc): seq<Ending> {
    if pc.WriteStatus? then [Reporting(pc.value)] else if pc.RemoveFinalizer? then [Releasing] else []
  }

  /** The writes that passes of this run have ended with, answered or not. */
  function EndingsOf(d: Desired, s0: State, run: seq<Action>): seq<Ending>
    decreases |run|
  {
    if run == [] then []
    else
      var init, a := run[..|run| - 1], run[|run| - 1];
      EndingsOf(d, s0, init) + if a.Call? then EndingAt(Run(d, s0, init).pc) else []
  }

  /** A call, other than the one a pass ends with, that lets its pass go no further. */
  predicate Halts(d: Desired, s: State, fault: Fault) {
    PcInRange(d, s.pc) &&
    if SendsStatement(s.pc) then Stops(s.pc, Answer(d, s, fault).1)
    else
      match s.pc
      case AddFinalizer(c) => !fault.Done? || !Current(s, c)
      case Open(_, _) => !fault.Done?
      case Issue(_, _) => !fault.Done?
      case CreateSecret(_, i, _) => !fault.Done? || d.refs[i].createdSecret in s.secrets
      case _ => false
  }

  ghost predicate HaltsAt(d: Desired, s0: State, run: seq<Action>, k: nat) {
    k < |run| && run[k].Call? && Halts(d, Run(d, s0, run[..k]), run[k].fault)
  }

  /** A call between these points of the run halted the pass. */
  ghost predicate Halted(d: Desired, s0: State, before: seq<Action>, after: seq<Action>) {
    exists k: nat :: |before| <= k && HaltsAt(d, s0, after, k)
  }

  /** How a pass for this version of the object has to end. */
  function Due(read: UserObject, halted: bool): seq<Ending> {
    if read.Absent? then []
    else if read.deleting then if read.finalizer && !halted then [Releasing] else []
    else if halted then [Reporting(false)]
    else if read.ready then []
    else [Reporting(true)]
  }

  // ---- the course of a pass ----

  /** What is known of a pass that has got there. */
  predicate Course(read: UserObject, pc: Pc, halted: bool, made: seq<Ending>) {
    if pc.Idle? then made == Due(read, halted)
    else
      && made == [] && read.Present? && pc.copy.deleting == read.deleting && pc.copy.ready == read.ready
      && (read.deleting ==> read.finalizer && InDelete(pc) && (halted <==> pc.DeleteSecret? && !pc.dropped))
      && (!read.deleting ==> !InDelete(pc) && (halted <==> pc.WriteStatus? && !pc.value))
      && (pc.WriteStatus? && pc.value ==> !read.ready)
  }

  predicate Matches(read: UserObject, c: Copy) {
    && read.Present? && c.deleting == read.deleting && c.ready == read.ready && (read.deleting ==> read.finalizer)
  }

  lemma CourseOn(d: Desired, c: Copy, i: nat, read: UserObject)
    requires Matches(read, c)
    ensures Course(read, Advance(d, c, i), false, [])
    ensures Course(read, Abort(c), true, [])
  {
  }

  lemma CourseNext(d: Desired, c: Copy, i: nat, k: nat, read: UserObject)
    requires Matches(read, c) && i < |d.refs|
    ensures !c.deleting ==> Course(read, NextGrant(d, c, i, k), false, [])
    ensures c.deleting ==> Course(read, NextRevoke(d, c, i, k), false, [])
  {
    CourseOn(d, c, i + 1, read);
    hide Advance;
  }

  lemma CourseStatement(d: Desired, pc: Pc, err: Error, read: UserObject, halted: bool, made: seq<Ending>)
    requires PcInRange(d, pc) && SendsStatement(pc) && Course(read, pc, halted, made)
    ensures !halted && made == [] && Course(read, AfterStatement(d, pc, err), Stops(pc, err), [])
  {
    var c, i := pc.copy, pc.i;
    CourseOn(d, c, 0, read);
    if pc.Create? { CourseNext(d, c, i, 0, read); }
    if pc.Grant? { CourseNext(d, c, i, pc.k + 1, read); }
    if pc.Revoke? { CourseNext(d, c, i, pc.k + 1, read); }
    hide NextGrant, NextRevoke, Advance, Abort;
  }

  lemma CourseAdding(d: Desired, s: State, fault: Fault, read: UserObject, halted: bool, made: seq<Ending>)
    requires Reached(d, s) && s.pc.AddFinalizer? && Course(read, s.pc, halted, made)
    ensures !halted && made == [] && Course(read, Respond(d, s, fault).pc, Halts(d, s, fault), [])
  {
    WriteCases(d, s, fault);
    hide Respond;
    CourseOn(d, s.pc.copy, 0, read);
    if Current(s, s.pc.copy) { CourseOn(d, CopyOf(|s.log|, Latest(s).(finalizer := true)), 0, read); }
    hide Advance;
  }

  lemma CourseEnds(d: Desired, s: State, fault: Fault, read: UserObject, halted: bool, made: seq<Ending>)
    requires (s.pc.Idle? || s.pc.WriteStatus? || s.pc.RemoveFinalizer?) && Course(read, s.pc, halted, made)
    ensures Course(read, Respond(d, s, fault).pc, halted, made + EndingAt(s.pc)) && !Halts(d, s, fault)
  {
    WriteCases(d, s, fault);
    if s.pc.Idle? {
      assert Respond(d, s, fault) == s && made + [] == made;
    } else {
      assert made + EndingAt(s.pc) == EndingAt(s.pc);
      hide Respond;
    }
  }

  lemma CourseOther(d: Desired, s: State, fault: Fault, read: UserObject, halted: bool, made: seq<Ending>)
    requires PcInRange(d, s.pc) && !s.pc.Idle? && !SendsStatement(s.pc) && !WritesObject(s.pc)
    requires Course(read, s.pc, halted, made)
    ensures made == [] && Course(read, Respond(d, s, fault).pc, halted || Halts(d, s, fault), [])
  {
    var c, i := s.pc.copy, s.pc.i;
    CourseOn(d, c, i + 1, read);
    CourseNext(d, c, i, 0, read);
    hide NextGrant, NextRevoke, Advance, Abort;
  }

  lemma CourseCall(d: Desired, s: State, fault: Fault, read: UserObject, halted: bool, made: seq<Ending>)
    requires Reached(d, s) && Course(read, s.pc, halted, made)
    ensures Course(read, Respond(d, s, fault).pc, halted || Halts(d, s, fault), made + EndingAt(s.pc))
  {
    hide AfterStatement, Answer, Stops;
    if SendsStatement(s.pc) {
      CourseStatement(d, s.pc, Answer(d, s, fault).1, read, halted, made);
      assert Respond(d, s, fault).pc == AfterStatement(d, s.pc, Answer(d, s, fault).1);
      hide Respond;
    } else if s.pc.AddFinalizer? {
      CourseAdding(d, s, fault, read, halted, made);
      hide Respond;
    } else if s.pc.Idle? || WritesObject(s.pc) {
      CourseEnds(d, s, fault, read, halted, made);
      hide Respond;
    } else {
      CourseOther(d, s, fault, read, halted, made);
      hide Respond;
    }
  }

  lemma CourseBegins(d: Desired, s: State, at: nat)
    requires s.pc.Idle? && s.seen <= at < |s.log|
    ensures Course(s.log[at], BeginAt(d, s, at).pc, false, [])
  {
    if s.log[at].Present? && !(s.log[at].deleting && !s.log[at].finalizer) {
      CourseOn(d, CopyOf(at, s.log[at]), 0, s.log[at]);
    }
    hide Advance;
  }

  lemma OthersKeepPc(d: Desired, s: State, a: Action)
    requires OfOthers(a)
    ensures Step(d, s, a).pc == s.pc
  {
    if a.Foreign? { ForeignRoles(d, s, a.address, a.op); }
    hide StepForeign;
  }

  lemma LastCall(d: Desired, s0: State, before: seq<Action>, after: seq<Action>)
    requires |before| < |after|
    ensures var init, a := after[..|after| - 1], after[|after| - 1];
            Halted(d, s0, before, after) <==>
            Halted(d, s0, before, init) || (a.Call? && Halts(d, Run(d, s0, init), a.fault))
  {
    hide Run, Halts;
    var init, n := after[..|after| - 1], |after| - 1;
    forall k: nat | k < n ensures HaltsAt(d, s0, init, k) <==> HaltsAt(d, s0, after, k) {
      assert after[..k] == init[..k];
    }
    if Halted(d, s0, before, init) {
      var k: nat :| |before| <= k && HaltsAt(d, s0, init, k);
      assert HaltsAt(d, s0, after, k);
    }
    if after[n].Call? && Halts(d, Run(d, s0, init), after[n].fault) { assert HaltsAt(d, s0, after, n); }
    if Halted(d, s0, before, after) {
      var k: nat :| |before| <= k && HaltsAt(d, s0, after, k);
      assert k < n ==> HaltsAt(d, s0, init, k);
    }
  }

  lemma LastEnding(d: Desired, s0: State, before: seq<Action>, after: seq<Action>)
    requires before <= after && |before| < |after|
    requires EndingsOf(d, s0, before) <= EndingsOf(d, s0, after[..|after| - 1])
    ensures var init, a := after[..|after| - 1], after[|after| - 1];
            && EndingsOf(d, s0, before) <= EndingsOf(d, s0, after)
            && EndingsSince(d, s0, before, after) ==
               EndingsSince(d, s0, before, init) + if a.Call? then EndingAt(Run(d, s0, init).pc) else []
  {
    hide Run, EndingAt;
  }

  /** The endings between these points of the run. */
  function EndingsSince(d: Desired, s0: State, before: seq<Action>, after: seq<Action>): seq<Ending> {
    var n := |EndingsOf(d, s0, before)|;
    if n <= |EndingsOf(d, s0, after)| then EndingsOf(d, s0, after)[n..] else []
  }

  lemma {:induction false} CourseRun(d: Desired, base: Servers, stored: map<string, nat>, before: seq<Action>, at: nat,
                                     after: seq<Action>)
    requires var s := Run(d, Init(base, stored), before); s.pc.Idle? && s.seen <= at < |s.log|
    requires Continues(before + [Begin(at)], after)
    ensures var s0 := Init(base, stored);
            && EndingsOf(d, s0, before) <= EndingsOf(d, s0, after)
            && Course(Run(d, s0, before).log[at], Run(d, s0, after).pc, Halted(d, s0, before, after),
                      EndingsSince(d, s0, before, after))
    decreases |after|
  {
    hide *;
    var s0 := Init(base, stored);
    var read := Run(d, s0, before).log[at];
    ContinuesAfter(before + [Begin(at)], after);
    if |after| == |before| + 1 {
      FirstOfPass(d, s0, before, at, after);
    } else {
      var init, a := after[..|after| - 1], after[|after| - 1];
      var u := Run(d, s0, init);
      ContinuesSooner(before + [Begin(at)], after);
      CourseRun(d, base, stored, before, at, init);
      RunReaches(d, base, stored, init);
      LastCall(d, s0, before, after);
      LastEnding(d, s0, before, after);
      assert after == init + [a];
      RunStep(d, s0, init, a);
      if OfOthers(a) {
        OthersKeepPc(d, u, a);
        OthersAreNoCalls(a);
        assert EndingsSince(d, s0, before, after) == EndingsSince(d, s0, before, init);
      } else {
        CallStep(d, u, a);
        CourseCall(d, u, a.fault, read, Halted(d, s0, before, init), EndingsSince(d, s0, before, init));
      }
    }
  }

  lemma CallStep(d: Desired, s: State, a: Action)
    requires a.Call?
    ensures Step(d, s, a) == Respond(d, s, a.fault)
  {
    hide Respond;
  }

  lemma OthersAreNoCalls(a: Action)
    requires OfOthers(a)
    ensures !a.Call?
  {
  }

  lemma ContinuesAfter(begun: seq<Action>, after: seq<Action>)
    requires Continues(begun, after)
    ensures begun <= after
  {
  }

  lemma ContinuesSooner(begun: seq<Action>, after: seq<Action>)
    requires Continues(begun, after) && |begun| < |after|
    ensures Continues(begun, after[..|after| - 1])
    ensures begun <= after && (after[|after| - 1].Call? || OfOthers(after[|after| - 1]))
  {
  }

  lemma FirstOfPass(d: Desired, s0: State, before: seq<Action>, at: nat, after: seq<Action>)
    requires Run(d, s0, before).pc.Idle? && Run(d, s0, before).seen <= at < |Run(d, s0, before).log|
    requires Continues(before + [Begin(at)], after) && |after| == |before| + 1
    ensures EndingsOf(d, s0, before) <= EndingsOf(d, s0, after)
    ensures Course(Run(d, s0, before).log[at], Run(d, s0, after).pc, Halted(d, s0, before, after),
                   EndingsSince(d, s0, before, after))
  {
    assert after == before + [Begin(at)] && after[..|after| - 1] == before;
    RunStep(d, s0, before, Begin(at));
    CourseBegins(d, Run(d, s0, before), at);
    hide Run, Course, BeginAt;
    assert !Halted(d, s0, before, after);
  }

  /** A pass reports false exactly when a call halted it, true when none did and the status did
      not say so yet; it lets the object go exactly when it was to do so and no call halted it.
      It writes nothing else at its end, and none of this twice. */
  lemma EndsAsDue(d: Desired, base: Servers, stored: map<string, nat>, before: seq<Action>, at: nat, after: seq<Action>)
    requires var s := Run(d, Init(base, stored), before); s.pc.Idle? && s.seen <= at < |s.log|
    requires Continues(before + [Begin(at)], after) && Run(d, Init(base, stored), after).pc.Idle?
    ensures var s0 := Init(base, stored);
            EndingsOf(d, s0, after) ==
            EndingsOf(d, s0, before) + Due(Run(d, s0, before).log[at], Halted(d, s0, before, after))
  {
    CourseRun(d, base, stored, before, at, after);
    hide Run, Init, Halted, EndingsOf, Due;
  }

  lemma EndingsOn(d: Desired, s0: State, run: seq<Action>, a: Action)
    ensures EndingsOf(d, s0, run + [a]) == EndingsOf(d, s0, run) + if a.Call? then EndingAt(Run(d, s0, run).pc) else []
  {
    hide Run, EndingAt;
    assert (run + [a])[..|run|] == run;
  }
}
