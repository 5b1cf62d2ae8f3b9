/** The API server and the database servers as Reconcile meets them: every call may fail or
    lose its answer, and others may write the object before it takes effect. Each method is
    one call of the protocol, made where the protocol is at that call. */
module Cluster {
  import opened Text
  import opened Quoting
  import opened Server
  import opened Plans
  import opened Resources
  import opened Protocol
  import opened Safety
  import opened Convergence
  import opened Endings
  import opened Environment

  /** `b` goes on from `a`, and if nothing has gone wrong in between, the calls were answered and others
      did only what is unrelated. */
  ghost predicate Went(d: Desired, a: seq<Action>, b: seq<Action>, before: seq<Trouble>, after: seq<Trouble>) {
    Continues(a, b) && before <= after && (before == after ==> Smooth(d, b[|a|..]))
  }

  lemma WentOn(d: Desired, a: seq<Action>, b: seq<Action>, c: seq<Action>,
               before: seq<Trouble>, between: seq<Trouble>, after: seq<Trouble>)
    requires Went(d, a, b, before, between) && Went(d, b, c, between, after)
    ensures Went(d, a, c, before, after)
  {
    hide SmoothStep;
    assert c[|a|..] == b[|a|..] + c[|b|..];
  }

  /** A point of a run: the actions so far, the versions of the object, and what has gone wrong. */
  datatype Moment = Moment(run: seq<Action>, log: seq<UserObject>, troubles: seq<Trouble>)

  /** From one moment to another without a write of the object. */
  ghost predicate From(d: Desired, a: Moment, b: Moment) {
    Went(d, a.run, b.run, a.troubles, b.troubles) && (a.troubles == b.troubles ==> b.log == a.log)
  }

  lemma FromOn(d: Desired, a: Moment, b: Moment, c: Moment)
    requires From(d, a, b) && From(d, b, c)
    ensures From(d, a, c)
  {
    Grown(d, a.run, b.run, a.troubles, b.troubles);
    Grown(d, b.run, c.run, b.troubles, c.troubles);
    hide Went;
    WentOn(d, a.run, b.run, c.run, a.troubles, b.troubles, c.troubles);
  }

  lemma FromMeans(d: Desired, a: Moment, b: Moment)
    requires From(d, a, b)
    ensures Went(d, a.run, b.run, a.troubles, b.troubles) && a.troubles <= b.troubles
    ensures a.troubles == b.troubles ==> b.log == a.log
  {
    Grown(d, a.run, b.run, a.troubles, b.troubles);
    hide Went;
  }

  /** A pass that reports a trouble has not gone smoothly. */
  lemma FromTrouble(d: Desired, a: Moment, b: Moment, c: Moment)
    requires From(d, a, b) && Continues(b.run, c.run) && b.troubles <= c.troubles && a.troubles != c.troubles
    ensures From(d, a, c)
  {
    Grown(d, a.run, b.run, a.troubles, b.troubles);
    hide Smooth;
  }

  lemma FromSelf(d: Desired, a: Moment)
    ensures From(d, a, a)
  {
    hide Went;
    WentNowhere(d, a.run, a.troubles);
  }

  lemma WentNowhere(d: Desired, a: seq<Action>, troubles: seq<Trouble>)
    ensures Went(d, a, a, troubles, troubles)
  {
  }

  lemma OneStep(d: Desired, a: seq<Action>, x: Action, before: seq<Trouble>, after: seq<Trouble>)
    requires (x.Call? || OfOthers(x)) && before <= after && (before == after ==> SmoothStep(d, x))
    ensures Went(d, a, a + [x], before, after)
  {
    hide SmoothStep;
    assert (a + [x])[|a|..] == [x];
  }

  /** `t` is `s` after steps of others: the object may have new versions, and the user's
      role is where it was and holds nothing new. */
  ghost predicate Leaves(d: Desired, s: State, t: State) {
    && t == s.(log := t.log, servers := t.servers, dropped := t.dropped)
    && s.log <= t.log && s.dropped <= t.dropped
    && forall a :: OwnKept(d, At(s.servers, a), At(t.servers, a))
  }

  ghost predicate SameOwn(d: Desired, s: State, t: State) {
    forall a :: OwnKept(d, At(s.servers, a), At(t.servers, a))
  }

  lemma OthersLeave(d: Desired, s: State, a: Action)
    requires OfOthers(a)
    ensures Leaves(d, s, Step(d, s, a))
  {
    if a.Foreign? {
      ForeignRoles(d, s, a.address, a.op);
      forall x ensures OwnKept(d, At(s.servers, x), At(Step(d, s, a).servers, x)) {
        ForeignOwn(d, s, a.address, a.op, x);
      }
      assert Step(d, s, a) == StepForeign(d, s, a.address, a.op);
      hide Perform, OwnStatement, OwnKept, NewlyDropped;
    }
  }

  lemma LeavesOn(d: Desired, s: State, t: State, u: State)
    requires Leaves(d, s, t) && Leaves(d, t, u)
    ensures Leaves(d, s, u)
  {
    hide At, Strip;
    forall a ensures OwnKept(d, At(s.servers, a), At(u.servers, a)) {
      assert OwnKept(d, At(s.servers, a), At(t.servers, a)) && OwnKept(d, At(t.servers, a), At(u.servers, a));
    }
  }

  lemma LeavesSelf(d: Desired, s: State)
    ensures Leaves(d, s, s)
  {
  }

  /** The controller's object in memory; `version` is its resourceVersion. */
  class User {
    const name: string
    var version: nat
    var finalizer: bool
    var deleting: bool
    var ready: bool

    constructor (name: string, c: Copy)
      ensures this.name == name && version == c.version && finalizer == c.finalizer
      ensures deleting == c.deleting && ready == c.ready
    {
      this.name := name;
      version, finalizer, deleting, ready := c.version, c.finalizer, c.deleting, c.ready;
    }

    function AsCopy(): Copy
      reads this
    {
      Copy(version, finalizer, deleting, ready)
    }

    /** The object is the running pass's copy, finalizer aside. */
    predicate Is(c: Copy)
      reads this
    {
      version == c.version && deleting == c.deleting && ready == c.ready
    }
  }

  /** The writes that passes ended with, and how they were answered. */
  class Closings {
    ghost var endings: seq<Ending>
    ghost var answers: seq<Error>

    constructor ()
      ensures endings == [] && answers == []
    {
      endings, answers := [], [];
    }
  }

  /** No closing write. */
  ghost predicate NotEnded(endings: seq<Ending>, answers: seq<Error>, now: Closings)
    reads now
  {
    now.endings == endings && now.answers == answers
  }

  /** One more closing write, answered so. */
  ghost predicate EndedBy(ending: Ending, answer: Error, endings: seq<Ending>, answers: seq<Error>, now: Closings)
    reads now
  {
    now.endings == endings + [ending] && now.answers == answers + [answer]
  }

  class Cluster {
    const env: Environment
    const closings: Closings
    const d: Desired
    const base: Servers
    const stored: map<string, nat>
    var s: State
    ghost var run: seq<Action>

    /** The state is what the protocol makes of the calls so far, and no closing write is
        missing. */
    ghost predicate Valid()
      reads this, closings
    {
      && s == Run(d, Init(base, stored), run) && Reached(d, s)
      && closings.endings == EndingsOf(d, Init(base, stored), run) && |closings.answers| == |closings.endings|
    }

    ghost function Now(): Moment
      reads this, env
    {
      Moment(run, s.log, env.troubles)
    }

    /** The protocol has gone on from there, without a write of the object unless something went wrong. */
    ghost predicate Since(m: Moment)
      reads this, env, closings
    {
      Valid() && From(d, m, Now())
    }

    constructor (env: Environment, d: Desired, base: Servers, stored: map<string, nat>)
      ensures Valid() && this.env == env && this.d == d && this.base == base && this.stored == stored && run == []
      ensures fresh(closings) && closings.endings == []
    {
      this.env, this.d, this.base, this.stored := env, d, base, stored;
      closings := new Closings();
      s, run := Init(base, stored), [];
      new;
      RunReaches(d, base, stored, []);
    }

    /** Any step but the call that a pass ends with. */
    method Take(a: Action)
      requires Valid() && (a.Call? ==> EndingAt(s.pc) == [])
      modifies this
      ensures Valid() && run == old(run) + [a] && s == Step(d, old(s), a)
    {
      hide Run, Init, Reached, EndingsOf;
      RunStep(d, Init(base, stored), run, a);
      EndingsOn(d, Init(base, stored), run, a);
      s, run := Step(d, s, a), run + [a];
      RunReaches(d, base, stored, run);
    }

    /** Others request deletion, edit the object, or have servers run statements about other
        roles, any number of times. */
    method Others()
      requires Valid()
      modifies this, env
      ensures Since(old(Now())) && env.pending == old(env.pending)
      ensures Leaves(d, old(s), s) && s.pc == old(s.pc)
    {
      hide Run, Init, Reached, Step, Leaves, Went, SmoothStep;
      var n: int := *;
      LeavesSelf(d, s);
      WentNowhere(d, run, env.troubles);
      while n > 0
        invariant Valid() && Went(d, old(run), run, old(env.troubles), env.troubles) && env.pending == old(env.pending)
        invariant Leaves(d, old(s), s) && s.pc == old(s.pc) && old(env.troubles) <= env.troubles
        invariant env.troubles == old(env.troubles) ==> s.log == old(s.log)
      {
        var kind: int, address: (string, nat), op: Op := *, *, *;
        var a := if kind == 0 then RequestDeletion else if kind == 1 then Touch else Foreign(address, op);
        ghost var troubles, before := env.troubles, run;
        if !SmoothStep(d, a) { env.Strike(Interference, false); }
        OthersLeave(d, s, a);
        LeavesOn(d, old(s), s, Step(d, s, a));
        OthersKeepPc(d, s, a);
        if a.Foreign? { ForeignLog(d, s, a); }
        NotSmooth(d, a);
        Take(a);
        OneStep(d, before, a, troubles, env.troubles);
        WentOn(d, old(run), before, run, old(env.troubles), troubles, env.troubles);
        n := n - 1;
      }
    }

    /** The pending call ends one way or another, after any steps of others. */
    method End() returns (before: State, fault: Fault)
      requires Valid() && EndingAt(s.pc) == []
      modifies this, env
      ensures Valid() && Went(d, old(run), run, old(env.troubles), env.troubles) && env.pending == old(env.pending)
      ensures Reached(d, before) && Leaves(d, old(s), before) && s == Respond(d, before, fault)
      ensures run != [] && run[|run| - 1] == Call(fault) && before == Run(d, Init(base, stored), run[..|run| - 1])
      ensures env.troubles == old(env.troubles) ==> fault.Done? && before.log == old(s.log)
    {
      hide Run, Init, Reached, Respond, Leaves, Went, SmoothStep;
      Others();
      before, fault := s, *;
      ghost var troubles, so := env.troubles, run;
      assert old(env.troubles) <= troubles by { Grown(d, old(run), run, old(env.troubles), troubles); }
      if !fault.Done? { env.Strike(CallNotAnswered, false); }
      Take(Call(fault));
      assert run[..|run| - 1] == so;
      DoneIsSmooth(d);
      OneStep(d, so, Call(fault), troubles, env.troubles);
      WentOn(d, old(run), so, run, old(env.troubles), troubles, env.troubles);
    }

    /** So does the call that a pass ends with. */
    method Finish() returns (before: State, err: Error)
      requires Valid() && (s.pc.WriteStatus? || s.pc.RemoveFinalizer?)
      modifies this, env, closings
      ensures Valid() && Went(d, old(run), run, old(env.troubles), env.troubles) && env.pending == old(env.pending)
      ensures closings.endings == old(closings.endings) + EndingAt(old(s.pc))
      ensures closings.answers == old(closings.answers) + [err]
      ensures Leaves(d, old(s), before)
      ensures err == NoError ==> s == Respond(d, before, Done) && Current(before, old(s.pc.copy))
      ensures err != NoError ==> err == Failure && exists fault :: s == Respond(d, before, fault)
      ensures err != NoError ==> env.troubles != old(env.troubles) || !Current(old(s), old(s.pc.copy))
    {
      hide Run, Init, Reached, Respond, Leaves, Went, SmoothStep, EndingsOf;
      Others();
      var fault: Fault;
      before, fault := s, *;
      ghost var troubles, so := env.troubles, run;
      assert old(env.troubles) <= troubles by { Grown(d, old(run), run, old(env.troubles), troubles); }
      if !fault.Done? { env.Strike(CallNotAnswered, false); }
      RunStep(d, Init(base, stored), run, Call(fault));
      EndingsOn(d, Init(base, stored), run, Call(fault));
      RunReaches(d, base, stored, run + [Call(fault)]);
      s, run := Respond(d, s, fault), run + [Call(fault)];
      err := if fault.Done? && Written(before, before.pc.copy, fault) then NoError else Failure;
      closings.endings, closings.answers := closings.endings + EndingAt(before.pc), closings.answers + [err];
      DoneIsSmooth(d);
      OneStep(d, so, Call(fault), troubles, env.troubles);
      WentOn(d, old(run), so, run, old(env.troubles), troubles, env.troubles);
    }

    // ---- the User object ----

    /** A read from the cache, which may lag but does not go back. */
    method Get() returns (found: Option<Copy>, err: Error, ghost at: nat)
      requires Valid() && s.pc.Idle?
      modifies this, env
      ensures Valid() && env.pending == old(env.pending)
      ensures err != NoError ==> err == Failure && found == None && s == old(s) && run == old(run)
      ensures err != NoError ==> env.troubles == old(env.troubles) + [ObjectNotRead]
      ensures err == NoError ==>
              old(s.seen) <= at < |old(s.log)| && run == old(run) + [Begin(at)] && s == BeginAt(d, old(s), at)
      ensures err == NoError ==>
              env.troubles == old(env.troubles) + if at + 1 == |old(s.log)| then [] else [StaleRead]
      ensures err == NoError ==> found == if old(s.log)[at].Present? then Some(CopyOf(at, old(s.log)[at])) else None
      ensures found.Some? ==> s.pc == AfterRead(d, found.value)
      ensures s.log == old(s.log)
      ensures found == None ==> s.pc.Idle?
    {
      hide Run, Init, AfterRead;
      var answered: bool, lag: nat := *, *;
      at := 0;
      if !answered {
        found, err := None, Failure;
        env.Strike(ObjectNotRead, false);
      } else {
        var version := if s.seen + lag < |s.log| then s.seen + lag else |s.log| - 1;
        if version + 1 < |s.log| { env.Strike(StaleRead, false); }
        at, err := version, NoError;
        found := if s.log[version].Present? then Some(CopyOf(version, s.log[version])) else None;
        Take(Begin(version));
      }
    }

    /** Adding the finalizer. */
    method UpdateAdding(user: User) returns (err: Error)
      requires Valid() && s.pc.AddFinalizer? && user.Is(s.pc.copy) && user.finalizer
      modifies this, env, user`version
      ensures Valid() && Went(d, old(run), run, old(env.troubles), env.troubles) && env.pending == old(env.pending)
      ensures err == NoError ==> s.pc == Advance(d, user.AsCopy(), 0)
      ensures err == NoError ==> Latest(s) == Present(true, false, user.ready) && user.version + 1 == |s.log|
      ensures err != NoError ==> s.pc == WriteStatus(old(s.pc.copy), false) && user.Is(old(s.pc.copy))
      ensures err != NoError ==> env.troubles != old(env.troubles) || !Current(old(s), old(s.pc.copy))
    {
      hide Run, Init, Went;
      var before, fault := End();
      if fault.Done? && Written(before, before.pc.copy, fault) {
        user.version := |before.log|;
        err := NoError;
      } else {
        err := Failure;
      }
    }

    /** Removing it: the object goes with its last finalizer. */
    method UpdateRemoving(user: User) returns (err: Error)
      requires Valid() && s.pc.RemoveFinalizer? && user.Is(s.pc.copy) && !user.finalizer
      modifies this, env, closings
      ensures Valid() && Went(d, old(run), run, old(env.troubles), env.troubles) && env.pending == old(env.pending)
      ensures s.pc.Idle? && (err == NoError ==> Latest(s).Absent?)
      ensures err != NoError ==> env.troubles != old(env.troubles) || !Current(old(s), old(s.pc.copy))
      ensures EndedBy(Releasing, err, old(closings.endings), old(closings.answers), closings)
    {
      hide Run, Init, Went, EndingsOf;
      var before;
      before, err := Finish();
    }

    method UpdateStatus(user: User) returns (err: Error)
      requires Valid() && s.pc.WriteStatus? && user.version == s.pc.copy.version && user.ready == s.pc.value
      modifies this, env, closings
      ensures Valid() && Went(d, old(run), run, old(env.troubles), env.troubles) && env.pending == old(env.pending)
      ensures s.pc.Idle? && (err == NoError ==> Latest(s).Present? && Latest(s).ready == user.ready)
      ensures err != NoError ==> env.troubles != old(env.troubles) || !Current(old(s), old(s.pc.copy))
      ensures EndedBy(Reporting(user.ready), err, old(closings.endings), old(closings.answers), closings)
    {
      hide Run, Init, Went, EndingsOf;
      var before;
      before, err := Finish();
    }

    // ---- what is read and made on the way ----

    /** Reading a resource or Secret that the User refers to. */
    method ReadReference() returns (err: Error)
      modifies env
      ensures err == NoError ==> env.troubles == old(env.troubles) && env.pending == old(env.pending)
      ensures err != NoError ==> err == Failure && env.troubles == old(env.troubles) + [ReferenceNotRead] && env.pending
    {
      var read: bool := *;
      err := if read then NoError else Failure;
      if !read { env.Strike(ReferenceNotRead, true); }
    }

    /** Making certificates, or an owner reference for their Secret. */
    method Prepare() returns (err: Error)
      modifies env
      ensures err == NoError ==> env.troubles == old(env.troubles) && env.pending == old(env.pending)
      ensures err != NoError ==>
                err == Failure && env.troubles == old(env.troubles) + [CertificateNotMade] && env.pending
    {
      var made: bool := *;
      err := if made then NoError else Failure;
      if !made { env.Strike(CertificateNotMade, true); }
    }

    // ---- statements and the steps around them ----

    /** A statement sent to a database of a server; `before` is what others have left. */
    method Exec(address: (string, nat), database: string, query: string) returns (err: Error, ghost before: State)
      requires Valid() && SendsStatement(s.pc) && !OutOfReach(d, s.pc)
      requires OpAt(d, s.pc) == Send(database, query) && d.refs[s.pc.i].database.Address() == address
      modifies this, env
      ensures Since(old(Now())) && env.pending == old(env.pending)
      ensures s.pc == AfterStatement(d, old(s.pc), err)
      ensures Leaves(d, old(s), before) && s.log == before.log && s.secrets == before.secrets
      ensures err != Failure ==> (At(s.servers, address), err) == ExecText(At(before.servers, address), database, query)
      ensures env.troubles == old(env.troubles) ==>
                (At(s.servers, address), err) == ExecText(At(before.servers, address), database, query)
      ensures At(s.servers, address) == At(before.servers, address) ||
              At(s.servers, address) == ExecText(At(before.servers, address), database, query).0
      ensures forall a :: a != address ==> At(s.servers, a) == At(before.servers, a)
    {
      hide Run, Init, AfterStatement, ExecText, OpAt, OutOfReach, OwnKept, Went;
      var left, fault := End();
      before := left;
      err := Answer(d, left, fault).1;
    }

    /** The statement is not sent: the entry has no privilege, or the connection cannot be
        made anew because its certificate files are gone. */
    method Refuse() returns (err: Error, ghost before: State)
      requires Valid() && SendsStatement(s.pc) && (OpAt(d, s.pc).Invalid? || OutOfReach(d, s.pc))
      modifies this, env
      ensures Since(old(Now())) && env.pending == old(env.pending)
      ensures err == Failure && s.pc == AfterStatement(d, old(s.pc), err)
      ensures Leaves(d, old(s), before) && forall a :: At(s.servers, a) == At(before.servers, a)
    {
      hide Run, Init, AfterStatement, OpAt, OutOfReach, OwnKept, Went;
      err := Failure;
      var left, fault := End();
      before := left;
      assert Answer(d, left, fault).1 == Failure;
    }

    /** A step the pass fails at without reaching the server. It may do so only to report a
        trouble: an unreadable reference or password, a file that could not be written, a
        refused connection, certificates that could not be made. */
    method Fail() returns (err: Error)
      requires Valid() && (SendsStatement(s.pc) || s.pc.Open? || s.pc.Issue? || s.pc.CreateSecret?)
      requires env.pending
      modifies this, env
      ensures Valid() && Continues(old(run), run) && old(env.troubles) <= env.troubles && !env.pending
      ensures err == Failure
      ensures s.pc == if SendsStatement(old(s.pc)) then AfterStatement(d, old(s.pc), err) else Abort(old(s.pc.copy))
      ensures s.secrets == old(s.secrets) && SameOwn(d, old(s), s)
    {
      hide Run, Init, AfterStatement, OpAt, ExecText, OutOfReach, OwnKept, Smooth;
      Others();
      err := Failure;
      env.pending := false;
      Take(Call(Failed));
    }

    /** The references were read and the connection stands. */
    method Connected()
      requires Valid() && s.pc.Open?
      modifies this, env
      ensures Since(old(Now())) && env.pending == old(env.pending)
      ensures var c, i := old(s.pc).copy, old(s.pc).i;
              s.pc == if c.deleting then NextRevoke(d, c, i, 0) else Create(c, i)
      ensures s.secrets == old(s.secrets) && SameOwn(d, old(s), s)
      ensures env.troubles == old(env.troubles) ==> s.log == old(s.log)
    {
      hide Run, Init, OwnKept, Went;
      Others();
      ghost var so := run;
      Proceed();
      WentOn(d, old(run), so, run, old(env.troubles), env.troubles, env.troubles);
    }

    /** A step that is done once it is reached. */
    method Proceed()
      requires Valid() && EndingAt(s.pc) == []
      modifies this
      ensures Valid() && run == old(run) + [Call(Done)] && s == Respond(d, old(s), Done)
      ensures Went(d, old(run), run, env.troubles, env.troubles)
    {
      hide Run, Init, Respond, Went, SmoothStep;
      DoneIsSmooth(d);
      OneStep(d, run, Call(Done), env.troubles, env.troubles);
      Take(Call(Done));
    }

    /** Certificates were made; they get the next serial. */
    method Issued() returns (serial: nat)
      requires Valid() && s.pc.Issue?
      modifies this, env
      ensures Since(old(Now())) && env.pending == old(env.pending)
      ensures s.pc == LookupSecret(old(s.pc).copy, old(s.pc).i, serial) && serial == old(s.issued)
      ensures env.troubles == old(env.troubles) ==> s.log == old(s.log)
    {
      hide Run, Init, Went;
      Others();
      ghost var so := run;
      serial := s.issued;
      Proceed();
      WentOn(d, old(run), so, run, old(env.troubles), env.troubles, env.troubles);
    }

    // ---- secrets ----

    method GetSecret(name: string) returns (err: Error)
      requires Valid() && s.pc.LookupSecret? && name == d.refs[s.pc.i].createdSecret
      modifies this, env
      ensures Since(old(Now())) && env.pending == old(env.pending)
      ensures s.secrets == old(s.secrets)
      ensures err == NoError ==> name in s.secrets && s.pc == NextGrant(d, old(s.pc).copy, old(s.pc).i, 0)
      ensures err != NoError ==> s.pc == CreateSecret(old(s.pc).copy, old(s.pc).i, old(s.pc).cert)
      ensures err != NoError ==> env.troubles != old(env.troubles) || name !in s.secrets
    {
      hide Run, Init, NextGrant, Went;
      var before, fault := End();
      err := if fault.Done? && name in before.secrets then NoError else Failure;
    }

    method PostSecret(name: string, data: nat) returns (err: Error)
      requires Valid() && s.pc.CreateSecret? && name == d.refs[s.pc.i].createdSecret && data == s.pc.cert
      modifies this, env
      ensures Since(old(Now())) && env.pending == old(env.pending)
      ensures s.pc == if err == NoError then NextGrant(d, old(s.pc).copy, old(s.pc).i, 0) else Abort(old(s.pc).copy)
      ensures err == NoError ==> name !in old(s.secrets) && s.secrets == old(s.secrets)[name := data]
      ensures err != NoError ==> env.troubles != old(env.troubles) || name in old(s.secrets)
      ensures name in old(s.secrets) ==> s.secrets == old(s.secrets)
    {
      hide Run, Init, NextGrant, Went;
      var before, fault := End();
      err := if fault.Done? && name !in before.secrets then NoError else Failure;
    }

    /** The answer is not looked at; a call that was answered has removed the Secret. */
    method RemoveSecret(name: string)
      requires Valid() && s.pc.DeleteSecret? && name == d.refs[s.pc.i].createdSecret
      modifies this, env
      ensures Since(old(Now())) && env.pending == old(env.pending)
      ensures s.pc == if old(s.pc).dropped then Advance(d, old(s.pc).copy, old(s.pc).i + 1) else Abort(old(s.pc).copy)
      ensures env.troubles == old(env.troubles) ==> name !in s.secrets
      ensures s.secrets == old(s.secrets) || s.secrets == old(s.secrets) - {name}
    {
      hide Run, Init, Went;
      var before, fault := End();
    }
  }

  lemma ForeignLog(d: Desired, s: State, a: Action)
    requires a.Foreign?
    ensures Step(d, s, a).log == s.log
  {
    ForeignRoles(d, s, a.address, a.op);
    hide StepForeign;
  }

  lemma NotSmooth(d: Desired, a: Action)
    ensures a.RequestDeletion? || a.Touch? ==> !SmoothStep(d, a)
  {
  }

  lemma DoneIsSmooth(d: Desired)
    ensures SmoothStep(d, Call(Done))
  {
  }

  lemma Grown(d: Desired, a: seq<Action>, b: seq<Action>, before: seq<Trouble>, after: seq<Trouble>)
    requires Went(d, a, b, before, after)
    ensures before <= after && Continues(a, b)
  {
  }
}
