/** The created Secret: written at most once, only by the pass that created the role, and
    never repaired by a later pass. */
module Secrets {
  import opened Quoting
  import opened Statements
  import opened Server
  import opened Plans
  import opened Passes
  import opened Resources
  import opened Protocol
  import opened Safety
  import opened Convergence

  /** Between a successful CREATE USER for ref `i` and its Secret. */
  predicate InWindow(pc: Pc, i: nat) {
    (pc.Issue? || pc.LookupSecret? || pc.CreateSecret?) && pc.i == i
  }

  /** A Secret is never overwritten; only CreateSecret adds one, under its ref's name. */
  lemma NeverOverwritten(d: Desired, s: State, a: Action)
    ensures var t := Step(d, s, a);
            forall n :: n in t.secrets ==>
              (n in s.secrets && t.secrets[n] == s.secrets[n]) ||
              (n !in s.secrets && s.pc.CreateSecret? && PcInRange(d, s.pc) && n == d.refs[s.pc.i].createdSecret &&
                  t.secrets[n] == s.pc.cert)
  {
    hide Answer, AfterStatement;
  }

  /** The step `a` is a CREATE USER for ref `i` that was answered and added the role. */
  predicate CreatesRole(d: Desired, s: State, a: Action, copy: Copy, i: nat) {
    && a == Call(Done) && s.pc == Create(copy, i) && i < |d.refs|
    && Strip(d.name) !in Keys(s.servers, d.refs[i].database.Address())
    && Strip(d.name) in Keys(Step(d, s, a).servers, d.refs[i].database.Address())
  }

  /** The run ends between a CREATE USER that added the role and the Secret of ref `i`:
      since that statement the same pass has taken only steps towards the Secret. */
  ghost predicate SinceCreate(d: Desired, s0: State, actions: seq<Action>, copy: Copy, i: nat)
    decreases |actions|
  {
    actions != [] &&
    var init, a := actions[..|actions| - 1], actions[|actions| - 1];
    var pc := Run(d, s0, actions).pc;
    && InWindow(pc, i) && pc.copy == copy
    && (CreatesRole(d, Run(d, s0, init), a, copy, i) || SinceCreate(d, s0, init, copy, i))
  }

  lemma WindowEntry(d: Desired, s: State, a: Action, i: nat)
    requires PcInRange(d, s.pc) && InWindow(Step(d, s, a).pc, i)
    ensures var t := Step(d, s, a);
            (InWindow(s.pc, i) && s.pc.copy == t.pc.copy && SameReady(s, t)) ||
                (CreatesRole(d, s, a, t.pc.copy, i) && t.log == s.log)
  {
    if a.Call? && SendsStatement(s.pc) {
      assert Step(d, s, a) == RespondStatement(d, s, a.fault);
      StatementServers(d, s, a.fault);
      hide Step, RespondStatement;
      StatementEntry(d, s, a.fault, i);
    } else {
      OtherEntry(d, s, a, i);
      hide Step;
    }
  }

  /** The stored status did not change. */
  predicate SameReady(s: State, t: State) {
    Latest(t).Present? ==>
        Latest(s).Present? && Latest(s).ready == Latest(t).ready && (Latest(s).deleting ==> Latest(t).deleting)
  }

  lemma OtherEntry(d: Desired, s: State, a: Action, i: nat)
    requires PcInRange(d, s.pc) && !(a.Call? && SendsStatement(s.pc)) && InWindow(Step(d, s, a).pc, i)
    ensures InWindow(s.pc, i) && s.pc.copy == Step(d, s, a).pc.copy && SameReady(s, Step(d, s, a))
  {
    if a.Foreign? {
      ForeignRoles(d, s, a.address, a.op);
      hide StepForeign;
    } else if a.Call? {
      CallEntry(d, s, a.fault, i);
      hide Respond;
    }
  }

  lemma CallEntry(d: Desired, s: State, fault: Fault, i: nat)
    requires PcInRange(d, s.pc) && !SendsStatement(s.pc) && InWindow(Respond(d, s, fault).pc, i)
    ensures InWindow(s.pc, i) && s.pc.copy == Respond(d, s, fault).pc.copy && SameReady(s, Respond(d, s, fault))
  {
    if WritesObject(s.pc) { NoWindowAfterWrite(d, s, fault, i); } else { QuietEntry(d, s, fault, i); }
    hide Respond;
  }

  lemma QuietEntry(d: Desired, s: State, fault: Fault, i: nat)
    requires PcInRange(d, s.pc) && !SendsStatement(s.pc) && !WritesObject(s.pc) && InWindow(Respond(d, s, fault).pc, i)
    ensures InWindow(s.pc, i) && s.pc.copy == Respond(d, s, fault).pc.copy && Respond(d, s, fault).log == s.log
  {
    if s.pc.DeleteSecret? { DeleteEntry(d, s, fault, i); hide Respond; }
    hide RespondDeleteSecret, RespondStatement, NextRevoke;
  }

  lemma DeleteEntry(d: Desired, s: State, fault: Fault, i: nat)
    requires PcInRange(d, s.pc) && s.pc.DeleteSecret?
    ensures !InWindow(Respond(d, s, fault).pc, i)
  {
  }

  lemma NoWindowAfterWrite(d: Desired, s: State, fault: Fault, i: nat)
    requires WritesObject(s.pc)
    ensures !InWindow(Respond(d, s, fault).pc, i)
  {
    WriteCases(d, s, fault);
    hide Written, Respond;
  }

  lemma StatementEntry(d: Desired, s: State, fault: Fault, i: nat)
    requires PcInRange(d, s.pc) && SendsStatement(s.pc) && InWindow(RespondStatement(d, s, fault).pc, i)
    ensures fault.Done? && s.pc == Create(RespondStatement(d, s, fault).pc.copy, i)
    ensures var a := d.refs[i].database.Address();
            Strip(d.name) !in Keys(s.servers, a) && Strip(d.name) in Keys(RespondStatement(d, s, fault).servers, a)
  {
    var t := RespondStatement(d, s, fault);
    var (srv, err) := Answer(d, s, fault);
    StatementServers(d, s, fault);
    assert t.pc == AfterStatement(d, s.pc, err);
    assert s.pc == Create(t.pc.copy, i) && err == NoError by {
      hide Answer, RespondStatement;
      WindowFromCreate(d, s.pc, err, i);
    }
    var r := d.refs[i];
    hide AfterStatement, Perform, CreateOp, Nameable, RespondStatement;
    CreateMeaning(At(s.servers, r.database.Address()), r.database.name, d.name, r.password);
  }

  lemma WindowFromCreate(d: Desired, pc: Pc, err: Error, i: nat)
    requires PcInRange(d, pc) && SendsStatement(pc) && InWindow(AfterStatement(d, pc, err), i)
    ensures pc == Create(AfterStatement(d, pc, err).copy, i) && err == NoError
  {
  }

  /** A pass is about to write the Secret of a ref only if the same pass has created the
      role on that ref's server, with nothing else done in between. */
  lemma {:induction false} SecretNeedsCreate(d: Desired, base: Servers, s0: State, actions: seq<Action>, i: nat)
    requires Inv(d, base, s0) && s0.pc.Idle?
    requires InWindow(Run(d, s0, actions).pc, i)
    ensures SinceCreate(d, s0, actions, Run(d, s0, actions).pc.copy, i)
    decreases |actions|
  {
    hide Step, Inv, CreatesRole;
    if actions != [] {
      var init, a := actions[..|actions| - 1], actions[|actions| - 1];
      var s := Run(d, s0, init);
      InvRun(d, base, s0, init);
      assert PcInRange(d, s.pc) by { InvInRange(d, base, s); }
      WindowEntry(d, s, a, i);
      if InWindow(s.pc, i) { SecretNeedsCreate(d, base, s0, init, i); }
    }
  }

  lemma InvInRange(d: Desired, base: Servers, s: State)
    requires Inv(d, base, s)
    ensures PcInRange(d, s.pc)
  {
  }

  // ---- certificate mode ----

  /** The role of ref `i` is on its server. */
  predicate HasRole(d: Desired, s: State, i: nat)
    requires i < |d.refs|
  {
    Strip(d.name) in Keys(s.servers, d.refs[i].database.Address())
  }

  predicate HasSecret(d: Desired, s: State, i: nat)
    requires i < |d.refs|
  {
    d.refs[i].createdSecret in s.secrets
  }

  /** Refs have Secrets of their own. */
  predicate DistinctSecrets(d: Desired) {
    forall i, j :: 0 <= i < j < |d.refs| ==> d.refs[i].createdSecret != d.refs[j].createdSecret
  }

  /** The step loses the Secret of ref `i` for good: the answer to the CREATE USER that adds
      the role is lost, or the pass ends between that statement and the write of the Secret.
      A Secret that is there already cannot be missed. */
  predicate Misses(d: Desired, s: State, a: Action, i: nat)
    requires i < |d.refs|
  {
    && !HasSecret(d, s, i)
    && ((s.pc.Create? && s.pc.i == i && a == Call(Lost) && !HasRole(d, s, i) && HasRole(d, Step(d, s, a), i)) ||
        (InWindow(s.pc, i) &&
            (a.Crash? || (s.pc.Issue? && a.Call? && !a.fault.Done?) || (s.pc.CreateSecret? && a == Call(Failed)))))
  }

  /** No step of the run misses the Secret of ref `i`. */
  ghost predicate NeverMissed(d: Desired, s0: State, actions: seq<Action>, i: nat)
    requires i < |d.refs|
    decreases |actions|
  {
    actions != [] ==>
      var init, a := actions[..|actions| - 1], actions[|actions| - 1];
      NeverMissed(d, s0, init, i) && !Misses(d, Run(d, s0, init), a, i)
  }

  /** The role of ref `i` has its Secret or the pass is about to write it. */
  predicate SecretFollows(d: Desired, s: State, i: nat)
    requires i < |d.refs|
  {
    HasRole(d, s, i) ==> HasSecret(d, s, i) || InWindow(s.pc, i)
  }

  lemma SecretFollowsStatement(d: Desired, s: State, fault: Fault, i: nat)
    requires DistinctServers(d) && PcInRange(d, s.pc) && (s.pc.Create? || s.pc.Grant?)
    requires i < |d.refs| && d.refs[i].database.IssuesCertificates() && SecretFollows(d, s, i)
    requires !Misses(d, s, Call(fault), i)
    ensures SecretFollows(d, RespondStatement(d, s, fault), i)
  {
    var t := RespondStatement(d, s, fault);
    assert Step(d, s, Call(fault)) == t;
    hide Step, RespondStatement;
    StatementServers(d, s, fault);
    AnswerEffect(d, s, fault);
    CreateOutcome(d, s, fault);
    var err := Answer(d, s, fault).1;
    assert s.pc.Create? && s.pc.i == i && err == NoError ==> InWindow(t.pc, i);
    assert t.secrets == s.secrets;
    assert s.pc.i != i ==> d.refs[s.pc.i].database.Address() != d.refs[i].database.Address();
    hide Answer, RespondStatement, AfterStatement, Granted, GrantOp, At;
  }

  /** A CREATE USER whose answer is not lost and reports an error has not added the role. */
  lemma CreateOutcome(d: Desired, s: State, fault: Fault)
    requires PcInRange(d, s.pc) && SendsStatement(s.pc)
    ensures s.pc.Create? && !fault.Lost? && Answer(d, s, fault).1 != NoError ==>
              Answer(d, s, fault).0 == At(s.servers, d.refs[s.pc.i].database.Address())
  {
    if s.pc.Create? {
      var r := d.refs[s.pc.i];
      hide Perform, CreateOp, Nameable;
      CreateMeaning(At(s.servers, r.database.Address()), r.database.name, d.name, r.password);
    }
  }

  lemma SecretFollowsStep(d: Desired, base: Servers, s: State, a: Action, i: nat)
    requires DistinctServers(d) && Inv(d, base, s) && !InDelete(s.pc)
    requires i < |d.refs| && d.refs[i].database.IssuesCertificates() && SecretFollows(d, s, i)
    requires !Misses(d, s, a, i)
    ensures SecretFollows(d, Step(d, s, a), i)
  {
    if a.Call? && SendsStatement(s.pc) {
      SecretFollowsStatement(d, s, a.fault, i);
      assert Step(d, s, a) == RespondStatement(d, s, a.fault);
    } else {
      SecretFollowsOther(d, s, a, i);
    }
  }

  lemma SecretFollowsOther(d: Desired, s: State, a: Action, i: nat)
    requires PcInRange(d, s.pc) && !InDelete(s.pc) && !(a.Call? && SendsStatement(s.pc))
    requires i < |d.refs| && SecretFollows(d, s, i) && !Misses(d, s, a, i)
    ensures SecretFollows(d, Step(d, s, a), i)
  {
    var t := Step(d, s, a);
    SameRole(d, s, a, i);
    SecretsStay(d, s, a);
    assert InWindow(s.pc, i) && !InWindow(t.pc, i) ==> HasSecret(d, t, i);
    hide Step, At, Misses;
  }

  lemma SameRole(d: Desired, s: State, a: Action, i: nat)
    requires i < |d.refs| && !(a.Call? && SendsStatement(s.pc))
    ensures HasRole(d, Step(d, s, a), i) <==> HasRole(d, s, i)
  {
    if a.Foreign? {
      ForeignRoles(d, s, a.address, a.op);
      assert RoleAt(d, Step(d, s, a).servers, d.refs[i].database.Address()) ==
          RoleAt(d, s.servers, d.refs[i].database.Address());
      hide StepForeign;
    } else {
      assert Step(d, s, a).servers == s.servers by { hide RespondStatement; }
    }
  }

  /** While the stored object is not marked for deletion no delete pass has ever begun. */
  lemma {:induction false} SecretFollowsRun(d: Desired, base: Servers, secrets: map<string, nat>, actions: seq<Action>,
                                            i: nat)
    requires DistinctServers(d) && Unmanaged(d, base) && i < |d.refs| && d.refs[i].database.IssuesCertificates()
    requires NeverMissed(d, Init(base, secrets), actions, i)
    requires var t := Run(d, Init(base, secrets), actions); Latest(t).Present? && !Latest(t).deleting
    ensures SecretFollows(d, Run(d, Init(base, secrets), actions), i)
    decreases |actions|
  {
    hide Step, Inv, SecretFollows, Misses, DistinctServers;
    if actions == [] {
      assert SecretFollows(d, Init(base, secrets), i) by { RolesComeLater(d, base, secrets, i); }
    } else {
      var init, a := actions[..|actions| - 1], actions[|actions| - 1];
      var s := Run(d, Init(base, secrets), init);
      InvInit(d, base, secrets);
      InvRun(d, base, Init(base, secrets), init);
      LatestKept(d, base, s, a);
      SecretFollowsRun(d, base, secrets, init, i);
      SecretFollowsStep(d, base, s, a, i);
    }
  }

  lemma RolesComeLater(d: Desired, base: Servers, secrets: map<string, nat>, i: nat)
    requires Unmanaged(d, base) && i < |d.refs|
    ensures !HasRole(d, Init(base, secrets), i) && SecretFollows(d, Init(base, secrets), i)
  {
    assert d.refs[i] in d.refs;
  }

  /** A missed Secret leaves its role behind, outside the window. */
  predicate LeftWithout(d: Desired, s: State, i: nat)
    requires i < |d.refs|
  {
    HasRole(d, s, i) && !HasSecret(d, s, i) && !InWindow(s.pc, i)
  }

  lemma MissLeaves(d: Desired, base: Servers, s: State, a: Action, i: nat)
    requires Inv(d, base, s) && i < |d.refs| && Misses(d, s, a, i)
    requires Latest(s).Present? && !Latest(s).deleting
    ensures LeftWithout(d, Step(d, s, a), i)
  {
    if InWindow(s.pc, i) {
      assert HasRole(d, s, i) by { assert RefServed(d, s, i, 0); }
      hide Inv, At;
      assert Step(d, s, a).servers == s.servers && Step(d, s, a).secrets == s.secrets;
    } else {
      hide Inv, HasRole;
      LostPlace(d, s);
    }
  }

  lemma LostPlace(d: Desired, s: State)
    requires PcInRange(d, s.pc) && s.pc.Create?
    ensures var t := Step(d, s, Call(Lost)); t.secrets == s.secrets && t.log == s.log && t.pc == Abort(s.pc.copy)
  {
    hide Perform, OpAt;
  }

  /** The answer to the CREATE USER that adds the role is lost. */
  lemma LostCreate(d: Desired, s: State, i: nat)
    requires Creatable(d.name) && i < |d.refs| && s.pc.Create? && s.pc.i == i && !HasRole(d, s, i)
    ensures var t := Step(d, s, Call(Lost));
            HasRole(d, t, i) && t.secrets == s.secrets && t.log == s.log && t.pc == Abort(s.pc.copy)
  {
    var r := d.refs[i];
    assert Step(d, s, Call(Lost)) == RespondStatement(d, s, Lost);
    StatementServers(d, s, Lost);
    LostPlace(d, s);
    hide Step, RespondStatement, Perform, CreateOp, Nameable, Strip, AfterStatement;
    CreateMeaning(At(s.servers, r.database.Address()), r.database.name, d.name, r.password);
  }

  lemma {:induction false} MissedStays(d: Desired, base: Servers, secrets: map<string, nat>, actions: seq<Action>,
                                       i: nat)
    requires DistinctServers(d) && DistinctSecrets(d) && i < |d.refs|
    requires !NeverMissed(d, Init(base, secrets), actions, i)
    requires var t := Run(d, Init(base, secrets), actions); Latest(t).Present? && !Latest(t).deleting
    ensures LeftWithout(d, Run(d, Init(base, secrets), actions), i)
    decreases |actions|
  {
    hide Step, Inv, LeftWithout, Misses, DistinctServers, DistinctSecrets;
    if actions != [] {
      var init, a := actions[..|actions| - 1], actions[|actions| - 1];
      var s := Run(d, Init(base, secrets), init);
      InvInit(d, base, secrets);
      InvRun(d, base, Init(base, secrets), init);
      LatestKept(d, base, s, a);
      if NeverMissed(d, Init(base, secrets), init, i) {
        MissLeaves(d, base, s, a, i);
      } else {
        MissedStays(d, base, secrets, init, i);
        LeftWithoutStep(d, base, s, a, i);
      }
    }
  }

  lemma LeftWithoutStep(d: Desired, base: Servers, s: State, a: Action, i: nat)
    requires DistinctSecrets(d) && DistinctServers(d) && Inv(d, base, s) && i < |d.refs|
    requires LeftWithout(d, s, i) && !InDelete(s.pc)
    ensures LeftWithout(d, Step(d, s, a), i)
  {
    hide Step, Inv, DistinctServers, DistinctSecrets, InWindow, HasRole, HasSecret;
    SettledStep(d, base, s, a, i);
  }

  /** The Secret protocol, exactly. For a ref in certificate mode, after any run without a
      deletion request: a role whose pass has left the window has its Secret if and only if
      no step missed it, and before that no step has. */
  lemma MissedExactly(d: Desired, base: Servers, secrets: map<string, nat>, actions: seq<Action>, i: nat)
    requires DistinctServers(d) && DistinctSecrets(d) && Unmanaged(d, base)
    requires i < |d.refs| && d.refs[i].database.IssuesCertificates()
    requires var t := Run(d, Init(base, secrets), actions); Latest(t).Present? && !Latest(t).deleting
    ensures var t := Run(d, Init(base, secrets), actions);
            if HasRole(d, t, i) && !InWindow(t.pc, i)
            then HasSecret(d, t, i) <==> NeverMissed(d, Init(base, secrets), actions, i)
            else NeverMissed(d, Init(base, secrets), actions, i)
  {
    hide Run, Init, NeverMissed, DistinctServers, DistinctSecrets, Unmanaged, HasRole, HasSecret, InWindow;
    if NeverMissed(d, Init(base, secrets), actions, i) {
      SecretFollowsRun(d, base, secrets, actions, i);
    } else {
      MissedStays(d, base, secrets, actions, i);
    }
  }

  lemma LatestKept(d: Desired, base: Servers, s: State, a: Action)
    requires Inv(d, base, s)
    requires var p := Latest(Step(d, s, a)); p.Present? && !p.deleting
    ensures Latest(s).Present? && !Latest(s).deleting && !InDelete(s.pc)
  {
    InvStep(d, base, s, a);
    var t := Step(d, s, a);
    assert t.log == s.log || (|t.log| == |s.log| + 1 && t.log[|s.log| - 1] == Latest(s)) by { LogStep(d, s, a); }
    assert Follows(t.log[|s.log| - 1], Latest(t));
    hide Step;
    if HasCopy(s.pc) { NotDeleting(d, s); }
  }

  lemma LogStep(d: Desired, s: State, a: Action)
    requires s.log != []
    ensures var t := Step(d, s, a);
            t.log == s.log || (|t.log| == |s.log| + 1 && t.log[..|s.log|] == s.log)
  {
    hide Answer, AfterStatement;
  }

  predicate InSomeWindow(pc: Pc) {
    pc.Issue? || pc.LookupSecret? || pc.CreateSecret?
  }

  /** Certificates are only issued while the stored status is not Ready. */
  predicate WindowNotReady(s: State) {
    Latest(s).Present? && !Latest(s).deleting && InSomeWindow(s.pc) ==> !Latest(s).ready
  }

  lemma CreatedWithoutRole(d: Desired, s: State, a: Action, copy: Copy, i: nat)
    ensures CreatesRole(d, s, a, copy, i) ==> i < |d.refs| && !HasRole(d, s, i)
  {
  }

  lemma ReadyHasRole(d: Desired, base: Servers, s: State)
    requires Inv(d, base, s)
    ensures Latest(s).Present? && !Latest(s).deleting && Latest(s).ready ==>
              forall i :: 0 <= i < |d.refs| ==> HasRole(d, s, i)
  {
    if Latest(s).Present? && !Latest(s).deleting && Latest(s).ready {
      forall i | 0 <= i < |d.refs| ensures HasRole(d, s, i) {
        assert RefServed(d, s, i, |d.refs[i].Privileges()|);
      }
    }
  }

  lemma WindowNotReadyStep(d: Desired, base: Servers, s: State, a: Action)
    requires Inv(d, base, s) && WindowNotReady(s)
    ensures WindowNotReady(Step(d, s, a))
  {
    hide Step, Inv, HasRole, CreatesRole;
    var t := Step(d, s, a);
    if InSomeWindow(t.pc) {
      InvInRange(d, base, s);
      ReadyHasRole(d, base, s);
      WindowEntry(d, s, a, t.pc.i);
      CreatedWithoutRole(d, s, a, t.pc.copy, t.pc.i);
    }
  }

  lemma {:induction false} WindowNotReadyRun(d: Desired, base: Servers, s: State, actions: seq<Action>)
    requires Inv(d, base, s) && WindowNotReady(s)
    ensures WindowNotReady(Run(d, s, actions))
    decreases |actions|
  {
    hide Step, Inv, WindowNotReady;
    if actions != [] {
      var init, a := actions[..|actions| - 1], actions[|actions| - 1];
      WindowNotReadyRun(d, base, s, init);
      InvRun(d, base, s, init);
      WindowNotReadyStep(d, base, Run(d, s, init), a);
    }
  }

  /** In a Ready state every role is there and no pass is between a CREATE USER and its Secret. */
  lemma ReadyIsPastWindow(d: Desired, base: Servers, secrets: map<string, nat>, actions: seq<Action>, i: nat)
    requires i < |d.refs|
    requires var s := Run(d, Init(base, secrets), actions); Latest(s).Present? && !Latest(s).deleting && Latest(s).ready
    ensures var s := Run(d, Init(base, secrets), actions); HasRole(d, s, i) && !InWindow(s.pc, i)
  {
    InvInit(d, base, secrets);
    assert WindowNotReady(Init(base, secrets));
    hide Run, Inv, Step, HasRole, Init;
    InvRun(d, base, Init(base, secrets), actions);
    ReadyHasRole(d, base, Run(d, Init(base, secrets), actions));
    WindowNotReadyRun(d, base, Init(base, secrets), actions);
  }

  /** When the status is Ready and deletion has not been requested, a ref in certificate
      mode whose Secret was never missed has it. */
  lemma ReadyHasSecrets(d: Desired, base: Servers, secrets: map<string, nat>, actions: seq<Action>, i: nat)
    requires DistinctServers(d) && Unmanaged(d, base) && i < |d.refs| && d.refs[i].database.IssuesCertificates()
    requires var s := Run(d, Init(base, secrets), actions); Latest(s).Present? && !Latest(s).deleting && Latest(s).ready
    ensures NeverMissed(d, Init(base, secrets), actions, i) ==> HasSecret(d, Run(d, Init(base, secrets), actions), i)
  {
    hide Run, Init, NeverMissed, DistinctServers, Unmanaged, HasRole, HasSecret, InWindow;
    if NeverMissed(d, Init(base, secrets), actions, i) {
      ReadyIsPastWindow(d, base, secrets, actions, i);
      SecretFollowsRun(d, base, secrets, actions, i);
    }
  }

  /** Ready, exactly: all Secrets of refs in certificate mode exist if and only if none was
      ever missed. */
  lemma ReadySecretsExactly(d: Desired, base: Servers, secrets: map<string, nat>, actions: seq<Action>)
    requires DistinctServers(d) && DistinctSecrets(d) && Unmanaged(d, base)
    requires var s := Run(d, Init(base, secrets), actions); Latest(s).Present? && !Latest(s).deleting && Latest(s).ready
    ensures (forall i :: 0 <= i < |d.refs| && d.refs[i].database.IssuesCertificates() ==>
            HasSecret(d, Run(d, Init(base, secrets), actions), i))
       <==> (forall i :: 0 <= i < |d.refs| && d.refs[i].database.IssuesCertificates() ==>
           NeverMissed(d, Init(base, secrets), actions, i))
  {
    hide Run, Init, NeverMissed, DistinctServers, DistinctSecrets, Unmanaged, HasRole, HasSecret, InWindow;
    forall i | 0 <= i < |d.refs| && d.refs[i].database.IssuesCertificates()
      ensures HasSecret(d, Run(d, Init(base, secrets), actions), i) <==> NeverMissed(d, Init(base, secrets), actions, i)
    {
      ReadyIsPastWindow(d, base, secrets, actions, i);
      MissedExactly(d, base, secrets, actions, i);
    }
  }

  /** One step outside the window of ref `i` leaves its Secret as it is, while its role stays. */
  lemma SettledStep(d: Desired, base: Servers, s: State, a: Action, i: nat)
    requires DistinctSecrets(d) && DistinctServers(d) && Inv(d, base, s) && i < |d.refs|
    requires HasRole(d, s, i) && !InWindow(s.pc, i) && !InDelete(s.pc)
    ensures var t := Step(d, s, a);
            HasRole(d, t, i) && !InWindow(t.pc, i) && (HasSecret(d, t, i) <==> HasSecret(d, s, i))
  {
    var t := Step(d, s, a);
    NeverOverwritten(d, s, a);
    assert HasRole(d, t, i) by {
      if a.Call? && SendsStatement(s.pc) {
        ApplyExtends(d, s, a.fault);
        assert Extends(At(s.servers, d.refs[i].database.Address()), At(t.servers, d.refs[i].database.Address()));
      } else {
        SameRole(d, s, a, i);
      }
    }
    if InWindow(t.pc, i) { WindowEntry(d, s, a, i); }
    hide Step, CreatesRole;
    assert HasSecret(d, s, i) ==> HasSecret(d, t, i) by { SecretsStay(d, s, a); }
  }

  lemma SecretsStay(d: Desired, s: State, a: Action)
    requires !s.pc.DeleteSecret?
    ensures forall n :: n in s.secrets ==> n in Step(d, s, a).secrets
  {
    hide Answer, AfterStatement;
  }

  /** Secret protocol, negative half: once a role exists and the pass that created it has
      left its window, no later pass adds the Secret or takes it away, for as long as
      deletion is not requested. A Secret that was missed is never repaired. */
  lemma {:induction false} SecretSettled(d: Desired, base: Servers, s: State, actions: seq<Action>, i: nat)
    requires DistinctSecrets(d) && DistinctServers(d) && Inv(d, base, s) && i < |d.refs|
    requires HasRole(d, s, i) && !InWindow(s.pc, i)
    requires var t := Run(d, s, actions); Latest(t).Present? && !Latest(t).deleting
    ensures var t := Run(d, s, actions);
            HasRole(d, t, i) && !InWindow(t.pc, i) && (HasSecret(d, t, i) <==> HasSecret(d, s, i))
    decreases |actions|
  {
    hide Step, Inv, DistinctServers, DistinctSecrets, InWindow;
    if actions != [] {
      var init, a := actions[..|actions| - 1], actions[|actions| - 1];
      var u := Run(d, s, init);
      InvRun(d, base, s, init);
      LatestKept(d, base, u, a);
      SecretSettled(d, base, s, init, i);
      SettledStep(d, base, u, a, i);
    }
  }

  /** The role of the first ref is created and the answer is lost. */
  lemma CreateIsLost(d: Desired, base: Servers)
    requires d.refs != [] && Creatable(d.name) && Unmanaged(d, base)
    ensures var s := Run(d, Init(base, map[]), [Begin(0), Call(Done), Call(Done), Call(Lost)]);
            HasRole(d, s, 0) && s.secrets == map[] &&
                s.log == [Present(false, false, false), Present(true, false, false)]
            && s.pc == Abort(Copy(1, true, false, false))
  {
    var s0 := Init(base, map[]);
    var s1 := Step(d, s0, Begin(0));
    var s2 := Step(d, s1, Call(Done));
    var s3 := Step(d, s2, Call(Done));
    var c := Copy(1, true, false, false);
    assert s1.pc == AddFinalizer(Copy(0, false, false, false));
    assert s2.pc == Open(c, 0) && s2.log == [Present(false, false, false), Present(true, false, false)];
    assert s3.pc == Create(c, 0) && s3.servers == base && s3.log == s2.log && s3.secrets == map[];
    RolesComeLater(d, base, map[], 0);
    hide Step, Creatable;
    FourSteps(d, s0, Begin(0), Call(Done), Call(Done), Call(Lost));
    LostCreate(d, s3, 0);
  }

  /** The window can be missed: one lost answer to the first CREATE USER is enough. */
  lemma WindowCanBeMissed(d: Desired, base: Servers)
    requires d.refs != [] && d.refs[0].database.IssuesCertificates() && Creatable(d.name) && Unmanaged(d, base)
    ensures var run := [Begin(0), Call(Done), Call(Done), Call(Lost)];
            var s := Run(d, Init(base, map[]), run);
            LeftWithout(d, s, 0) && Latest(s).Present? && !Latest(s).deleting
  {
    hide Run, HasRole, Creatable;
    CreateIsLost(d, base);
  }

  lemma FourSteps(d: Desired, s: State, a: Action, b: Action, c: Action, e: Action)
    ensures Run(d, s, [a, b, c, e]) == Step(d, Step(d, Step(d, Step(d, s, a), b), c), e)
  {
    hide Step;
    RunOne(d, s, a);
    RunAppend(d, s, [a], [b]);
    RunOne(d, Step(d, s, a), b);
    RunAppend(d, s, [a, b], [c]);
    RunOne(d, Run(d, s, [a, b]), c);
    RunAppend(d, s, [a, b, c], [e]);
    RunOne(d, Run(d, s, [a, b, c]), e);
    assert [a] + [b] == [a, b] && [a, b] + [c] == [a, b, c] && [a, b, c] + [e] == [a, b, c, e];
  }

  /** A Secret that was missed does not hold Ready back: the next undisturbed Reconcile
      reports it all the same. */
  lemma ReadyWithoutSecret(d: Desired, base: Servers, secrets: map<string, nat>, actions: seq<Action>, i: nat)
    returns (n: nat)
    requires Sensible(d) && KeepsFiles(d) && DistinctServers(d) && DistinctSecrets(d)
    requires i < |d.refs| && d.refs[i].database.IssuesCertificates()
    requires var s := Run(d, Init(base, secrets), actions);
             Latest(s).Present? && !Latest(s).deleting && Available(d, s.servers) && LeftWithout(d, s, i)
    ensures var s := Run(d, Init(base, secrets), actions);
            s.log != [] && var t := Run(d, s, CleanReconcile(s, n));
            Latest(t) == Present(true, false, true) && !HasSecret(d, t, i)
  {
    hide Run, Init, Inv, FullyServed, HasRole, HasSecret, InWindow, Sensible, Available, KeepsFiles, DistinctServers,
         DistinctSecrets, CleanReconcile, Step;
    var s := Run(d, Init(base, secrets), actions);
    n := ApplyConverges(d, base, secrets, actions);
    InvInit(d, base, secrets);
    InvRun(d, base, Init(base, secrets), actions);
    SecretSettled(d, base, s, CleanReconcile(s, n), i);
  }
}
