/** What every run of the protocol keeps: finalizer safety and soundness of Ready. */
module Safety {
  import opened Sql
  import opened Quoting
  import opened Statements
  import opened Server
  import opened Plans
  import opened Resources
  import opened Protocol

  // ---- the object's history ----

  /** Nothing that was decided is taken back: gone stays gone, deletion stays requested,
      the finalizer stays until the object goes. */
  predicate Follows(a: UserObject, b: UserObject) {
    && (a.Absent? ==> b.Absent?)
    && (a.Present? && b.Present? ==> (a.deleting ==> b.deleting) && (a.finalizer ==> b.finalizer))
  }

  ghost predicate History(s: State) {
    && s.seen < |s.log|
    && forall i, j :: 0 <= i <= j < |s.log| ==> Follows(s.log[i], s.log[j])
  }

  predicate HasCopy(pc: Pc) {
    !pc.Idle?
  }

  /** The pass works from a version that was stored, no older than what the cache served. */
  predicate CopyStored(s: State, c: Copy) {
    s.seen <= c.version < |s.log| && s.log[c.version] == Present(c.finalizer, c.deleting, c.ready)
  }

  predicate InApply(pc: Pc) {
    || pc.Create? || pc.Issue? || pc.LookupSecret? || pc.CreateSecret? || pc.Grant?
    || (pc.Open? && !pc.copy.deleting)
  }

  predicate InDelete(pc: Pc) {
    || pc.Revoke? || pc.Drop? || pc.DeleteSecret? || pc.RemoveFinalizer?
    || (pc.Open? && pc.copy.deleting)
  }

  /** Apply steps work from a copy with the finalizer and without deletion, delete steps
      from one with both; the finalizer is added from a copy with neither. */
  predicate PhaseMatches(pc: Pc) {
    && (InApply(pc) ==> pc.copy.finalizer && !pc.copy.deleting)
    && (InDelete(pc) ==> pc.copy.finalizer && pc.copy.deleting)
    && (pc.AddFinalizer? ==> !pc.copy.finalizer && !pc.copy.deleting)
    && (pc.WriteStatus? ==> !pc.copy.deleting)
  }

  predicate Ended(o: UserObject) {
    o.Absent? || o.deleting
  }

  /** Once an object that had the finalizer is gone, the cache has already served its deletion. */
  ghost predicate ReleaseObserved(s: State)
    requires s.seen < |s.log|
  {
    Latest(s).Absent? && (exists i :: 0 <= i < |s.log| && s.log[i].Present? && s.log[i].finalizer) ==>
        Ended(s.log[s.seen])
  }

  ghost predicate Protocolled(d: Desired, s: State) {
    && History(s)
    && PcInRange(d, s.pc)
    && PhaseMatches(s.pc)
    && (HasCopy(s.pc) ==> CopyStored(s, s.pc.copy))
    && ReleaseObserved(s)
    && (InApply(s.pc) ==> Latest(s).Present?)
    && (InDelete(s.pc) ==> s.pc.copy.version == s.seen)
  }

  // ---- roles ----

  function Keys(servers: Servers, a: (string, nat)): set<string> {
    At(servers, a).roles.Keys
  }

  /** The user's role is on a server. */
  predicate RoleAt(d: Desired, servers: Servers, a: (string, nat)) {
    Strip(d.name) in Keys(servers, a)
  }

  /** The user's role is on no server where it was not to begin with. */
  ghost predicate NoNewRole(d: Desired, base: Servers, s: State) {
    forall a :: RoleAt(d, s.servers, a) ==> RoleAt(d, base, a)
  }

  predicate Referenced(d: Desired, a: (string, nat)) {
    exists i :: 0 <= i < |d.refs| && d.refs[i].database.Address() == a
  }

  /** The user's role is new only on servers the spec refers to. */
  ghost predicate RoleInPlace(d: Desired, base: Servers, s: State) {
    forall a :: RoleAt(d, s.servers, a) ==> RoleAt(d, base, a) || Referenced(d, a)
  }

  /** The first `n` refs have been cleaned. */
  ghost predicate Cleaned(d: Desired, base: Servers, s: State, n: nat) {
    forall i :: 0 <= i < n && i < |d.refs| ==>
      var a := d.refs[i].database.Address(); RoleAt(d, s.servers, a) ==> RoleAt(d, base, a)
  }

  /** How many refs the running delete pass has cleaned. */
  function CleanedCount(d: Desired, pc: Pc): nat {
    if pc.RemoveFinalizer? then |d.refs|
    else if pc.DeleteSecret? && pc.dropped then pc.i + 1
    else if InDelete(pc) then pc.i
    else 0
  }

  ghost predicate RolesHeld(d: Desired, base: Servers, s: State) {
    && RoleInPlace(d, base, s)
    && (!(Latest(s).Present? && Latest(s).finalizer) ==> NoNewRole(d, base, s))
    && Cleaned(d, base, s, CleanedCount(d, s.pc))
  }

  // ---- Ready ----

  /** Everything one ref asks for is on its server. */
  predicate Granted(srv: Server, op: Op) {
    ParseOp(op).Some? && ParseOp(op).value.Change? &&
    var st := ParseOp(op).value;
    st.give && st.role in srv.roles && HeldOf(op.database, st.privilege, st.target) in srv.roles[st.role]
  }

  function GrantOp(d: Desired, i: nat, k: nat): Op
    requires i < |d.refs| && k < |d.refs[i].Privileges()|
  {
    PrivilegeOp(d.refs[i].database.name, d.name, true, d.refs[i].Privileges()[k])
  }

  /** The operation is about membership in role `n`. */
  predicate OfRole(op: Op, n: string) {
    ParseOp(op).Some? && Names(ParseOp(op).value, n)
  }

  /** Entry `k` of ref `i` is membership in a role that others have dropped there. */
  predicate Excused(d: Desired, s: State, i: nat, k: nat)
    requires i < |d.refs| && k < |d.refs[i].Privileges()|
  {
    exists x :: x in s.dropped && x.0 == d.refs[i].database.Address() && OfRole(GrantOp(d, i, k), x.1)
  }

  /** The entry's text makes its statement a grant to another role. */
  predicate Astray(d: Desired, i: nat, k: nat)
    requires i < |d.refs| && k < |d.refs[i].Privileges()|
  {
    ParseOp(GrantOp(d, i, k)).Some? && ParseOp(GrantOp(d, i, k)).value.role != Strip(d.name)
  }

  predicate EntryServed(d: Desired, s: State, i: nat, k: nat)
    requires i < |d.refs| && k < |d.refs[i].Privileges()|
  {
    Granted(At(s.servers, d.refs[i].database.Address()), GrantOp(d, i, k)) || Excused(d, s, i, k) || Astray(d, i, k)
  }

  ghost predicate RefServed(d: Desired, s: State, i: nat, n: nat)
    requires i < |d.refs|
  {
    && RoleAt(d, s.servers, d.refs[i].database.Address())
    && forall k :: 0 <= k < n && k < |d.refs[i].Privileges()| ==> EntryServed(d, s, i, k)
  }

  ghost predicate RefsServed(d: Desired, s: State, n: nat) {
    forall i :: 0 <= i < n && i < |d.refs| ==> RefServed(d, s, i, |d.refs[i].Privileges()|)
  }

  /** Every referenced server has the role and every listed grant, but for memberships in
      roles that others have dropped. */
  ghost predicate AllServed(d: Desired, s: State) {
    RefsServed(d, s, |d.refs|)
  }

  /** The same with nothing excused. */
  ghost predicate FullyServed(d: Desired, s: State) {
    AllServed(d, s.(dropped := {}))
  }

  /** What the running apply pass has established. */
  ghost predicate Progress(d: Desired, s: State) {
    if s.pc.WriteStatus? then s.pc.value ==> AllServed(d, s)
    else if InApply(s.pc) && PcInRange(d, s.pc) then
      && RefsServed(d, s, s.pc.i)
      && (!s.pc.Open? && !s.pc.Create? ==> RefServed(d, s, s.pc.i, if s.pc.Grant? then s.pc.k else 0))
    else true
  }

  /** While nobody asked for deletion, a stored Ready is true. */
  ghost predicate ReadySound(d: Desired, s: State) {
    Latest(s).Present? && !Latest(s).deleting ==> (Latest(s).ready ==> AllServed(d, s)) && Progress(d, s)
  }

  ghost predicate Inv(d: Desired, base: Servers, s: State) {
    Protocolled(d, s) && RolesHeld(d, base, s) && ReadySound(d, s)
  }

  // ---- effect of statements on one server ----

  lemma AnswerEffect(d: Desired, s: State, fault: Fault)
    requires SendsStatement(s.pc) && PcInRange(d, s.pc)
    ensures var srv := At(s.servers, d.refs[s.pc.i].database.Address());
            var (t, err) := Answer(d, s, fault);
            var own := Strip(d.name);
            && (s.pc.Create? ==> Extends(srv, t) && t.roles.Keys <= srv.roles.Keys + {own})
            && (s.pc.Create? && (err == NoError || IsAlreadyExists(err)) ==> own in t.roles)
            && (s.pc.Grant? ==> Extends(srv, t) && t.roles.Keys == srv.roles.Keys)
            && (s.pc.Grant? && err == NoError ==> Granted(t, GrantOp(d, s.pc.i, s.pc.k)))
            && (s.pc.Revoke? ==> t.roles.Keys == srv.roles.Keys)
            && (s.pc.Drop? ==> srv.roles.Keys - {own} <= t.roles.Keys <= srv.roles.Keys)
            && (s.pc.Drop? && (err == NoError || IsNotExists(err)) ==> own !in t.roles)
  {
    hide Parse, CreateOp, DropOp, PrivilegeOp, IsChangeOp, Nameable;
    var srv := At(s.servers, d.refs[s.pc.i].database.Address());
    var r := d.refs[s.pc.i];
    match s.pc
    case Create(_, _) =>
      hide Perform;
      CreateMeaning(srv, r.database.name, d.name, r.password);
    case Drop(_, _, _) =>
      hide Perform;
      DropMeaning(srv, r.database.name, d.name);
    case Grant(_, _, k) =>
      PrivilegeOpIsChange(r.database.name, d.name, true, r.Privileges()[k]);
      ChangeEffect(srv, OpAt(d, s.pc), true);
      GrantLands(srv, OpAt(d, s.pc));
    case Revoke(_, _, k) =>
      PrivilegeOpIsChange(r.database.name, d.name, false, r.Privileges()[k]);
      ChangeEffect(srv, OpAt(d, s.pc), false);
  }

  lemma GrantLands(srv: Server, op: Op)
    requires IsChangeOp(op, true)
    ensures Perform(srv, op).1 == NoError ==> Granted(Perform(srv, op).0, op)
  {
    hide Parse;
  }

  lemma GrantedKept(a: Server, b: Server, op: Op)
    requires Extends(a, b) && Granted(a, op)
    ensures Granted(b, op)
  {
  }

  // ---- one step at a time ----

  lemma AppendKeepsHistory(s: State, t: State, o: UserObject)
    requires History(s) && Follows(Latest(s), o)
    requires t.log == s.log + [o] && t.seen == s.seen
    ensures History(t)
    ensures forall c :: CopyStored(s, c) ==> CopyStored(t, c)
  {
    forall i, j | 0 <= i <= j < |t.log| ensures Follows(t.log[i], t.log[j]) {
      assert i < |s.log| ==> Follows(s.log[i], Latest(s));
    }
  }

  lemma ProtocolledEnvironment(d: Desired, s: State, a: Action)
    requires Protocolled(d, s) && (a.RequestDeletion? || a.Touch? || a.Crash?)
    ensures Protocolled(d, Step(d, s, a))
  {
    var t := Step(d, s, a);
    if |t.log| > |s.log| {
      AppendKeepsHistory(s, t, t.log[|s.log|]);
      if HasCopy(s.pc) { assert CopyStored(t, s.pc.copy); }
      if InApply(s.pc) { assert Follows(s.log[s.pc.copy.version], Latest(s)); }
      if Latest(t).Absent? {
        forall i | 0 <= i < |t.log| && t.log[i].Present? ensures !t.log[i].finalizer {
          assert Follows(s.log[i], Latest(s));
        }
      }
    }
  }

  lemma ProtocolledBegin(d: Desired, s: State, at: nat)
    requires Protocolled(d, s)
    ensures Protocolled(d, BeginAt(d, s, at))
  {
    if s.pc.Idle? && s.seen <= at < |s.log| {
      assert Follows(s.log[s.seen], s.log[at]);
      assert Follows(s.log[at], Latest(s));
    }
  }

  lemma ProtocolledWrite(d: Desired, s: State, t: State, o: UserObject)
    requires Protocolled(d, s) && HasCopy(s.pc) && Current(s, s.pc.copy)
    requires t.log == s.log + [o] && t.seen == s.seen && Follows(Latest(s), o)
    requires o.Absent? ==> s.pc.copy.deleting && s.pc.copy.version == s.seen && t.pc == Idle
    ensures History(t) && ReleaseObserved(t)
    ensures forall c :: CopyStored(s, c) ==> CopyStored(t, c)
  {
    AppendKeepsHistory(s, t, o);
  }

  predicate WritesObject(pc: Pc) {
    pc.AddFinalizer? || pc.WriteStatus? || pc.RemoveFinalizer?
  }

  lemma ProtocolledWrites(d: Desired, s: State, fault: Fault)
    requires Protocolled(d, s) && WritesObject(s.pc)
    ensures Protocolled(d, Respond(d, s, fault))
  {
    var t := Respond(d, s, fault);
    if Written(s, s.pc.copy, fault) {
      WriteLands(d, s, fault);
      ProtocolledWrite(d, s, t, t.log[|s.log|]);
    } else {
      NotWritten(d, s, fault);
    }
    hide History, ReleaseObserved, Written, Respond;
  }

  /** A write that did not reach the store. */
  lemma NotWritten(d: Desired, s: State, fault: Fault)
    requires WritesObject(s.pc) && !Written(s, s.pc.copy, fault)
    ensures var t := Respond(d, s, fault);
            t == s.(pc := if s.pc.AddFinalizer? then WriteStatus(s.pc.copy, false) else Idle)
  {
    WriteCases(d, s, fault);
    hide Respond, Written;
  }

  lemma WriteLands(d: Desired, s: State, fault: Fault)
    requires Protocolled(d, s) && WritesObject(s.pc) && Written(s, s.pc.copy, fault)
    ensures var t := Respond(d, s, fault);
            && |t.log| == |s.log| + 1 && t.log == s.log + [t.log[|s.log|]] && t.seen == s.seen
            && Follows(Latest(s), t.log[|s.log|])
            && (t.log[|s.log|].Absent? ==> s.pc.copy.deleting && s.pc.copy.version == s.seen && t.pc == Idle)
            && PcInRange(d, t.pc) && PhaseMatches(t.pc)
            && (HasCopy(t.pc) ==> (CopyStored(s, s.pc.copy) && t.pc.copy == s.pc.copy) || CopyStored(t, t.pc.copy))
            && (InApply(t.pc) ==> Latest(t).Present?) && !InDelete(t.pc)
  {
    WriteCases(d, s, fault);
    hide History, ReleaseObserved, Respond;
  }

  /** The pass goes on with the same copy, in the same phase. */
  predicate FlowsTo(d: Desired, p: Pc, q: Pc) {
    && PcInRange(d, q)
    && PhaseMatches(q)
    && (HasCopy(q) ==> HasCopy(p) && q.copy == p.copy)
    && (InApply(q) ==> InApply(p))
    && (InDelete(q) ==> InDelete(p))
  }

  /** DROP USER succeeded, or found no role. */
  predicate Dropped(pc: Pc, err: Error) {
    pc.Drop? && (err == NoError || IsNotExists(err))
  }

  lemma StatementFlow(d: Desired, pc: Pc, err: Error)
    requires SendsStatement(pc) && PcInRange(d, pc) && PhaseMatches(pc)
    ensures FlowsTo(d, pc, AfterStatement(d, pc, err))
    ensures InApply(pc) ==> CleanedCount(d, AfterStatement(d, pc, err)) == 0
    ensures InDelete(pc) ==> CleanedCount(d, AfterStatement(d, pc, err)) <= pc.i + (if Dropped(pc, err) then 1 else 0)
  {
  }

  lemma CallFlow(d: Desired, s: State, fault: Fault)
    requires PcInRange(d, s.pc) && PhaseMatches(s.pc) && !WritesObject(s.pc) && !SendsStatement(s.pc)
    ensures var t := Respond(d, s, fault);
            && t.log == s.log && t.seen == s.seen && t.servers == s.servers
            && FlowsTo(d, s.pc, t.pc) && CleanedCount(d, t.pc) <= CleanedCount(d, s.pc)
  {
    if s.pc.DeleteSecret? { DeleteSecretFlow(d, s, fault); hide Respond; }
    else if s.pc.LookupSecret? || s.pc.CreateSecret? { SecretFlow(d, s, fault); hide Respond; }
    else if s.pc.Open? { OpenFlow(d, s, fault); hide Respond; }
    hide RespondLookup, RespondCreateSecret, RespondDeleteSecret, RespondStatement, NextGrant, NextRevoke, Advance;
  }

  lemma DeleteSecretFlow(d: Desired, s: State, fault: Fault)
    requires PcInRange(d, s.pc) && PhaseMatches(s.pc) && s.pc.DeleteSecret?
    ensures var t := Respond(d, s, fault);
            && t.log == s.log && t.seen == s.seen && t.servers == s.servers
            && FlowsTo(d, s.pc, t.pc) && CleanedCount(d, t.pc) <= CleanedCount(d, s.pc)
  {
    hide NextGrant, NextRevoke, RespondLookup, RespondCreateSecret, RespondStatement;
  }

  lemma SecretFlow(d: Desired, s: State, fault: Fault)
    requires PcInRange(d, s.pc) && PhaseMatches(s.pc) && (s.pc.LookupSecret? || s.pc.CreateSecret?)
    ensures var t := Respond(d, s, fault);
            && t.log == s.log && t.seen == s.seen && t.servers == s.servers
            && FlowsTo(d, s.pc, t.pc) && CleanedCount(d, t.pc) <= CleanedCount(d, s.pc)
  {
    hide NextRevoke, RespondDeleteSecret, RespondStatement;
  }

  lemma OpenFlow(d: Desired, s: State, fault: Fault)
    requires PcInRange(d, s.pc) && PhaseMatches(s.pc) && s.pc.Open?
    ensures var t := Respond(d, s, fault);
            && t.log == s.log && t.seen == s.seen && t.servers == s.servers
            && FlowsTo(d, s.pc, t.pc) && CleanedCount(d, t.pc) <= CleanedCount(d, s.pc)
  {
    hide NextGrant, Advance, RespondDeleteSecret, RespondLookup, RespondCreateSecret, RespondStatement;
  }

  lemma ProtocolledFlow(d: Desired, s: State, t: State)
    requires Protocolled(d, s) && t.log == s.log && t.seen == s.seen && FlowsTo(d, s.pc, t.pc)
    ensures Protocolled(d, t)
  {
    hide PcInRange, PhaseMatches;
  }

  lemma ProtocolledCall(d: Desired, s: State, fault: Fault)
    requires Protocolled(d, s) && !WritesObject(s.pc)
    ensures Protocolled(d, Respond(d, s, fault))
  {
    hide Answer, AfterStatement, FlowsTo;
    if SendsStatement(s.pc) {
      StatementFlow(d, s.pc, Answer(d, s, fault).1);
    } else {
      CallFlow(d, s, fault);
    }
    hide Respond;
    ProtocolledFlow(d, s, Respond(d, s, fault));
  }

  lemma ProtocolledSame(d: Desired, s: State, t: State)
    requires Protocolled(d, s) && t.log == s.log && t.seen == s.seen && t.pc == s.pc
    ensures Protocolled(d, t)
  {
    hide PcInRange, PhaseMatches;
  }

  lemma ProtocolledStep(d: Desired, s: State, a: Action)
    requires Protocolled(d, s)
    ensures Protocolled(d, Step(d, s, a))
  {
    hide Protocolled, Respond, BeginAt, Deleted;
    match a
    case Begin(at) => ProtocolledBegin(d, s, at);
    case Call(fault) =>
      if WritesObject(s.pc) { ProtocolledWrites(d, s, fault); }
      else { ProtocolledCall(d, s, fault); }
    case Foreign(address, op) =>
      ForeignRoles(d, s, address, op);
      ProtocolledSame(d, s, StepForeign(d, s, address, op));
    case _ => ProtocolledEnvironment(d, s, a);
  }

  // ---- roles ----

  predicate HasFinalizer(o: UserObject) {
    o.Present? && o.finalizer
  }

  /** Steps that leave the user's role alone. */
  lemma RolesFrame(d: Desired, base: Servers, s: State, t: State)
    requires RolesHeld(d, base, s) && forall a :: RoleAt(d, t.servers, a) == RoleAt(d, s.servers, a)
    requires HasFinalizer(Latest(s)) && !HasFinalizer(Latest(t)) ==> NoNewRole(d, base, s)
    requires CleanedCount(d, t.pc) <= CleanedCount(d, s.pc)
    ensures RolesHeld(d, base, t)
  {
    hide RoleAt, CleanedCount, Referenced;
  }

  /** A completed delete pass has cleaned every server. */
  lemma AllCleaned(d: Desired, base: Servers, s: State)
    requires RolesHeld(d, base, s) && CleanedCount(d, s.pc) >= |d.refs|
    ensures NoNewRole(d, base, s)
  {
    hide RoleAt;
    forall a | RoleAt(d, s.servers, a) ensures RoleAt(d, base, a) {
      if i :| 0 <= i < |d.refs| && d.refs[i].database.Address() == a {}
    }
  }

  /** What a statement of others does to the user's role and its row. */
  lemma ForeignEffect(d: Desired, srv: Server, op: Op)
    requires !OwnStatement(d, op)
    ensures var t := Perform(srv, op).0;
            var own := Strip(d.name);
            && (own in t.roles <==> own in srv.roles)
            && (own in srv.roles ==>
                  t.roles[own] == if ParseOp(op).Some? && ParseOp(op).value.DropUser? && Perform(srv, op).1 == NoError
                                  then WithoutMemberships(srv.roles[own], ParseOp(op).value.role) else srv.roles[own])
  {
    hide Parse, Grammatical, ChangeError, MemberOf;
  }

  lemma ForeignRoles(d: Desired, s: State, address: (string, nat), op: Op)
    ensures var t := StepForeign(d, s, address, op);
            && t.log == s.log && t.seen == s.seen && t.pc == s.pc && t.secrets == s.secrets && t.issued == s.issued
            && s.dropped <= t.dropped
            && forall a :: RoleAt(d, t.servers, a) == RoleAt(d, s.servers, a)
  {
    if !OwnStatement(d, op) { ForeignEffect(d, At(s.servers, address), op); }
    hide Perform, OwnStatement, NewlyDropped;
  }

  /** The user's role is on `b` exactly if it is on `a`, and holds nothing new. */
  predicate OwnKept(d: Desired, a: Server, b: Server) {
    var own := Strip(d.name);
    (own in a.roles <==> own in b.roles) && (own in a.roles ==> b.roles[own] <= a.roles[own])
  }

  /** Statements of others only take away from what the user's role holds. */
  lemma ForeignOwn(d: Desired, s: State, address: (string, nat), op: Op, a: (string, nat))
    ensures OwnKept(d, At(s.servers, a), At(StepForeign(d, s, address, op).servers, a))
  {
    if !OwnStatement(d, op) { ForeignEffect(d, At(s.servers, address), op); }
    hide Perform, OwnStatement, Strip, NewlyDropped, MemberOf;
  }

  /** The effect of the pending statement on every server. */
  lemma StatementServers(d: Desired, s: State, fault: Fault)
    requires SendsStatement(s.pc) && PcInRange(d, s.pc)
    ensures var t := RespondStatement(d, s, fault);
            var mine := d.refs[s.pc.i].database.Address();
            && t.log == s.log && t.seen == s.seen && t.secrets == s.secrets && t.issued == s.issued &&
                   t.dropped == s.dropped
            && t.pc == AfterStatement(d, s.pc, Answer(d, s, fault).1)
            && (forall a :: a != mine ==> At(t.servers, a) == At(s.servers, a))
            && At(t.servers, mine) == Answer(d, s, fault).0
  {
    hide Answer, AfterStatement;
  }

  lemma RolesApply(d: Desired, base: Servers, s: State, fault: Fault)
    requires Protocolled(d, s) && RolesHeld(d, base, s) && (s.pc.Create? || s.pc.Grant?)
    ensures RolesHeld(d, base, RespondStatement(d, s, fault))
  {
    var t := RespondStatement(d, s, fault);
    assert Referenced(d, d.refs[s.pc.i].database.Address());
    assert Follows(s.log[s.pc.copy.version], Latest(s));
    hide Answer, RespondStatement, Referenced, AfterStatement, CleanedCount, FlowsTo, Granted, Extends, GrantOp, At;
    StatementServers(d, s, fault);
    StatementFlow(d, s.pc, Answer(d, s, fault).1);
    forall a | RoleAt(d, t.servers, a) ensures RoleAt(d, base, a) || Referenced(d, a) {
      assert a != d.refs[s.pc.i].database.Address() ==> RoleAt(d, s.servers, a);
    }
  }

  /** Servers that only lose the user's role, the first `n` refs being clean. */
  lemma RolesShrink(d: Desired, base: Servers, s: State, t: State, n: nat)
    requires RolesHeld(d, base, s) && t.log == s.log
    requires forall a :: RoleAt(d, t.servers, a) ==> RoleAt(d, s.servers, a)
    requires CleanedCount(d, t.pc) <= n && Cleaned(d, base, t, n)
    ensures RolesHeld(d, base, t)
  {
    hide Referenced, CleanedCount, RoleAt;
  }

  /** What a delete statement does to the user's role. */
  lemma DeleteShrinks(d: Desired, s: State, fault: Fault)
    requires PcInRange(d, s.pc) && (s.pc.Revoke? || s.pc.Drop?)
    ensures var t := RespondStatement(d, s, fault);
            && t.log == s.log && t.pc == AfterStatement(d, s.pc, Answer(d, s, fault).1)
            && (forall a :: RoleAt(d, t.servers, a) ==> RoleAt(d, s.servers, a))
            && (Dropped(s.pc, Answer(d, s, fault).1) ==> !RoleAt(d, t.servers, d.refs[s.pc.i].database.Address()))
  {
    hide Answer, RespondStatement, AfterStatement, Granted, Extends, GrantOp, At;
    StatementServers(d, s, fault);
    AnswerEffect(d, s, fault);
  }

  lemma RolesDelete(d: Desired, base: Servers, s: State, fault: Fault)
    requires Protocolled(d, s) && RolesHeld(d, base, s) && (s.pc.Revoke? || s.pc.Drop?)
    ensures RolesHeld(d, base, RespondStatement(d, s, fault))
  {
    hide History, ReleaseObserved, Answer, RespondStatement, RoleAt, AfterStatement, FlowsTo;
    var t := RespondStatement(d, s, fault);
    var i := s.pc.i;
    var err := Answer(d, s, fault).1;
    var n := i + if Dropped(s.pc, err) then 1 else 0;
    assert CleanedCount(d, s.pc) == i;
    DeleteShrinks(d, s, fault);
    StatementFlow(d, s.pc, err);
    hide Protocolled, CleanedCount, PcInRange;
    RolesShrink(d, base, s, t, n);
  }

  lemma RolesStep(d: Desired, base: Servers, s: State, a: Action)
    requires Protocolled(d, s) && RolesHeld(d, base, s)
    ensures RolesHeld(d, base, Step(d, s, a))
  {
    var t := Step(d, s, a);
    hide RolesHeld;
    if a.Call? && SendsStatement(s.pc) {
      if s.pc.Create? || s.pc.Grant? { RolesApply(d, base, s, a.fault); } else { RolesDelete(d, base, s, a.fault); }
    } else if a.Call? {
      RolesOtherCall(d, base, s, a.fault);
    } else if a.Foreign? {
      ForeignRoles(d, s, a.address, a.op);
      hide StepForeign;
      RolesFrame(d, base, s, t);
    } else {
      assert t.servers == s.servers;
      assert CleanedCount(d, t.pc) <= CleanedCount(d, s.pc);
      RolesFrame(d, base, s, t);
    }
  }

  lemma RolesOtherCall(d: Desired, base: Servers, s: State, fault: Fault)
    requires Protocolled(d, s) && RolesHeld(d, base, s) && !SendsStatement(s.pc)
    ensures RolesHeld(d, base, Respond(d, s, fault))
  {
    var t := Respond(d, s, fault);
    hide RolesHeld, History, ReleaseObserved, NoNewRole;
    if WritesObject(s.pc) {
      if s.pc.RemoveFinalizer? { AllCleaned(d, base, s); }
      WriteCounts(d, s, fault);
    } else {
      CallFlow(d, s, fault);
    }
    hide Respond, CleanedCount, FlowsTo, Protocolled, RoleAt;
    RolesFrame(d, base, s, t);
  }

  lemma WriteCounts(d: Desired, s: State, fault: Fault)
    requires WritesObject(s.pc)
    requires s.pc.copy.deleting ==> s.pc.RemoveFinalizer?
    ensures var t := Respond(d, s, fault);
            && t.servers == s.servers && CleanedCount(d, t.pc) <= CleanedCount(d, s.pc)
            && (HasFinalizer(Latest(s)) && !HasFinalizer(Latest(t)) ==> s.pc.RemoveFinalizer?)
  {
    WriteCases(d, s, fault);
    hide Respond;
  }

  // ---- Ready ----

  lemma ServedKept(d: Desired, s: State, t: State, n: nat)
    requires s.dropped <= t.dropped && forall a :: Extends(At(s.servers, a), At(t.servers, a))
    ensures RefsServed(d, s, n) ==> RefsServed(d, t, n)
    ensures forall i, m: nat :: 0 <= i < |d.refs| && RefServed(d, s, i, m) ==> RefServed(d, t, i, m)
  {
    hide Granted, GrantOp, OfRole;
    forall i, m: nat | 0 <= i < |d.refs| && RefServed(d, s, i, m) ensures RefServed(d, t, i, m) {
      var a := d.refs[i].database.Address();
      assert Extends(At(s.servers, a), At(t.servers, a));
      forall k | 0 <= k < m && k < |d.refs[i].Privileges()| ensures EntryServed(d, t, i, k) {
        assert EntryServed(d, s, i, k);
        if Granted(At(s.servers, a), GrantOp(d, i, k)) {
          GrantedKept(At(s.servers, a), At(t.servers, a), GrantOp(d, i, k));
        }
      }
    }
  }

  /** A statement of others takes away nothing but memberships in the role it drops. */
  lemma ForeignGranted(d: Desired, srv: Server, op: Op, mine: Op)
    requires !OwnStatement(d, op) && Granted(srv, mine) && ParseOp(mine).value.role == Strip(d.name)
    ensures Granted(Perform(srv, op).0, mine) ||
            (ParseOp(op).Some? && ParseOp(op).value.DropUser? && Perform(srv, op).1 == NoError &&
                OfRole(mine, ParseOp(op).value.role))
  {
    ForeignEffect(d, srv, op);
    hide Perform, Parse, OwnStatement;
  }

  lemma ForeignEntry(d: Desired, s: State, address: (string, nat), op: Op, i: nat, k: nat)
    requires i < |d.refs| && k < |d.refs[i].Privileges()| && EntryServed(d, s, i, k)
    ensures EntryServed(d, StepForeign(d, s, address, op), i, k)
  {
    var t := StepForeign(d, s, address, op);
    var a := d.refs[i].database.Address();
    assert s.dropped <= t.dropped;
    if !Excused(d, s, i, k) && !Astray(d, i, k) && a == address && !OwnStatement(d, op) {
      ForeignGranted(d, At(s.servers, a), op, GrantOp(d, i, k));
      assert NewlyDropped(address, At(s.servers, a), op) <= t.dropped;
    }
    hide Perform, OfRole, GrantOp, OwnStatement, Granted, Parse;
  }

  lemma ForeignServed(d: Desired, s: State, address: (string, nat), op: Op, i: nat, m: nat)
    requires i < |d.refs| && RefServed(d, s, i, m)
    ensures RefServed(d, StepForeign(d, s, address, op), i, m)
  {
    ForeignRoles(d, s, address, op);
    hide StepForeign, EntryServed;
    forall k | 0 <= k < m && k < |d.refs[i].Privileges()| ensures EntryServed(d, StepForeign(d, s, address, op), i, k) {
      ForeignEntry(d, s, address, op, i, k);
    }
  }

  /** The next place of an apply pass is right about what has been served. */
  lemma NextGrantProgress(d: Desired, s: State, c: Copy, i: nat, k: nat)
    requires i < |d.refs| && RefsServed(d, s, i) && RefServed(d, s, i, k) && !c.deleting
    requires s.pc == NextGrant(d, c, i, k)
    ensures Progress(d, s) && (s.pc.Idle? ==> AllServed(d, s))
  {
    hide RefServed;
    if k >= |d.refs[i].Privileges()| {
      assert RefServed(d, s, i, |d.refs[i].Privileges()|) by { RefServedMore(d, s, i, k); }
      assert RefsServed(d, s, i + 1);
    }
  }

  lemma RefServedMore(d: Desired, s: State, i: nat, k: nat)
    requires i < |d.refs| && RefServed(d, s, i, k) && k >= |d.refs[i].Privileges()|
    ensures forall n: nat :: RefServed(d, s, i, n)
  {
  }

  /** No deletion was requested: every copy is of an object not being deleted. */
  lemma NotDeleting(d: Desired, s: State)
    requires Protocolled(d, s) && Latest(s).Present? && !Latest(s).deleting && HasCopy(s.pc)
    ensures !s.pc.copy.deleting && !InDelete(s.pc)
  {
    assert Follows(s.log[s.pc.copy.version], Latest(s));
  }

  lemma ReadyStatement(d: Desired, s: State, fault: Fault)
    requires Protocolled(d, s) && ReadySound(d, s) && SendsStatement(s.pc)
    ensures ReadySound(d, RespondStatement(d, s, fault))
  {
    hide Answer, RespondStatement, Progress, AllServed, AfterStatement, At, History, ReleaseObserved;
    StatementServers(d, s, fault);
    if Latest(s).Present? && !Latest(s).deleting {
      NotDeleting(d, s);
      ReadyApply(d, s, fault);
    }
  }

  lemma ExtendsSelf(a: Server)
    ensures Extends(a, a)
  {
  }

  /** An apply statement takes nothing away, on any server. */
  lemma ApplyExtends(d: Desired, s: State, fault: Fault)
    requires PcInRange(d, s.pc) && (s.pc.Create? || s.pc.Grant?)
    ensures var t := RespondStatement(d, s, fault);
            t.dropped == s.dropped && forall a :: Extends(At(s.servers, a), At(t.servers, a))
  {
    hide Answer, RespondStatement, At, AfterStatement, Extends, Granted, GrantOp;
    StatementServers(d, s, fault);
    AnswerEffect(d, s, fault);
    forall a ensures Extends(At(s.servers, a), At(RespondStatement(d, s, fault).servers, a)) {
      ExtendsSelf(At(s.servers, a));
    }
  }

  /** An apply statement serves what it was sent for. */
  lemma ApplyLands(d: Desired, s: State, fault: Fault)
    requires PcInRange(d, s.pc) && (s.pc.Create? || s.pc.Grant?)
    requires s.pc.Grant? ==> RefServed(d, RespondStatement(d, s, fault), s.pc.i, s.pc.k)
    ensures var t := RespondStatement(d, s, fault);
            var err := Answer(d, s, fault).1;
            && (s.pc.Create? && (err == NoError || IsAlreadyExists(err)) ==> RefServed(d, t, s.pc.i, 0))
            && (s.pc.Grant? && err == NoError ==> RefServed(d, t, s.pc.i, s.pc.k + 1))
  {
    hide Answer, RespondStatement, At, AfterStatement, Extends, Granted, GrantOp;
    StatementServers(d, s, fault);
    AnswerEffect(d, s, fault);
  }

  lemma ApplyServes(d: Desired, s: State, fault: Fault)
    requires PcInRange(d, s.pc) && InApply(s.pc) && (s.pc.Create? || s.pc.Grant?) && Progress(d, s)
    ensures var t := RespondStatement(d, s, fault);
            var err := Answer(d, s, fault).1;
            && RefsServed(d, t, s.pc.i) && (AllServed(d, s) ==> AllServed(d, t))
            && (s.pc.Create? && (err == NoError || IsAlreadyExists(err)) ==> RefServed(d, t, s.pc.i, 0))
            && (s.pc.Grant? && err == NoError ==> RefServed(d, t, s.pc.i, s.pc.k + 1))
  {
    hide Answer, RespondStatement, RefsServed, RefServed, At, Extends;
    var t := RespondStatement(d, s, fault);
    ApplyExtends(d, s, fault);
    ServedKept(d, s, t, s.pc.i);
    ServedKept(d, s, t, |d.refs|);
    ApplyLands(d, s, fault);
  }

  lemma ReadyApply(d: Desired, s: State, fault: Fault)
    requires PcInRange(d, s.pc) && InApply(s.pc) && (s.pc.Create? || s.pc.Grant?) && Progress(d, s) &&
            !s.pc.copy.deleting
    ensures var t := RespondStatement(d, s, fault);
            Progress(d, t) && (AllServed(d, s) ==> AllServed(d, t)) && (t.pc.Idle? ==> AllServed(d, t))
  {
    var t := RespondStatement(d, s, fault);
    var c, i, err := s.pc.copy, s.pc.i, Answer(d, s, fault).1;
    var k := if s.pc.Grant? then s.pc.k + 1 else 0;
    ApplyServes(d, s, fault);
    assert t.pc == AfterStatement(d, s.pc, err);
    hide RefsServed, RefServed, RespondStatement, Answer;
    if t.pc == NextGrant(d, c, i, k) && RefServed(d, t, i, k) {
      NextGrantProgress(d, t, c, i, k);
    }
  }

  lemma ReadyCall(d: Desired, s: State, fault: Fault)
    requires Protocolled(d, s) && ReadySound(d, s) && !WritesObject(s.pc) && !SendsStatement(s.pc)
    ensures ReadySound(d, Respond(d, s, fault))
  {
    hide History, ReleaseObserved, Respond, RefsServed, RefServed, Progress, PcInRange;
    CallFlow(d, s, fault);
    if Latest(s).Present? && !Latest(s).deleting {
      if HasCopy(s.pc) {
        NotDeleting(d, s);
        ReadyPlace(d, s, fault);
      } else {
        IdleCall(d, s, fault);
      }
    }
  }

  lemma IdleCall(d: Desired, s: State, fault: Fault)
    requires s.pc.Idle?
    ensures Respond(d, s, fault) == s
  {
  }

  lemma SameServed(d: Desired, s: State, t: State)
    requires t.servers == s.servers && t.dropped == s.dropped
    ensures forall n: nat :: RefsServed(d, s, n) == RefsServed(d, t, n)
    ensures forall i: nat, m: nat :: i < |d.refs| ==> RefServed(d, s, i, m) == RefServed(d, t, i, m)
  {
    hide Granted, GrantOp, OfRole, At;
    forall i: nat, k: nat | i < |d.refs| && k < |d.refs[i].Privileges()|
      ensures EntryServed(d, s, i, k) == EntryServed(d, t, i, k) {}
  }

  lemma ReadyPlace(d: Desired, s: State, fault: Fault)
    requires PcInRange(d, s.pc) && InApply(s.pc) && !s.pc.Create? && !s.pc.Grant? && !s.pc.copy.deleting &&
            Progress(d, s)
    ensures var t := Respond(d, s, fault);
            Progress(d, t) && (AllServed(d, s) ==> AllServed(d, t)) && (t.pc.Idle? ==> AllServed(d, t))
  {
    var t := Respond(d, s, fault);
    PlaceLeads(d, s, fault);
    hide Respond;
    SameServed(d, s, t);
    hide RefsServed, RefServed, NextGrant;
    if (s.pc.LookupSecret? || s.pc.CreateSecret?) && t.pc == NextGrant(d, s.pc.copy, s.pc.i, 0) {
      NextGrantProgress(d, t, s.pc.copy, s.pc.i, 0);
    }
  }

  /** Where an apply pass goes from anything but a statement. */
  lemma PlaceLeads(d: Desired, s: State, fault: Fault)
    requires PcInRange(d, s.pc) && InApply(s.pc) && !s.pc.Create? && !s.pc.Grant? && !s.pc.copy.deleting
    ensures var t := Respond(d, s, fault);
            var c, i, q := s.pc.copy, s.pc.i, t.pc;
            && t.servers == s.servers && t.dropped == s.dropped
            && (|| q == WriteStatus(c, false)
                || (s.pc.Open? && q == Create(c, i))
                || (s.pc.Issue? && q == LookupSecret(c, i, s.issued))
                || (s.pc.LookupSecret? && q == CreateSecret(c, i, s.pc.cert))
                || ((s.pc.LookupSecret? || s.pc.CreateSecret?) && q == NextGrant(d, c, i, 0)))
  {
    hide NextGrant, NextRevoke, Advance, RespondStatement, RespondDeleteSecret;
  }

  lemma ReadyWrites(d: Desired, s: State, fault: Fault)
    requires Protocolled(d, s) && ReadySound(d, s) && WritesObject(s.pc)
    ensures ReadySound(d, Respond(d, s, fault))
  {
    var t := Respond(d, s, fault);
    WriteLeads(d, s, fault);
    hide Respond;
    SameServed(d, s, t);
    assert RefsServed(d, t, 0);
    hide RefsServed, RefServed, History, ReleaseObserved, Respond;
  }

  /** What a write of the object does to the stored status, and where the pass is after it. */
  lemma WriteLeads(d: Desired, s: State, fault: Fault)
    requires WritesObject(s.pc)
    ensures var o, t := Latest(s), Respond(d, s, fault);
            var p, q := Latest(t), t.pc;
            && t.servers == s.servers && t.dropped == s.dropped
            && (p.Present? ==> o.Present? && o.deleting == p.deleting)
            && (p.Present? && p.ready ==> o.ready || (s.pc.WriteStatus? && s.pc.value))
            && (|| q.Idle? || q.RemoveFinalizer?
                || (q.WriteStatus? && (!q.value || d.refs == [])) || (q.Open? && q.i == 0))
  {
    WriteCases(d, s, fault);
    hide Respond;
  }

  lemma ReadyQuiet(d: Desired, s: State, a: Action)
    requires Protocolled(d, s) && ReadySound(d, s) && !a.Call? && !a.Foreign?
    ensures ReadySound(d, Step(d, s, a))
  {
    var t := Step(d, s, a);
    QuietLeads(d, s, a);
    hide Step;
    SameServed(d, s, t);
    assert RefsServed(d, t, 0);
    hide RefsServed, RefServed, History, ReleaseObserved;
  }

  /** Where the protocol is after a step of the environment. */
  lemma QuietLeads(d: Desired, s: State, a: Action)
    requires !a.Call? && !a.Foreign?
    ensures var o, t := Latest(s), Step(d, s, a);
            var p := Latest(t);
            && t.servers == s.servers && t.dropped == s.dropped
            && (p.Present? ==> o.Present? && (o.deleting ==> p.deleting) && o.ready == p.ready)
            && (t.pc == s.pc || t.pc.Idle? || t.pc.AddFinalizer? || (t.pc.Open? && t.pc.i == 0)
                || t.pc.RemoveFinalizer? || (t.pc.WriteStatus? && d.refs == []))
  {
  }

  lemma ReadyForeign(d: Desired, s: State, address: (string, nat), op: Op)
    requires Protocolled(d, s) && ReadySound(d, s)
    ensures ReadySound(d, StepForeign(d, s, address, op))
  {
    var t := StepForeign(d, s, address, op);
    ForeignRoles(d, s, address, op);
    forall i: nat, m: nat | i < |d.refs| && RefServed(d, s, i, m) ensures RefServed(d, t, i, m) {
      ForeignServed(d, s, address, op, i, m);
    }
    hide StepForeign, RefServed, History, ReleaseObserved;
  }

  lemma ReadyStep(d: Desired, s: State, a: Action)
    requires Protocolled(d, s) && ReadySound(d, s)
    ensures ReadySound(d, Step(d, s, a))
  {
    hide ReadySound;
    if a.Foreign? { ReadyForeign(d, s, a.address, a.op); }
    else if !a.Call? { ReadyQuiet(d, s, a); }
    else if SendsStatement(s.pc) { ReadyStatement(d, s, a.fault); }
    else if WritesObject(s.pc) { ReadyWrites(d, s, a.fault); }
    else { ReadyCall(d, s, a.fault); }
  }

  // ---- whole runs ----

  lemma InvInit(d: Desired, base: Servers, secrets: map<string, nat>)
    ensures Inv(d, base, Init(base, secrets))
  {
  }

  lemma {:induction false} InvRun(d: Desired, base: Servers, s: State, actions: seq<Action>)
    requires Inv(d, base, s)
    ensures Inv(d, base, Run(d, s, actions))
    decreases |actions|
  {
    hide Step, Protocolled, RolesHeld, ReadySound;
    if actions != [] {
      var init, a := actions[..|actions| - 1], actions[|actions| - 1];
      InvRun(d, base, s, init);
      ProtocolledStep(d, Run(d, s, init), a);
      RolesStep(d, base, Run(d, s, init), a);
      ReadyStep(d, Run(d, s, init), a);
    }
  }

  /** Finalizer safety. On every run, with any faults, crashes, stale reads, any moment of
      deletion and any statements of others about other roles: the user's role can be new
      on a server only if the spec refers to it, and only while the User object exists with
      the finalizer. */
  lemma FinalizerSafety(d: Desired, base: Servers, secrets: map<string, nat>, actions: seq<Action>)
    ensures var s := Run(d, Init(base, secrets), actions);
            forall a :: RoleAt(d, s.servers, a) && !RoleAt(d, base, a) ==> Referenced(d, a) && HasFinalizer(Latest(s))
  {
    InvInit(d, base, secrets);
    InvRun(d, base, Init(base, secrets), actions);
  }

  /** Ready is sound. In every reachable state: if the stored status is Ready and deletion
      has not been requested, every referenced server has the role and every listed grant,
      but for memberships in roles that others have dropped there. */
  lemma ReadyIsSound(d: Desired, base: Servers, secrets: map<string, nat>, actions: seq<Action>)
    ensures var s := Run(d, Init(base, secrets), actions);
            Latest(s).Present? && !Latest(s).deleting && Latest(s).ready ==>
              AllServed(d, s) && (NoneExcused(d, s) ==> FullyServed(d, s))
  {
    InvInit(d, base, secrets);
    InvRun(d, base, Init(base, secrets), actions);
    var s := Run(d, Init(base, secrets), actions);
    if AllServed(d, s) && NoneExcused(d, s) {
      NothingExcused(d, s);
    }
  }

  /** No entry is membership in a role that others have dropped on its server. */
  predicate NoneExcused(d: Desired, s: State) {
    forall i, k :: 0 <= i < |d.refs| && 0 <= k < |d.refs[i].Privileges()| ==> !Excused(d, s, i, k)
  }

  /** Where nothing is excused, served means fully served. */
  lemma NothingExcused(d: Desired, s: State)
    requires AllServed(d, s) && NoneExcused(d, s)
    ensures FullyServed(d, s)
  {
    hide Granted, GrantOp, OfRole, At;
    forall i | 0 <= i < |d.refs| ensures RefServed(d, s.(dropped := {}), i, |d.refs[i].Privileges()|) {
      assert RefServed(d, s, i, |d.refs[i].Privileges()|);
      forall k | 0 <= k < |d.refs[i].Privileges()| ensures EntryServed(d, s.(dropped := {}), i, k) {
        assert EntryServed(d, s, i, k) && !Excused(d, s, i, k);
      }
    }
  }
}
