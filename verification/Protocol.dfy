/** Reconcile as a state machine (controllers/user_controller.go): one step per API call or
    statement, any of which may fail, take effect with the answer lost, or never be
    reached because the process died. Statements run as printed text. */
module Protocol {
  import opened Quoting
  import opened Server
  import opened Plans
  import opened Resources

  /** The stored User object; its spec is fixed. */
  datatype UserObject = Absent | Present(finalizer: bool, deleting: bool, ready: bool)

  /** The controller's copy of the object, with its resourceVersion. */
  datatype Copy = Copy(version: nat, finalizer: bool, deleting: bool, ready: bool)

  /** What the running Reconcile does next. `i` counts database refs, `k` privileges,
      `cert` is the serial of certificates just issued, and `gone` says that the files the
      connection string names have been removed. */
  datatype Pc =
    | Idle
    | AddFinalizer(copy: Copy)
    | Open(copy: Copy, i: nat)
    | Create(copy: Copy, i: nat)
    | Issue(copy: Copy, i: nat)
    | LookupSecret(copy: Copy, i: nat, cert: nat)
    | CreateSecret(copy: Copy, i: nat, cert: nat)
    | Grant(copy: Copy, i: nat, k: nat)
    | WriteStatus(copy: Copy, value: bool)
    | Revoke(copy: Copy, i: nat, k: nat)
    | Drop(copy: Copy, i: nat, gone: bool)
    | DeleteSecret(copy: Copy, i: nat, dropped: bool)
    | RemoveFinalizer(copy: Copy)

  type Servers = map<(string, nat), Server>

  /** `log` holds every version of the object: an index is a resourceVersion, the last
      entry is the stored object. `seen` is the version the cache last served. `dropped`
      remembers which roles others have dropped from which server. */
  datatype State = State(
    log: seq<UserObject>,
    seen: nat,
    servers: Servers,
    dropped: set<((string, nat), string)>,
    secrets: map<string, nat>,
    issued: nat,
    pc: Pc)

  /** How a call ends: answered, performed with the answer lost, or not performed. */
  datatype Fault = Done | Lost | Failed

  /** The environment requests deletion, writes an unrelated change to the object, starts
      Reconcile with the cache serving version `at`, lets the pending call end, kills the
      process, or, for another User or anyone else, has a server run a statement about
      another role. */
  datatype Action =
    | RequestDeletion
    | Touch
    | Begin(at: nat)
    | Call(fault: Fault)
    | Crash
    | Foreign(address: (string, nat), op: Op)

  function Latest(s: State): UserObject {
    if s.log == [] then Absent else s.log[|s.log| - 1]
  }

  function CopyOf(version: nat, o: UserObject): Copy
    requires o.Present?
  {
    Copy(version, o.finalizer, o.deleting, o.ready)
  }

  function At(servers: Servers, address: (string, nat)): Server {
    if address in servers then servers[address] else Server(map[])
  }

  function Init(servers: Servers, secrets: map<string, nat>): State {
    State([Present(false, false, false)], 0, servers, {}, secrets, 0, Idle)
  }

  // ---- control flow ----

  /** After the first `i` refs: the next one, or the end of the pass. */
  function Advance(d: Desired, c: Copy, i: nat): Pc {
    if i < |d.refs| then Open(c, i)
    else if c.deleting then RemoveFinalizer(c)
    else if c.ready then Idle
    else WriteStatus(c, true)
  }

  /** An error ends the pass; an apply pass still reports it in the status. */
  function Abort(c: Copy): Pc {
    if c.deleting then Idle else WriteStatus(c, false)
  }

  function NextGrant(d: Desired, c: Copy, i: nat, k: nat): Pc
    requires i < |d.refs|
  {
    if k < |d.refs[i].Privileges()| then Grant(c, i, k) else Advance(d, c, i + 1)
  }

  function NextRevoke(d: Desired, c: Copy, i: nat, k: nat): Pc
    requires i < |d.refs|
  {
    if k < |d.refs[i].Privileges()| then Revoke(c, i, k) else Drop(c, i, d.refs[i].FilesGone(k))
  }

  /** Where Reconcile goes once it has read the object. */
  function AfterRead(d: Desired, c: Copy): Pc {
    if c.deleting then if c.finalizer then Advance(d, c, 0) else Idle
    else if c.finalizer then Advance(d, c, 0)
    else AddFinalizer(c)
  }

  /** Indices point at refs and privileges. */
  predicate PcInRange(d: Desired, pc: Pc) {
    match pc
    case Open(_, i) => i < |d.refs|
    case Create(_, i) => i < |d.refs|
    case Issue(_, i) => i < |d.refs|
    case LookupSecret(_, i, _) => i < |d.refs|
    case CreateSecret(_, i, _) => i < |d.refs|
    case Grant(_, i, k) => i < |d.refs| && k < |d.refs[i].Privileges()|
    case Revoke(_, i, k) => i < |d.refs| && k < |d.refs[i].Privileges()|
    case Drop(_, i, _) => i < |d.refs|
    case DeleteSecret(_, i, _) => i < |d.refs|
    case _ => true
  }

  // ---- statements ----

  predicate SendsStatement(pc: Pc) {
    pc.Create? || pc.Grant? || pc.Revoke? || pc.Drop?
  }

  /** The statement pending at `pc`. */
  function OpAt(d: Desired, pc: Pc): Op
    requires SendsStatement(pc) && PcInRange(d, pc)
  {
    var r := d.refs[pc.i];
    var dbname := r.database.name;
    match pc
    case Create(_, _) => CreateOp(dbname, d.name, r.password)
    case Drop(_, _, _) => DropOp(dbname, d.name)
    case Grant(_, _, k) => PrivilegeOp(dbname, d.name, true, r.Privileges()[k])
    case Revoke(_, _, k) => PrivilegeOp(dbname, d.name, false, r.Privileges()[k])
  }

  /** The statement is for the ref's own connection, which is made anew for every statement
      and whose certificate files are gone. */
  predicate OutOfReach(d: Desired, pc: Pc)
    requires SendsStatement(pc) && PcInRange(d, pc)
  {
    var r := d.refs[pc.i];
    match pc
    case Create(_, _) => false
    case Drop(_, _, gone) => gone
    case Grant(_, _, k) => r.FilesGone(k) && !r.Privileges()[k].InDatabase()
    case Revoke(_, _, k) => r.FilesGone(k) && !r.Privileges()[k].InDatabase()
  }

  /** The server's new state and the error the adapter sees. */
  function Answer(d: Desired, s: State, fault: Fault): (Server, Error)
    requires SendsStatement(s.pc) && PcInRange(d, s.pc)
  {
    var srv := At(s.servers, d.refs[s.pc.i].database.Address());
    if fault.Failed? || OutOfReach(d, s.pc) then (srv, Failure)
    else
      var (srv', err) := Perform(srv, OpAt(d, s.pc));
      (srv', if fault.Lost? then Failure else err)
  }

  /** Where the pass goes after this error from the pending statement. */
  function AfterStatement(d: Desired, pc: Pc, err: Error): Pc
    requires SendsStatement(pc) && PcInRange(d, pc)
  {
    var c, i := pc.copy, pc.i;
    match pc
    case Create(_, _) =>
      if IsAlreadyExists(err) then NextGrant(d, c, i, 0)
      else if err != NoError then Abort(c)
      else if d.refs[i].database.IssuesCertificates() then Issue(c, i)
      else NextGrant(d, c, i, 0)
    case Grant(_, _, k) => if err == NoError then NextGrant(d, c, i, k + 1) else Abort(c)
    case Revoke(_, _, k) =>
      if err == NoError then NextRevoke(d, c, i, k + 1)
      else if IsNotExists(err) then Drop(c, i, d.refs[i].FilesGone(k + 1))
      else DeleteSecret(c, i, false)
    case Drop(_, _, _) => DeleteSecret(c, i, err == NoError || IsNotExists(err))
  }

  function RespondStatement(d: Desired, s: State, fault: Fault): State
    requires SendsStatement(s.pc) && PcInRange(d, s.pc)
  {
    var (srv, err) := Answer(d, s, fault);
    s.(servers := s.servers[d.refs[s.pc.i].database.Address() := srv], pc := AfterStatement(d, s.pc, err))
  }

  // ---- writes of the User object ----

  /** The copy is of the stored version, so a write with it is not a conflict. */
  predicate Current(s: State, c: Copy) {
    c.version + 1 == |s.log| && Latest(s).Present?
  }

  /** Did the write reach the store? */
  predicate Written(s: State, c: Copy, fault: Fault) {
    !fault.Failed? && Current(s, c)
  }

  function RespondAddFinalizer(d: Desired, s: State, fault: Fault): State
    requires s.pc.AddFinalizer?
  {
    var c := s.pc.copy;
    if !Written(s, c, fault) then s.(pc := WriteStatus(c, false))
    else
      var o := Latest(s).(finalizer := true);
      s.(log := s.log + [o],
         pc := if fault.Lost? then WriteStatus(c, false) else Advance(d, CopyOf(|s.log|, o), 0))
  }

  function RespondWriteStatus(s: State, fault: Fault): State
    requires s.pc.WriteStatus?
  {
    if Written(s, s.pc.copy, fault)
    then s.(log := s.log + [Latest(s).(ready := s.pc.value)], pc := Idle)
    else s.(pc := Idle)
  }

  /** The object goes away with its last finalizer. */
  function RespondRemoveFinalizer(s: State, fault: Fault): State
    requires s.pc.RemoveFinalizer?
  {
    if Written(s, s.pc.copy, fault) then s.(log := s.log + [Absent], pc := Idle) else s.(pc := Idle)
  }

  // ---- secrets ----

  /** Any error of the lookup, even a transient one, leads to Create. */
  function RespondLookup(d: Desired, s: State, fault: Fault): State
    requires s.pc.LookupSecret? && PcInRange(d, s.pc)
  {
    var c, i := s.pc.copy, s.pc.i;
    if fault.Done? && d.refs[i].createdSecret in s.secrets
    then s.(pc := NextGrant(d, c, i, 0))
    else s.(pc := CreateSecret(c, i, s.pc.cert))
  }

  /** Create refuses a name that is taken. */
  function RespondCreateSecret(d: Desired, s: State, fault: Fault): State
    requires s.pc.CreateSecret? && PcInRange(d, s.pc)
  {
    var c, i, name := s.pc.copy, s.pc.i, d.refs[s.pc.i].createdSecret;
    if fault.Failed? || name in s.secrets then s.(pc := Abort(c))
    else s.(secrets := s.secrets[name := s.pc.cert], pc := if fault.Lost? then Abort(c) else NextGrant(d, c, i, 0))
  }

  /** The deferred Delete runs whatever happened before it, and its error is dropped. */
  function RespondDeleteSecret(d: Desired, s: State, fault: Fault): State
    requires s.pc.DeleteSecret? && PcInRange(d, s.pc)
  {
    s.(secrets := if fault.Failed? then s.secrets else s.secrets - {d.refs[s.pc.i].createdSecret},
       pc := if s.pc.dropped then Advance(d, s.pc.copy, s.pc.i + 1) else Abort(s.pc.copy))
  }

  // ---- steps and runs ----

  function Respond(d: Desired, s: State, fault: Fault): State {
    if !PcInRange(d, s.pc) then s
    else if SendsStatement(s.pc) then RespondStatement(d, s, fault)
    else
      match s.pc
      case AddFinalizer(_) => RespondAddFinalizer(d, s, fault)
      case Open(c, i) =>
        s.(pc := if !fault.Done? then Abort(c) else if c.deleting then NextRevoke(d, c, i, 0) else Create(c, i))
      case Issue(c, i) =>
        s.(issued := s.issued + 1, pc := if fault.Done? then LookupSecret(c, i, s.issued) else Abort(c))
      case LookupSecret(_, _, _) => RespondLookup(d, s, fault)
      case CreateSecret(_, _, _) => RespondCreateSecret(d, s, fault)
      case WriteStatus(_, _) => RespondWriteStatus(s, fault)
      case DeleteSecret(_, _, _) => RespondDeleteSecret(d, s, fault)
      case RemoveFinalizer(_) => RespondRemoveFinalizer(s, fault)
      case _ => s
  }

  /** Reconcile reads the object from the cache. */
  function BeginAt(d: Desired, s: State, at: nat): State {
    if !s.pc.Idle? || at < s.seen || at >= |s.log| then s
    else if s.log[at].Absent? then s.(seen := at)
    else s.(seen := at, pc := AfterRead(d, CopyOf(at, s.log[at])))
  }

  /** Deletion of an object without finalizers is immediate; otherwise it is only marked. */
  function Deleted(s: State): State {
    if Latest(s).Absent? || Latest(s).deleting then s
    else s.(log := s.log + [if Latest(s).finalizer then Latest(s).(deleting := true) else Absent])
  }

  /** A statement about the user's own role. */
  predicate OwnStatement(d: Desired, op: Op) {
    ParseOp(op).Some? && ParseOp(op).value.role == Strip(d.name)
  }

  /** The pairs added to `dropped` by a statement of others. */
  function NewlyDropped(address: (string, nat), srv: Server, op: Op): set<((string, nat), string)> {
    if ParseOp(op).Some? && ParseOp(op).value.DropUser? && Perform(srv, op).1 == NoError
    then {(address, ParseOp(op).value.role)} else {}
  }

  function StepForeign(d: Desired, s: State, address: (string, nat), op: Op): State {
    if OwnStatement(d, op) then s
    else
      var srv := At(s.servers, address);
      s.(servers := s.servers[address := Perform(srv, op).0], dropped := s.dropped + NewlyDropped(address, srv, op))
  }

  function Step(d: Desired, s: State, a: Action): State {
    match a
    case RequestDeletion => Deleted(s)
    case Touch => if Latest(s).Absent? then s else s.(log := s.log + [Latest(s)])
    case Begin(at) => BeginAt(d, s, at)
    case Call(fault) => Respond(d, s, fault)
    case Crash => s.(pc := Idle)
    case Foreign(address, op) => StepForeign(d, s, address, op)
  }

  function Run(d: Desired, s: State, actions: seq<Action>): State
    decreases |actions|
  {
    if actions == [] then s else Step(d, Run(d, s, actions[..|actions| - 1]), actions[|actions| - 1])
  }

  /** The writes of the object, one by one. */
  lemma WriteCases(d: Desired, s: State, fault: Fault)
    ensures s.pc.AddFinalizer? ==> Respond(d, s, fault) == RespondAddFinalizer(d, s, fault)
    ensures s.pc.WriteStatus? ==> Respond(d, s, fault) == RespondWriteStatus(s, fault)
    ensures s.pc.RemoveFinalizer? ==> Respond(d, s, fault) == RespondRemoveFinalizer(s, fault)
  {
    hide RespondAddFinalizer, RespondWriteStatus, RespondRemoveFinalizer;
  }

  lemma {:induction false} RunAppend(d: Desired, s: State, a: seq<Action>, b: seq<Action>)
    ensures Run(d, s, a + b) == Run(d, Run(d, s, a), b)
    decreases |b|
  {
    hide Step;
    if b == [] {
      assert a + b == a;
    } else {
      var init := b[..|b| - 1];
      assert (a + b)[..|a + b| - 1] == a + init;
      RunAppend(d, s, a, init);
    }
  }
}
