/** The statements an apply pass really sends to one server, whatever happens to its calls. */
module Traces {
  import opened Quoting
  import opened Plans
  import opened Resources
  import opened Protocol
  import opened Safety

  /** CREATE USER, then the GRANTs in the order of the privilege lists. */
  function Ideal(d: Desired, i: nat): seq<Op>
    requires i < |d.refs|
  {
    var r := d.refs[i];
    [CreateOp(r.database.name, d.name, r.password)] + PrivilegeOps(r.database.name, d.name, true, r.Privileges())
  }

  /** What an apply pass at `pc` has still to send for ref `i`. */
  function Rest(d: Desired, pc: Pc, i: nat): seq<Op>
    requires i < |d.refs| && PcInRange(d, pc)
  {
    if !InApply(pc) || pc.i != i then []
    else if pc.Open? || pc.Create? then Ideal(d, i)
    else if pc.Grant? then Ideal(d, i)[1 + pc.k..]
    else Ideal(d, i)[1..]
  }

  /** The pending call really sends a statement: its entry has a privilege, and its connection
      can be made. */
  predicate ReachesServer(d: Desired, pc: Pc, fault: Fault)
    requires SendsStatement(pc) && PcInRange(d, pc)
  {
    !fault.Failed? && !OutOfReach(d, pc) && OpAt(d, pc).Send?
  }

  /** The statement that reached the server in this call, if it was for ref `i`. */
  function SentNow(d: Desired, pc: Pc, i: nat, fault: Fault): seq<Op>
    requires PcInRange(d, pc)
  {
    if SendsStatement(pc) && pc.i == i && ReachesServer(d, pc, fault) then [OpAt(d, pc)] else []
  }

  /** The statements for ref `i` that reached its server while these calls ended. */
  function Trace(d: Desired, s: State, i: nat, faults: seq<Fault>): seq<Op>
    requires PcInRange(d, s.pc)
    decreases |faults|
  {
    if faults == [] then []
    else
      var t := Respond(d, s, faults[0]);
      SentNow(d, s.pc, i, faults[0]) + if PcInRange(d, t.pc) then Trace(d, t, i, faults[1..]) else []
  }

  /** In an apply pass, at ref `i` or beyond it. */
  predicate AtOrPast(pc: Pc, i: nat) {
    if pc.Idle? || pc.WriteStatus? then true else InApply(pc) && pc.i >= i
  }

  /** The pass stopped, or has ended. */
  predicate Over(pc: Pc) {
    pc.Idle? || (pc.WriteStatus? && !pc.value)
  }

  lemma PassMovesOn(d: Desired, s: State, i: nat, fault: Fault)
    requires PcInRange(d, s.pc) && AtOrPast(s.pc, i) && PhaseMatches(s.pc)
    ensures var q := Respond(d, s, fault).pc; PcInRange(d, q) && AtOrPast(q, i) && PhaseMatches(q)
  {
    hide Answer;
    if SendsStatement(s.pc) {
      StatementFlow(d, s.pc, Answer(d, s, fault).1);
    }
  }

  lemma RestOf(d: Desired, pc: Pc, i: nat)
    requires i < |d.refs| && PcInRange(d, pc) && SendsStatement(pc) && InApply(pc) && pc.i == i
    ensures Rest(d, pc, i) == [OpAt(d, pc)] + Ideal(d, i)[if pc.Grant? then 2 + pc.k else 1..]
  {
    hide PrivilegeOp, CreateOp;
    var all := Ideal(d, i);
    if pc.Grant? {
      assert all[1 + pc.k] == OpAt(d, pc);
      hide Ideal;
      assert all[1 + pc.k..] == [all[1 + pc.k]] + all[2 + pc.k..];
    } else {
      assert all[0] == OpAt(d, pc);
      hide Ideal;
      assert all == [all[0]] + all[1..];
    }
  }

  lemma RestAfter(d: Desired, c: Copy, i: nat, k: nat)
    requires i < |d.refs| && k <= |d.refs[i].Privileges()|
    ensures var q := NextGrant(d, c, i, k); PcInRange(d, q) && Rest(d, q, i) == Ideal(d, i)[1 + k..]
  {
    hide PrivilegeOp;
  }

  predicate InOrder(d: Desired, p: Pc, q: Pc, i: nat, fault: Fault)
    requires i < |d.refs| && PcInRange(d, p) && PcInRange(d, q)
  {
    && (Over(q) ==> Rest(d, q, i) == [] && SentNow(d, p, i, fault) <= Rest(d, p, i))
    && (!Over(q) ==> SentNow(d, p, i, fault) + Rest(d, q, i) == Rest(d, p, i))
  }

  /** Where an apply statement leads. */
  lemma StatementLeads(d: Desired, pc: Pc, err: Error)
    requires PcInRange(d, pc) && (pc.Create? || pc.Grant?)
    ensures var q := AfterStatement(d, pc, err);
            || q == Abort(pc.copy)
            || (err != Failure &&
                   (q == NextGrant(d, pc.copy, pc.i, if pc.Grant? then pc.k + 1 else 0) ||
                       (pc.Create? && q == Issue(pc.copy, pc.i))))
  {
    hide NextGrant;
  }

  lemma StatementFollowsIdeal(d: Desired, pc: Pc, i: nat, fault: Fault, err: Error)
    requires i < |d.refs| && PcInRange(d, pc) && InApply(pc) && !pc.copy.deleting && pc.i == i && SendsStatement(pc)
    requires PcInRange(d, AfterStatement(d, pc, err)) && (!ReachesServer(d, pc, fault) ==> err == Failure)
    ensures InOrder(d, pc, AfterStatement(d, pc, err), i, fault)
  {
    var k := if pc.Grant? then pc.k + 1 else 0;
    var q := AfterStatement(d, pc, err);
    var op := OpAt(d, pc);
    RestOf(d, pc, i);
    StatementLeads(d, pc, err);
    RestAfter(d, pc.copy, i, k);
    assert q == Abort(pc.copy) ==> Over(q) && Rest(d, q, i) == [];
    assert q == Issue(pc.copy, i) ==> Rest(d, q, i) == Ideal(d, i)[1..];
    hide OpAt, Ideal, Rest, NextGrant, AfterStatement, Abort, Over, PcInRange, ReachesServer;
    assert [op] <= [op] + Ideal(d, i)[1 + k..];
  }

  lemma OtherFollowsIdeal(d: Desired, s: State, i: nat, fault: Fault)
    requires i < |d.refs| && PcInRange(d, s.pc) && InApply(s.pc) && s.pc.i == i && PhaseMatches(s.pc) &&
            !SendsStatement(s.pc)
    requires PcInRange(d, Respond(d, s, fault).pc)
    ensures InOrder(d, s.pc, Respond(d, s, fault).pc, i, fault)
  {
    hide Ideal, RespondStatement, NextRevoke, NextGrant;
    RestAfter(d, s.pc.copy, i, 0);
  }

  /** One call sends the next statement of the ideal sequence, or none. */
  lemma CallFollowsIdeal(d: Desired, s: State, i: nat, fault: Fault)
    requires i < |d.refs| && PcInRange(d, s.pc) && AtOrPast(s.pc, i) && PhaseMatches(s.pc)
    requires PcInRange(d, Respond(d, s, fault).pc)
    ensures InOrder(d, s.pc, Respond(d, s, fault).pc, i, fault)
  {
    if !InApply(s.pc) || s.pc.i != i {
      PassMovesOn(d, s, i + 1, fault);
      hide Respond, PcInRange, OpAt;
    } else if SendsStatement(s.pc) {
      var err := Answer(d, s, fault).1;
      assert Respond(d, s, fault).pc == AfterStatement(d, s.pc, err);
      assert !ReachesServer(d, s.pc, fault) ==> err == Failure;
      hide Respond, Answer, InOrder, AfterStatement;
      StatementFollowsIdeal(d, s.pc, i, fault, err);
    } else {
      hide Respond, InOrder;
      OtherFollowsIdeal(d, s, i, fault);
    }
  }

  /** Where these calls lead. */
  function Final(d: Desired, s: State, faults: seq<Fault>): State
    decreases |faults|
  {
    if faults == [] then s else Final(d, Respond(d, s, faults[0]), faults[1..])
  }

  lemma {:induction false} OverStaysOver(d: Desired, s: State, faults: seq<Fault>)
    requires Over(s.pc)
    ensures Over(Final(d, s, faults).pc)
    decreases |faults|
  {
    if faults != [] { OverStaysOver(d, Respond(d, s, faults[0]), faults[1..]); }
  }

  lemma {:induction false} TraceFollowsIdeal(d: Desired, s: State, i: nat, faults: seq<Fault>)
    requires i < |d.refs| && PcInRange(d, s.pc) && AtOrPast(s.pc, i) && PhaseMatches(s.pc)
    ensures Trace(d, s, i, faults) <= Rest(d, s.pc, i)
    ensures var q := Final(d, s, faults).pc;
            PcInRange(d, q) && (!Over(q) ==> Trace(d, s, i, faults) + Rest(d, q, i) == Rest(d, s.pc, i))
    decreases |faults|
  {
    hide Respond, SentNow, Rest, AtOrPast, PhaseMatches, PcInRange, Over;
    if faults != [] {
      var t := Respond(d, s, faults[0]);
      PassMovesOn(d, s, i, faults[0]);
      CallFollowsIdeal(d, s, i, faults[0]);
      TraceFollowsIdeal(d, t, i, faults[1..]);
      if Over(t.pc) { OverStaysOver(d, t, faults[1..]); }
      var now, later, end :=
          SentNow(d, s.pc, i, faults[0]), Trace(d, t, i, faults[1..]), Rest(d, Final(d, s, faults).pc, i);
      assert (now + later) + end == now + (later + end);
    }
  }

  /** Every apply pass over a ref, wherever it is cut and whatever its calls suffer, has
      sent the server a prefix of CREATE USER and the GRANTs in order; the whole of it once
      the pass has gone on beyond the ref. */
  lemma PassSendsPrefix(d: Desired, s: State, faults: seq<Fault>)
    requires s.pc.Open? && PcInRange(d, s.pc) && PhaseMatches(s.pc) && !s.pc.copy.deleting
    ensures var i, q := s.pc.i, Final(d, s, faults).pc;
            && Trace(d, s, i, faults) <= Ideal(d, i)
            && ((InApply(q) && q.i > i) || (q.WriteStatus? && q.value) ==> Trace(d, s, i, faults) == Ideal(d, i))
  {
    hide Respond, Ideal, Trace, Final;
    TraceFollowsIdeal(d, s, s.pc.i, faults);
  }
}
