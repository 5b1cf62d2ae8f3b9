/** pkg/database/connection/fake.go: the map with order stamps that stands for a statement log. */
module Fake {
  import opened Text

  /** `fmt.Sprint` of strings. */
  function Sprint(query: string, args: seq<string>): string {
    if args == [] then query else Sprint(query, args[..|args| - 1]) + args[|args| - 1]
  }

  /** The key is the query and after it the arguments, in order. */
  lemma {:induction false} SprintIsJoin(query: string, args: seq<string>)
    ensures Sprint(query, args) == Join([query] + args, "")
    decreases |args|
  {
    if args == [] {
      assert [query] + args == [query];
    } else {
      SprintIsJoin(query, args[..|args| - 1]);
      JoinLast([query] + args[..|args| - 1], args[|args| - 1]);
      assert [query] + args == ([query] + args[..|args| - 1]) + [args[|args| - 1]];
    }
  }

  lemma {:induction false} JoinLast(parts: seq<string>, last: string)
    requires parts != []
    ensures Join(parts + [last], "") == Join(parts, "") + last
  {
    if |parts| == 1 {
      assert (parts + [last])[1..] == [last];
    } else {
      assert (parts + [last])[1..] == parts[1..] + [last];
      JoinLast(parts[1..], last);
    }
  }

  /** Two executions of a query with arguments of the same lengths share a key exactly when the
      arguments are the same. */
  lemma {:induction false} SprintTells(query: string, a: seq<string>, b: seq<string>)
    requires |a| == |b| && forall i :: 0 <= i < |a| ==> |a[i]| == |b[i]|
    ensures Sprint(query, a) == Sprint(query, b) <==> a == b
    decreases |a|
  {
    if a != [] {
      var n := |a| - 1;
      SprintTells(query, a[..n], b[..n]);
      assert a == a[..n] + [a[n]] && b == b[..n] + [b[n]];
      LastApart(Sprint(query, a[..n]), a[n], Sprint(query, b[..n]), b[n]);
    }
  }

  lemma LastApart(p: string, x: string, q: string, y: string)
    requires |x| == |y|
    ensures p + x == q + y <==> p == q && x == y
  {
    if p + x == q + y {
      assert p == (p + x)[..|p|] == (q + y)[..|q|] == q;
      assert x == (p + x)[|p|..] == (q + y)[|q|..] == y;
    }
  }

  /** The map left by these statements when `start` had been executed before them. */
  function Stamped(log: seq<string>, start: nat): map<string, nat> {
    if log == [] then map[] else Stamped(log[..|log| - 1], start)[log[|log| - 1] := start + |log|]
  }

  predicate LastAt(log: seq<string>, q: string, i: int) {
    0 <= i < |log| && log[i] == q && q !in log[i + 1..]
  }

  /** Each statement carries the global number of its last execution since the reset. */
  lemma {:induction false} StampIsLastNumber(log: seq<string>, start: nat, q: string)
    ensures q in Stamped(log, start) <==> q in log
    ensures q in log ==>
              start < Stamped(log, start)[q] <= start + |log| && LastAt(log, q, Stamped(log, start)[q] - start - 1)
    decreases |log|
  {
    if log != [] {
      var init, last := log[..|log| - 1], log[|log| - 1];
      StampIsLastNumber(init, start, q);
      assert log == init + [last];
      if q != last && q in init {
        var i := Stamped(init, start)[q] - start - 1;
        assert log[i + 1..] == init[i + 1..] + [last];
      }
    }
  }

  /** Distinct statements carry distinct numbers. */
  lemma StampsDiffer(log: seq<string>, start: nat, p: string, q: string)
    requires p in log && q in log && p != q
    ensures p in Stamped(log, start) && q in Stamped(log, start) && Stamped(log, start)[p] != Stamped(log, start)[q]
  {
    StampIsLastNumber(log, start, p);
    StampIsLastNumber(log, start, q);
  }

  lemma Stamps(log: seq<string>, start: nat)
    ensures forall q :: q in Stamped(log, start) <==> q in log
    ensures forall q :: q in log ==> LastAt(log, q, Stamped(log, start)[q] - start - 1)
    ensures forall p, q :: p in log && q in log && p != q ==> Stamped(log, start)[p] != Stamped(log, start)[q]
  {
    hide Stamped;
    forall q { StampIsLastNumber(log, start, q); }
  }

  predicate NoRepeats(log: seq<string>) {
    forall i, j :: 0 <= i < j < |log| ==> log[i] != log[j]
  }

  lemma StampAt(log: seq<string>, start: nat, i: nat)
    requires NoRepeats(log) && i < |log|
    ensures log[i] in Stamped(log, start) && Stamped(log, start)[log[i]] == start + i + 1
  {
    StampIsLastNumber(log, start, log[i]);
    var j := Stamped(log, start)[log[i]] - start - 1;
    assert log[j] == log[i];
  }

  lemma MapBoundsLog(a: seq<string>, b: seq<string>, start: nat)
    requires NoRepeats(b) && Stamped(a, start) == Stamped(b, start)
    ensures |b| <= |a|
  {
    if b != [] {
      StampAt(b, start, |b| - 1);
      StampIsLastNumber(a, start, b[|b| - 1]);
    }
  }

  /** Statements that were each executed once are recovered from the map, in order: equal
      maps mean equal logs. */
  lemma MapIsLog(a: seq<string>, b: seq<string>, start: nat)
    requires NoRepeats(a) && NoRepeats(b)
    ensures Stamped(a, start) == Stamped(b, start) <==> a == b
  {
    if Stamped(a, start) == Stamped(b, start) {
      forall i | 0 <= i < |a| ensures i < |b| && a[i] == b[i] {
        StampAt(a, start, i);
        StampIsLastNumber(b, start, a[i]);
      }
      MapBoundsLog(a, b, start);
      MapBoundsLog(b, a, start);
    }
  }

  class FakeConnection {
    /** None where the source has a nil map. */
    var queries: Option<map<string, nat>>
    var connections: Option<map<string, bool>>
    var count: nat

    /** The statements since the last reset, and how many there were before it. */
    ghost var log: seq<string>
    ghost var start: nat

    ghost predicate Valid()
      reads this
    {
      && count == start + |log|
      && (if queries.Some? then queries.value == Stamped(log, start) else log == [])
    }

    constructor ()
      ensures Valid() && queries == None && connections == None && count == 0 && log == []
    {
      queries, connections, count := None, None, 0;
      log, start := [], 0;
    }

    /** Always succeeds, and makes the maps on first use. */
    method Connect(driver: string, connString: string)
      requires Valid()
      modifies this`queries, this`connections
      ensures Valid() && queries.Some? && (old(queries).Some? ==> queries == old(queries))
      ensures var before := if old(connections).Some? then old(connections).value else map[];
              connections == Some(before[driver + ":" + connString := true])
    {
      if queries == None {
        queries := Some(map[]);
      }
      if connections == None {
        connections := Some(map[]);
      }
      connections := Some(connections.value[driver + ":" + connString := true]);
    }

    /** Writing to a nil map panics: connect first. */
    method Exec(query: string, args: seq<string>)
      requires Valid() && queries.Some?
      modifies this`queries, this`count, this`log
      ensures Valid() && queries.Some? && count == old(count) + 1 && log == old(log) + [Join([query] + args, "")]
      ensures queries == Some(old(queries).value[Join([query] + args, "") := count])
    {
      SprintIsJoin(query, args);
      var q := Sprint(query, args);
      count := count + 1;
      queries := Some(queries.value[q := count]);
      log := log + [q];
      assert log[..|log| - 1] == old(log);
    }

    /** Every statement since the reset, under the global number of its last execution. */
    method Queries() returns (r: map<string, nat>)
      requires Valid() && queries.Some?
      ensures r == queries.value
      ensures forall q :: q in r <==> q in log
      ensures forall q :: q in log ==> LastAt(log, q, r[q] - start - 1)
      ensures forall p, q :: p in log && q in log && p != q ==> r[p] != r[q]
    {
      r := queries.value;
      hide Stamped, LastAt;
      Stamps(log, start);
    }

    /** The maps start afresh; the counter goes on. */
    method ResetDB()
      requires Valid()
      modifies this`queries, this`connections, this`log, this`start
      ensures Valid() && queries == Some(map[]) && connections == Some(map[]) && log == [] &&
              start == count == old(count)
    {
      queries, connections := Some(map[]), Some(map[]);
      log, start := [], count;
    }
  }

  // ---- any sequence of calls ----

  datatype Use =
    | Connecting(driver: string, connString: string)
    | Executing(query: string, args: seq<string>)
    | Resetting

  /** Uses that do not execute before the maps are made. */
  predicate Proper(uses: seq<Use>) {
    forall i :: 0 <= i < |uses| && uses[i].Executing? ==> exists j :: 0 <= j < i && !uses[j].Executing?
  }

  /** The texts executed since the last reset. */
  function Since(uses: seq<Use>): seq<string> {
    if uses == [] then []
    else
      var before := Since(uses[..|uses| - 1]);
      match uses[|uses| - 1]
      case Connecting(_, _) => before
      case Executing(query, args) => before + [Join([query] + args, "")]
      case Resetting => []
  }

  /** How many were executed in all. */
  function Executed(uses: seq<Use>): (n: nat)
    ensures n >= |Since(uses)|
  {
    if uses == [] then 0 else Executed(uses[..|uses| - 1]) + if uses[|uses| - 1].Executing? then 1 else 0
  }

  /** Log refinement: after any proper sequence of calls the map holds exactly the statements
      since the last reset, each under the global number of its last execution. */
  method Replay(uses: seq<Use>) returns (fake: FakeConnection)
    requires Proper(uses)
    ensures fresh(fake) && fake.count == Executed(uses)
    ensures fake.queries.Some? ==> fake.queries.value == Stamped(Since(uses), Executed(uses) - |Since(uses)|)
    ensures fake.queries.Some? <==> uses != []
  {
    fake := new FakeConnection();
    for i := 0 to |uses|
      invariant fresh(fake) && fake.Valid()
      invariant fake.count == Executed(uses[..i]) && fake.log == Since(uses[..i])
      invariant fake.queries.Some? <==> i > 0
    {
      assert uses[..i + 1][..i] == uses[..i];
      match uses[i]
      case Connecting(driver, connString) => fake.Connect(driver, connString);
      case Executing(query, args) => fake.Exec(query, args);
      case Resetting => fake.ResetDB();
    }
    assert uses[..|uses|] == uses;
  }
}
