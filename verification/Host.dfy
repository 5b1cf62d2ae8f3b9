/** What the operator's process touches besides the API server: certificate files on disk
    and database connections. */
module Host {
  import opened Text
  import opened Quoting
  import opened Environment

  datatype Event = Opened(handle: nat) | Closed(handle: nat)

  /** The connections still open, oldest first; None if one was closed out of order. */
  function Stack(journal: seq<Event>): Option<seq<nat>> {
    if journal == [] then Some([])
    else
      match Stack(journal[..|journal| - 1])
      case None => None
      case Some(open) =>
        match journal[|journal| - 1]
        case Opened(h) => Some(open + [h])
        case Closed(h) => if open != [] && open[|open| - 1] == h then Some(open[..|open| - 1]) else None
  }

  /** No handle is given out twice. */
  predicate HandlesDistinct(journal: seq<Event>) {
    forall i, j :: 0 <= i < j < |journal| && journal[i].Opened? && journal[j].Opened? ==>
        journal[i].handle != journal[j].handle
  }

  lemma StackOpen(journal: seq<Event>, h: nat)
    requires Stack(journal).Some?
    ensures Stack(journal + [Opened(h)]) == Some(Stack(journal).value + [h])
  {
    assert (journal + [Opened(h)])[..|journal|] == journal;
  }

  /** In a journal without out-of-order closes, every connection was closed exactly as
      often as it was opened, once more if it is still open. */
  lemma {:induction false} ClosedOnce(journal: seq<Event>, h: nat)
    requires Stack(journal).Some?
    ensures multiset(journal)[Opened(h)] == multiset(journal)[Closed(h)] + multiset(Stack(journal).value)[h]
    decreases |journal|
  {
    if journal != [] {
      var init, last := journal[..|journal| - 1], journal[|journal| - 1];
      ClosedOnce(init, h);
      assert journal == init + [last];
      var open := Stack(init).value;
      if last.Closed? {
        assert open == open[..|open| - 1] + [last.handle];
      }
    }
  }

  /** With distinct handles, a connection no longer open was closed exactly once. */
  lemma {:induction false} OpenedAtMostOnce(journal: seq<Event>, h: nat)
    requires HandlesDistinct(journal)
    ensures multiset(journal)[Opened(h)] <= 1
    decreases |journal|
  {
    if journal != [] {
      var init, last := journal[..|journal| - 1], journal[|journal| - 1];
      OpenedAtMostOnce(init, h);
      assert journal == init + [last];
      if last == Opened(h) {
        NotBefore(init, h);
      }
    }
  }

  lemma NotBefore(init: seq<Event>, h: nat)
    requires HandlesDistinct(init + [Opened(h)])
    ensures Opened(h) !in init
  {
    forall i | 0 <= i < |init| ensures init[i] != Opened(h) {
      var journal := init + [Opened(h)];
      assert journal[i] == init[i] && journal[|init|] == Opened(h);
    }
  }

  /** Whoever leaves as many connections open as it found has closed each connection it
      opened, once. */
  lemma ClosedWhatItOpened(before: seq<Event>, after: seq<Event>, h: nat)
    requires before <= after && HandlesDistinct(after)
    requires Stack(before).Some? && Stack(after) == Stack(before)
    requires Opened(h) in after[|before|..]
    ensures multiset(after[|before|..])[Opened(h)] == 1 && multiset(after[|before|..])[Closed(h)] == 1
  {
    hide Stack, HandlesDistinct;
    var own := after[|before|..];
    assert after == before + own;
    ClosedOnce(before, h);
    ClosedOnce(after, h);
    OpenedAtMostOnce(after, h);
    assert multiset(own)[Opened(h)] >= 1;
  }

  class Host {
    const env: Environment
    const home: string
    var files: map<string, string>
    var journal: seq<Event>
    var next: nat

    /** Handles are numbered, and no close was out of order. */
    ghost predicate Valid()
      reads this
    {
      && HandlesDistinct(journal)
      && (forall e :: e in journal && e.Opened? ==> e.handle < next)
      && Stack(journal).Some?
    }

    constructor (env: Environment, home: string)
      ensures Valid() && this.env == env && this.home == home && files == map[] && journal == []
    {
      this.env, this.home := env, home;
      files, journal, next := map[], [], 0;
    }

    /** Nothing has gone wrong since. */
    ghost predicate Untroubled(troubles: seq<Trouble>, pending: bool)
      reads env
    {
      env.troubles == troubles && env.pending == pending
    }

    /** Creating the directories or writing may fail. */
    method WriteFile(path: string, data: string) returns (err: Error)
      modifies this`files, env
      ensures err == NoError ==> files == old(files)[path := data] && Untroubled(old(env.troubles), old(env.pending))
      ensures err != NoError ==> files == old(files) && err == Failure
      ensures err != NoError ==> env.troubles == old(env.troubles) + [FileNotWritten] && env.pending
    {
      var ok: bool := *;
      if ok {
        files := files[path := data];
        err := NoError;
      } else {
        err := Failure;
        env.Strike(FileNotWritten, true);
      }
    }

    method Remove(path: string)
      modifies this`files
      ensures files == old(files) - {path}
    {
      files := files - {path};
    }

    /** The driver's connect; the server may refuse or be out of reach. */
    method Dial(connString: string) returns (handle: nat, err: Error)
      requires Valid()
      modifies this`journal, this`next, env
      ensures Valid()
      ensures err == NoError ==> Untroubled(old(env.troubles), old(env.pending))
      ensures err == NoError ==> Stack(journal) == Some(old(Stack(journal)).value + [handle])
      ensures err == NoError ==> journal == old(journal) + [Opened(handle)] && Opened(handle) !in old(journal)
      ensures err != NoError ==> err == Failure && journal == old(journal)
      ensures err != NoError ==> env.troubles == old(env.troubles) + [ConnectionRefused] && env.pending
    {
      var ok: bool := *;
      if ok {
        StackOpen(journal, next);
        handle, err := next, NoError;
        journal := journal + [Opened(next)];
        next := next + 1;
      } else {
        handle, err := 0, Failure;
        env.Strike(ConnectionRefused, true);
      }
    }

    method Hangup(handle: nat)
      modifies this`journal
      ensures journal == old(journal) + [Closed(handle)]
      ensures old(Valid()) && old(Stack(journal)).value != [] &&
              old(Stack(journal)).value[|old(Stack(journal)).value| - 1] == handle ==>
                Valid() && Stack(journal) == Some(old(Stack(journal)).value[..|old(Stack(journal)).value| - 1])
    {
      ghost var open := Stack(journal);
      journal := journal + [Closed(handle)];
      assert journal[..|journal| - 1] == old(journal);
    }
  }

  lemma InOrder(os: Host)
    requires os.Valid()
    ensures Stack(os.journal).Some?
  {
    hide Stack;
  }
}
