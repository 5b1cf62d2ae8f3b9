/** What can go wrong around the operator. Every choice of the environment that is not the
    good one is recorded by the method that makes it, so that a method which gives up can be
    held to what went wrong. */
module Environment {
  datatype Trouble =
    | ObjectNotRead
    | StaleRead
    | Interference
    | CallNotAnswered
    | ReferenceNotRead
    | ConnectionRefused
    | FileNotWritten
    | CertificateNotMade

  class Environment {
    /** All that has gone wrong, in order. */
    ghost var troubles: seq<Trouble>

    /** The last trouble is one that the pass has still to report. */
    ghost var pending: bool

    constructor ()
      ensures troubles == [] && !pending
    {
      troubles, pending := [], false;
    }

    /** Something goes wrong; the pass has to report it if it happened before a call. */
    ghost method Strike(t: Trouble, report: bool)
      modifies this
      ensures troubles == old(troubles) + [t] && pending == (report || old(pending))
    {
      troubles, pending := troubles + [t], report || pending;
    }
  }
}
