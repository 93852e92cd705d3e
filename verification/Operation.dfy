/** One task's dealings with the hosts and the ledger while it holds its locks. */
module Operations {
  import opened Locks
  import opened Handoff

  lemma AfterKeepsHeld(s: Session, ev: Event)
    ensures After(s, ev).held == s.held
  {}

  lemma FollowsStep(s: Session, log: seq<Event>, ev: Event)
    ensures Follows(s, log) && Allowed(Replay(s, log), ev) ==> Follows(s, log + [ev])
    ensures Replay(s, log + [ev]) == After(Replay(s, log), ev)
    ensures After(Replay(s, log), ev).held == Replay(s, log).held
  {
    AfterKeepsHeld(Replay(s, log), ev);
    hide Allowed, After;
    assert (log + [ev])[..|log|] == log;
  }

  /** Every entry of a log that follows the protocol was allowed when it happened. */
  lemma {:induction false} EveryEventWasAllowed(s: Session, log: seq<Event>, k: nat)
    requires Follows(s, log) && k < |log|
    ensures Allowed(Replay(s, log[..k]), log[k])
    ensures Replay(s, log[..k + 1]) == After(Replay(s, log[..k]), log[k])
  {
    hide Allowed, After;
    var n := |log| - 1;
    if k < n {
      EveryEventWasAllowed(s, log[..n], k);
      assert log[..n][..k] == log[..k] && log[..n][..k + 1] == log[..k + 1];
    } else {
      assert log[..k + 1] == log && log[..k + 1][..k] == log[..k];
    }
  }

  class Operation {
    const held: set<Endpoint>
    var log: seq<Event>   // what was sent, read and written, in order

    ghost var session: Session

    /** Everything done so far was permitted by the handoff protocol. */
    ghost predicate Valid()
      reads this
    {
      && session.held == held
      && session == Replay(NewSession(held), log)
      && Follows(NewSession(held), log)
    }

    constructor (held: set<Endpoint>)
      ensures this.held == held && log == [] && Valid()
      ensures session == NewSession(held)
    {
      this.held := held;
      this.log := [];
      this.session := NewSession(held);
    }

    method Emit(ev: Event)
      requires Valid() && Allowed(session, ev)
      modifies this
      ensures Valid()
      ensures log == old(log) + [ev] && session == After(old(session), ev)
    {
      hide Allowed, After, Replay, Follows;
      FollowsStep(NewSession(held), log, ev);
      log := log + [ev];
      session := After(session, ev);
    }

    /** A fresh collection of one endpoint; the answer says whether it succeeded. */
    method CollectEndpoint(host: Endpoint) returns (collected: bool)
      requires Valid() && host in held
      modifies this
      ensures Valid() && log == old(log) + [Collect(host)]
      ensures session == After(old(session), Collect(host))
    {
      collected := *;
      Emit(Collect(host));
    }

    /** The time no later observation may predate. */
    method ObservationNotBefore() returns (now: nat)
      requires Valid()
      modifies this
      ensures Valid() && log == old(log) + [ReadClock(now)]
      ensures session == After(old(session), ReadClock(now))
    {
      now := *;
      Emit(ReadClock(now));
    }
  }
}
