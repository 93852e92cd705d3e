/**
 One pass of the keepalive reconciler over one endpoint, under that endpoint's
 lock: clean up, start, recover, stop. Every path through it, whatever the host
 and the ledger answer, stays within the handoff protocol and ends with nothing
 open.
 */
module Reconcile {
  import opened Prelude
  import opened Locks
  import opened Handoff
  import opened Operations
  import opened KeepaliveAdapter

  datatype Action = Start | Stop | Recover | Cleanup | Reclaim | Other

  /** One entry of a service-produced plan; a missing card or lease is None. */
  datatype Transition = Transition(action: Action, host: Endpoint, uuid: Option<string>, lease: Option<nat>)

  datatype Outcome = Finished | Raised(code: Code)

  // ---------------------------------------------------------------------------
  // What happened between two points of a log
  // ---------------------------------------------------------------------------

  /** Mutations in between were on this host and about these cards only. */
  ghost predicate OnlyTouches(before: seq<Event>, after: seq<Event>, host: Endpoint, uuids: set<string>) {
    forall i :: |before| <= i < |after| && after[i].Mutate? ==>
      after[i].host == host && Elements(after[i].uuids) <= uuids
  }

  ghost predicate NeverStarts(before: seq<Event>, after: seq<Event>) {
    forall i :: |before| <= i < |after| && after[i].Mutate? ==> !after[i].on
  }

  ghost predicate KeepsMarks(before: seq<Event>, after: seq<Event>) {
    forall i :: |before| <= i < |after| ==> !after[i].FinishCleanup? && !after[i].Confirm?
  }

  /** No helper was told to change anything and no lease was released. */
  ghost predicate ChangesNothing(before: seq<Event>, after: seq<Event>) {
    forall i :: |before| <= i < |after| ==> !after[i].Mutate? && !(after[i].Finalize? && after[i].ok)
  }

  ghost predicate Ready(op: Operation, endpoint: EndpointConfig)
    reads op
  {
    op.Valid() && endpoint.id in op.held
  }

  // ---------------------------------------------------------------------------
  // Shared steps
  // ---------------------------------------------------------------------------

  /** The cards of transitions that all name one. */
  function UuidsOf(transitions: seq<Transition>): (uuids: seq<string>)
    requires forall t :: t in transitions ==> t.uuid.Some?
    ensures |uuids| == |transitions| && forall i :: 0 <= i < |uuids| ==> uuids[i] == transitions[i].uuid.value
  {
    seq(|transitions|, i requires 0 <= i < |transitions| => transitions[i].uuid.value)
  }

  function Under(host: Endpoint, uuids: set<string>): set<Card> {
    set u | u in uuids :: Card(host, u)
  }

  function Named(transitions: seq<Transition>): set<string> {
    set t | t in transitions && t.uuid.Some? :: t.uuid.value
  }

  lemma NamedTargets(transitions: seq<Transition>, uuids: seq<string>)
    requires forall t :: t in transitions ==> t.uuid.Some?
    requires uuids == UuidsOf(transitions)
    ensures Elements(uuids) == Named(transitions)
  {
    forall u | u in Elements(uuids) ensures u in Named(transitions) {
      var i :| 0 <= i < |uuids| && uuids[i] == u;
      assert transitions[i] in transitions;
    }
  }

  /** The cards named by some transitions, or None if one of them names none. */
  method Targets(transitions: seq<Transition>) returns (uuids: Option<seq<string>>)
    ensures uuids.None? <==> exists t :: t in transitions && t.uuid.None?
    ensures uuids.Some? ==>
              && (forall t :: t in transitions ==> t.uuid.Some?)
              && uuids.value == UuidsOf(transitions)
  {
    var found: seq<string> := [];
    for i := 0 to |transitions|
      invariant |found| == i
      invariant forall k :: 0 <= k < i ==> transitions[k].uuid == Some(found[k])
    {
      if transitions[i].uuid.None? {
        assert transitions[i] in transitions;
        return None;
      }
      found := found + [transitions[i].uuid.value];
    }
    assert forall t :: t in transitions ==> t.uuid.Some?;
    assert found == UuidsOf(transitions);
    return Some(found);
  }

  function CodeOf(failure: Failure): Code {
    match failure
    case CommandError(kind, uncertain) => FailureCode(kind, uncertain)
    case OtherError => AdapterFailed
  }

  /**
   Stop the named workers and check the answer. None is an exact, verified answer.
   A failure that blames an unreachable helper means nothing was sent.
   */
  method StopVerified(op: Operation, endpoint: EndpointConfig, uuids: seq<string>, answer: HostAnswer)
    returns (failure: Option<Code>)
    requires Ready(op, endpoint)
    modifies op
    ensures Ready(op, endpoint)
    ensures op.log == old(op.log) ||
            exists reply :: op.log == old(op.log) + [Mutate(endpoint.id, false, uuids, reply)]
    ensures op.log != old(op.log) <==> Spawns(endpoint, uuids, answer)
    ensures failure.None? <==> Verified(endpoint, uuids, false, answer)
    ensures failure.None? ==> op.session.open == old(op.session).open - Cards(endpoint.id, uuids)
                              && op.session.proven == old(op.session).proven + Cards(endpoint.id, uuids)
    ensures op.session.open <= old(op.session).open && KeepsProgress(old(op.session), op.session)
    ensures failure.Some? ==> failure.value == CodeOf(FaultOf(endpoint, uuids, answer))
    ensures failure == Some(Unreachable) <==> Unanswered(endpoint, uuids, answer)
    ensures failure == Some(Unreachable) ==> op.log == old(op.log)
  {
    hide Follows, Replay;
    var result := SetEnabled(op, endpoint, false, uuids, answer);
    if result.Failed? {
      return Some(CodeOf(result.failure));
    }
    ExactIsOneEach(result.value, uuids, false);
    var byUuid := ResultByGpuUuid(result.value.results, uuids, false);
    if byUuid.None? {
      return Some(AdapterFailed);
    }
    return None;
  }

  /** An answer that passed the adapter has one result a card, so the second look agrees. */
  lemma ExactIsOneEach(response: Response, uuids: seq<string>, on: bool)
    requires Exact(response, on, uuids) && Distinct(uuids)
    ensures OneEach(response.results, uuids, on)
  {
    SameSetSameLength(Uuids(response.results), uuids);
    assert Response(on, response.results) == response;
  }

  // ---------------------------------------------------------------------------
  // Cleanup
  // ---------------------------------------------------------------------------

  ghost predicate CleanupOk(
    endpoint: EndpointConfig, cleanups: seq<Transition>, answer: HostAnswer, refused: Option<nat>)
  {
    && (forall t :: t in cleanups ==> t.uuid.Some?)
    && (cleanups == [] || !Verified(endpoint, UuidsOf(cleanups), false, answer) || refused.None?)
  }

  /** The marks go if the stop was verified, and stay otherwise. */
  ghost predicate CleanedUp(
    before: seq<Event>, after: seq<Event>, endpoint: EndpointConfig, cleanups: seq<Transition>, answer: HostAnswer)
  {
    if cleanups == [] then after == before
    else if (forall t :: t in cleanups ==> t.uuid.Some?) && Verified(endpoint, UuidsOf(cleanups), false, answer) then
      after != [] && after[|after| - 1] == FinishCleanup(Under(endpoint.id, Named(cleanups)))
    else KeepsMarks(before, after)
  }

  /**
   Stop what an unfinished earlier cleanup may have left. The mark goes exactly
   when the answer is exact and the ledger agrees; otherwise it stays.
   */
  method CleanupPhase(
    op: Operation, endpoint: EndpointConfig, cleanups: seq<Transition>, answer: HostAnswer, refused: Option<nat>)
    returns (outcome: Outcome)
    requires Ready(op, endpoint) && op.session.open == {}
    modifies op
    ensures Ready(op, endpoint) && op.session.open == {}
    ensures old(op.log) <= op.log
    ensures NeverStarts(old(op.log), op.log)
    ensures OnlyTouches(old(op.log), op.log, endpoint.id, Named(cleanups))
    ensures (exists t :: t in cleanups && t.uuid.None?) ==> outcome == Raised(PlanInvalid) && op.log == old(op.log)
    ensures outcome.Finished? <==> CleanupOk(endpoint, cleanups, answer, refused)
    ensures outcome.Finished? ==> CleanedUp(old(op.log), op.log, endpoint, cleanups, answer)
    ensures cleanups != [] && (forall t :: t in cleanups ==> t.uuid.Some?) ==>
              var tried := Verified(endpoint, UuidsOf(cleanups), false, answer);
              && outcome == (if tried && refused.Some? then Raised(Service(refused.value)) else Finished)
              && (if tried && refused.None? then
                    op.log != [] && op.log[|op.log| - 1] == FinishCleanup(Under(endpoint.id, Named(cleanups)))
                  else KeepsMarks(old(op.log), op.log))
  {
    hide Follows, Replay;
    if cleanups == [] {
      return Finished;
    }
    var uuids := Targets(cleanups);
    if uuids.None? {
      return Raised(PlanInvalid);
    }
    NamedTargets(cleanups, uuids.value);
    var failure := StopVerified(op, endpoint, uuids.value, answer);
    if failure.Some? {
      // The mark stays; the next collection tries again.
      return Finished;
    }
    var collected := op.CollectEndpoint(endpoint.id);
    if refused.Some? {
      return Raised(Service(refused.value));
    }
    op.Emit(FinishCleanup(Cards(endpoint.id, uuids.value)));
    assert Cards(endpoint.id, uuids.value) == Under(endpoint.id, Named(cleanups));
    return Finished;
  }

  // ---------------------------------------------------------------------------
  // Start
  // ---------------------------------------------------------------------------

  /**
   Undo a start that did not work out. It always raises. The mark is written exactly
   when a remote stop is called for and its answer is not exact, and that is exactly
   what the code it raises says, unless the ledger refuses the write: then the code is
   the ledger's, and a mark that was due is lost.
   */
  method CleanupFailedStart(
    op: Operation, endpoint: EndpointConfig, uuids: seq<string>, code: Code, remote: bool, answer: HostAnswer,
    unwritten: Option<nat>)
    returns (raised: Code)
    requires Ready(op, endpoint) && code != CleanupFailed
    requires op.session.open <= Cards(endpoint.id, uuids)
    requires !remote ==> op.session.open == {}
    modifies op
    ensures Ready(op, endpoint) && op.session.open == {}
    ensures old(op.log) <= op.log
    ensures NeverStarts(old(op.log), op.log)
    ensures OnlyTouches(old(op.log), op.log, endpoint.id, Elements(uuids))
    ensures !remote ==> ChangesNothing(old(op.log), op.log)
    ensures var due := remote && !Verified(endpoint, uuids, false, answer);
            && op.log != []
            && op.log[|op.log| - 1] == SetError(Cards(endpoint.id, uuids), due, unwritten.None?)
            && (raised == CleanupFailed <==> due && unwritten.None?)
    ensures if unwritten.Some? then raised == Service(unwritten.value)
            else raised in {code, CleanupFailed, ObservationFailed}
  {
    hide Follows, Replay;
    raised := code;
    var unfinished := false;
    if remote {
      var failure := StopVerified(op, endpoint, uuids, answer);
      if failure.Some? {
        raised := CleanupFailed;
        unfinished := true;
      }
    }
    var collected := op.CollectEndpoint(endpoint.id);
    if !collected && raised != CleanupFailed {
      raised := ObservationFailed;
    }
    op.Emit(SetError(Cards(endpoint.id, uuids), unfinished, unwritten.None?));
    if unwritten.Some? {
      raised := Service(unwritten.value);
    }
  }

  /**
   Start the named workers and check the answer. A failure needs no remote cleanup
   exactly when it was known before anything was spawned.
   */
  method StartVerified(op: Operation, endpoint: EndpointConfig, uuids: seq<string>, answer: HostAnswer)
    returns (failure: Option<Code>, remote: bool)
    requires Ready(op, endpoint) && op.session.open == {}
    modifies op
    ensures Ready(op, endpoint) && op.session.open <= Cards(endpoint.id, uuids)
    ensures old(op.log) <= op.log && OnlyTouches(old(op.log), op.log, endpoint.id, Elements(uuids))
    ensures failure.None? <==> Verified(endpoint, uuids, true, answer)
    ensures failure.None? ==>
              && |op.log| == |old(op.log)| + 1
              && var ev := op.log[|old(op.log)|];
                 ev.Mutate? && ev.host == endpoint.id && ev.on && ev.uuids == uuids && ExactReply(ev.reply, true, uuids)
    ensures failure.Some? ==> (remote <==> !RefusedEarly(endpoint, uuids, answer.probe))
    ensures failure.Some? && !remote ==> op.log == old(op.log) && op.session == old(op.session)
    ensures failure.Some? ==> failure.value == CodeOf(FaultOf(endpoint, uuids, answer)) != CleanupFailed
  {
    hide Follows, Replay;
    var result := SetEnabled(op, endpoint, true, uuids, answer);
    if result.Failed? {
      return Some(CodeOf(result.failure)), result.failure.OtherError? || result.failure.uncertain;
    }
    ExactIsOneEach(result.value, uuids, true);
    var byUuid := ResultByGpuUuid(result.value.results, uuids, true);
    if byUuid.None? {
      return Some(AdapterFailed), true;
    }
    return None, true;
  }

  /** What the host and the ledger answer while workers are accepted. */
  datatype Acceptance = Acceptance(attest: AttestAnswer, collected: bool, refused: Option<nat>)

  datatype StartAnswer = StartAnswer(
    start: HostAnswer, acceptance: Acceptance, cleanup: HostAnswer, unwritten: Option<nat>)

  /** The helper proves its own worker on every card, a collection succeeds and the ledger agrees. */
  predicate Accepts(endpoint: EndpointConfig, uuids: seq<string>, a: Acceptance) {
    && Proves(endpoint, uuids, a.attest)
    && (forall w :: w in a.attest.call.decoded.value ==> SoundWorker(w))
    && a.collected && a.refused.None?
  }

  /** The code under which workers that are not accepted are refused. */
  function RefusesWith(endpoint: EndpointConfig, uuids: seq<string>, a: Acceptance): Code
    requires !Accepts(endpoint, uuids, a)
  {
    if !Proves(endpoint, uuids, a.attest) then
      match FaultOfAttestation(endpoint, uuids, a.attest)
      case CommandError(kind, uncertain) => FailureCode(kind, uncertain)
      case OtherError => ActivationFailed
    else if exists w :: w in a.attest.call.decoded.value && !SoundWorker(w) then AttestationInvalid
    else if !a.collected then ObservationFailed
    else Service(a.refused.value)
  }

  /** One exact start of all of them, then clock, collection and one confirmation of all of them. */
  ghost predicate StartedAndConfirmed(before: seq<Event>, after: seq<Event>, host: Endpoint, names: set<string>) {
    && |after| == |before| + 4
    && var start, clock, look, confirm :=
         after[|before|], after[|before| + 1], after[|before| + 2], after[|before| + 3];
       && start.Mutate? && start.host == host && start.on && Elements(start.uuids) == names
       && ExactReply(start.reply, true, start.uuids)
       && clock.ReadClock? && look == Collect(host)
       && confirm == Confirm(Under(host, names), clock.now, true)
  }

  /** Attestation, collection, one batch confirmation; anything that goes wrong is a code. */
  method Activate(op: Operation, endpoint: EndpointConfig, uuids: seq<string>, now: nat, a: Acceptance)
    returns (refusal: Option<Code>)
    requires Ready(op, endpoint) && op.session.stamp == Some(now)
    requires op.session.open <= Cards(endpoint.id, uuids)
    modifies op
    ensures Ready(op, endpoint)
    ensures old(op.log) <= op.log && ChangesNothing(old(op.log), op.log)
    ensures refusal.None? <==> Accepts(endpoint, uuids, a)
    ensures refusal.None? ==>
              && op.log == old(op.log) + [Collect(endpoint.id), Confirm(Cards(endpoint.id, uuids), now, true)]
              && op.session.open == {}
    ensures refusal.Some? ==> op.session.open == old(op.session).open && refusal.value != CleanupFailed
    ensures refusal.Some? ==> refusal.value == RefusesWith(endpoint, uuids, a)
  {
    hide Follows, Replay;
    var attested := AttestWorkers(endpoint, uuids, a.attest);
    if attested.Failed? {
      match attested.failure
      case CommandError(kind, uncertain) => return Some(FailureCode(kind, uncertain));
      case OtherError => return Some(ActivationFailed);
    }
    var identities := AttestedIdentities(attested.value, uuids);
    if identities.None? {
      return Some(AttestationInvalid);
    }
    op.Emit(Collect(endpoint.id));
    if !a.collected {
      return Some(ObservationFailed);
    }
    if a.refused.Some? {
      op.Emit(Confirm(Cards(endpoint.id, uuids), now, false));
      return Some(Service(a.refused.value));
    }
    op.Emit(Confirm(Cards(endpoint.id, uuids), now, true));
    return None;
  }

  lemma NothingIsTouchedYet(log: seq<Event>, host: Endpoint, uuids: set<string>)
    ensures OnlyTouches(log, log, host, uuids)
  {}

  lemma CardsAreUnder(host: Endpoint, uuids: seq<string>)
    ensures Cards(host, uuids) == Under(host, Elements(uuids))
  {}

  lemma TouchesTogether(before: seq<Event>, mid: seq<Event>, after: seq<Event>, host: Endpoint, uuids: set<string>)
    requires before <= mid <= after && OnlyTouches(before, mid, host, uuids) && OnlyTouches(mid, after, host, uuids)
    ensures OnlyTouches(before, after, host, uuids)
  {
    forall i | |before| <= i < |after| && after[i].Mutate?
      ensures after[i].host == host && Elements(after[i].uuids) <= uuids
    {
      assert i < |mid| ==> after[i] == mid[i];
    }
  }

  /** A clock reading, and then nothing that changes anything. */
  lemma QuietTail(before: seq<Event>, after: seq<Event>, host: Endpoint, uuids: set<string>, now: nat)
    requires before + [ReadClock(now)] <= after && ChangesNothing(before + [ReadClock(now)], after)
    ensures OnlyTouches(before, after, host, uuids)
  {
    assert after[|before|] == ReadClock(now);
  }

  lemma NotRefusedEarly(endpoint: EndpointConfig, uuids: seq<string>, a: HostAnswer)
    requires Verified(endpoint, uuids, true, a)
    ensures !RefusedEarly(endpoint, uuids, a.probe)
  {}

  lemma StartIsConfirmed(
    before: seq<Event>, begun: seq<Event>, log: seq<Event>, host: Endpoint, uuids: seq<string>, now: nat)
    requires |begun| == |before| + 1 && before <= begun
    requires var ev := begun[|before|];
             ev.Mutate? && ev.host == host && ev.on && ev.uuids == uuids && ExactReply(ev.reply, true, uuids)
    requires log == begun + [ReadClock(now)] + [Collect(host), Confirm(Cards(host, uuids), now, true)]
    ensures StartedAndConfirmed(before, log, host, Elements(uuids))
  {
    hide ExactReply;
    CardsAreUnder(host, uuids);
  }

  ghost predicate StartOk(endpoint: EndpointConfig, starts: seq<Transition>, a: StartAnswer) {
    && (forall t :: t in starts ==> t.uuid.Some?)
    && Verified(endpoint, UuidsOf(starts), true, a.start) && Accepts(endpoint, UuidsOf(starts), a.acceptance)
  }

  /** What a start that does not succeed is blamed on: the command, else the acceptance of its workers. */
  function StartFailsWith(endpoint: EndpointConfig, uuids: seq<string>, a: StartAnswer): Code
    requires !(Verified(endpoint, uuids, true, a.start) && Accepts(endpoint, uuids, a.acceptance))
  {
    if !Verified(endpoint, uuids, true, a.start) then CodeOf(FaultOf(endpoint, uuids, a.start))
    else RefusesWith(endpoint, uuids, a.acceptance)
  }

  /**
   Start the named workers. It succeeds exactly when the start is verified and the
   workers are accepted; success means one batch confirmation that followed the
   start, a fresh clock reading, an exact attestation and a collection. A start
   known to be refused before it was spawned changes nothing and skips the remote
   cleanup; after any other failure a mark is due unless the stop is verified, and the
   cards are left marked unless the ledger refuses the write.
   */
  method StartPhase(op: Operation, endpoint: EndpointConfig, starts: seq<Transition>, a: StartAnswer)
    returns (outcome: Outcome)
    requires Ready(op, endpoint) && op.session.open == {} && starts != []
    modifies op
    ensures Ready(op, endpoint) && op.session.open == {}
    ensures old(op.log) <= op.log
    ensures OnlyTouches(old(op.log), op.log, endpoint.id, Named(starts))
    ensures (exists t :: t in starts && t.uuid.None?) ==> outcome == Raised(PlanInvalid) && op.log == old(op.log)
    ensures outcome.Finished? <==> StartOk(endpoint, starts, a)
    ensures (forall t :: t in starts ==> t.uuid.Some?) ==>
              var uuids := UuidsOf(starts);
              && (outcome == Raised(CleanupFailed) <==>
                    && !outcome.Finished? && !RefusedEarly(endpoint, uuids, a.start.probe)
                    && !Verified(endpoint, uuids, false, a.cleanup) && a.unwritten.None?)
              && (RefusedEarly(endpoint, uuids, a.start.probe) ==> ChangesNothing(old(op.log), op.log))
              && (outcome.Raised? ==>
                    var due := !RefusedEarly(endpoint, uuids, a.start.probe) && !Verified(endpoint, uuids, false, a.cleanup);
                    && op.log != []
                    && op.log[|op.log| - 1] == SetError(Under(endpoint.id, Named(starts)), due, a.unwritten.None?)
                    && (a.unwritten.Some? ==> outcome == Raised(Service(a.unwritten.value)))
                    && (a.unwritten.None? && !due ==>
                          outcome.code == ObservationFailed || outcome.code == StartFailsWith(endpoint, uuids, a)))
    ensures outcome.Finished? ==> StartedAndConfirmed(old(op.log), op.log, endpoint.id, Named(starts))
  {
    hide Follows, Replay, Allowed, Verified, Accepts, RefusedEarly, OnlyTouches, NeverStarts, ChangesNothing;
    hide StartedAndConfirmed, Named, Under, Cards, RefusesWith, FaultOf, CodeOf;
    var targets := Targets(starts);
    if targets.None? {
      NothingIsTouchedYet(op.log, endpoint.id, Named(starts));
      return Raised(PlanInvalid);
    }
    var uuids := targets.value;
    NamedTargets(starts, uuids);
    CardsAreUnder(endpoint.id, uuids);

    var failure, remote := StartVerified(op, endpoint, uuids, a.start);
    ghost var begun := op.log;
    if failure.Some? {
      var code := CleanupFailedStart(op, endpoint, uuids, failure.value, remote, a.cleanup, a.unwritten);
      TouchesTogether(old(op.log), begun, op.log, endpoint.id, Named(starts));
      return Raised(code);
    }
    NotRefusedEarly(endpoint, uuids, a.start);
    var now := op.ObservationNotBefore();
    var refusal := Activate(op, endpoint, uuids, now, a.acceptance);
    ghost var activated := op.log;
    QuietTail(begun, activated, endpoint.id, Named(starts), now);
    TouchesTogether(old(op.log), begun, activated, endpoint.id, Named(starts));
    if refusal.Some? {
      var code := CleanupFailedStart(op, endpoint, uuids, refusal.value, true, a.cleanup, a.unwritten);
      TouchesTogether(old(op.log), activated, op.log, endpoint.id, Named(starts));
      return Raised(code);
    }
    StartIsConfirmed(old(op.log), begun, op.log, endpoint.id, uuids, now);
    return Finished;
  }

  // ---------------------------------------------------------------------------
  // Recover
  // ---------------------------------------------------------------------------

  ghost predicate RecoverOk(endpoint: EndpointConfig, recovers: seq<Transition>, a: Acceptance) {
    && (forall t :: t in recovers ==> t.uuid.Some?)
    && (recovers == [] || Accepts(endpoint, UuidsOf(recovers), a))
  }

  /** Clock, collection and one confirmation of all of them; nothing is started. */
  ghost predicate Recovered(before: seq<Event>, after: seq<Event>, host: Endpoint, names: set<string>) {
    && |after| == |before| + 3 && before <= after
    && var clock, look, confirm := after[|before|], after[|before| + 1], after[|before| + 2];
       clock.ReadClock? && look == Collect(host) && confirm == Confirm(Under(host, names), clock.now, true)
  }

  /** Take an existing worker back. It never touches the host. */
  method RecoverPhase(op: Operation, endpoint: EndpointConfig, recovers: seq<Transition>, a: Acceptance)
    returns (outcome: Outcome)
    requires Ready(op, endpoint) && op.session.open == {}
    modifies op
    ensures Ready(op, endpoint) && op.session.open == {}
    ensures old(op.log) <= op.log && ChangesNothing(old(op.log), op.log)
    ensures (exists t :: t in recovers && t.uuid.None?) ==> outcome == Raised(PlanInvalid) && op.log == old(op.log)
    ensures outcome.Finished? <==> RecoverOk(endpoint, recovers, a)
    ensures recovers == [] ==> op.log == old(op.log)
    ensures outcome.Finished? && recovers != [] ==>
              Recovered(old(op.log), op.log, endpoint.id, Named(recovers))
  {
    hide Follows, Replay;
    if recovers == [] {
      return Finished;
    }
    var targets := Targets(recovers);
    if targets.None? {
      return Raised(PlanInvalid);
    }
    NamedTargets(recovers, targets.value);
    var now := op.ObservationNotBefore();
    var refusal := Activate(op, endpoint, targets.value, now, a);
    if refusal.Some? {
      return Raised(if refusal.value == ActivationFailed then AttestationInvalid else refusal.value);
    }
    return Finished;
  }

  // ---------------------------------------------------------------------------
  // Stop
  // ---------------------------------------------------------------------------

  datatype Lookup = Found(lease: Option<nat>) | Refused(n: nat)

  // What the ledger and the host answer about one card that should stop.
  datatype StopAnswer = StopAnswer(lookup: Lookup, host: HostAnswer, collected: bool, refused: Option<nat>)

  datatype StopFailure = StopFailure(index: nat, code: Code)

  predicate Named1(t: Transition) {
    t.uuid.Some? && t.lease.Some?
  }

  predicate Vouched(t: Transition, a: StopAnswer) {
    a.lookup == Found(t.lease)
  }

  /** The card's lease was still the planned one, and a later observation let it go. */
  predicate Releases(t: Transition, a: StopAnswer) {
    Vouched(t, a) && a.collected && a.refused.None?
  }

  /** Why a re-read that does not find the planned lease is a failure. */
  function LookupCode(lookup: Lookup): Code {
    match lookup
    case Refused(n) => Service(n)
    case Found(_) => PlanInvalid
  }

  /** The code under which a stop that is not released fails: the re-read, else the helper, else the observation. */
  function FailsWith(endpoint: EndpointConfig, t: Transition, a: StopAnswer): Code
    requires Named1(t) && !Releases(t, a)
  {
    if !Vouched(t, a) then LookupCode(a.lookup)
    else if !Verified(endpoint, [t.uuid.value], false, a.host) then CodeOf(FaultOf(endpoint, [t.uuid.value], a.host))
    else if !a.collected then ObservationFailed
    else Service(a.refused.value)
  }

  ghost predicate WasChecked(before: seq<Event>, after: seq<Event>, card: Card, lease: nat) {
    exists i :: |before| <= i < |after| && after[i] == Prepare(card, Some(lease))
  }

  ghost predicate WasReleased(before: seq<Event>, after: seq<Event>, lease: nat) {
    exists i :: |before| <= i < |after| && after[i].Finalize? && after[i].ok && after[i].lease == lease
  }

  ghost predicate StopChecked(before: seq<Event>, after: seq<Event>, host: Endpoint, t: Transition) {
    Named1(t) && WasChecked(before, after, Card(host, t.uuid.value), t.lease.value)
  }

  ghost predicate StopDone(before: seq<Event>, after: seq<Event>, host: Endpoint, t: Transition) {
    StopChecked(before, after, host, t) && WasReleased(before, after, t.lease.value)
  }

  /** Only leases in this set were offered for release. */
  ghost predicate OnlyFinalizes(before: seq<Event>, after: seq<Event>, leases: set<nat>) {
    forall i :: |before| <= i < |after| && after[i].Finalize? ==> after[i].lease in leases
  }

  /** The cards named by every command spawned since a point of the log, command by command. */
  function CommandsSince(from: nat, log: seq<Event>): seq<seq<string>> {
    if |log| <= from then []
    else
      var last := log[|log| - 1];
      CommandsSince(from, log[..|log| - 1]) + if last.Mutate? then [last.uuids] else []
  }

  lemma {:induction false} CommandsAppend(from: nat, mid: nat, log: seq<Event>)
    requires from <= mid <= |log|
    ensures CommandsSince(from, log) == CommandsSince(from, log[..mid]) + CommandsSince(mid, log)
  {
    if mid == |log| {
      assert log[..mid] == log;
    } else {
      var front := log[..|log| - 1];
      CommandsAppend(from, mid, front);
      assert front[..mid] == log[..mid];
    }
  }

  lemma {:induction false} NoCommands(from: nat, log: seq<Event>)
    requires forall i :: from <= i < |log| ==> !log[i].Mutate?
    ensures CommandsSince(from, log) == []
  {
    if |log| > from {
      NoCommands(from, log[..|log| - 1]);
    }
  }

  /** One command and then none. */
  lemma OneCommand(before: seq<Event>, mid: seq<Event>, log: seq<Event>, sent: bool, ev: Event)
    requires before <= mid <= log && mid == before + (if sent then [ev] else []) && ev.Mutate?
    requires forall i :: |mid| <= i < |log| ==> !log[i].Mutate?
    ensures CommandsSince(|before|, log) == if sent then [ev.uuids] else []
  {
    CommandsAppend(|before|, |mid|, log);
    assert log[..|mid|] == mid;
    NoCommands(|mid|, log);
    NoCommands(|before|, before);
    if sent {
      assert mid[..|mid| - 1] == before;
    }
  }

  /** At most one stop, then no command, and no lease but this one offered for release. */
  lemma StopLog(before: seq<Event>, mid: seq<Event>, log: seq<Event>, sent: bool, ev: Event, lease: nat)
    requires before <= mid <= log && mid == before + (if sent then [ev] else [])
    requires ev.Mutate? && !ev.on && |ev.uuids| == 1
    requires forall i :: |mid| <= i < |log| ==> !log[i].Mutate? && (log[i].Finalize? ==> log[i].lease == lease)
    ensures CommandsSince(|before|, log) == if sent then [ev.uuids] else []
    ensures OnlyTouches(before, log, ev.host, {ev.uuids[0]}) && NeverStarts(before, log)
    ensures OnlyFinalizes(before, log, {lease})
    ensures !sent && (forall i :: |mid| <= i < |log| ==> !(log[i].Finalize? && log[i].ok)) ==> ChangesNothing(before, log)
  {
    OneCommand(before, mid, log, sent, ev);
  }

  /** The command for one card, unless it is refused before it is spawned. */
  function Attempt(endpoint: EndpointConfig, uuid: string, a: StopAnswer): seq<seq<string>> {
    if Spawns(endpoint, [uuid], a.host) then [[uuid]] else []
  }

  /** The stops whose lease is still the planned one, among the first n, in plan order. */
  function VouchedFor(stops: seq<Transition>, answers: nat -> StopAnswer, n: nat): (r: seq<nat>)
    requires n <= |stops|
    ensures forall i: nat :: i in r <==> i < n && Vouched(stops[i], answers(i))
    ensures Distinct(r)
  {
    if n == 0 then []
    else VouchedFor(stops, answers, n - 1) + if Vouched(stops[n - 1], answers(n - 1)) then [n - 1] else []
  }

  /** One attempt for each of the first k prepared stops, in order. */
  function Attempts(
    endpoint: EndpointConfig, stops: seq<Transition>, answers: nat -> StopAnswer, prepared: seq<nat>, k: nat): seq<seq<string>>
    requires k <= |prepared|
  {
    if k == 0 then []
    else
      var i := prepared[k - 1];
      Attempts(endpoint, stops, answers, prepared, k - 1) +
      if i < |stops| && stops[i].uuid.Some? then Attempt(endpoint, stops[i].uuid.value, answers(i)) else []
  }

  /** Stop one card. Whatever the helper did, only a fresh observation decides. */
  method StopOne(op: Operation, endpoint: EndpointConfig, uuid: string, lease: nat, answer: StopAnswer)
    returns (failure: Option<Code>)
    requires Ready(op, endpoint) && op.session.open == {}
    modifies op
    ensures Ready(op, endpoint) && op.session.open == {}
    ensures old(op.log) <= op.log
    ensures OnlyTouches(old(op.log), op.log, endpoint.id, {uuid}) && NeverStarts(old(op.log), op.log)
    ensures CommandsSince(|old(op.log)|, op.log) == Attempt(endpoint, uuid, answer)
    ensures OnlyFinalizes(old(op.log), op.log, {lease})
    ensures failure.None? <==> answer.collected && answer.refused.None?
    ensures failure.None? ==> WasReleased(old(op.log), op.log, lease)
    ensures failure.Some? ==>
              failure.value == if !Verified(endpoint, [uuid], false, answer.host)
                               then CodeOf(FaultOf(endpoint, [uuid], answer.host))
                               else if !answer.collected then ObservationFailed else Service(answer.refused.value)
    ensures failure.Some? ==> (failure == Some(Unreachable) <==> Unanswered(endpoint, [uuid], answer.host))
    ensures failure == Some(Unreachable) ==> ChangesNothing(old(op.log), op.log)
  {
    hide Follows, Replay, CommandsSince, Spawns, Verified, Exact, OnlyTouches, NeverStarts, OnlyFinalizes, ChangesNothing;
    var adapter := StopVerified(op, endpoint, [uuid], answer.host);
    ghost var tried := op.log;
    ghost var sent: Event := Mutate(endpoint.id, false, [uuid], NoReply);
    if Spawns(endpoint, [uuid], answer.host) {
      ghost var reply :| tried == old(op.log) + [Mutate(endpoint.id, false, [uuid], reply)];
      sent := Mutate(endpoint.id, false, [uuid], reply);
    }
    var now := op.ObservationNotBefore();
    op.Emit(Collect(endpoint.id));
    var spawned := Spawns(endpoint, [uuid], answer.host);
    StopLog(old(op.log), tried, op.log, spawned, sent, lease);
    if !answer.collected {
      return Some(if adapter.Some? then adapter.value else ObservationFailed);
    }
    op.Emit(Finalize(endpoint.id, lease, now, answer.refused.None?));
    StopLog(old(op.log), tried, op.log, spawned, sent, lease);
    if answer.refused.Some? {
      return Some(if adapter.Some? then adapter.value else Service(answer.refused.value));
    }
    assert op.log[|op.log| - 1] == Finalize(endpoint.id, lease, now, true);
    return None;
  }

  ghost predicate Partition(n: nat, done: set<nat>, failures: seq<StopFailure>) {
    && |done| + |failures| == n
    && (forall i :: i in done ==> i < n)
    && (forall f :: f in failures ==> f.index < n && f.index !in done)
    && (forall i :: 0 <= i < n ==> i in done || FailedAt(failures, i))
  }

  ghost predicate FailedAt(failures: seq<StopFailure>, i: nat) {
    exists f :: f in failures && f.index == i
  }

  /** The first n leases re-read: each is vouched for and checked, or a recorded failure. */
  ghost predicate PreparedSoFar(
    start: seq<Event>, log: seq<Event>, host: Endpoint, stops: seq<Transition>, answers: nat -> StopAnswer,
    n: nat, failures: seq<StopFailure>)
  {
    && n <= |stops| && start <= log
    && (forall k :: |start| <= k < |log| ==> log[k].Prepare?)
    && (forall k :: 0 <= k < n ==> Named1(stops[k]))
    && |VouchedFor(stops, answers, n)| + |failures| == n
    && (forall k: nat :: k < n && Vouched(stops[k], answers(k)) ==> StopChecked(start, log, host, stops[k]))
    && (forall f :: f in failures ==>
          f.index < n && !Vouched(stops[f.index], answers(f.index)) && f.code == LookupCode(answers(f.index).lookup))
    && (forall k: nat :: k < n ==> Vouched(stops[k], answers(k)) || FailedAt(failures, k))
  }

  lemma CheckedStaysChecked(before: seq<Event>, mid: seq<Event>, after: seq<Event>, card: Card, lease: nat)
    requires WasChecked(before, mid, card, lease) && mid <= after
    ensures WasChecked(before, after, card, lease)
  {
    var i :| |before| <= i < |mid| && mid[i] == Prepare(card, Some(lease));
    assert after[i] == mid[i];
  }

  lemma ReleasedStaysReleased(before: seq<Event>, mid: seq<Event>, after: seq<Event>, lease: nat)
    requires WasReleased(before, mid, lease) && mid <= after
    ensures WasReleased(before, after, lease)
  {
    var i :| |before| <= i < |mid| && mid[i].Finalize? && mid[i].ok && mid[i].lease == lease;
    assert after[i] == mid[i];
  }

  lemma DoneStaysDone(before: seq<Event>, mid: seq<Event>, after: seq<Event>, host: Endpoint, t: Transition)
    requires StopChecked(before, mid, host, t) && mid <= after
    ensures StopChecked(before, after, host, t)
    ensures StopDone(before, mid, host, t) ==> StopDone(before, after, host, t)
  {
    CheckedStaysChecked(before, mid, after, Card(host, t.uuid.value), t.lease.value);
    if WasReleased(before, mid, t.lease.value) {
      ReleasedStaysReleased(before, mid, after, t.lease.value);
    }
  }

  lemma NothingPrepared(log: seq<Event>, host: Endpoint, stops: seq<Transition>, answers: nat -> StopAnswer)
    ensures PreparedSoFar(log, log, host, stops, answers, 0, []) && VouchedFor(stops, answers, 0) == []
  {}

  lemma VouchedStep(stops: seq<Transition>, answers: nat -> StopAnswer, n: nat)
    requires n < |stops|
    ensures VouchedFor(stops, answers, n + 1) ==
            VouchedFor(stops, answers, n) + if Vouched(stops[n], answers(n)) then [n] else []
  {}

  lemma PreparedKeepsLog(
    start: seq<Event>, log: seq<Event>, host: Endpoint, stops: seq<Transition>, answers: nat -> StopAnswer,
    n: nat, failures: seq<StopFailure>)
    requires PreparedSoFar(start, log, host, stops, answers, n, failures)
    ensures start <= log && forall i :: |start| <= i < |log| ==> log[i].Prepare?
    ensures n <= |stops| && forall k :: 0 <= k < n ==> Named1(stops[k])
  {}

  lemma PrepareStep(
    start: seq<Event>, mid: seq<Event>, log: seq<Event>, host: Endpoint, stops: seq<Transition>, answers: nat -> StopAnswer,
    n: nat, failures: seq<StopFailure>, failure: Option<Code>)
    requires PreparedSoFar(start, mid, host, stops, answers, n, failures) && n < |stops| && Named1(stops[n])
    requires log == mid || exists seen :: log == mid + [Prepare(Card(host, stops[n].uuid.value), seen)]
    requires failure.None? <==> Vouched(stops[n], answers(n))
    requires failure.None? ==> log == mid + [Prepare(Card(host, stops[n].uuid.value), stops[n].lease)]
    requires failure.Some? ==> failure.value == LookupCode(answers(n).lookup)
    ensures PreparedSoFar(start, log, host, stops, answers, n + 1,
                          failures + if failure.None? then [] else [StopFailure(n, failure.value)])
  {
    hide StopChecked, Vouched, FailedAt, VouchedFor;
    VouchedStep(stops, answers, n);
    FailuresGrow(failures, n, failure);
    if failure.None? {
      NowChecked(start, mid, log, host, stops[n]);
    }
    forall k: nat | k < n && Vouched(stops[k], answers(k)) ensures StopChecked(start, log, host, stops[k]) {
      DoneStaysDone(start, mid, log, host, stops[k]);
    }
  }

  lemma NowChecked(start: seq<Event>, mid: seq<Event>, log: seq<Event>, host: Endpoint, t: Transition)
    requires Named1(t) && start <= mid && log == mid + [Prepare(Card(host, t.uuid.value), t.lease)]
    ensures StopChecked(start, log, host, t)
  {
    assert log[|mid|] == Prepare(Card(host, t.uuid.value), Some(t.lease.value));
  }

  lemma FailuresGrow(failures: seq<StopFailure>, n: nat, failure: Option<Code>)
    ensures var grown := failures + if failure.None? then [] else [StopFailure(n, failure.value)];
            && (forall k :: FailedAt(failures, k) ==> FailedAt(grown, k))
            && (failure.Some? ==> FailedAt(grown, n))
  {
    var grown := failures + if failure.None? then [] else [StopFailure(n, failure.value)];
    assert failure.Some? ==> grown[|failures|] in grown;
    forall k | FailedAt(failures, k) ensures FailedAt(grown, k) {
      var f :| f in failures && f.index == k;
      assert f in grown;
    }
  }

  /** Re-read every lease before anything is sent. None is a malformed plan. */
  method PrepareStops(op: Operation, endpoint: EndpointConfig, stops: seq<Transition>, answers: nat -> StopAnswer)
    returns (prepared: Option<seq<nat>>, failures: seq<StopFailure>)
    requires Ready(op, endpoint) && op.session.open == {}
    modifies op
    ensures Ready(op, endpoint) && op.session.open == {}
    ensures old(op.log) <= op.log
    ensures forall i :: |old(op.log)| <= i < |op.log| ==> op.log[i].Prepare?
    ensures prepared.None? <==> exists t :: t in stops && !Named1(t)
    ensures prepared.Some? ==>
              && prepared.value == VouchedFor(stops, answers, |stops|)
              && PreparedSoFar(old(op.log), op.log, endpoint.id, stops, answers, |stops|, failures)
  {
    hide Follows, Replay, PreparedSoFar, VouchedFor;
    var ready: seq<nat> := [];
    failures := [];
    NothingPrepared(op.log, endpoint.id, stops, answers);
    for i := 0 to |stops|
      invariant Ready(op, endpoint) && op.session.open == {}
      invariant ready == VouchedFor(stops, answers, i)
      invariant PreparedSoFar(old(op.log), op.log, endpoint.id, stops, answers, i, failures)
    {
      PreparedKeepsLog(old(op.log), op.log, endpoint.id, stops, answers, i, failures);
      var t := stops[i];
      if !Named1(t) {
        assert t in stops;
        return None, failures;
      }
      ghost var before, done := op.log, failures;
      ghost var failure: Option<Code> := None;
      match answers(i).lookup {
        case Refused(n) =>
          failure := Some(Service(n));
          failures := failures + [StopFailure(i, Service(n))];
        case Found(seen) =>
          op.Emit(Prepare(Card(endpoint.id, t.uuid.value), seen));
          if seen == t.lease {
            ready := ready + [i];
          } else {
            failure := Some(PlanInvalid);
            failures := failures + [StopFailure(i, PlanInvalid)];
          }
      }
      VouchedStep(stops, answers, i);
      PrepareStep(old(op.log), before, op.log, endpoint.id, stops, answers, i, done, failure);
      assert failures == done + if failure.None? then [] else [StopFailure(i, failure.value)];
    }
    PreparedKeepsLog(old(op.log), op.log, endpoint.id, stops, answers, |stops|, failures);
    return Some(ready), failures;
  }

  /** The error the stop phase ends with, from its recorded failures. */
  function Verdict(failures: seq<StopFailure>): Outcome {
    if failures == [] then Finished
    else if forall f :: f in failures ==> f.code == Unreachable then Raised(Unreachable)
    else if forall f :: f in failures ==> f.code == Incompatible then Raised(Incompatible)
    else Raised(PartialStop)
  }

  /** Which of the first k prepared cards are released, and which failures that leaves. */
  ghost predicate Tally(
    stops: seq<Transition>, answers: nat -> StopAnswer, prepared: seq<nat>, k: nat,
    done: set<nat>, failures: seq<StopFailure>)
  {
    && k <= |prepared|
    && |done| + |failures| == |stops| - (|prepared| - k)
    && (forall i :: i in done <==> i in prepared[..k] && i < |stops| && Releases(stops[i], answers(i)))
    && (forall f :: f in failures ==>
          f.index < |stops| && f.index !in prepared[k..] && !Releases(stops[f.index], answers(f.index)))
    && (forall i :: 0 <= i < |stops| ==> i in done || FailedAt(failures, i) || i in prepared[k..])
  }

  lemma TallyStep(
    stops: seq<Transition>, answers: nat -> StopAnswer, prepared: seq<nat>, k: nat,
    done: set<nat>, failures: seq<StopFailure>, failure: Option<Code>)
    returns (done': set<nat>, failures': seq<StopFailure>)
    requires Tally(stops, answers, prepared, k, done, failures)
    requires Distinct(prepared) && k < |prepared| && prepared[k] < |stops|
    requires failure.None? <==> Releases(stops[prepared[k]], answers(prepared[k]))
    ensures failure.Some? ==> done' == done && failures' == failures + [StopFailure(prepared[k], failure.value)]
    ensures failure.None? ==> done' == done + {prepared[k]} && failures' == failures
    ensures Tally(stops, answers, prepared, k + 1, done', failures')
  {
    var i := prepared[k];
    done', failures' := done, failures;
    assert prepared[..k + 1] == prepared[..k] + [i];
    assert prepared[k..] == [i] + prepared[k + 1..];
    assert i !in prepared[..k] && i !in prepared[k + 1..];
    if failure.Some? {
      failures' := failures + [StopFailure(i, failure.value)];
      assert failures'[|failures|] in failures';
    } else {
      done' := done + {i};
    }
    forall j | 0 <= j < |stops| && j !in done' && j !in prepared[k + 1..] ensures FailedAt(failures', j) {
      if j == i {
        assert failures'[|failures|].index == j;
      } else {
        var f :| f in failures && f.index == j;
        assert f in failures';
      }
    }
  }

  /** Every recorded failure is one of a stop that is not released, under its code. */
  ghost predicate CodesAreExact(
    endpoint: EndpointConfig, stops: seq<Transition>, answers: nat -> StopAnswer, failures: seq<StopFailure>)
  {
    forall f :: f in failures ==>
      && f.index < |stops| && Named1(stops[f.index]) && !Releases(stops[f.index], answers(f.index))
      && f.code == FailsWith(endpoint, stops[f.index], answers(f.index))
  }

  ghost predicate BlamesOther(failures: seq<StopFailure>) {
    exists f :: f in failures && f.code != Unreachable
  }

  /** Seen from the plan and the answers: the lease was the planned one, and the preflight got no answer. */
  predicate FailsUnreachable(endpoint: EndpointConfig, t: Transition, a: StopAnswer) {
    Vouched(t, a) && t.uuid.Some? && Unanswered(endpoint, [t.uuid.value], a.host)
  }

  /** Likewise: the preflight was answered by a helper that does not fit. */
  predicate FailsIncompatible(endpoint: EndpointConfig, t: Transition, a: StopAnswer) {
    && Vouched(t, a) && t.uuid.Some? && ValidRequest([t.uuid.value]) && endpoint.workspace.Some?
    && Outdated(a.host.probe)
  }

  lemma CodesOfTheHelper(endpoint: EndpointConfig, t: Transition, a: StopAnswer)
    requires Named1(t) && !Releases(t, a)
    ensures FailsWith(endpoint, t, a) == Unreachable <==> FailsUnreachable(endpoint, t, a)
    ensures FailsWith(endpoint, t, a) == Incompatible <==> FailsIncompatible(endpoint, t, a)
  {
    hide ValidRequest, Exact;
  }

  ghost predicate SomeUnreleased(stops: seq<Transition>, answers: nat -> StopAnswer) {
    exists i :: 0 <= i < |stops| && !Releases(stops[i], answers(i))
  }

  /** The stop phase will announce that the helper is unreachable and nothing was touched. */
  ghost predicate Announces(endpoint: EndpointConfig, stops: seq<Transition>, answers: nat -> StopAnswer) {
    && (forall t :: t in stops ==> Named1(t)) && SomeUnreleased(stops, answers)
    && forall i :: 0 <= i < |stops| && !Releases(stops[i], answers(i)) ==> FailsUnreachable(endpoint, stops[i], answers(i))
  }

  /** It will ask for an upgrade of the helper. */
  ghost predicate AsksForUpgrade(endpoint: EndpointConfig, stops: seq<Transition>, answers: nat -> StopAnswer) {
    && (forall t :: t in stops ==> Named1(t)) && SomeUnreleased(stops, answers)
    && forall i :: 0 <= i < |stops| && !Releases(stops[i], answers(i)) ==> FailsIncompatible(endpoint, stops[i], answers(i))
  }

  /** It will report a partial stop. */
  ghost predicate StopsPartly(endpoint: EndpointConfig, stops: seq<Transition>, answers: nat -> StopAnswer) {
    && (forall t :: t in stops ==> Named1(t)) && SomeUnreleased(stops, answers)
    && !Announces(endpoint, stops, answers) && !AsksForUpgrade(endpoint, stops, answers)
  }

  ghost predicate SomeReleased(stops: seq<Transition>, answers: nat -> StopAnswer) {
    exists i :: 0 <= i < |stops| && Releases(stops[i], answers(i))
  }

  /** What the log shows while the prepared cards are being stopped. */
  ghost predicate StopsSoFar(
    start: seq<Event>, log: seq<Event>, host: Endpoint, stops: seq<Transition>,
    prepared: seq<nat>, done: set<nat>, failures: seq<StopFailure>)
  {
    && start <= log && NeverStarts(start, log) && OnlyTouches(start, log, host, Named(stops))
    && (forall i :: i in prepared ==> i < |stops| && StopChecked(start, log, host, stops[i]))
    && (forall i :: i in done ==> i in prepared && i < |stops| && StopDone(start, log, host, stops[i]))
    && (ChangesNothing(start, log) || done != {} || BlamesOther(failures))
  }

  lemma OneMoreStop(
    start: seq<Event>, mid: seq<Event>, log: seq<Event>, host: Endpoint, stops: seq<Transition>, prepared: seq<nat>,
    done: set<nat>, failures: seq<StopFailure>, i: nat, failure: Option<Code>, done': set<nat>, failures': seq<StopFailure>)
    requires StopsSoFar(start, mid, host, stops, prepared, done, failures) && mid <= log
    requires i in prepared && NeverStarts(mid, log) && OnlyTouches(mid, log, host, {stops[i].uuid.value})
    requires failure.None? ==> WasReleased(mid, log, stops[i].lease.value)
    requires failure == Some(Unreachable) ==> ChangesNothing(mid, log)
    requires failure.Some? ==> done' == done && failures' == failures + [StopFailure(i, failure.value)]
    requires failure.None? ==> done' == done + {i} && failures' == failures
    ensures StopsSoFar(start, log, host, stops, prepared, done', failures')
  {
    assert stops[i] in stops && stops[i].uuid.value in Named(stops);
    forall j | j in prepared
      ensures StopChecked(start, log, host, stops[j])
      ensures j in done ==> StopDone(start, log, host, stops[j])
    {
      DoneStaysDone(start, mid, log, host, stops[j]);
    }
    if failure.None? {
      ReleasedLater(start, mid, log, stops[i].lease.value);
    } else {
      assert failures'[|failures|] == StopFailure(i, failure.value) && failures'[|failures|] in failures';
      if BlamesOther(failures) {
        var f :| f in failures && f.code != Unreachable;
        assert f in failures';
      }
    }
  }

  lemma ReleasedLater(start: seq<Event>, mid: seq<Event>, after: seq<Event>, lease: nat)
    requires start <= mid && WasReleased(mid, after, lease)
    ensures WasReleased(start, after, lease)
  {
    var i :| |mid| <= i < |after| && after[i].Finalize? && after[i].ok && after[i].lease == lease;
  }

  /** The planned cards that end up released. */
  function Released(stops: seq<Transition>, answers: nat -> StopAnswer): set<nat> {
    set i | 0 <= i < |stops| && Releases(stops[i], answers(i))
  }

  lemma PreparedIsNamed(
    start: seq<Event>, log: seq<Event>, host: Endpoint, stops: seq<Transition>,
    prepared: seq<nat>, done: set<nat>, failures: seq<StopFailure>, i: nat)
    requires StopsSoFar(start, log, host, stops, prepared, done, failures) && i in prepared
    ensures i < |stops| && Named1(stops[i]) && |start| <= |log|
  {}

  lemma TallyComplete(
    stops: seq<Transition>, answers: nat -> StopAnswer, prepared: seq<nat>, done: set<nat>, failures: seq<StopFailure>)
    requires Tally(stops, answers, prepared, |prepared|, done, failures)
    ensures done == Released(stops, answers)
    ensures Partition(|stops|, done, failures)
  {
    forall i | 0 <= i < |stops| && i !in done ensures i !in Released(stops, answers) {
      var f :| f in failures && f.index == i;
    }
  }

  method StopPrepared(
    op: Operation, endpoint: EndpointConfig, stops: seq<Transition>, answers: nat -> StopAnswer,
    prepared: seq<nat>, refused: seq<StopFailure>, ghost start: seq<Event>)
    returns (failures: seq<StopFailure>)
    requires Ready(op, endpoint) && op.session.open == {}
    requires StopsSoFar(start, op.log, endpoint.id, stops, prepared, {}, refused)
    requires forall i :: i in prepared ==> Vouched(stops[i], answers(i))
    requires Distinct(prepared) && Tally(stops, answers, prepared, 0, {}, refused)
    requires CodesAreExact(endpoint, stops, answers, refused)
    requires CommandsSince(|start|, op.log) == []
    modifies op
    ensures Ready(op, endpoint) && op.session.open == {}
    ensures StopsSoFar(start, op.log, endpoint.id, stops, prepared, Released(stops, answers), failures)
    ensures Tally(stops, answers, prepared, |prepared|, Released(stops, answers), failures)
    ensures CodesAreExact(endpoint, stops, answers, failures)
    ensures CommandsSince(|start|, op.log) == Attempts(endpoint, stops, answers, prepared, |prepared|)
  {
    hide Follows, Replay, StopsSoFar, Tally, CommandsSince, CodesAreExact, Attempts;
    ghost var done: set<nat> := {};
    failures := refused;
    NoAttempts(endpoint, stops, answers, prepared);
    for k := 0 to |prepared|
      invariant Ready(op, endpoint) && op.session.open == {}
      invariant StopsSoFar(start, op.log, endpoint.id, stops, prepared, done, failures)
      invariant Tally(stops, answers, prepared, k, done, failures)
      invariant CodesAreExact(endpoint, stops, answers, failures)
      invariant CommandsSince(|start|, op.log) == Attempts(endpoint, stops, answers, prepared, k)
    {
      var i := prepared[k];
      PreparedIsNamed(start, op.log, endpoint.id, stops, prepared, done, failures, i);
      ghost var before := op.log;
      var failure := StopOne(op, endpoint, stops[i].uuid.value, stops[i].lease.value, answers(i));
      ghost var done', failures' := TallyStep(stops, answers, prepared, k, done, failures, failure);
      OneMoreStop(start, before, op.log, endpoint.id, stops, prepared, done, failures, i, failure, done', failures');
      CommandsAppend(|start|, |before|, op.log);
      assert op.log[..|before|] == before;
      AttemptsUnfold(endpoint, stops, answers, prepared, k);
      CodesGrow(endpoint, stops, answers, failures, i, failure);
      if failure.Some? {
        failures := failures + [StopFailure(i, failure.value)];
      }
      done := done';
    }
    TallyComplete(stops, answers, prepared, done, failures);
  }

  lemma NoAttempts(endpoint: EndpointConfig, stops: seq<Transition>, answers: nat -> StopAnswer, prepared: seq<nat>)
    ensures Attempts(endpoint, stops, answers, prepared, 0) == []
  {}

  lemma AttemptsUnfold(
    endpoint: EndpointConfig, stops: seq<Transition>, answers: nat -> StopAnswer, prepared: seq<nat>, k: nat)
    requires k < |prepared| && prepared[k] < |stops| && Named1(stops[prepared[k]])
    ensures Attempts(endpoint, stops, answers, prepared, k + 1) ==
            Attempts(endpoint, stops, answers, prepared, k)
              + Attempt(endpoint, stops[prepared[k]].uuid.value, answers(prepared[k]))
  {}

  lemma CodesGrow(
    endpoint: EndpointConfig, stops: seq<Transition>, answers: nat -> StopAnswer, failures: seq<StopFailure>, i: nat,
    failure: Option<Code>)
    requires CodesAreExact(endpoint, stops, answers, failures) && i < |stops| && Named1(stops[i])
    requires failure.Some? ==>
               !Releases(stops[i], answers(i)) && failure.value == FailsWith(endpoint, stops[i], answers(i))
    ensures failure.Some? ==> CodesAreExact(endpoint, stops, answers, failures + [StopFailure(i, failure.value)])
  {
    hide FailsWith, Releases;
  }

  ghost predicate StopOk(stops: seq<Transition>, answers: nat -> StopAnswer) {
    forall i :: 0 <= i < |stops| ==> Named1(stops[i]) && Releases(stops[i], answers(i))
  }

  lemma UnnamedAnnouncesNothing(endpoint: EndpointConfig, stops: seq<Transition>, answers: nat -> StopAnswer)
    requires exists t :: t in stops && !Named1(t)
    ensures !Announces(endpoint, stops, answers) && !AsksForUpgrade(endpoint, stops, answers)
    ensures !StopsPartly(endpoint, stops, answers)
  {}

  /** The failures and the stops that are not released correspond, codes included. */
  lemma FailuresAreTheUnreleased(
    endpoint: EndpointConfig, stops: seq<Transition>, answers: nat -> StopAnswer, failures: seq<StopFailure>)
    requires Partition(|stops|, Released(stops, answers), failures) && CodesAreExact(endpoint, stops, answers, failures)
    requires forall t :: t in stops ==> Named1(t)
    ensures failures != [] <==> SomeUnreleased(stops, answers)
    ensures (forall f :: f in failures ==> f.code == Unreachable) <==>
            (forall i :: 0 <= i < |stops| && !Releases(stops[i], answers(i)) ==>
               FailsUnreachable(endpoint, stops[i], answers(i)))
    ensures (forall f :: f in failures ==> f.code == Incompatible) <==>
            (forall i :: 0 <= i < |stops| && !Releases(stops[i], answers(i)) ==>
               FailsIncompatible(endpoint, stops[i], answers(i)))
  {
    hide FailsUnreachable, FailsIncompatible, FailsWith, Releases;
    forall f | f in failures
      ensures f.code == Unreachable <==> FailsUnreachable(endpoint, stops[f.index], answers(f.index))
      ensures f.code == Incompatible <==> FailsIncompatible(endpoint, stops[f.index], answers(f.index))
    {
      CodesOfTheHelper(endpoint, stops[f.index], answers(f.index));
    }
    forall i | 0 <= i < |stops| && !Releases(stops[i], answers(i))
      ensures exists f :: f in failures && f.index == i
    {
      assert FailedAt(failures, i);
    }
    if failures != [] {
      assert failures[0] in failures && !Releases(stops[failures[0].index], answers(failures[0].index));
    }
  }

  lemma VerdictIsAnnounced(
    endpoint: EndpointConfig, stops: seq<Transition>, answers: nat -> StopAnswer, failures: seq<StopFailure>)
    requires Partition(|stops|, Released(stops, answers), failures) && CodesAreExact(endpoint, stops, answers, failures)
    requires forall t :: t in stops ==> Named1(t)
    ensures Verdict(failures) == Raised(Unreachable) <==> Announces(endpoint, stops, answers)
    ensures Verdict(failures) == Raised(Incompatible) <==> AsksForUpgrade(endpoint, stops, answers)
    ensures Verdict(failures) == Raised(PartialStop) <==> StopsPartly(endpoint, stops, answers)
  {
    hide Partition, CodesAreExact, FailsUnreachable, FailsIncompatible, Releases;
    FailuresAreTheUnreleased(endpoint, stops, answers, failures);
    if failures != [] {
      assert failures[0] in failures;
      assert failures[0].code == Unreachable ==> failures[0].code != Incompatible;
    }
  }

  lemma FinishedWhenAllReleased(stops: seq<Transition>, answers: nat -> StopAnswer, failures: seq<StopFailure>)
    requires Partition(|stops|, Released(stops, answers), failures)
    ensures failures == [] <==> forall i :: 0 <= i < |stops| ==> Releases(stops[i], answers(i))
  {
    if failures != [] {
      assert failures[0] in failures;
    }
    forall i | 0 <= i < |stops| && !Releases(stops[i], answers(i)) ensures failures != [] {
      assert FailedAt(failures, i);
    }
  }

  lemma TallyAtStart(
    start: seq<Event>, log: seq<Event>, host: Endpoint, stops: seq<Transition>, answers: nat -> StopAnswer,
    failures: seq<StopFailure>)
    requires PreparedSoFar(start, log, host, stops, answers, |stops|, failures)
    ensures Tally(stops, answers, VouchedFor(stops, answers, |stops|), 0, {}, failures)
  {
    hide StopChecked, FailedAt, VouchedFor;
    var prepared := VouchedFor(stops, answers, |stops|);
    assert prepared[0..] == prepared && prepared[..0] == [];
  }

  lemma StopsAtStart(
    start: seq<Event>, log: seq<Event>, host: Endpoint, stops: seq<Transition>, answers: nat -> StopAnswer,
    failures: seq<StopFailure>)
    requires PreparedSoFar(start, log, host, stops, answers, |stops|, failures)
    ensures StopsSoFar(start, log, host, stops, VouchedFor(stops, answers, |stops|), {}, failures)
  {
    hide StopChecked, StopDone, FailedAt, VouchedFor;
  }

  lemma ReadyToStop(
    start: seq<Event>, log: seq<Event>, endpoint: EndpointConfig, stops: seq<Transition>, answers: nat -> StopAnswer,
    failures: seq<StopFailure>)
    requires PreparedSoFar(start, log, endpoint.id, stops, answers, |stops|, failures)
    ensures var prepared := VouchedFor(stops, answers, |stops|);
            && Distinct(prepared) && (forall i :: i in prepared ==> i < |stops| && Vouched(stops[i], answers(i)))
            && StopsSoFar(start, log, endpoint.id, stops, prepared, {}, failures)
            && Tally(stops, answers, prepared, 0, {}, failures)
            && CodesAreExact(endpoint, stops, answers, failures)
  {
    hide VouchedFor, Tally, StopsSoFar, PreparedSoFar, CodesAreExact, Vouched;
    TallyAtStart(start, log, endpoint.id, stops, answers, failures);
    StopsAtStart(start, log, endpoint.id, stops, answers, failures);
    CodesAtStart(start, log, endpoint, stops, answers, failures);
  }

  lemma CodesAtStart(
    start: seq<Event>, log: seq<Event>, endpoint: EndpointConfig, stops: seq<Transition>, answers: nat -> StopAnswer,
    failures: seq<StopFailure>)
    requires PreparedSoFar(start, log, endpoint.id, stops, answers, |stops|, failures)
    ensures CodesAreExact(endpoint, stops, answers, failures)
  {
    hide StopChecked, FailedAt, VouchedFor;
  }

  lemma StopsEnd(
    start: seq<Event>, log: seq<Event>, host: Endpoint, stops: seq<Transition>, answers: nat -> StopAnswer,
    prepared: seq<nat>, failures: seq<StopFailure>)
    requires StopsSoFar(start, log, host, stops, prepared, Released(stops, answers), failures)
    requires Partition(|stops|, Released(stops, answers), failures)
    ensures start <= log && NeverStarts(start, log) && OnlyTouches(start, log, host, Named(stops))
    ensures forall i :: i in Released(stops, answers) ==> i < |stops| && StopDone(start, log, host, stops[i])
    ensures Verdict(failures) == Raised(Unreachable) ==> (ChangesNothing(start, log) <==> !SomeReleased(stops, answers))
  {
    if i :| 0 <= i < |stops| && Releases(stops[i], answers(i)) {
      assert i in Released(stops, answers) && StopDone(start, log, host, stops[i]);
    }
  }

  lemma EveryStopDone(
    before: seq<Event>, after: seq<Event>, host: Endpoint, stops: seq<Transition>, answers: nat -> StopAnswer)
    requires StopOk(stops, answers)
    requires forall i :: i in Released(stops, answers) ==> i < |stops| && StopDone(before, after, host, stops[i])
    ensures forall t :: t in stops ==> StopDone(before, after, host, t)
  {
    hide StopDone, Releases;
    forall t | t in stops ensures StopDone(before, after, host, t) {
      var i :| 0 <= i < |stops| && stops[i] == t;
      assert i in Released(stops, answers);
    }
  }

  /**
   Stop every planned card, one at a time, whatever happens to the others. Each
   card ends either released or as one recorded failure, and there is an error if
   and only if there is a failure.

   The error "helper unreachable" announces that no keeper was touched. It is raised
   exactly when some stop is not released and every such stop got no answer to its
   preflight; and it tells the truth unless some other stop was released. An upgrade is
   asked for exactly when every stop that is not released met a helper that does not
   fit; and any other mixture is a partial stop.
   */
  method StopPhase(op: Operation, endpoint: EndpointConfig, stops: seq<Transition>, answers: nat -> StopAnswer)
    returns (outcome: Outcome, failures: seq<StopFailure>)
    requires Ready(op, endpoint) && op.session.open == {}
    modifies op
    ensures Ready(op, endpoint) && op.session.open == {}
    ensures old(op.log) <= op.log && NeverStarts(old(op.log), op.log)
    ensures OnlyTouches(old(op.log), op.log, endpoint.id, Named(stops))
    ensures outcome == Raised(PlanInvalid) <==> exists t :: t in stops && !Named1(t)
    ensures outcome == Raised(PlanInvalid) ==> ChangesNothing(old(op.log), op.log)
    ensures outcome.Finished? <==> StopOk(stops, answers)
    ensures outcome.Finished? ==> forall t :: t in stops ==> StopDone(old(op.log), op.log, endpoint.id, t)
    ensures outcome != Raised(PlanInvalid) ==>
              && Partition(|stops|, Released(stops, answers), failures)
              && outcome == Verdict(failures) && CodesAreExact(endpoint, stops, answers, failures)
              && (forall i :: i in Released(stops, answers) ==>
                    StopDone(old(op.log), op.log, endpoint.id, stops[i]))
    ensures outcome != Raised(PlanInvalid) ==>
              var prepared := VouchedFor(stops, answers, |stops|);
              CommandsSince(|old(op.log)|, op.log) == Attempts(endpoint, stops, answers, prepared, |prepared|)
    ensures outcome == Raised(Unreachable) <==> Announces(endpoint, stops, answers)
    ensures outcome == Raised(Incompatible) <==> AsksForUpgrade(endpoint, stops, answers)
    ensures outcome == Raised(PartialStop) <==> StopsPartly(endpoint, stops, answers)
    ensures (outcome == Raised(Unreachable) ==> ChangesNothing(old(op.log), op.log)) <==>
            !(Announces(endpoint, stops, answers) && SomeReleased(stops, answers))
  {
    hide Follows, Replay, PreparedSoFar, VouchedFor, StopsSoFar, Tally, Partition, Released;
    hide CodesAreExact, CommandsSince, Attempts, Announces, AsksForUpgrade, StopsPartly, FailsUnreachable;
    var prepared: Option<seq<nat>>;
    prepared, failures := PrepareStops(op, endpoint, stops, answers);
    if prepared.None? {
      UnnamedAnnouncesNothing(endpoint, stops, answers);
      return Raised(PlanInvalid), failures;
    }
    NoCommands(|old(op.log)|, op.log);
    ReadyToStop(old(op.log), op.log, endpoint, stops, answers, failures);
    failures := StopPrepared(op, endpoint, stops, answers, prepared.value, failures, old(op.log));
    TallyComplete(stops, answers, prepared.value, Released(stops, answers), failures);
    StopsEnd(old(op.log), op.log, endpoint.id, stops, answers, prepared.value, failures);
    outcome := Verdict(failures);
    FinishedWhenAllReleased(stops, answers, failures);
    if outcome.Finished? {
      EveryStopDone(old(op.log), op.log, endpoint.id, stops, answers);
    }
    VerdictIsAnnounced(endpoint, stops, answers, failures);
  }

  function TwoStops(host: Endpoint, first: string, second: string): seq<Transition> {
    [Transition(Stop, host, Some(first), Some(1)), Transition(Stop, host, Some(second), Some(2))]
  }

  /** Nobody answers a preflight; the first card is then seen empty, the second not seen at all. */
  function FirstEmpty(busy: CallReply<Response>, i: nat): StopAnswer {
    if i == 0 then StopAnswer(Found(Some(1)), HostAnswer(ProbeTimedOut, busy), true, None)
    else StopAnswer(Found(Some(2)), HostAnswer(ProbeTimedOut, busy), false, None)
  }

  lemma FirstEmptyIsAnnounced(
    endpoint: EndpointConfig, first: string, second: string, busy: CallReply<Response>, answers: nat -> StopAnswer)
    requires endpoint.workspace.Some? && ValidUuid(first) && ValidUuid(second)
    requires forall i :: answers(i) == FirstEmpty(busy, i)
    ensures var stops := TwoStops(endpoint.id, first, second);
            && Announces(endpoint, stops, answers) && SomeReleased(stops, answers) && 0 in Released(stops, answers)
  {
    hide ValidUuid;
    var stops := TwoStops(endpoint.id, first, second);
    assert Releases(stops[0], answers(0)) && !Releases(stops[1], answers(1));
    assert ValidRequest([second]);
  }

  /**
   The announcement can be wrong: of two cards the first is found empty and its lease
   released, the second cannot be reached, and the error still says that nothing was
   touched.
   */
  method UnreachableAfterARelease(endpoint: EndpointConfig, first: string, second: string, busy: CallReply<Response>)
    returns (outcome: Outcome, log: seq<Event>)
    requires endpoint.workspace.Some? && ValidUuid(first) && ValidUuid(second)
    ensures outcome == Raised(Unreachable) && WasReleased([], log, 1) && !ChangesNothing([], log)
  {
    hide Follows, Replay, Announces, SomeReleased, Released, Partition, Attempts, CommandsSince, VouchedFor, OnlyTouches;
    hide NeverStarts, StopOk, ChangesNothing, WasChecked, WasReleased;
    var op := new Operation({endpoint.id});
    var stops, answers := TwoStops(endpoint.id, first, second), (i: nat) => FirstEmpty(busy, i);
    FirstEmptyIsAnnounced(endpoint, first, second, busy, answers);
    var failures;
    outcome, failures := StopPhase(op, endpoint, stops, answers);
    assert StopDone([], op.log, endpoint.id, stops[0]);
    log := op.log;
  }

  // ---------------------------------------------------------------------------
  // The whole pass
  // ---------------------------------------------------------------------------

  function Select(plan: seq<Transition>, host: Endpoint, action: Action): (chosen: seq<Transition>)
    ensures forall t :: t in chosen <==> t in plan && t.host == host && t.action == action
  {
    if plan == [] then []
    else
      var rest := Select(plan[..|plan| - 1], host, action);
      var last := plan[|plan| - 1];
      if last.host == host && last.action == action then rest + [last] else rest
  }

  /** The cards of one endpoint that a plan names for some executable action. */
  function Planned(plan: seq<Transition>, host: Endpoint): set<string> {
    set t | t in plan && t.host == host && t.action in {Start, Stop, Recover, Cleanup} && t.uuid.Some? :: t.uuid.value
  }

  /** What the hosts and the ledger answer during one pass. */
  datatype PassAnswer = PassAnswer(
    cleanup: HostAnswer, cleanupRefused: Option<nat>, start: StartAnswer, recover: Acceptance, stop: nat -> StopAnswer)

  /** The work a plan holds for an endpoint, all of which goes well. */
  ghost predicate PassOk(endpoint: EndpointConfig, plan: seq<Transition>, a: PassAnswer) {
    var starts := Select(plan, endpoint.id, Start);
    && CleanupOk(endpoint, Select(plan, endpoint.id, Cleanup), a.cleanup, a.cleanupRefused)
    && (starts == [] || StartOk(endpoint, starts, a.start))
    && RecoverOk(endpoint, Select(plan, endpoint.id, Recover), a.recover)
    && StopOk(Select(plan, endpoint.id, Stop), a.stop)
  }

  ghost predicate NoWork(endpoint: EndpointConfig, plan: seq<Transition>) {
    forall t :: t in plan && t.host == endpoint.id ==> t.action !in {Start, Stop, Recover, Cleanup}
  }

  /** Commands so far were about planned cards only, and starts about cards planned to start. */
  ghost predicate PassSoFar(before: seq<Event>, log: seq<Event>, host: Endpoint, plan: seq<Transition>) {
    && before <= log
    && OnlyTouches(before, log, host, Planned(plan, host))
    && OnlyStarts(before, log, Named(Select(plan, host, Start)))
  }

  ghost predicate OnlyStarts(before: seq<Event>, after: seq<Event>, uuids: set<string>) {
    forall i :: |before| <= i < |after| && after[i].Mutate? && after[i].on ==> Elements(after[i].uuids) <= uuids
  }

  lemma PassGoesOn(
    before: seq<Event>, mid: seq<Event>, log: seq<Event>, host: Endpoint, plan: seq<Transition>, action: Action)
    requires PassSoFar(before, mid, host, plan) && mid <= log
    requires action in {Start, Stop, Recover, Cleanup}
    requires OnlyTouches(mid, log, host, Named(Select(plan, host, action)))
    requires action == Start || NeverStarts(mid, log)
    ensures PassSoFar(before, log, host, plan)
  {
    assert Named(Select(plan, host, action)) <= Planned(plan, host);
    forall i | |before| <= i < |log| && log[i].Mutate?
      ensures log[i].host == host && Elements(log[i].uuids) <= Planned(plan, host)
      ensures log[i].on ==> Elements(log[i].uuids) <= Named(Select(plan, host, Start))
    {
      if i < |mid| { assert log[i] == mid[i]; }
    }
  }

  lemma NothingIsTouched(before: seq<Event>, after: seq<Event>, host: Endpoint, uuids: set<string>)
    requires ChangesNothing(before, after)
    ensures OnlyTouches(before, after, host, uuids) && NeverStarts(before, after)
  {}

  lemma WorkIsSelected(endpoint: EndpointConfig, plan: seq<Transition>)
    ensures NoWork(endpoint, plan) <==>
            && Select(plan, endpoint.id, Cleanup) == [] && Select(plan, endpoint.id, Start) == []
            && Select(plan, endpoint.id, Recover) == [] && Select(plan, endpoint.id, Stop) == []
  {
    forall action, t | t in plan && t.host == endpoint.id && t.action == action
      ensures Select(plan, endpoint.id, action) != []
    {
      assert t in Select(plan, endpoint.id, action);
    }
    forall action | Select(plan, endpoint.id, action) != []
      ensures exists t :: t in plan && t.host == endpoint.id && t.action == action
    {
      assert Select(plan, endpoint.id, action)[0] in Select(plan, endpoint.id, action);
    }
  }

  lemma NothingYet(log: seq<Event>, host: Endpoint, plan: seq<Transition>)
    ensures PassSoFar(log, log, host, plan)
  {}

  lemma NothingToStop(answers: nat -> StopAnswer)
    ensures StopOk([], answers)
  {}

  /** The pass in its four parts: what the plan asked for was done, in this order. */
  ghost predicate PassDone(
    before: seq<Event>, cleaned: seq<Event>, started: seq<Event>, recovered: seq<Event>, after: seq<Event>,
    endpoint: EndpointConfig, plan: seq<Transition>, answer: HostAnswer)
  {
    var starts, recovers := Select(plan, endpoint.id, Start), Select(plan, endpoint.id, Recover);
    && before <= cleaned <= started <= recovered <= after
    && CleanedUp(before, cleaned, endpoint, Select(plan, endpoint.id, Cleanup), answer)
    && (if starts == [] then started == cleaned
        else StartedAndConfirmed(cleaned, started, endpoint.id, Named(starts)))
    && (if recovers == [] then recovered == started
        else Recovered(started, recovered, endpoint.id, Named(recovers)))
    && forall t :: t in Select(plan, endpoint.id, Stop) ==> StopDone(recovered, after, endpoint.id, t)
  }

  method StopIfAny(op: Operation, endpoint: EndpointConfig, stops: seq<Transition>, answers: nat -> StopAnswer)
    returns (outcome: Outcome)
    requires Ready(op, endpoint) && op.session.open == {}
    modifies op
    ensures Ready(op, endpoint) && op.session.open == {}
    ensures old(op.log) <= op.log && NeverStarts(old(op.log), op.log)
    ensures OnlyTouches(old(op.log), op.log, endpoint.id, Named(stops))
    ensures outcome.Finished? <==> StopOk(stops, answers)
    ensures outcome.Finished? ==> forall t :: t in stops ==> StopDone(old(op.log), op.log, endpoint.id, t)
  {
    hide Follows, Replay, StopDone, StopOk, Partition, Released, CodesAreExact, VouchedFor, Announces, AsksForUpgrade;
    hide StopsPartly, Attempts, CommandsSince;
    if stops == [] {
      NothingToStop(answers);
      return Finished;
    }
    var failures;
    outcome, failures := StopPhase(op, endpoint, stops, answers);
  }

  /**
   One reconciliation of one endpoint. Whatever the plan, the hosts and the ledger
   say, it ends with nothing open, touches only planned cards of this endpoint and
   starts only cards planned to start. It finishes without an error exactly when
   there is nothing to do or an adapter, and every part of the plan goes well; a
   cleanup whose stop is not verified counts as postponed, not as an error. A finished
   pass has cleaned up, started, recovered and stopped what the plan says, in this order.
   */
  method ReconcileEndpoint(op: Operation, endpoint: EndpointConfig, plan: Option<seq<Transition>>, a: PassAnswer)
    returns (outcome: Outcome)
    requires Ready(op, endpoint) && op.session.open == {}
    modifies op
    ensures Ready(op, endpoint) && op.session.open == {}
    ensures old(op.log) <= op.log
    ensures plan.None? ==> outcome == Raised(PlanInvalid) && op.log == old(op.log)
    ensures plan.Some? ==> PassSoFar(old(op.log), op.log, endpoint.id, plan.value)
    ensures plan.Some? ==>
              (outcome.Finished? <==>
                 NoWork(endpoint, plan.value) || (endpoint.adapterResolves && PassOk(endpoint, plan.value, a)))
    ensures !endpoint.adapterResolves ==> op.log == old(op.log)
    ensures plan.Some? && outcome.Finished? && endpoint.adapterResolves ==>
              exists cleaned, started, recovered ::
                PassDone(old(op.log), cleaned, started, recovered, op.log, endpoint, plan.value, a.cleanup)
  {
    hide Recovered, StopDone, CleanedUp, PassDone;
    hide Follows, Replay, Verified, Accepts, RefusedEarly, KeepsMarks, StartedAndConfirmed, CommandsSince, Attempts;
    hide PassSoFar, OnlyTouches, OnlyStarts, NeverStarts, ChangesNothing, Planned, Named, Select, NoWork, Under;
    hide Partition, Released, CodesAreExact, VouchedFor, CleanupOk, StartOk, RecoverOk, StopOk;
    if plan.None? {
      return Raised(PlanInvalid);
    }
    ghost var start := op.log;
    var cleanups := Select(plan.value, endpoint.id, Cleanup);
    var starts := Select(plan.value, endpoint.id, Start);
    var recovers := Select(plan.value, endpoint.id, Recover);
    var stops := Select(plan.value, endpoint.id, Stop);
    NothingYet(start, endpoint.id, plan.value);
    WorkIsSelected(endpoint, plan.value);
    if cleanups == [] && starts == [] && recovers == [] && stops == [] {
      NothingDone(start, endpoint, plan.value, a.cleanup);
      return Finished;
    }
    if !endpoint.adapterResolves {
      return Raised(NotConfigured);
    }
    outcome := CleanupPhase(op, endpoint, cleanups, a.cleanup, a.cleanupRefused);
    PassGoesOn(start, start, op.log, endpoint.id, plan.value, Cleanup);
    if outcome.Raised? {
      return;
    }
    ghost var cleaned := op.log;
    if starts != [] {
      ghost var before := op.log;
      outcome := StartPhase(op, endpoint, starts, a.start);
      PassGoesOn(start, before, op.log, endpoint.id, plan.value, Start);
      if outcome.Raised? {
        return;
      }
    }
    ghost var started, before := op.log, op.log;
    outcome := RecoverPhase(op, endpoint, recovers, a.recover);
    NothingIsTouched(before, op.log, endpoint.id, Named(recovers));
    PassGoesOn(start, before, op.log, endpoint.id, plan.value, Recover);
    if outcome.Raised? {
      return;
    }
    ghost var recovered := op.log;
    outcome := StopIfAny(op, endpoint, stops, a.stop);
    PassGoesOn(start, recovered, op.log, endpoint.id, plan.value, Stop);
    if outcome.Finished? {
      PassIsDone(start, cleaned, started, recovered, op.log, endpoint, plan.value, a.cleanup);
    }
  }

  lemma NothingDone(log: seq<Event>, endpoint: EndpointConfig, plan: seq<Transition>, answer: HostAnswer)
    requires Select(plan, endpoint.id, Cleanup) == [] && Select(plan, endpoint.id, Start) == []
    requires Select(plan, endpoint.id, Recover) == [] && Select(plan, endpoint.id, Stop) == []
    ensures PassDone(log, log, log, log, log, endpoint, plan, answer)
  {}

  lemma PassIsDone(
    before: seq<Event>, cleaned: seq<Event>, started: seq<Event>, recovered: seq<Event>, after: seq<Event>,
    endpoint: EndpointConfig, plan: seq<Transition>, answer: HostAnswer)
    requires before <= cleaned <= started <= recovered <= after
    requires CleanedUp(before, cleaned, endpoint, Select(plan, endpoint.id, Cleanup), answer)
    requires var starts := Select(plan, endpoint.id, Start);
             if starts == [] then started == cleaned else StartedAndConfirmed(cleaned, started, endpoint.id, Named(starts))
    requires var recovers := Select(plan, endpoint.id, Recover);
             if recovers == [] then recovered == started else Recovered(started, recovered, endpoint.id, Named(recovers))
    requires forall t :: t in Select(plan, endpoint.id, Stop) ==> StopDone(recovered, after, endpoint.id, t)
    ensures PassDone(before, cleaned, started, recovered, after, endpoint, plan, answer)
  {}
}
