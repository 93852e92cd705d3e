/**
 Turning kept cards over to a claim: stop exactly the planned keepers, prove each
 card empty, release its lease, and only then run the ordinary claim, all under
 the locks of the planned endpoints.
 */
module Reclaim {
  import opened Prelude
  import opened Locks
  import opened Handoff
  import opened Operations
  import opened KeepaliveAdapter
  import R = Reconcile

  datatype Target = Target(card: Card, lease: nat)

  datatype Plan = Plan(complete: bool, transitions: Option<seq<R.Transition>>)

  datatype Outcome = NotReclaimed | Claimed | Raised(code: Code)

  // ---------------------------------------------------------------------------
  // Never more than the plan
  // ---------------------------------------------------------------------------

  /**
   What may follow a history when `want` is the plan: stops of planned cards whose
   lease was just re-read and is the planned one, and releases of planned leases.
   */
  ghost predicate Vetted(start: seq<Event>, history: seq<Event>, ev: Event, want: map<Card, nat>) {
    match ev
    case Mutate(host, on, uuids, _) =>
      && !on
      && forall u :: u in uuids ==>
           Card(host, u) in want && R.WasChecked(start, history, Card(host, u), want[Card(host, u)])
    case Finalize(_, lease, _, _) => lease in want.Values
    case Confirm(_, _, _) => false
    case SetError(_, _, _) => false
    case FinishCleanup(_) => false
    case Claim(planned, _) => planned == want.Keys && forall c :: c in want ==> R.WasReleased(start, history, want[c])
    case _ => true
  }

  ghost predicate StaysWithin(start: seq<Event>, log: seq<Event>, want: map<Card, nat>) {
    start <= log && forall i :: |start| <= i < |log| ==> Vetted(start, log[..i], log[i], want)
  }

  lemma StaysWithinStart(start: seq<Event>, want: map<Card, nat>)
    ensures StaysWithin(start, start, want)
  {}

  lemma OneMore(start: seq<Event>, mid: seq<Event>, ev: Event, want: map<Card, nat>)
    requires StaysWithin(start, mid, want) && Vetted(start, mid, ev, want)
    ensures StaysWithin(start, mid + [ev], want)
  {
    var log := mid + [ev];
    forall i | |start| <= i < |log| ensures Vetted(start, log[..i], log[i], want) {
      assert log[..i] == mid[..i];
    }
  }

  // ---------------------------------------------------------------------------
  // The plan
  // ---------------------------------------------------------------------------

  ghost predicate DistinctCards(targets: seq<Target>) {
    forall i, j :: 0 <= i < j < |targets| ==> targets[i].card != targets[j].card
  }

  function Want(targets: seq<Target>): (want: map<Card, nat>)
    ensures forall c :: c in want <==> exists t :: t in targets && t.card == c
    ensures forall c :: c in want ==> Target(c, want[c]) in targets
    ensures DistinctCards(targets) ==> forall t :: t in targets ==> want[t.card] == t.lease
  {
    if targets == [] then map[]
    else
      var last := targets[|targets| - 1];
      assert targets == targets[..|targets| - 1] + [last];
      Want(targets[..|targets| - 1])[last.card := last.lease]
  }

  predicate Usable(t: R.Transition) {
    t.action == R.Action.Reclaim && t.uuid.Some? && t.uuid.value != "" && t.lease.Some?
  }

  ghost predicate Reads(plan: Plan, targets: seq<Target>) {
    && plan.complete && plan.transitions.Some? && targets != [] && DistinctCards(targets)
    && |targets| == |plan.transitions.value|
    && forall i :: 0 <= i < |targets| ==>
         Usable(plan.transitions.value[i]) && targets[i] == TargetOf(plan.transitions.value[i])
  }

  /** Complete, not empty, every entry a well-formed reclaim, and no card named twice. */
  ghost predicate Readable(plan: Plan) {
    && plan.complete && plan.transitions.Some? && plan.transitions.value != []
    && (forall t :: t in plan.transitions.value ==> Usable(t))
    && (forall i, j :: 0 <= i < j < |plan.transitions.value| ==>
          TargetOf(plan.transitions.value[i]).card != TargetOf(plan.transitions.value[j]).card)
  }

  /** The targets of a readable plan. */
  method ReadTargets(plan: Plan) returns (targets: Option<seq<Target>>)
    ensures targets.Some? <==> Readable(plan)
    ensures targets.Some? ==> Reads(plan, targets.value)
  {
    if !plan.complete || plan.transitions.None? || plan.transitions.value == [] {
      return None;
    }
    var transitions := plan.transitions.value;
    var found: seq<Target> := [];
    for i := 0 to |transitions|
      invariant |found| == i
      invariant forall k :: 0 <= k < i ==> Usable(transitions[k]) && found[k] == TargetOf(transitions[k])
    {
      if !Usable(transitions[i]) {
        assert transitions[i] in transitions;
        return None;
      }
      found := found + [TargetOf(transitions[i])];
    }
    if exists i, j :: 0 <= i < j < |found| && found[i].card == found[j].card {
      return None;
    }
    assert forall i, j :: 0 <= i < j < |found| ==> found[i].card != found[j].card;
    return Some(found);
  }

  function TargetOf(t: R.Transition): Target
    requires Usable(t)
  {
    Target(Card(t.host, t.uuid.value), t.lease.value)
  }

  function OfHost(targets: seq<Target>, host: Endpoint): (mine: seq<Target>)
    ensures forall t :: t in mine <==> t in targets && t.card.host == host
  {
    if targets == [] then []
    else
      var front, last := OfHost(targets[..|targets| - 1], host), targets[|targets| - 1];
      assert targets == targets[..|targets| - 1] + [last];
      if last.card.host == host then front + [last] else front
  }

  lemma OfHostStep(targets: seq<Target>, n: nat, host: Endpoint)
    requires n < |targets|
    ensures OfHost(targets[..n + 1], host) ==
            OfHost(targets[..n], host) + if targets[n].card.host == host then [targets[n]] else []
  {
    assert targets[..n + 1][..n] == targets[..n];
  }

  /** Each group is its endpoint's targets, and the endpoints are listed once each. */
  ghost predicate Grouped(targets: seq<Target>, order: seq<Endpoint>, groups: map<Endpoint, seq<Target>>) {
    && Distinct(order) && (forall h :: h in groups <==> h in order)
    && (forall h :: h in groups ==> groups[h] != [])
    && (forall h :: OfHost(targets, h) == if h in groups then groups[h] else [])
  }

  lemma NothingGrouped()
    ensures Grouped([], [], map[])
  {}

  lemma GroupedStep(
    targets: seq<Target>, n: nat, order0: seq<Endpoint>, groups0: map<Endpoint, seq<Target>>,
    order: seq<Endpoint>, groups: map<Endpoint, seq<Target>>)
    requires n < |targets| && Grouped(targets[..n], order0, groups0)
    requires var host := targets[n].card.host;
             if host in groups0 then order == order0 && groups == groups0[host := groups0[host] + [targets[n]]]
             else order == order0 + [host] && groups == groups0[host := [targets[n]]]
    ensures Grouped(targets[..n + 1], order, groups)
  {
    hide OfHost;
    var host := targets[n].card.host;
    assert forall h :: h in groups <==> h in groups0 || h == host;
    assert forall h :: h in order <==> h in order0 || h == host;
    forall h ensures OfHost(targets[..n + 1], h) == if h in groups then groups[h] else [] {
      OfHostStep(targets, n, h);
    }
  }

  /** Each endpoint is listed where its first target comes, behind the endpoints of all targets before that. */
  ghost predicate ByFirstTarget(targets: seq<Target>, order: seq<Endpoint>) {
    forall k: nat :: k < |order| ==> HasFirstTarget(targets, order, k)
  }

  ghost predicate HasFirstTarget(targets: seq<Target>, order: seq<Endpoint>, k: nat) {
    exists i: nat :: FirstTarget(targets, order, k, i)
  }

  ghost predicate FirstTarget(targets: seq<Target>, order: seq<Endpoint>, k: nat, i: nat) {
    && k < |order| && i < |targets| && targets[i].card.host == order[k]
    && forall j :: 0 <= j < i ==> targets[j].card.host in order[..k]
  }

  lemma ByFirstTargetStep(targets: seq<Target>, n: nat, order: seq<Endpoint>, grown: seq<Endpoint>)
    requires n < |targets| && ByFirstTarget(targets[..n], order)
    requires forall j :: 0 <= j < n ==> targets[j].card.host in order
    requires grown == order || grown == order + [targets[n].card.host]
    ensures ByFirstTarget(targets[..n + 1], grown)
  {
    var longer := targets[..n + 1];
    forall k: nat | k < |grown| ensures HasFirstTarget(longer, grown, k) {
      if k < |order| {
        assert HasFirstTarget(targets[..n], order, k);
        var i: nat :| FirstTarget(targets[..n], order, k, i);
        assert grown[..k] == order[..k];
        assert FirstTarget(longer, grown, k, i);
      } else {
        assert grown[..k] == order;
        assert FirstTarget(longer, grown, k, n);
      }
    }
  }

  lemma HostsAreGrouped(targets: seq<Target>, order: seq<Endpoint>, groups: map<Endpoint, seq<Target>>)
    requires Grouped(targets, order, groups)
    ensures forall j :: 0 <= j < |targets| ==> targets[j].card.host in order
  {
    forall j | 0 <= j < |targets| ensures targets[j].card.host in order {
      assert targets[j] in OfHost(targets, targets[j].card.host);
    }
  }

  /** The targets by endpoint, endpoints in order of first appearance. */
  method GroupByEndpoint(targets: seq<Target>) returns (order: seq<Endpoint>, groups: map<Endpoint, seq<Target>>)
    ensures Distinct(order) && groups.Keys == Elements(order)
    ensures forall h :: h in groups ==> groups[h] != [] && groups[h] == OfHost(targets, h)
    ensures forall t :: t in targets ==> t.card.host in groups
    ensures ByFirstTarget(targets, order)
  {
    hide OfHost;
    order, groups := [], map[];
    NothingGrouped();
    assert targets[..0] == [];
    for i := 0 to |targets|
      invariant Grouped(targets[..i], order, groups) && ByFirstTarget(targets[..i], order)
    {
      var t := targets[i];
      var host := t.card.host;
      ghost var order0, groups0 := order, groups;
      if host !in groups {
        order := order + [host];
        groups := groups[host := [t]];
      } else {
        groups := groups[host := groups[host] + [t]];
      }
      GroupedStep(targets, i, order0, groups0, order, groups);
      HostsAreGrouped(targets[..i], order0, groups0);
      ByFirstTargetStep(targets, i, order0, order);
    }
    assert targets[..|targets|] == targets;
    forall t | t in targets ensures t.card.host in groups {
      assert t in OfHost(targets, t.card.host);
    }
  }

  // ---------------------------------------------------------------------------
  // One endpoint
  // ---------------------------------------------------------------------------

  ghost predicate Ready(op: Operation, start: seq<Event>, want: map<Card, nat>)
    reads op
  {
    && op.Valid() && op.session.open == {}
    && StaysWithin(start, op.log, want) && NoClaim(start, op.log)
  }

  /** What the ledger and the host answer while the cards of one endpoint are handed over. */
  datatype ReclaimAnswer = ReclaimAnswer(
    lookup: Card -> R.Lookup, stop: HostAnswer, collected: bool, refused: Card -> Option<nat>)

  predicate StillPlanned(targets: seq<Target>, a: ReclaimAnswer) {
    forall t :: t in targets ==> a.lookup(t.card) == R.Found(Some(t.lease))
  }

  /** The first lease that is not found as planned is found, and is another one. */
  ghost predicate MeetsAnotherLease(targets: seq<Target>, a: ReclaimAnswer) {
    exists k: nat :: FirstMismatch(targets, a, k) && a.lookup(targets[k].card).Found?
  }

  ghost predicate FirstMismatch(targets: seq<Target>, a: ReclaimAnswer, k: nat) {
    && k < |targets| && StillPlanned(targets[..k], a)
    && a.lookup(targets[k].card) != R.Found(Some(targets[k].lease))
  }

  predicate LetsGo(targets: seq<Target>, a: ReclaimAnswer) {
    forall t :: t in targets ==> a.refused(t.card).None?
  }

  /** Every lease is still the planned one, one exact stop, a collection, and every lease let go. */
  predicate HandsOver(endpoint: EndpointConfig, targets: seq<Target>, a: ReclaimAnswer) {
    && endpoint.adapterResolves
    && StillPlanned(targets, a)
    && Verified(endpoint, UuidsOf(targets), false, a.stop)
    && a.collected
    && LetsGo(targets, a)
  }

  /** The endpoint does not hand over, for a reason that makes the plan one that cannot be used. */
  ghost predicate GivesUp(endpoint: EndpointConfig, targets: seq<Target>, a: ReclaimAnswer) {
    !endpoint.adapterResolves || MeetsAnotherLease(targets, a)
  }

  lemma NothingMissed(targets: seq<Target>, a: ReclaimAnswer)
    requires StillPlanned(targets, a)
    ensures !MeetsAnotherLease(targets, a)
  {
    forall k: nat | k < |targets| ensures !FirstMismatch(targets, a, k) {
      assert targets[k] in targets;
    }
  }

  /** There is one first mismatch. */
  lemma TheMismatch(targets: seq<Target>, a: ReclaimAnswer, k: nat)
    requires FirstMismatch(targets, a, k)
    ensures !StillPlanned(targets, a)
    ensures MeetsAnotherLease(targets, a) <==> a.lookup(targets[k].card).Found?
  {
    assert targets[k] in targets;
    forall j: nat | j < |targets| && j != k ensures !FirstMismatch(targets, a, j) {
      if j < k {
        assert targets[..k][j] in targets[..k];
      } else {
        assert targets[..j][k] in targets[..j];
      }
    }
  }

  ghost predicate Rechecked(op: Operation, start: seq<Event>, targets: seq<Target>)
    reads op
  {
    && CheckedInLog(start, op.log, targets)
    && forall t :: t in targets ==> t.card in op.session.checked && op.session.checked[t.card] == t.lease
  }

  /** Re-read the lease of every target before anything is sent. */
  method PrepareTargets(
    op: Operation, targets: seq<Target>, want: map<Card, nat>, a: ReclaimAnswer, ghost start: seq<Event>)
    returns (refusal: Option<Outcome>)
    requires Ready(op, start, want)
    requires DistinctCards(targets) && forall t :: t in targets ==> t.card.host in op.held
    modifies op
    ensures Ready(op, start, want) && old(op.log) <= op.log
    ensures op.session.freed == old(op.session).freed && op.session.proven == old(op.session).proven
    ensures refusal.None? <==> StillPlanned(targets, a)
    ensures refusal.None? ==> Rechecked(op, start, targets)
    ensures refusal.Some? ==> refusal.value != Claimed
    ensures refusal == Some(NotReclaimed) <==> MeetsAnotherLease(targets, a)
  {
    hide Follows, Replay, MeetsAnotherLease;
    for i := 0 to |targets|
      invariant Ready(op, start, want) && old(op.log) <= op.log
      invariant op.session.freed == old(op.session).freed && op.session.proven == old(op.session).proven
      invariant Rechecked(op, start, targets[..i]) && StillPlanned(targets[..i], a)
    {
      var t := targets[i];
      assert t in targets;
      var seen: Option<nat>;
      match a.lookup(t.card) {
        case Refused(n) =>
          TheMismatch(targets, a, i);
          return Some(Raised(Service(n)));
        case Found(lease) => seen := lease;
      }
      ghost var before := op.log;
      OneMore(start, op.log, Prepare(t.card, seen), want);
      op.Emit(Prepare(t.card, seen));
      if seen != Some(t.lease) {
        TheMismatch(targets, a, i);
        return Some(NotReclaimed);
      }
      assert op.log[|before|] == Prepare(t.card, Some(t.lease));
      CheckedInLogStays(start, before, op.log, targets[..i]);
      assert targets[..i + 1] == targets[..i] + [t];
    }
    assert targets[..|targets|] == targets;
    NothingMissed(targets, a);
    return None;
  }

  function UuidsOf(targets: seq<Target>): (uuids: seq<string>)
    ensures |uuids| == |targets| && forall i :: 0 <= i < |uuids| ==> uuids[i] == targets[i].card.uuid
  {
    seq(|targets|, i requires 0 <= i < |targets| => targets[i].card.uuid)
  }

  function CardsOf(targets: seq<Target>): set<Card> {
    set t | t in targets :: t.card
  }

  ghost predicate ReleasedIn(start: seq<Event>, log: seq<Event>, freed: set<Card>, targets: seq<Target>) {
    forall t :: t in targets ==> R.WasReleased(start, log, t.lease) && t.card in freed
  }

  ghost predicate AllReleased(op: Operation, start: seq<Event>, targets: seq<Target>)
    reads op
  {
    ReleasedIn(start, op.log, op.session.freed, targets)
  }

  lemma NothingReleasedYet(start: seq<Event>, log: seq<Event>, freed: set<Card>)
    ensures ReleasedIn(start, log, freed, [])
  {}

  lemma OneMoreReleased(
    start: seq<Event>, mid: seq<Event>, log: seq<Event>, freed: set<Card>, more: set<Card>, targets: seq<Target>, i: nat,
    host: Endpoint, now: nat)
    requires i < |targets| && ReleasedIn(start, mid, freed, targets[..i]) && freed <= more
    requires start <= mid && log == mid + [Finalize(host, targets[i].lease, now, true)] && targets[i].card in more
    ensures ReleasedIn(start, log, more, targets[..i + 1])
  {
    assert log[|mid|] == Finalize(host, targets[i].lease, now, true);
    forall u | u in targets[..i] ensures R.WasReleased(start, log, u.lease) {
      R.ReleasedStaysReleased(start, mid, log, u.lease);
    }
    assert targets[..i + 1] == targets[..i] + [targets[i]];
  }

  /** Release every lease of the endpoint against one observation that followed the stop. */
  method FinalizeTargets(
    op: Operation, host: Endpoint, targets: seq<Target>, now: nat, want: map<Card, nat>, a: ReclaimAnswer,
    ghost start: seq<Event>)
    returns (refusal: Option<nat>)
    requires Ready(op, start, want) && host in op.held * op.session.looked && op.session.stamp == Some(now)
    requires Rechecked(op, start, targets)
    requires forall t :: t in targets ==> t.lease in want.Values
    modifies op
    ensures Ready(op, start, want) && old(op.log) <= op.log
    ensures old(op.session).freed <= op.session.freed && op.session.proven == old(op.session).proven
    ensures refusal.None? <==> LetsGo(targets, a)
    ensures refusal.None? ==> AllReleased(op, start, targets)
  {
    hide Follows, Replay, ReleasedIn, R.WasReleased;
    NothingReleasedYet(start, op.log, op.session.freed);
    assert targets[..0] == [];
    for i := 0 to |targets|
      invariant Ready(op, start, want) && old(op.log) <= op.log
      invariant host in op.session.looked && op.session.stamp == Some(now)
      invariant old(op.session).freed <= op.session.freed && op.session.proven == old(op.session).proven
      invariant op.session.checked == old(op.session).checked
      invariant AllReleased(op, start, targets[..i]) && LetsGo(targets[..i], a)
    {
      var t := targets[i];
      assert t.card in op.session.checked && op.session.checked[t.card] == t.lease by {
        assert t in targets;
      }
      var answer := a.refused(t.card);
      ghost var before, freed := op.log, op.session.freed;
      var released := answer.None?;
      OneMore(start, op.log, Finalize(host, t.lease, now, released), want);
      op.Emit(Finalize(host, t.lease, now, released));
      if !released {
        return answer;
      }
      OneMoreReleased(start, before, op.log, freed, op.session.freed, targets, i, host, now);
      assert targets[..i + 1] == targets[..i] + [t];
    }
    assert targets[..|targets|] == targets;
    return None;
  }

  lemma CardsOfUuids(host: Endpoint, targets: seq<Target>)
    requires forall t :: t in targets ==> t.card.host == host
    ensures Cards(host, UuidsOf(targets)) == CardsOf(targets)
  {
    var uuids := UuidsOf(targets);
    forall c | c in Cards(host, uuids) ensures c in CardsOf(targets) {
      var i :| 0 <= i < |uuids| && uuids[i] == c.uuid;
      assert targets[i] in targets;
    }
    forall t | t in targets ensures t.card in Cards(host, uuids) {
      var i :| 0 <= i < |targets| && targets[i] == t;
      assert uuids[i] == t.card.uuid;
    }
  }

  ghost predicate CheckedInLog(start: seq<Event>, log: seq<Event>, targets: seq<Target>) {
    forall t :: t in targets ==> R.WasChecked(start, log, t.card, t.lease)
  }

  lemma CheckedInLogStays(start: seq<Event>, mid: seq<Event>, log: seq<Event>, targets: seq<Target>)
    requires CheckedInLog(start, mid, targets) && mid <= log
    ensures CheckedInLog(start, log, targets)
  {
    forall t | t in targets ensures R.WasChecked(start, log, t.card, t.lease) {
      R.CheckedStaysChecked(start, mid, log, t.card, t.lease);
    }
  }

  /** The one helper call of an endpoint names only cards that were just re-checked. */
  lemma StopIsVetted(
    start: seq<Event>, mid: seq<Event>, host: Endpoint, targets: seq<Target>, want: map<Card, nat>, reply: Reply)
    requires StaysWithin(start, mid, want) && CheckedInLog(start, mid, targets)
    requires forall t :: t in targets ==> t.card.host == host && t.card in want && want[t.card] == t.lease
    ensures StaysWithin(start, mid + [Mutate(host, false, UuidsOf(targets), reply)], want)
  {
    var uuids := UuidsOf(targets);
    forall u | u in uuids
      ensures Card(host, u) in want && R.WasChecked(start, mid, Card(host, u), want[Card(host, u)])
    {
      var i :| 0 <= i < |uuids| && uuids[i] == u;
      assert targets[i] in targets && targets[i].card == Card(host, u);
    }
    OneMore(start, mid, Mutate(host, false, uuids, reply), want);
  }

  /** The one stop of an endpoint, a clock reading after it, and a collection after that. */
  method StopAndLook(
    op: Operation, endpoint: EndpointConfig, targets: seq<Target>, want: map<Card, nat>, a: ReclaimAnswer,
    ghost start: seq<Event>)
    returns (adapter: Option<Code>, now: nat)
    requires Ready(op, start, want) && endpoint.id in op.held && Rechecked(op, start, targets)
    requires forall t :: t in targets ==> t.card.host == endpoint.id && t.card in want && want[t.card] == t.lease
    modifies op
    ensures Ready(op, start, want) && old(op.log) <= op.log && Rechecked(op, start, targets)
    ensures op.session.stamp == Some(now) && endpoint.id in op.session.looked && KeepsProgress(old(op.session), op.session)
    ensures adapter.None? <==> Verified(endpoint, UuidsOf(targets), false, a.stop)
    ensures adapter.Some? ==> adapter.value == R.CodeOf(FaultOf(endpoint, UuidsOf(targets), a.stop))
    ensures adapter.None? ==> CardsOf(targets) <= op.session.proven
  {
    hide Follows, Replay, StaysWithin, CheckedInLog, Verified, Spawns, CardsOf, Cards, Allowed, R.WasChecked;
    var uuids := UuidsOf(targets);
    CardsOfUuids(endpoint.id, targets);
    ghost var before := op.log;
    adapter := R.StopVerified(op, endpoint, uuids, a.stop);
    if op.log != before {
      ghost var reply :| op.log == before + [Mutate(endpoint.id, false, uuids, reply)];
      StopIsVetted(start, before, endpoint.id, targets, want, reply);
    }
    ghost var stopped := op.log;
    now := op.ObservationNotBefore();
    OneMore(start, stopped, ReadClock(now), want);
    MayCollect(op, endpoint.id);
    op.Emit(Collect(endpoint.id));
    OneMore(start, stopped + [ReadClock(now)], Collect(endpoint.id), want);
    CheckedInLogStays(start, before, op.log, targets);
  }

  lemma MayCollect(op: Operation, host: Endpoint)
    requires op.Valid() && host in op.held
    ensures Allowed(op.session, Collect(host))
  {}

  /**
   Hand over the planned cards of one endpoint. Without a refusal every one of them
   was stopped by an exact answer and released against a later observation.
   */
  method ReclaimHost(
    op: Operation, endpoint: EndpointConfig, targets: seq<Target>, want: map<Card, nat>, a: ReclaimAnswer,
    ghost start: seq<Event>)
    returns (refusal: Option<Outcome>)
    requires Ready(op, start, want) && (endpoint.adapterResolves ==> endpoint.id in op.held)
    requires DistinctCards(targets)
    requires forall t :: t in targets ==> t.card.host == endpoint.id && t.card in want && want[t.card] == t.lease
    modifies op
    ensures Ready(op, start, want) && old(op.log) <= op.log
    ensures old(op.session).freed <= op.session.freed && old(op.session).proven <= op.session.proven
    ensures refusal.None? <==> HandsOver(endpoint, targets, a)
    ensures refusal.None? ==> AllReleased(op, start, targets) && CardsOf(targets) <= op.session.proven
    ensures refusal.Some? ==> refusal.value != Claimed
    ensures refusal == Some(NotReclaimed) <==> GivesUp(endpoint, targets, a)
    ensures refusal.Some? && endpoint.adapterResolves && StillPlanned(targets, a) ==>
              var verified := Verified(endpoint, UuidsOf(targets), false, a.stop);
              && (!verified ==> refusal.value == Raised(R.CodeOf(FaultOf(endpoint, UuidsOf(targets), a.stop))))
              && (verified && !a.collected ==> refusal.value == Raised(ObservationFailed))
  {
    hide Follows, Replay, MeetsAnotherLease;
    if !endpoint.adapterResolves {
      return Some(NotReclaimed);
    }
    refusal := PrepareTargets(op, targets, want, a, start);
    if refusal.Some? {
      return;
    }
    NothingMissed(targets, a);
    var adapter, now := StopAndLook(op, endpoint, targets, want, a, start);
    if !a.collected {
      return Some(Raised(if adapter.Some? then adapter.value else ObservationFailed));
    }
    var refused := FinalizeTargets(op, endpoint.id, targets, now, want, a, start);
    if refused.Some? {
      return Some(Raised(if adapter.Some? then adapter.value else Service(refused.value)));
    }
    if adapter.Some? {
      return Some(Raised(adapter.value));
    }
    return None;
  }

  // ---------------------------------------------------------------------------
  // All endpoints, then the claim
  // ---------------------------------------------------------------------------

  /** The endpoints include those of a usable plan that have an adapter to send anything through. */
  ghost predicate Covers(held: set<Endpoint>, plan: Plan, config: Endpoint -> EndpointConfig) {
    Readable(plan) ==>
      forall t :: t in plan.transitions.value && config(t.host).adapterResolves ==> t.host in held
  }

  /** What the ordinary claim answers: a lease, or an error number. */
  datatype ClaimAnswer = Granted | Denied(n: nat)

  /**
   Reclaim a plan and claim. Only stops of planned, re-checked cards are ever sent,
   only planned leases are ever released, on every path. The claim itself runs only
   when every planned card was stopped by an exact answer and released against a
   later observation; otherwise it does not run at all, and what was released by
   then stays released. The plan is claimed exactly when it can be read, every
   endpoint hands its cards over and the claim is granted.
   */
  method ReclaimKeepaliveForClaim(
    op: Operation, plan: Plan, config: Endpoint -> EndpointConfig, answers: Endpoint -> ReclaimAnswer, claim: ClaimAnswer)
    returns (outcome: Outcome, want: map<Card, nat>)
    requires op.Valid() && op.session.open == {}
    requires forall h :: config(h).id == h
    requires Covers(op.held, plan, config)
    modifies op
    ensures op.Valid() && op.session.open == {}
    ensures StaysWithin(old(op.log), op.log, want)
    ensures forall c :: c in want ==> FromPlan(plan, c, want[c])
    ensures outcome == Claimed <==>
              Readable(plan) && AllHandOver(config, TargetsOf(plan), answers) && claim.Granted?
    ensures outcome == NotReclaimed <==> !Readable(plan) || Declines(config, TargetsOf(plan), answers)
    ensures Readable(plan) && AllHandOver(config, TargetsOf(plan), answers) && claim.Denied? ==>
              outcome == Raised(Service(claim.n))
    ensures outcome == Claimed ==>
              && plan.transitions.Some?
              && (forall t :: t in plan.transitions.value ==> Usable(t) && TargetOf(t).card in want)
              && op.log != [] && op.log[|op.log| - 1] == Claim(want.Keys, true)
    ensures outcome != Claimed ==> NoGrantedClaim(old(op.log), op.log)
  {
    hide Follows, Replay, After, Allowed, StaysWithin, Usable, FromPlan, TargetOf, Reads, Readable;
    hide DistinctCards, Want, AllHandOver, Declines;
    want := map[];
    StaysWithinStart(op.log, want);
    var read := ReadTargets(plan);
    if read.None? {
      return NotReclaimed, want;
    }
    var targets := read.value;
    want := Want(targets);
    ghost var start := op.log;
    TargetsComeFromPlan(plan, config, targets, op.held);
    ReadsTargetsOf(plan, targets);
    StaysWithinStart(start, want);
    var refusal := ReclaimHosts(op, config, targets, want, answers, start);
    if refusal.Some? {
      return refusal.value, want;
    }
    outcome := RunClaim(op, targets, want, start, claim);
  }

  method RunClaim(
    op: Operation, targets: seq<Target>, want: map<Card, nat>, ghost start: seq<Event>, claim: ClaimAnswer)
    returns (outcome: Outcome)
    requires Ready(op, start, want) && want == Want(targets)
    requires forall t :: t in targets ==>
               R.WasReleased(start, op.log, t.lease) && t.card in op.session.freed && t.card in op.session.proven
    modifies op
    ensures op.Valid() && op.session.open == {} && StaysWithin(start, op.log, want)
    ensures outcome == if claim.Granted? then Claimed else Raised(Service(claim.n))
    ensures outcome == Claimed ==> op.log != [] && op.log[|op.log| - 1] == Claim(want.Keys, true)
    ensures outcome != Claimed ==> NoGrantedClaim(start, op.log)
  {
    hide Follows, Replay;
    ReadyToClaim(op, start, targets, want);
    var ok := claim.Granted?;
    OneMore(start, op.log, Claim(want.Keys, ok), want);
    op.Emit(Claim(want.Keys, ok));
    if !ok {
      return Raised(Service(claim.n));
    }
    return Claimed;
  }

  ghost predicate NoGrantedClaim(start: seq<Event>, log: seq<Event>) {
    forall i :: |start| <= i < |log| ==> !(log[i].Claim? && log[i].ok)
  }

  ghost predicate NoClaim(start: seq<Event>, log: seq<Event>) {
    forall i :: |start| <= i < |log| ==> !log[i].Claim?
  }

  /** The targets a readable plan stands for. */
  ghost function TargetsOf(plan: Plan): seq<Target> {
    if Readable(plan) then
      seq(|plan.transitions.value|, i requires 0 <= i < |plan.transitions.value| && Usable(plan.transitions.value[i]) =>
        TargetOf(plan.transitions.value[i]))
    else []
  }

  lemma ReadsTargetsOf(plan: Plan, targets: seq<Target>)
    requires Reads(plan, targets) && Readable(plan)
    ensures targets == TargetsOf(plan)
  {}

  lemma OfHostDistinct(targets: seq<Target>, host: Endpoint)
    requires DistinctCards(targets)
    ensures DistinctCards(OfHost(targets, host))
  {
    if targets != [] {
      var front := targets[..|targets| - 1];
      OfHostDistinct(front, host);
      forall t | t in OfHost(front, host) ensures t.card != targets[|targets| - 1].card {
        var i :| 0 <= i < |front| && front[i] == t;
        assert targets[i] == t;
      }
    }
  }

  lemma TargetsComeFromPlan(plan: Plan, config: Endpoint -> EndpointConfig, targets: seq<Target>, held: set<Endpoint>)
    requires Reads(plan, targets) && Readable(plan) && Covers(held, plan, config)
    ensures plan.transitions.Some? && DistinctCards(targets)
    ensures forall t :: t in plan.transitions.value ==> Usable(t) && TargetOf(t) in targets
    ensures forall c :: c in Want(targets) ==> FromPlan(plan, c, Want(targets)[c])
    ensures forall t :: t in targets ==>
              && (config(t.card.host).adapterResolves ==> t.card.host in held)
              && t.card in Want(targets) && Want(targets)[t.card] == t.lease
  {
    forall t | t in targets
      ensures FromPlan(plan, t.card, t.lease)
      ensures config(t.card.host).adapterResolves ==> t.card.host in held
    {
      var i :| 0 <= i < |targets| && targets[i] == t;
      assert plan.transitions.value[i] in plan.transitions.value;
    }
    forall t | t in plan.transitions.value ensures Usable(t) && TargetOf(t) in targets {
      var i :| 0 <= i < |targets| && plan.transitions.value[i] == t;
      assert targets[i] == TargetOf(t);
    }
  }

  ghost predicate HandedOver(op: Operation, start: seq<Event>, targets: seq<Target>, hosts: seq<Endpoint>)
    reads op
  {
    forall t :: t in targets && t.card.host in hosts ==>
      && R.WasReleased(start, op.log, t.lease)
      && t.card in op.session.freed && t.card in op.session.proven
  }

  lemma HandedOverStays(
    op: Operation, start: seq<Event>, targets: seq<Target>, hosts: seq<Endpoint>,
    before: seq<Event>, freed: set<Card>, proven: set<Card>)
    requires before <= op.log && freed <= op.session.freed && proven <= op.session.proven
    requires forall t :: t in targets && t.card.host in hosts ==>
               R.WasReleased(start, before, t.lease) && t.card in freed && t.card in proven
    ensures HandedOver(op, start, targets, hosts)
  {
    forall t | t in targets && t.card.host in hosts ensures R.WasReleased(start, op.log, t.lease) {
      R.ReleasedStaysReleased(start, before, op.log, t.lease);
    }
  }

  lemma HandedOverGrows(op: Operation, start: seq<Event>, targets: seq<Target>, hosts: seq<Endpoint>, host: Endpoint)
    requires HandedOver(op, start, targets, hosts)
    requires AllReleased(op, start, OfHost(targets, host)) && CardsOf(OfHost(targets, host)) <= op.session.proven
    ensures HandedOver(op, start, targets, hosts + [host])
  {
    forall t | t in targets && t.card.host == host ensures t.card in op.session.proven {
      assert t in OfHost(targets, host) && t.card in CardsOf(OfHost(targets, host));
    }
  }

  ghost predicate HostHandsOver(
    config: Endpoint -> EndpointConfig, targets: seq<Target>, answers: Endpoint -> ReclaimAnswer, host: Endpoint)
  {
    HandsOver(config(host), OfHost(targets, host), answers(host))
  }

  /** Every endpoint with a planned card hands its cards over. */
  ghost predicate AllHandOver(
    config: Endpoint -> EndpointConfig, targets: seq<Target>, answers: Endpoint -> ReclaimAnswer)
  {
    forall t :: t in targets ==> HostHandsOver(config, targets, answers, t.card.host)
  }

  /** The first target whose endpoint does not hand over: with it the reclaim ends. */
  ghost predicate EndsAt(
    config: Endpoint -> EndpointConfig, targets: seq<Target>, answers: Endpoint -> ReclaimAnswer, i: nat)
  {
    && i < |targets| && !HostHandsOver(config, targets, answers, targets[i].card.host)
    && forall j :: 0 <= j < i ==> HostHandsOver(config, targets, answers, targets[j].card.host)
  }

  /** The first endpoint that does not hand over gives the plan up. */
  ghost predicate Declines(
    config: Endpoint -> EndpointConfig, targets: seq<Target>, answers: Endpoint -> ReclaimAnswer)
  {
    exists i: nat :: EndsAt(config, targets, answers, i) && HostGivesUp(config, targets, answers, targets[i].card.host)
  }

  ghost predicate HostGivesUp(
    config: Endpoint -> EndpointConfig, targets: seq<Target>, answers: Endpoint -> ReclaimAnswer, host: Endpoint)
  {
    GivesUp(config(host), OfHost(targets, host), answers(host))
  }

  lemma NothingDeclined(config: Endpoint -> EndpointConfig, targets: seq<Target>, answers: Endpoint -> ReclaimAnswer)
    requires AllHandOver(config, targets, answers)
    ensures !Declines(config, targets, answers)
  {
    hide HostHandsOver, HostGivesUp;
    forall i: nat | i < |targets| ensures !EndsAt(config, targets, answers, i) {
      assert targets[i] in targets;
    }
  }

  lemma DeclinedBy(
    config: Endpoint -> EndpointConfig, targets: seq<Target>, answers: Endpoint -> ReclaimAnswer,
    order: seq<Endpoint>, k: nat)
    requires ByFirstTarget(targets, order) && k < |order|
    requires forall h :: h in order[..k] ==> HostHandsOver(config, targets, answers, h)
    requires !HostHandsOver(config, targets, answers, order[k])
    ensures Declines(config, targets, answers) <==> HostGivesUp(config, targets, answers, order[k])
  {
    hide HostHandsOver, HostGivesUp;
    assert HasFirstTarget(targets, order, k);
    var i: nat :| FirstTarget(targets, order, k, i);
    assert EndsAt(config, targets, answers, i);
    forall j: nat | EndsAt(config, targets, answers, j) ensures j == i {}
  }

  /** Endpoint after endpoint; the first refusal ends it. */
  method ReclaimHosts(
    op: Operation, config: Endpoint -> EndpointConfig, targets: seq<Target>, want: map<Card, nat>,
    answers: Endpoint -> ReclaimAnswer, ghost start: seq<Event>)
    returns (refusal: Option<Outcome>)
    requires Ready(op, start, want) && DistinctCards(targets)
    requires forall h :: config(h).id == h
    requires forall t :: t in targets ==>
               && (config(t.card.host).adapterResolves ==> t.card.host in op.held)
               && t.card in want && want[t.card] == t.lease
    modifies op
    ensures Ready(op, start, want)
    ensures refusal.None? <==> AllHandOver(config, targets, answers)
    ensures refusal.None? ==> forall t :: t in targets ==>
              R.WasReleased(start, op.log, t.lease) && t.card in op.session.freed && t.card in op.session.proven
    ensures refusal.Some? ==> refusal.value != Claimed
    ensures refusal == Some(NotReclaimed) <==> Declines(config, targets, answers)
  {
    hide Follows, Replay, StaysWithin, NoClaim, AllReleased, CardsOf, OfHost, DistinctCards, R.WasReleased, HandsOver;
    hide GivesUp, ByFirstTarget, Declines;
    var order, groups := GroupByEndpoint(targets);
    for k := 0 to |order|
      invariant Ready(op, start, want)
      invariant HandedOver(op, start, targets, order[..k])
      invariant forall h :: h in order[..k] ==> HostHandsOver(config, targets, answers, h)
    {
      var host := order[k];
      assert host in groups;
      var mine := groups[host];
      OfHostDistinct(targets, host);
      assert exists t :: t in targets && t.card.host == host by { assert mine[0] in mine; }
      ghost var before, freed, proven := op.log, op.session.freed, op.session.proven;
      refusal := ReclaimHost(op, config(host), mine, want, answers(host), start);
      if refusal.Some? {
        DeclinedBy(config, targets, answers, order, k);
        return;
      }
      assert order[..k + 1] == order[..k] + [host];
      HandedOverStays(op, start, targets, order[..k], before, freed, proven);
      HandedOverGrows(op, start, targets, order[..k], host);
    }
    assert order[..|order|] == order;
    NothingDeclined(config, targets, answers);
    return None;
  }

  lemma ReadyToClaim(op: Operation, start: seq<Event>, targets: seq<Target>, want: map<Card, nat>)
    requires want == Want(targets)
    requires forall t :: t in targets ==>
               R.WasReleased(start, op.log, t.lease) && t.card in op.session.freed && t.card in op.session.proven
    ensures want.Keys <= op.session.freed && want.Keys <= op.session.proven
    ensures forall c :: c in want ==> R.WasReleased(start, op.log, want[c])
  {
    forall c | c in want
      ensures c in op.session.freed && c in op.session.proven && R.WasReleased(start, op.log, want[c])
    {
      assert Target(c, want[c]) in targets;
    }
  }

  ghost predicate FromPlan(plan: Plan, card: Card, lease: nat) {
    plan.transitions.Some? &&
    exists t :: t in plan.transitions.value && Usable(t) && TargetOf(t) == Target(card, lease)
  }

  // ---------------------------------------------------------------------------
  // The callers: claims, resizes and reassignments
  // ---------------------------------------------------------------------------

  /**
   The ordinary attempt first; only the one error that means "blocked by cards"
   leads to a reclaim, and only a plan that cannot be used leads to the fallback
   (a provider for claims, nothing for resizes and reassignments).
   */
  method ClaimUnderLocks(
    op: Operation, first: ClaimAnswer, blocked: nat,
    plan: Plan, config: Endpoint -> EndpointConfig, answers: Endpoint -> ReclaimAnswer, claim: ClaimAnswer,
    fallback: Option<ClaimAnswer>)
    returns (outcome: Outcome, want: map<Card, nat>)
    requires op.Valid() && op.session.open == {}
    requires forall h :: config(h).id == h
    requires Covers(op.held, plan, config)
    modifies op
    ensures op.Valid() && op.session.open == {} && outcome != NotReclaimed
    ensures |op.log| > |old(op.log)| && op.log[..|old(op.log)| + 1] == old(op.log) + [Claim({}, first.Granted?)]
    ensures StaysWithin(old(op.log) + [Claim({}, first.Granted?)], op.log, want)
    ensures forall c :: c in want ==> FromPlan(plan, c, want[c])
    ensures first != Denied(blocked) ==> op.log == old(op.log) + [Claim({}, first.Granted?)]
    ensures first.Granted? ==> outcome == Claimed
    ensures first.Denied? && first.n != blocked ==> outcome == Raised(Service(first.n))
    ensures first == Denied(blocked) ==>
              if !Readable(plan) || Declines(config, TargetsOf(plan), answers) then
                outcome == match fallback
                           case Some(Granted) => Claimed
                           case Some(Denied(m)) => Raised(Service(m))
                           case None => Raised(Service(blocked))
              else if AllHandOver(config, TargetsOf(plan), answers) then
                && outcome == (if claim.Granted? then Claimed else Raised(Service(claim.n)))
                && (claim.Granted? ==> op.log[|op.log| - 1] == Claim(want.Keys, true))
              else outcome.Raised?
    ensures outcome == Claimed && !first.Granted? ==>
              op.log[|op.log| - 1] == Claim(want.Keys, true) || (fallback.Some? && fallback.value.Granted?)
  {
    hide Follows, Replay, Vetted, FromPlan, Usable, Readable, AllHandOver, TargetsOf, Declines;
    want := map[];
    op.Emit(Claim({}, first.Granted?));
    ghost var start := op.log;
    StaysWithinStart(start, want);
    match first
    case Granted =>
      return Claimed, want;
    case Denied(n) =>
      if n != blocked {
        return Raised(Service(n)), want;
      }
      outcome, want := ReclaimKeepaliveForClaim(op, plan, config, answers, claim);
      if outcome == NotReclaimed {
        match fallback {
          case Some(Granted) => outcome := Claimed;
          case Some(Denied(m)) => outcome := Raised(Service(m));
          case None => outcome := Raised(Service(blocked));
        }
      }
  }

  // ---------------------------------------------------------------------------
  // The locks of a claim and the plans it may get
  // ---------------------------------------------------------------------------

  datatype EndpointRow = EndpointRow(id: Endpoint, group: Option<string>, hasAdapter: bool)

  /** The endpoints a claim locks before the allocator runs. */
  function ClaimCandidateEndpointIds(
    pinned: set<Endpoint>, groups: set<string>, endpoints: seq<EndpointRow>): set<Endpoint>
  {
    var candidates := set e | e in endpoints && e.hasAdapter;
    if pinned != {} then set e | e in candidates && e.id in pinned :: e.id
    else if groups != {} then set e | e in candidates && e.group.Some? && e.group.value in groups :: e.id
    else set e | e in candidates :: e.id
  }

  /** What the allocator may choose for the same constraints. */
  predicate MaySelect(row: EndpointRow, pinned: set<Endpoint>, groups: set<string>) {
    && (pinned == {} || row.id in pinned)
    && (groups == {} || (row.group.Some? && row.group.value in groups))
  }

  /** Every card of the plan is on an endpoint that the allocator may choose among these. */
  ghost predicate DrawnFrom(plan: Plan, rows: seq<EndpointRow>, pinned: set<Endpoint>, groups: set<string>) {
    plan.transitions.Some? ==>
      forall t :: t in plan.transitions.value ==>
        exists row :: row in rows && row.id == t.host && MaySelect(row, pinned, groups)
  }

  /** The locks were chosen for these endpoints: they include every one with an adapter that may be selected now. */
  ghost predicate LocksReach(
    locked: set<Endpoint>, now: seq<EndpointRow>, pinned: set<Endpoint>, groups: set<string>,
    config: Endpoint -> EndpointConfig)
  {
    forall row :: row in now && MaySelect(row, pinned, groups) && config(row.id).adapterResolves ==> row.id in locked
  }

  function PlanOfOne(host: Endpoint): (plan: Plan)
    ensures Readable(plan)
  {
    Plan(true, Some([R.Transition(R.Action.Reclaim, host, Some("GPU"), Some(0))]))
  }

  /** Whatever plan the allocator draws, the locks cover it, exactly when they reach every endpoint it may choose. */
  lemma LocksCoverExactly(
    locked: set<Endpoint>, now: seq<EndpointRow>, pinned: set<Endpoint>, groups: set<string>,
    config: Endpoint -> EndpointConfig)
    ensures (forall plan :: DrawnFrom(plan, now, pinned, groups) ==> Covers(locked, plan, config)) <==>
            LocksReach(locked, now, pinned, groups, config)
  {
    forall row |
      && row in now && MaySelect(row, pinned, groups) && config(row.id).adapterResolves && row.id !in locked
      ensures exists plan :: DrawnFrom(plan, now, pinned, groups) && !Covers(locked, plan, config)
    {
      var plan := PlanOfOne(row.id);
      assert plan.transitions.value[0].host == row.id;
      assert DrawnFrom(plan, now, pinned, groups) && !Covers(locked, plan, config);
    }
  }

  /**
   While the endpoints are still those the locks were chosen for, the locks cover every
   plan. Without both kinds of constraint at once they include nothing else.
   */
  lemma ChosenLocksCover(
    rows: seq<EndpointRow>, pinned: set<Endpoint>, groups: set<string>, config: Endpoint -> EndpointConfig, plan: Plan)
    requires forall row :: row in rows && config(row.id).adapterResolves ==> row.hasAdapter
    requires DrawnFrom(plan, rows, pinned, groups)
    ensures Covers(ClaimCandidateEndpointIds(pinned, groups, rows), plan, config)
    ensures pinned == {} || groups == {} ==>
              forall id :: id in ClaimCandidateEndpointIds(pinned, groups, rows) ==>
                exists row :: row in rows && row.id == id && row.hasAdapter && MaySelect(row, pinned, groups)
  {
    if pinned == {} || groups == {} {
      forall id | id in ClaimCandidateEndpointIds(pinned, groups, rows)
        ensures exists row :: row in rows && row.id == id && row.hasAdapter && MaySelect(row, pinned, groups)
      {
        var row :| row in rows && row.id == id && row.hasAdapter && MaySelect(row, pinned, groups);
      }
    }
    LocksCoverExactly(ClaimCandidateEndpointIds(pinned, groups, rows), rows, pinned, groups, config);
  }

  /** An endpoint that joins while the claim waits for its locks can be planned and is not locked. */
  lemma ALatecomerIsNotLocked(
    rows: seq<EndpointRow>, host: Endpoint, config: Endpoint -> EndpointConfig) returns (plan: Plan)
    requires config(host).adapterResolves && forall row :: row in rows ==> row.id != host
    ensures DrawnFrom(plan, rows + [EndpointRow(host, None, true)], {}, {})
    ensures !Covers(ClaimCandidateEndpointIds({}, {}, rows), plan, config)
  {
    plan := PlanOfOne(host);
    assert plan.transitions.value[0].host == host;
    assert EndpointRow(host, None, true) in rows + [EndpointRow(host, None, true)];
  }
}
