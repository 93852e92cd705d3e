/**
 The keepalive handoff: what every task of the daemon may do to the ledger and to
 the hosts while it holds endpoint locks, and what then holds in every run of any
 number of tasks.

 A `Session` is the protocol's view of one task between taking its locks and
 giving them back. `Allowed` and `After` say which remote calls and ledger writes
 the protocol permits next; the reconciler and the reclaim are proved to stay
 within them in Reconcile.dfy and Reclaim.dfy.
 */
module Handoff {
  import opened Prelude
  import opened Locks

  datatype Card = Card(host: Endpoint, uuid: string)

  datatype Lease = Keeper(id: nat) | Workload(id: nat)

  // What the helper on a host can report about a mutating call.
  datatype Status = Running | Stopped
  datatype GpuResult = GpuResult(uuid: string, status: Status)
  datatype Response = Response(enabled: bool, results: seq<GpuResult>)
  datatype Reply = NoReply | Answered(response: Response)

  datatype Event =
    | Mutate(host: Endpoint, on: bool, uuids: seq<string>, reply: Reply)
    | ReadClock(now: nat)
    | Collect(host: Endpoint)
    | Confirm(cards: set<Card>, notBefore: nat, ok: bool)
    | SetError(cards: set<Card>, cleanupPending: bool, ok: bool)
    | FinishCleanup(cards: set<Card>)
    | Prepare(card: Card, seen: Option<nat>)
    | Finalize(host: Endpoint, lease: nat, notBefore: nat, ok: bool)
    | Claim(planned: set<Card>, ok: bool)

  function Cards(host: Endpoint, uuids: seq<string>): set<Card> {
    set u | u in uuids :: Card(host, u)
  }

  function Uuids(results: seq<GpuResult>): seq<string> {
    Mapped(results, (r: GpuResult) => r.uuid)
  }

  function Wanted(on: bool): Status {
    if on then Running else Stopped
  }

  /** The answer names exactly the requested cards, once each, all in the wanted state. */
  predicate Exact(response: Response, on: bool, uuids: seq<string>) {
    && response.enabled == on
    && Distinct(Uuids(response.results))
    && Elements(Uuids(response.results)) == Elements(uuids)
    && forall r :: r in response.results ==> r.status == Wanted(on)
  }

  predicate ExactReply(reply: Reply, on: bool, uuids: seq<string>) {
    reply.Answered? && Exact(reply.response, on, uuids)
  }

  // ---------------------------------------------------------------------------
  // The discipline of one session
  // ---------------------------------------------------------------------------

  datatype Session = Session(
    held: set<Endpoint>,
    open: set<Card>,          // may run a worker this session has not yet accounted for
    proven: set<Card>,        // stopped according to an exact answer, and not started since
    freed: set<Card>,         // lease finalised, and neither started nor leased since
    stamp: Option<nat>,       // clock reading not followed by another mutation
    looked: set<Endpoint>,    // endpoints collected since that reading
    checked: map<Card, nat>   // keeper lease last read for the card
  )

  function NewSession(held: set<Endpoint>): Session {
    Session(held, {}, {}, {}, None, {}, map[])
  }

  ghost predicate Within(cards: set<Card>, held: set<Endpoint>) {
    forall c :: c in cards ==> c.host in held
  }

  ghost predicate Allowed(s: Session, ev: Event) {
    match ev
    case Mutate(host, _, _, _) => host in s.held
    case ReadClock(_) => true
    case Collect(host) => host in s.held
    case Confirm(cards, notBefore, _) => Within(cards, s.held * s.looked) && s.stamp == Some(notBefore)
    case SetError(cards, _, _) => Within(cards, s.held)
    case FinishCleanup(cards) => cards <= s.proven
    case Prepare(card, _) => card.host in s.held
    case Finalize(host, _, notBefore, _) => host in s.held * s.looked && s.stamp == Some(notBefore)
    case Claim(planned, _) => planned <= s.freed && planned <= s.proven
  }

  function After(s: Session, ev: Event): Session {
    match ev
    case Mutate(host, on, uuids, reply) =>
      var cards := Cards(host, uuids);
      if on then
        s.(open := s.open + cards, proven := s.proven - cards, freed := s.freed - cards, stamp := None, looked := {})
      else if ExactReply(reply, false, uuids) then
        s.(open := s.open - cards, proven := s.proven + cards, stamp := None, looked := {})
      else
        s.(stamp := None, looked := {})
    case ReadClock(now) => s.(stamp := Some(now), looked := {})
    case Collect(host) => s.(looked := s.looked + {host})
    case Confirm(cards, _, ok) => if ok then s.(open := s.open - cards, freed := s.freed - cards) else s
    case SetError(cards, pending, _) => if pending then s.(open := s.open - cards) else s
    case FinishCleanup(_) => s
    case Prepare(card, seen) => if seen.Some? then s.(checked := s.checked[card := seen.value]) else s
    case Finalize(_, lease, _, ok) =>
      if ok then s.(freed := s.freed + set c | c in s.checked && s.checked[c] == lease) else s
    case Claim(_, _) => s
  }

  /** Stopping cards takes nothing back from what a session has established. */
  ghost predicate KeepsProgress(s: Session, s': Session) {
    s'.freed == s.freed && s'.checked == s.checked && s.proven <= s'.proven
  }

  /** Every event of a session's log was allowed when it happened. */
  ghost predicate Follows(start: Session, log: seq<Event>) {
    log == [] ||
    (var front := log[..|log| - 1];
     Follows(start, front) && Allowed(Replay(start, front), log[|log| - 1]))
  }

  function Replay(start: Session, log: seq<Event>): Session {
    if log == [] then start else After(Replay(start, log[..|log| - 1]), log[|log| - 1])
  }

  // ---------------------------------------------------------------------------
  // The world
  // ---------------------------------------------------------------------------

  /** What the ledger holds from the latest collection of one endpoint. */
  datatype Sighting = Sighting(time: nat, busy: set<Card>)

  datatype World = World(
    locks: State,
    sessions: seq<Session>,
    clock: nat,
    leases: map<Card, Lease>,
    marks: set<Card>,               // cleanup_pending
    running: set<Card>,             // cards with a live keeper worker
    sightings: map<Endpoint, Sighting>,
    nextLease: nat,
    present: set<Card>,             // cards in the inventory
    unreachable: set<Endpoint>,     // endpoints recorded as not answering
    pending: set<Card>,             // cards with a start command that was given up on and may still act
    astray: History
  )

  /** What has gone wrong with a card since its worker was last asked to start. */
  datatype History = History(
    dropped: set<Card>,    // its record went while it ran out of the daemon's sight
    denied: set<Card>,     // it runs although an exact answer said "stopped"
    late: set<Card>,       // it was started by a command given up on before
    replayed: set<Card>,   // its confirmation or release was the replay of an earlier one
    unmarked: set<Card>    // its task let go of it without a mark: the write failed, or the task was cut short
  )

  predicate Astray(w: World, c: Card) {
    || c in w.astray.dropped || c in w.astray.denied || c in w.astray.late
    || c in w.astray.replayed || c in w.astray.unmarked
  }

  predicate Kept(w: World, c: Card) {
    c in w.leases && w.leases[c].Keeper?
  }

  predicate HasLease(w: World, c: Card, id: nat) {
    Kept(w, c) && w.leases[c].id == id
  }

  ghost predicate InsideTask(w: World, t: TaskId) {
    t < |w.locks.tasks| && t < |w.sessions| && w.locks.tasks[t].stage.Inside?
  }

  /** The ledger knows of a worker on the card: a keeper lease, or the mark of an unfinished cleanup. */
  predicate Recorded(w: World, c: Card) {
    Kept(w, c) || c in w.marks
  }

  /** A task inside its locks has yet to account for the card. */
  ghost predicate Open(w: World, c: Card) {
    exists t: TaskId :: InsideTask(w, t) && c in w.sessions[t].open
  }

  ghost predicate SameKeepers(w: World, w': World) {
    && (forall c :: Kept(w', c) ==> HasLease(w, c, w'.leases[c].id))
    && (forall c :: Kept(w, c) ==> Kept(w', c))
  }

  /**
   A helper changes only requested cards, in the requested direction. Whatever it
   answers, it may have changed any of them; a start that was given up on may act later.
   */
  ghost predicate HostEffect(w: World, host: Endpoint, on: bool, uuids: seq<string>, reply: Reply, w': World) {
    var cards := Cards(host, uuids);
    if on then
      && w.running <= w'.running <= w.running + cards
      && w'.pending <= w.pending + if reply.NoReply? then cards else {}
    else
      w.running - cards <= w'.running <= w.running && w'.pending <= w.pending
  }

  ghost predicate SeenSince(w: World, host: Endpoint, notBefore: nat) {
    host in w.sightings && notBefore <= w.sightings[host].time
  }

  ghost predicate Observed(w: World, host: Endpoint, w': World) {
    exists busy: set<Card> ::
      && (forall c :: c in w.running && c.host == host ==> c in busy)
      && w'.sightings == w.sightings[host := Sighting(w.clock, busy)]
  }

  ghost predicate SameLedger(w: World, w': World) {
    w'.leases == w.leases && w'.marks == w.marks && w'.nextLease == w.nextLease
  }

  ghost predicate SameHosts(w: World, w': World) {
    w'.running == w.running && w'.sightings == w.sightings && w'.pending <= w.pending
  }

  /** One atomic batch: every card gets a keeper lease, old or new, and loses its mark. */
  ghost predicate Confirmed(w: World, cards: set<Card>, notBefore: nat, w': World) {
    && (forall c :: c in cards ==> c !in w.leases || w.leases[c].Keeper?)
    && (forall c :: c in cards ==> SeenSince(w, c.host, notBefore) && c in w.sightings[c.host].busy)
    && w.nextLease <= w'.nextLease
    && w'.leases.Keys == w.leases.Keys + cards
    && (forall c :: c in w.leases ==> w'.leases[c] == w.leases[c])
    && (forall c :: c in cards && c !in w.leases ==>
          w'.leases[c].Keeper? && w.nextLease <= w'.leases[c].id < w'.nextLease)
    && (forall c, d :: c in cards && d in cards && c !in w.leases && d !in w.leases && c != d ==>
          w'.leases[c].id != w'.leases[d].id)
    && w'.marks == w.marks - cards
  }

  /** The one lease is released, on a sighting that is late enough and shows its card empty. */
  ghost predicate Finalized(w: World, host: Endpoint, lease: nat, notBefore: nat, w': World) {
    exists c ::
      && HasLease(w, c, lease) && c.host == host
      && SeenSince(w, host, notBefore) && c !in w.sightings[host].busy
      && w'.leases == w.leases - {c}
      && w'.marks == w.marks && w'.nextLease == w.nextLease
  }

  /**
   What one call or write does. A confirmation or a release may succeed by replaying the
   result of an earlier one with the same key; it then changes nothing.
   */
  ghost predicate Effect(w: World, ev: Event, w': World) {
    match ev
    case Mutate(host, on, uuids, reply) =>
      SameLedger(w, w') && w'.sightings == w.sightings && HostEffect(w, host, on, uuids, reply, w')
    case ReadClock(now) => now == w.clock && SameLedger(w, w') && SameHosts(w, w')
    case Collect(host) =>
      SameLedger(w, w') && w'.running == w.running && w'.pending <= w.pending &&
      (w'.sightings == w.sightings || Observed(w, host, w'))
    case Confirm(cards, notBefore, ok) =>
      SameHosts(w, w') && (SameLedger(w, w') || (ok && Confirmed(w, cards, notBefore, w')))
    case SetError(cards, pending, ok) =>
      && SameHosts(w, w') && w'.leases == w.leases && w'.nextLease == w.nextLease
      && w'.marks == w.marks + if pending && ok then cards else {}
    case FinishCleanup(cards) =>
      && SameHosts(w, w') && w'.leases == w.leases && w'.nextLease == w.nextLease
      && w'.marks == w.marks - cards
    case Prepare(card, seen) =>
      && SameHosts(w, w') && SameLedger(w, w')
      && seen == if Kept(w, card) then Some(w.leases[card].id) else None
    case Finalize(host, lease, notBefore, ok) =>
      SameHosts(w, w') && (SameLedger(w, w') || (ok && Finalized(w, host, lease, notBefore, w')))
    case Claim(_, ok) =>
      && SameHosts(w, w') && w'.marks == w.marks && w.nextLease <= w'.nextLease
      && SameKeepers(w, w')
  }

  ghost predicate SameTables(w: World, w': World) {
    SameLedger(w, w') && SameHosts(w, w') && w'.astray == w.astray
  }

  // ---------------------------------------------------------------------------
  // What goes wrong with a card
  // ---------------------------------------------------------------------------

  predicate AsksToStart(ev: Event, c: Card) {
    ev.Mutate? && ev.on && c in Cards(ev.host, ev.uuids)
  }

  /** An exact answer says that the card's worker is stopped. */
  predicate SaysStopped(ev: Event, c: Card) {
    ev.Mutate? && !ev.on && ExactReply(ev.reply, false, ev.uuids) && c in Cards(ev.host, ev.uuids)
  }

  /** A success that did nothing. */
  ghost predicate Replays(w: World, ev: Event, w': World) {
    match ev
    case Confirm(cards, notBefore, ok) => ok && !Confirmed(w, cards, notBefore, w')
    case Finalize(host, lease, notBefore, ok) => ok && !Finalized(w, host, lease, notBefore, w')
    case _ => false
  }

  function Concerned(s: Session, ev: Event): set<Card> {
    match ev
    case Confirm(cards, _, _) => cards
    case Finalize(_, lease, _, _) => set c | c in s.checked && s.checked[c] == lease
    case _ => {}
  }

  predicate FailsToMark(ev: Event, c: Card) {
    ev.SetError? && ev.cleanupPending && !ev.ok && c in ev.cards
  }

  /** The card is asked to start again, or leased on a sighting that shows its worker. */
  ghost predicate Renews(w: World, ev: Event, c: Card, w': World) {
    || AsksToStart(ev, c)
    || (ev.Confirm? && ev.ok && c in ev.cards && Confirmed(w, ev.cards, ev.notBefore, w'))
  }

  /** The history after a task's event. */
  ghost function ActHistory(w: World, s: Session, ev: Event, w': World): History {
    var a := w.astray;
    History(
      (set c | c in w'.running && c in a.dropped && !Recorded(w', c)),
      (set c | c in w'.running && ((c in a.denied && !AsksToStart(ev, c)) || SaysStopped(ev, c))),
      (set c | c in w'.running && c in a.late && !AsksToStart(ev, c)),
      (set c | c in a.replayed && !Renews(w, ev, c, w')) + (if Replays(w, ev, w') then Concerned(s, ev) else {}),
      (set c | c in w'.running && c !in w'.marks &&
               ((c in a.unmarked && !Renews(w, ev, c, w')) || FailsToMark(ev, c))))
  }

  /** The daemon can see what runs on the card: it is in the inventory and its endpoint answers. */
  predicate Reachable(w: World, c: Card) {
    c in w.present && c.host !in w.unreachable
  }

  /** The history after a step outside all tasks. */
  ghost function OutsideHistory(w: World, w': World): History {
    var a := w.astray;
    History(
      (set c | c in w'.running && !Recorded(w', c) && (c in a.dropped || (Recorded(w, c) && !Reachable(w', c)))),
      a.denied * w'.running,
      (set c | c in w'.running && (c in a.late || c !in w.running)),
      a.replayed,
      (set c | c in w'.running && c in a.unmarked && c !in w'.marks))
  }

  // ---------------------------------------------------------------------------
  // Steps
  // ---------------------------------------------------------------------------

  /** Taking and giving back locks. */
  ghost predicate LockStep(w: World, t: TaskId, w': World) {
    && SameTables(w, w') && w'.sessions == w.sessions
    && t < |w.locks.tasks|
    && (Ask(w.locks, t, w'.locks) || Take(w.locks, t, w'.locks) || GiveBack(w.locks, t, w'.locks))
  }

  ghost predicate BeginStep(w: World, t: TaskId, w': World) {
    && SameTables(w, w') && t < |w.locks.tasks| == |w.sessions|
    && Enter(w.locks, t, w'.locks)
    && w'.sessions == w.sessions[t := NewSession(Elements(w.locks.tasks[t].order))]
  }

  /** One event of a task. */
  ghost predicate ActStep(w: World, t: TaskId, ev: Event, w': World) {
    && InsideTask(w, t)
    && Work(w.locks, t, w'.locks)
    && Allowed(w.sessions[t], ev) && Effect(w, ev, w')
    && w'.sessions == w.sessions[t := After(w.sessions[t], ev)]
    && w'.astray == ActHistory(w, w.sessions[t], ev, w')
  }

  /** The history after cards are let go of, whatever still runs on them. */
  function LetGo(w: World, cards: set<Card>): History {
    w.astray.(unmarked := w.astray.unmarked + (cards * w.running - w.marks))
  }

  /** A task leaves its body: at its end with nothing open, or cut short anywhere by an error or a cancellation. */
  ghost predicate EndStep(w: World, t: TaskId, w': World) {
    && InsideTask(w, t)
    && Leave(w.locks, t, w'.locks)
    && SameLedger(w, w') && SameHosts(w, w') && w'.sessions == w.sessions
    && w'.astray == LetGo(w, w.sessions[t].open)
  }

  /** The daemon stops, or is killed, and starts again: every lock and every task is gone. */
  ghost predicate Restart(w: World, w': World) {
    && w'.clock == w.clock + 1 && w'.present == w.present && w'.unreachable == w.unreachable
    && w'.locks == State(map[], []) && w'.sessions == []
    && SameLedger(w, w') && SameHosts(w, w')
    && w'.astray == LetGo(w, set c | c in w.running && Open(w, c))
  }

  ghost predicate TaskMoves(w: World, t: TaskId, w': World) {
    && w'.clock == w.clock + 1
    && w'.present == w.present && w'.unreachable == w.unreachable
    && (LockStep(w, t, w') || BeginStep(w, t, w') || EndStep(w, t, w') || exists ev :: ActStep(w, t, ev, w'))
  }

  /** The latest complete observation of the card's endpoint shows nothing running on it. */
  ghost predicate SeenEmpty(w: World, c: Card) {
    c.host in w.sightings && c !in w.sightings[c.host].busy
  }

  /**
   What may happen to records outside the locks. Where no keeper runs they may go at
   any time. Where one does, its lease goes when its card has left the inventory or its
   endpoint with it, when an operator clears it on an observation that shows the card
   empty, or because the endpoint does not answer; and its mark goes with a departed
   card, or when a collection finds the leased keeper.
   */
  ghost predicate Forgets(w: World, w': World) {
    && (forall c :: Kept(w', c) ==> HasLease(w, c, w'.leases[c].id))
    && (forall c :: c in w'.running && Kept(w, c) && !Kept(w', c) ==>
          c !in w'.present || c.host in w'.unreachable || SeenEmpty(w, c))
    && w'.marks <= w.marks
    && (forall c :: c in w'.running && c in w.marks && c !in w'.marks ==>
          if Kept(w', c) then SeenSince(w', c.host, w.clock) else c !in w'.present)
  }

  /**
   Workers die, starts that were given up on act after all, probes observe, workloads
   come and go, cards leave the inventory and return, endpoints stop answering, records
   are dropped for that, and new tasks arrive.
   */
  ghost predicate Environment(w: World, w': World) {
    && w'.clock == w.clock + 1
    && w.nextLease <= w'.nextLease
    && w'.running <= w.running + w.pending && w'.pending <= w.pending
    && Forgets(w, w') && w'.astray == OutsideHistory(w, w')
    && (w'.sightings == w.sightings || exists host :: Observed(w, host, w'))
    && (|| (w'.locks == w.locks && w'.sessions == w.sessions)
        || (Arrive(w.locks, w'.locks) && w'.sessions == w.sessions + [NewSession({})]))
  }

  ghost predicate Next(w: World, w': World) {
    Environment(w, w') || Restart(w, w') || exists t :: TaskMoves(w, t, w')
  }

  // ---------------------------------------------------------------------------
  // Runs
  // ---------------------------------------------------------------------------

  /** Lease numbers tell leases apart. */
  ghost predicate LeasesOk(w: World) {
    && (forall c :: Kept(w, c) ==> w.leases[c].id < w.nextLease)
    && (forall c, d :: Kept(w, c) && HasLease(w, d, w.leases[c].id) ==> c == d)
  }

  /** No task has come yet, and the ledger knows every keeper. */
  ghost predicate Start(w: World) {
    && w.locks == State(map[], []) && w.sessions == []
    && w.sightings == map[] && LeasesOk(w)
    && w.pending == {} && w.astray == History({}, {}, {}, {}, {})
    && forall c :: c in w.running ==> Recorded(w, c)
  }

  ghost predicate IsRun(run: seq<World>) {
    && run != [] && Start(run[0])
    && forall i, j {:trigger run[i], run[j]} :: 0 <= i && j == i + 1 < |run| ==> Next(run[i], run[j])
  }
}
