/** What the invariant of the handoff means for the daemon: records, claims, progress. */
module HandoffPromises {
  import opened Prelude
  import opened Locks
  import opened Handoff
  import opened HandoffInvariant

  // ---------------------------------------------------------------------------
  // What this means for the daemon
  // ---------------------------------------------------------------------------

  lemma OpenCardsAreLocked(w: World, c: Card)
    requires Good(w) && Open(w, c)
    ensures Queue(w.locks, c.host) != []
  {
    var t: TaskId :| InsideTask(w, t) && c in w.sessions[t].open;
    assert TaskOk(w, t) && LineOk(w.locks, c.host);
    var task := w.locks.tasks[t];
    assert task.order[..|task.order|] == task.order;
    assert Owns(task, c.host);
  }

  /** A keeper runs that neither the ledger nor a task inside its locks knows of. */
  ghost predicate Forsaken(w: World, c: Card) {
    c in w.running && !Recorded(w, c) && !Open(w, c)
  }

  /** Outside all tasks, the card's record goes or an unrecorded worker comes to life. */
  ghost predicate Slips(w: World, c: Card, w': World) {
    && Environment(w, w') && !Open(w, c) && !Recorded(w', c)
    && (Recorded(w, c) || c !in w.running)
  }

  /** A task's event closes the unrecorded card without a record, or takes its last record. */
  ghost predicate Uncovers(w: World, s: Session, ev: Event, c: Card, w': World) {
    match ev
    case Mutate(_, _, _, _) => c in s.open && !Recorded(w, c) && SaysStopped(ev, c)
    case Confirm(cards, _, _) => c in s.open && !Recorded(w, c) && c in cards && Replays(w, ev, w')
    case SetError(_, _, _) => c in s.open && !Recorded(w, c) && FailsToMark(ev, c)
    case FinishCleanup(cards) => !Open(w, c) && c in w.marks && c in cards && !Kept(w, c)
    case Finalize(host, lease, notBefore, ok) =>
      !Open(w, c) && HasLease(w, c, lease) && c !in w.marks && ok && Finalized(w, host, lease, notBefore, w')
    case _ => false
  }

  /** The task that has the unrecorded card open is cut short, or the daemon is. */
  ghost predicate Abandons(w: World, c: Card, w': World) {
    && Open(w, c) && !Recorded(w, c)
    && (Restart(w, w') || exists t: TaskId :: EndStep(w, t, w') && c in w.sessions[t].open)
  }

  ghost predicate Escapes(w: World, c: Card, w': World) {
    && c in w'.running
    && (|| Slips(w, c, w') || Abandons(w, c, w')
        || exists t: TaskId, ev :: ActStep(w, t, ev, w') && Uncovers(w, w.sessions[t], ev, c, w'))
  }

  lemma TheActor(w: World, t: TaskId, ev: Event, w': World)
    requires ActStep(w, t, ev, w')
    ensures t < |w.sessions|
  {}

  /** Nobody else has open what a task has open. */
  lemma ClosedIsNotOpen(w: World, t: TaskId, ev: Event, w': World, c: Card)
    requires Good(w) && ActStep(w, t, ev, w') && c in w.sessions[t].open && c !in w'.sessions[t].open
    ensures !Open(w', c)
  {
    assert TaskOk(w, t);
    if Open(w', c) {
      var u: TaskId :| InsideTask(w', u) && c in w'.sessions[u].open;
      assert InsideTask(w, u) && TaskOk(w, u);
      HeldApart(w, t, u);
    }
  }

  lemma AbandonedIsNotOpen(w: World, t: TaskId, w': World, c: Card)
    requires Good(w) && EndStep(w, t, w') && c in w.sessions[t].open
    ensures Open(w, c) && !Open(w', c)
  {
    assert TaskOk(w, t);
    if Open(w', c) {
      var u: TaskId :| InsideTask(w', u) && c in w'.sessions[u].open;
      assert InsideTask(w, u) && TaskOk(w, u);
      HeldApart(w, t, u);
    }
  }

  /** Steps of tasks other than events, and restarts. */
  lemma AbandonsExactly(w: World, w': World, c: Card)
    requires Good(w) && !Forsaken(w, c) && (Restart(w, w') || exists t :: QuietStep(w, t, w'))
    ensures Forsaken(w', c) <==> c in w'.running && Abandons(w, c, w')
  {
    hide Inv, LeasesOk, Sighted, Accounted, TaskOk, Ask, Take, GiveBack, Enter, Leave;
    if Restart(w, w') {
      assert !Open(w', c);
    } else {
      var t: TaskId :| QuietStep(w, t, w');
      QuietStepKeepsOpen(w, t, w', c);
      if u: TaskId :| EndStep(w, u, w') && c in w.sessions[u].open {
        AbandonedIsNotOpen(w, u, w', c);
      }
    }
  }

  lemma UncoversExactly(w: World, t: TaskId, ev: Event, w': World, c: Card)
    requires Good(w) && ActStep(w, t, ev, w') && !Forsaken(w, c)
    ensures Forsaken(w', c) <==> c in w'.running && Uncovers(w, w.sessions[t], ev, c, w')
  {
    hide Open, Inv, Ascending;
    assert TaskOk(w, t);
    ActKeepsOpen(w, t, ev, w', c);
    if c in w.sessions[t].open && c !in w'.sessions[t].open {
      ClosedIsNotOpen(w, t, ev, w', c);
    }
  }

  /** The steps that leave a keeper without a record and without anybody working on it are exactly these. */
  lemma ForsakenExactlyByEscape(w: World, w': World, c: Card)
    requires Good(w) && Next(w, w') && !Forsaken(w, c)
    ensures Forsaken(w', c) <==> Escapes(w, c, w')
  {
    hide Open, Good, Effect, ActStep, Uncovers, LockStep, BeginStep, EndStep, Restart, Abandons;
    forall t: TaskId, ev | ActStep(w, t, ev, w')
      ensures t < |w.sessions| && (Forsaken(w', c) <==> c in w'.running && Uncovers(w, w.sessions[t], ev, c, w'))
    {
      TheActor(w, t, ev, w');
      UncoversExactly(w, t, ev, w', c);
    }
    if Abandons(w, c, w') {
      AbandonIsAStep(w, c, w');
    }
    if Environment(w, w') {
      EnvironmentKeepsOpen(w, w', c);
    } else if !Restart(w, w') {
      var t: TaskId :| TaskMoves(w, t, w');
      assert QuietStep(w, t, w') || exists ev :: ActStep(w, t, ev, w');
    }
    if Restart(w, w') || exists t :: QuietStep(w, t, w') {
      AbandonsExactly(w, w', c);
    }
  }

  lemma AbandonIsAStep(w: World, c: Card, w': World)
    requires Abandons(w, c, w')
    ensures Restart(w, w') || exists t :: QuietStep(w, t, w')
  {
    if !Restart(w, w') {
      var t: TaskId :| EndStep(w, t, w');
      assert QuietStep(w, t, w');
    }
  }

  /** The run's step from world i lets the card's keeper escape, and nothing accounts for it ever after. */
  ghost predicate EscapedAt(run: seq<World>, c: Card, i: nat) {
    i + 1 < |run| && Escapes(run[i], c, run[i + 1]) && forall j :: i < j < |run| ==> Forsaken(run[j], c)
  }

  lemma {:induction false} ForsakenSinceItsEscape(run: seq<World>, c: Card)
    requires Handoff.IsRun(run)
    ensures Forsaken(run[|run| - 1], c) <==> exists i: nat :: EscapedAt(run, c, i)
  {
    hide Next, Start, Escapes, Forsaken;
    var n := |run| - 1;
    if n == 0 {
      NobodyForsakenAtStart(run[0], c);
    } else if Forsaken(run[n], c) {
      var front := run[..n];
      ForsakenSinceItsEscape(front, c);
      if Forsaken(run[n - 1], c) {
        var i: nat :| EscapedAt(front, c, i);
        assert EscapedAt(run, c, i);
      } else {
        RunGood(front);
        ForsakenExactlyByEscape(run[n - 1], run[n], c);
        assert EscapedAt(run, c, n - 1);
      }
    }
  }

  lemma NobodyForsakenAtStart(w: World, c: Card)
    requires Start(w)
    ensures !Forsaken(w, c)
  {}

  /**
   Whenever an endpoint's lock is free, a keeper that runs on it has neither a keeper
   lease nor a cleanup mark exactly when it escaped at some step and was never
   accounted for since.
   */
  lemma UnrecordedExactlyAfterAnEscape(run: seq<World>, c: Card)
    requires Handoff.IsRun(run) && c in run[|run| - 1].running && Queue(run[|run| - 1].locks, c.host) == []
    ensures !Recorded(run[|run| - 1], c) <==> exists i: nat :: EscapedAt(run, c, i)
  {
    hide EscapedAt;
    RunGood(run);
    var w := run[|run| - 1];
    if Open(w, c) {
      OpenCardsAreLocked(w, c);
    }
    ForsakenSinceItsEscape(run, c);
  }

  /**
   Outside all tasks a keeper escapes only on a card the daemon cannot see, or by
   starting late, unless something had gone wrong with it before. In particular an
   operator who clears a lease on an empty observation lets nothing else escape.
   */
  lemma SlipsForAReason(w: World, c: Card, w': World)
    requires Good(w) && Slips(w, c, w') && c in w'.running
    ensures c in w.running ==> !Reachable(w', c) || Astray(w, c)
    ensures c !in w.running ==> c in w.pending && c in w'.astray.late
  {
    if c in w.running {
      assert Sighted(w, c);
    }
  }

  /**
   An event of a task lets a keeper escape only by an exact answer that falsely says it
   has stopped, a replayed confirmation or a mark that cannot be written; the end of a
   cleanup and a release only let go what was denied or started late before.
   */
  lemma UncoversForAReason(w: World, t: TaskId, ev: Event, w': World, c: Card)
    requires Good(w) && ActStep(w, t, ev, w') && w'.clock == w.clock + 1
    requires c in w'.running && Uncovers(w, w.sessions[t], ev, c, w')
    ensures c in w.running
    ensures ev.Mutate? ==> !ev.on && c in w'.astray.denied
    ensures ev.Confirm? ==> c in w'.astray.replayed
    ensures ev.SetError? ==> !ev.ok && c in w'.astray.unmarked
    ensures ev.FinishCleanup? ==> c in w.astray.denied || c in w.astray.late
    ensures ev.Finalize? ==> c in w.astray.late
  {
    hide Open, Inv, Ascending;
    assert TaskOk(w, t);
    if ev.Finalize? {
      FinalizeFrees(w, w.sessions[t], ev.host, ev.lease, ev.notBefore, w');
    }
  }

  ghost predicate SettledOn(w: World, host: Endpoint) {
    forall c :: c in w.running && c.host == host ==> Recorded(w, c)
  }

  /**
   Whenever an endpoint's lock is free, every keeper on it has a keeper lease or a
   cleanup mark, if nothing has gone wrong with it since its worker was last asked to start.
   */
  lemma FreeEndpointsAreAccountedFor(run: seq<World>, host: Endpoint)
    requires Handoff.IsRun(run) && Queue(run[|run| - 1].locks, host) == []
    requires forall c :: c in run[|run| - 1].running && c.host == host ==> !Astray(run[|run| - 1], c)
    ensures SettledOn(run[|run| - 1], host)
  {
    RunGood(run);
    var w := run[|run| - 1];
    forall c | c in w.running && c.host == host ensures Recorded(w, c) {
      assert Accounted(w, c);
      if Open(w, c) {
        OpenCardsAreLocked(w, c);
      }
    }
  }

  /**
   A successful confirmation that is no replay leases every one of its cards, each on a
   sighting that shows its worker and under a lease of its own, takes their marks, and
   leaves every other record as it was.
   */
  lemma ConfirmationLeases(w: World, t: TaskId, cards: set<Card>, notBefore: nat, w': World)
    requires Good(w) && ActStep(w, t, Confirm(cards, notBefore, true), w') && cards !! w'.astray.replayed
    ensures forall c :: c in cards ==>
              Kept(w', c) && c !in w'.marks && SeenSince(w, c.host, notBefore) && c in w.sightings[c.host].busy
    ensures forall c, d :: c in cards && HasLease(w', d, w'.leases[c].id) ==> c == d
    ensures w'.leases.Keys == w.leases.Keys + cards && w'.marks == w.marks - cards
    ensures forall c :: c in w.leases ==> w'.leases[c] == w.leases[c]
  {
    hide Inv, Open, TaskOk;
    ActKeepsLeases(w, Confirm(cards, notBefore, true), w');
    forall c, d | c in cards && HasLease(w', d, w'.leases[c].id) ensures c == d {
      assert Kept(w', c);
    }
  }

  /** A successful release that is no replay ends the lease that was read for the card, and only that one. */
  lemma ReleaseEndsTheLease(
    w: World, t: TaskId, c: Card, host: Endpoint, lease: nat, notBefore: nat, w': World)
    requires Good(w) && ActStep(w, t, Finalize(host, lease, notBefore, true), w')
    requires c in w.sessions[t].checked && w.sessions[t].checked[c] == lease && c !in w'.astray.replayed
    ensures HasLease(w, c, lease) && c.host == host && w'.leases == w.leases - {c} && w'.marks == w.marks
    ensures SeenSince(w, host, notBefore) && c !in w.sightings[host].busy
  {
    assert TaskOk(w, t);
    assert Finalized(w, host, lease, notBefore, w');
  }

  /**
   When a claim commits, whatever the helpers answered before, no card it planned has a
   worker that was not started late, and none has a keeper lease, unless its release was
   the replay of an earlier one.
   */
  lemma ClaimFindsItsCardsEmpty(run: seq<World>, t: TaskId, planned: set<Card>, ok: bool, w': World)
    requires Handoff.IsRun(run) && ActStep(run[|run| - 1], t, Claim(planned, ok), w')
    ensures var w := run[|run| - 1];
            && planned * w'.running == planned * w.running <= w.astray.late + w.astray.replayed
            && (forall c :: c in planned && (Kept(w, c) || Kept(w', c)) ==> c in w.astray.replayed)
            && (planned !! w.astray.replayed ==> (planned !! w.running <==> planned !! w.astray.late))
  {
    RunGood(run);
    assert TaskOk(run[|run| - 1], t);
  }

  /** Nobody but the owner of an endpoint's lock starts a worker on it or leases it to a keeper, but for late starts. */
  lemma OnlyTheOwnerStarts(run: seq<World>, w': World, t: TaskId, c: Card)
    requires Handoff.IsRun(run) && Next(run[|run| - 1], w') && InsideTask(run[|run| - 1], t)
    requires c.host in run[|run| - 1].sessions[t].held
    requires t < |w'.locks.tasks| && w'.locks.tasks[t] == run[|run| - 1].locks.tasks[t]
    ensures c in w'.running ==> c in run[|run| - 1].running || (c in run[|run| - 1].pending && c in w'.astray.late)
    ensures Kept(w', c) ==> Kept(run[|run| - 1], c)
  {
    RunGood(run);
    var w := run[|run| - 1];
    if !Environment(w, w') && !Restart(w, w') {
      var u: TaskId :| TaskMoves(w, u, w');
      if exists ev :: ActStep(w, u, ev, w') {
        var ev :| ActStep(w, u, ev, w');
        assert TaskOk(w, u);
        HeldApart(w, t, u);
        ActIsRelied(w, w.sessions[u], ev, w', w.sessions[t].held);
      }
    }
  }

  // ---------------------------------------------------------------------------
  // Progress
  // ---------------------------------------------------------------------------

  lemma MovesAreLockSteps(w: World, t: TaskId, w': World)
    requires TaskMoves(w, t, w')
    ensures TaskStep(w.locks, t, w'.locks) && w'.locks != w.locks
  {}

  ghost predicate WorldStuck(w: World) {
    forall t, w' :: !TaskMoves(w, t, w')
  }

  lemma InsideCanMove(w: World, t: TaskId) returns (w': World)
    requires Good(w) && InsideTask(w, t)
    ensures TaskMoves(w, t, w')
  {
    var task := w.locks.tasks[t];
    w' := w.(clock := w.clock + 1, locks := WithTask(w.locks, t, Leaving(|task.order|)),
             astray := LetGo(w, w.sessions[t].open));
    assert Leave(w.locks, t, w'.locks);
    assert EndStep(w, t, w');
  }

  lemma MoverCanMove(w: World, t: TaskId) returns (w': World)
    requires Good(w) && Enabled(w.locks, t)
    ensures TaskMoves(w, t, w')
  {
    var locks' :| TaskStep(w.locks, t, locks');
    if w.locks.tasks[t].stage.Inside? {
      w' := InsideCanMove(w, t);
    } else {
      w' := w.(clock := w.clock + 1, locks := locks');
      if Enter(w.locks, t, locks') {
        w' := w'.(sessions := w.sessions[t := NewSession(Elements(w.locks.tasks[t].order))]);
        assert BeginStep(w, t, w');
      } else {
        assert LockStep(w, t, w');
      }
    }
  }

  /** Of the running keepers only those have no record with which something has gone wrong. */
  ghost predicate OnlyAstrayUnrecorded(w: World) {
    forall c :: c in w.running && !Recorded(w, c) ==> Astray(w, c)
  }

  /** No reachable world is deadlocked; one with nothing left to do has every lock free and every record it should. */
  lemma StuckWorldIsSettled(run: seq<World>)
    requires Handoff.IsRun(run) && WorldStuck(run[|run| - 1])
    ensures EverythingFree(run[|run| - 1].locks)
    ensures OnlyAstrayUnrecorded(run[|run| - 1])
  {
    RunGood(run);
    var w := run[|run| - 1];
    forall t | Enabled(w.locks, t) ensures false {
      var w' := MoverCanMove(w, t);
    }
    StuckMeansFree(w.locks);
    forall c | c in w.running && !Recorded(w, c) ensures Astray(w, c) {
      assert Accounted(w, c) && !Open(w, c);
    }
  }

  /** Steps that move some task, as against steps of the environment. */
  ghost function Moves(run: seq<World>): nat {
    if |run| <= 1 then 0
    else Moves(run[..|run| - 1]) + if run[|run| - 2].locks != run[|run| - 1].locks then 1 else 0
  }

  /** No task arrives, and the daemon is not restarted. */
  ghost predicate NoArrival(w: World, w': World) {
    (Environment(w, w') && |w'.sessions| == |w.sessions|) || exists t :: TaskMoves(w, t, w')
  }

  lemma MoveUsesBudget(w: World, w': World)
    requires Good(w) && NoArrival(w, w')
    ensures Good(w')
    ensures TotalRemaining(w'.locks.tasks) + (if w.locks != w'.locks then 1 else 0) <= TotalRemaining(w.locks.tasks)
  {
    NextGood(w, w');
    if w.locks != w'.locks {
      var t: TaskId :| TaskMoves(w, t, w');
      MovesAreLockSteps(w, t, w');
      StepDecreases(w.locks, t, w'.locks);
    }
  }

  /** Between arrivals, tasks move at most as often as their budgets and locks allow. */
  lemma {:induction false} MovesAreBounded(run: seq<World>)
    requires run != [] && Good(run[0])
    requires forall i, j {:trigger run[i], run[j]} :: 0 <= i && j == i + 1 < |run| ==> NoArrival(run[i], run[j])
    ensures Good(run[|run| - 1])
    ensures Moves(run) + TotalRemaining(run[|run| - 1].locks.tasks) <= TotalRemaining(run[0].locks.tasks)
  {
    hide Good, NoArrival, TotalRemaining;
    if |run| > 1 {
      var n := |run| - 1;
      var front := run[..n];
      assert forall i, j {:trigger front[i], front[j]} :: 0 <= i && j == i + 1 < |front| ==> NoArrival(run[i], run[j]);
      MovesAreBounded(front);
      MoveUsesBudget(run[n - 1], run[n]);
    }
  }
}
