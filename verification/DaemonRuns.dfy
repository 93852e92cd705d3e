/**
 The daemon's bodies inside the runs of the handoff: a log that one of them leaves is
 a sequence of acting steps of its task, whatever happens in between.
 */
module DaemonRuns {
  import opened Prelude
  import opened Locks
  import opened Handoff
  import opened HandoffInvariant
  import opened HandoffPromises
  import opened Operations
  import opened KeepaliveAdapter
  import Reconcile
  import Reclaim

  function HeldBy(w: World, t: TaskId): set<Endpoint>
    requires t < |w.locks.tasks|
  {
    Elements(w.locks.tasks[t].order)
  }

  /** The task has just entered the body it runs under its locks. */
  ghost predicate Begun(w: World, t: TaskId) {
    InsideTask(w, t) && w.sessions[t] == NewSession(HeldBy(w, t))
  }

  /** A step of somebody else. */
  ghost predicate Untouched(w: World, w': World, t: TaskId) {
    && InsideTask(w, t) && InsideTask(w', t)
    && w'.locks.tasks[t] == w.locks.tasks[t] && w'.sessions[t] == w.sessions[t]
  }

  /** From the moment the task began its body, its own steps in this run are exactly the log. */
  ghost predicate Performs(run: seq<World>, t: TaskId, log: seq<Event>) {
    if |run| <= 1 then run != [] && Begun(run[0], t) && log == []
    else
      var front, w, w' := run[..|run| - 1], run[|run| - 2], run[|run| - 1];
      Next(w, w') &&
      if Untouched(w, w', t) then Performs(front, t, log)
      else log != [] && ActStep(w, t, log[|log| - 1], w') && Performs(front, t, log[..|log| - 1])
  }

  ghost predicate Steps(run: seq<World>) {
    forall i, j {:trigger run[i], run[j]} :: 0 <= i && j == i + 1 < |run| ==> Next(run[i], run[j])
  }

  lemma OthersLeaveItAlone(w: World, w': World, t: TaskId)
    requires Good(w) && InsideTask(w, t) && InsideTask(w', t) && Next(w, w')
    ensures Untouched(w, w', t) || exists ev :: ActStep(w, t, ev, w')
  {
    hide Good, Effect, Allowed, ActHistory, OutsideHistory, Forgets;
    if !Environment(w, w') {
      var u: TaskId :| TaskMoves(w, u, w');
    }
  }

  /** In every run, what a task does between entering its body and leaving it is some log. */
  lemma {:induction false} EveryBodyPerformsALog(run: seq<World>, t: TaskId) returns (log: seq<Event>)
    requires run != [] && Good(run[0]) && Begun(run[0], t) && Steps(run)
    requires forall i :: 0 <= i < |run| ==> InsideTask(run[i], t)
    ensures Good(run[|run| - 1]) && Performs(run, t, log)
  {
    hide Good, Next, Begun, ActStep, Untouched, InsideTask;
    log := [];
    if |run| > 1 {
      var n := |run| - 1;
      var front := run[..n];
      log := EveryBodyPerformsALog(front, t);
      NextGood(run[n - 1], run[n]);
      OthersLeaveItAlone(run[n - 1], run[n], t);
      if !Untouched(run[n - 1], run[n], t) {
        var ev :| ActStep(run[n - 1], t, ev, run[n]);
        log := log + [ev];
        assert log[..|log| - 1] + [ev] == log;
      }
    }
  }

  function WorkLeft(t: Task): nat {
    if t.stage.Inside? then t.stage.work else 0
  }

  /** The session of a task is its log replayed, every event of the log was allowed, and each used up one step. */
  lemma {:induction false} SessionIsItsLogReplayed(run: seq<World>, t: TaskId, log: seq<Event>)
    requires Performs(run, t, log)
    ensures InsideTask(run[0], t) && InsideTask(run[|run| - 1], t)
    ensures var w0, w := run[0], run[|run| - 1];
            && HeldBy(w, t) == HeldBy(w0, t)
            && w.sessions[t] == Replay(NewSession(HeldBy(w0, t)), log)
            && Follows(NewSession(HeldBy(w0, t)), log)
            && WorkLeft(w.locks.tasks[t]) + |log| == WorkLeft(w0.locks.tasks[t])
  {
    hide Next, Effect, Allowed, After;
    if |run| > 1 {
      var n := |run| - 1;
      var front, w, w' := run[..n], run[n - 1], run[n];
      if Untouched(w, w', t) {
        SessionIsItsLogReplayed(front, t, log);
      } else {
        SessionIsItsLogReplayed(front, t, log[..|log| - 1]);
      }
    }
  }

  // ---------------------------------------------------------------------------
  // A finished log
  // ---------------------------------------------------------------------------

  /** What the daemon's bodies are proved to leave: a log within the protocol, with nothing open at its end. */
  ghost predicate Complete(held: set<Endpoint>, log: seq<Event>) {
    Follows(NewSession(held), log) && Replay(NewSession(held), log).open == {}
  }

  /** The task's counter and session, the clock and the history move as they do when it makes the event its next step. */
  ghost predicate TakesStep(w: World, t: TaskId, ev: Event, w': World) {
    && InsideTask(w, t) && Work(w.locks, t, w'.locks)
    && w'.sessions == w.sessions[t := After(w.sessions[t], ev)]
    && w'.clock == w.clock + 1 && w'.present == w.present && w'.unreachable == w.unreachable
    && w'.astray == ActHistory(w, w.sessions[t], ev, w')
  }

  /** Whatever of its effects the next event of a finished log has, it is an acting step. */
  lemma NextEventActs(w: World, t: TaskId, held: set<Endpoint>, log: seq<Event>, k: nat, w': World)
    requires Complete(held, log) && k < |log|
    requires InsideTask(w, t) && w.sessions[t] == Replay(NewSession(held), log[..k])
    requires TakesStep(w, t, log[k], w') && Effect(w, log[k], w')
    ensures ActStep(w, t, log[k], w') && Next(w, w')
    ensures w'.sessions[t] == Replay(NewSession(held), log[..k + 1])
    ensures InsideTask(w', t) && WorkLeft(w'.locks.tasks[t]) == WorkLeft(w.locks.tasks[t]) - 1
  {
    hide Follows, Replay, Effect, Allowed, After, ActHistory;
    EveryEventWasAllowed(NewSession(held), log, k);
    assert w'.sessions[t] == Replay(NewSession(held), log[..k + 1]);
    assert ActStep(w, t, log[k], w');
    assert TaskMoves(w, t, w');
  }

  /** At the end of a finished log the task leaves with nothing let go of, and gives back its locks. */
  lemma FinishedLogCanLeave(w: World, t: TaskId, held: set<Endpoint>, log: seq<Event>) returns (w': World)
    requires Good(w) && InsideTask(w, t) && Complete(held, log)
    requires w.sessions[t] == Replay(NewSession(held), log)
    ensures EndStep(w, t, w') && TaskMoves(w, t, w') && w'.astray == w.astray
  {
    hide Follows, Replay, LeasesOk, TaskOk;
    w' := w.(clock := w.clock + 1, locks := WithTask(w.locks, t, Leaving(|w.locks.tasks[t].order|)));
    assert Leave(w.locks, t, w'.locks);
  }

  /** Worlds that follow a finished log event by event are a run of its task, and it can leave at the end. */
  lemma {:induction false} FinishedLogIsARun(run: seq<World>, t: TaskId, log: seq<Event>, k: nat)
    requires run != [] && Good(run[0]) && Begun(run[0], t) && Complete(HeldBy(run[0], t), log)
    requires WorkLeft(run[0].locks.tasks[t]) >= |log| && k <= |log| && |run| == |log| + 1
    requires forall i :: 0 <= i < |log| ==> TakesStep(run[i], t, log[i], run[i + 1]) && Effect(run[i], log[i], run[i + 1])
    ensures Performs(run[..k + 1], t, log[..k]) && Good(run[k])
    ensures InsideTask(run[k], t) && run[k].sessions[t] == Replay(NewSession(HeldBy(run[0], t)), log[..k])
    ensures WorkLeft(run[k].locks.tasks[t]) == WorkLeft(run[0].locks.tasks[t]) - k
    ensures k == |log| ==> exists w' :: EndStep(run[k], t, w') && TaskMoves(run[k], t, w') && w'.astray == run[k].astray
  {
    hide Good, Next, Effect, Follows, Replay, TakesStep, ActStep, Complete;
    var held := HeldBy(run[0], t);
    if k == 0 {
      ReplayOfNothing(held);
    } else {
      FinishedLogIsARun(run, t, log, k - 1);
      assert TakesStep(run[k - 1], t, log[k - 1], run[k]);
      NextEventActs(run[k - 1], t, held, log, k - 1, run[k]);
      NextGood(run[k - 1], run[k]);
      ActedLast(run, t, log, k);
    }
    if k == |log| {
      assert log[..k] == log;
      var w' := FinishedLogCanLeave(run[k], t, held, log);
    }
  }

  lemma ReplayOfNothing(held: set<Endpoint>)
    ensures Replay(NewSession(held), []) == NewSession(held)
  {}

  lemma ActedLast(run: seq<World>, t: TaskId, log: seq<Event>, k: nat)
    requires 0 < k <= |log| && k < |run| && Performs(run[..k], t, log[..k - 1])
    requires ActStep(run[k - 1], t, log[k - 1], run[k]) && Next(run[k - 1], run[k])
    ensures Performs(run[..k + 1], t, log[..k])
  {
    hide Next, Effect, Allowed, Begun;
    assert run[..k + 1][..k] == run[..k] && log[..k][..k - 1] == log[..k - 1];
  }

  // ---------------------------------------------------------------------------
  // The claim at the end of a reclaim
  // ---------------------------------------------------------------------------

  /** The event a performed log ends with happened in the run, as a step of its task. */
  lemma {:induction false} LastEventHappened(run: seq<World>, t: TaskId, log: seq<Event>) returns (i: nat)
    requires Performs(run, t, log) && log != []
    ensures i + 1 < |run| && ActStep(run[i], t, log[|log| - 1], run[i + 1])
  {
    hide Next, ActStep;
    var n := |run| - 1;
    if Untouched(run[n - 1], run[n], t) {
      i := LastEventHappened(run[..n], t, log);
    } else {
      i := n - 1;
    }
  }

  /**
   In every run in which a task performs a log that ends with a granted claim, no
   planned card had a running keeper when the claim committed, but for late starts, and
   none a keeper lease; a replayed release may leave either.
   */
  lemma ReclaimedCardsAreEmpty(run: seq<World>, b: nat, t: TaskId, log: seq<Event>, planned: set<Card>) returns (i: nat)
    requires Handoff.IsRun(run) && b < |run| && Performs(run[b..], t, log)
    requires log != [] && log[|log| - 1] == Claim(planned, true)
    ensures b <= i < |run| - 1 && ActStep(run[i], t, Claim(planned, true), run[i + 1])
    ensures planned * run[i + 1].running == planned * run[i].running <= run[i].astray.late + run[i].astray.replayed
    ensures forall c :: c in planned && (Kept(run[i], c) || Kept(run[i + 1], c)) ==> c in run[i].astray.replayed
    ensures planned !! run[i].astray.replayed ==> (planned !! run[i].running <==> planned !! run[i].astray.late)
  {
    hide Performs, ActStep, Next, Start;
    var j := LastEventHappened(run[b..], t, log);
    i := b + j;
    var front := run[..i + 1];
    ClaimFindsItsCardsEmpty(front, t, planned, true, run[i + 1]);
  }

  // ---------------------------------------------------------------------------
  // The bodies
  // ---------------------------------------------------------------------------

  lemma ValidIsComplete(op: Operation)
    requires op.Valid() && op.session.open == {}
    ensures Complete(op.held, op.log)
  {
    hide Follows, Replay;
  }

  /** A reconciliation under the endpoint's lock leaves a finished log of this endpoint. */
  method ReconcileTask(endpoint: EndpointConfig, plan: Option<seq<Reconcile.Transition>>, a: Reconcile.PassAnswer)
    returns (outcome: Reconcile.Outcome, log: seq<Event>)
    ensures Complete({endpoint.id}, log)
    ensures plan.Some? ==> Reconcile.PassSoFar([], log, endpoint.id, plan.value)
  {
    hide Follows, Replay, Complete, Reconcile.PassSoFar;
    var op := new Operation({endpoint.id});
    outcome := Reconcile.ReconcileEndpoint(op, endpoint, plan, a);
    ValidIsComplete(op);
    log := op.log;
  }

  /**
   A claim's reclaim leaves a finished log of the endpoints locked for it, which a
   granted claim ends, when the allocator plans among the endpoints the locks were
   chosen from.
   */
  method ReclaimTask(
    pinned: set<Endpoint>, groups: set<string>, endpoints: seq<Reclaim.EndpointRow>,
    plan: Reclaim.Plan, config: Endpoint -> EndpointConfig,
    answers: Endpoint -> Reclaim.ReclaimAnswer, claim: Reclaim.ClaimAnswer)
    returns (outcome: Reclaim.Outcome, want: map<Card, nat>, log: seq<Event>)
    requires forall h :: config(h).id == h
    requires forall row :: row in endpoints && config(row.id).adapterResolves ==> row.hasAdapter
    requires Reclaim.DrawnFrom(plan, endpoints, pinned, groups)
    ensures Complete(Reclaim.ClaimCandidateEndpointIds(pinned, groups, endpoints), log)
    ensures outcome == Reclaim.Claimed ==> log != [] && log[|log| - 1] == Claim(want.Keys, true)
  {
    hide Follows, Replay, Complete;
    var held := Reclaim.ClaimCandidateEndpointIds(pinned, groups, endpoints);
    Reclaim.ChosenLocksCover(endpoints, pinned, groups, config, plan);
    var op := new Operation(held);
    outcome, want := Reclaim.ReclaimKeepaliveForClaim(op, plan, config, answers, claim);
    ValidIsComplete(op);
    log := op.log;
  }
}
