/**
 Runs in which a keeper is lost: one for each thing that can go wrong with a card
 without the daemon noticing.
 */
module LostKeepers {
  import opened Prelude
  import opened Locks
  import opened Handoff
  import opened HandoffInvariant
  import opened RunBuilding

  /** Every lock is free, and the card's keeper runs in plain sight of the daemon, which has no record of it. */
  ghost predicate Lost(w: World, c: Card) {
    EverythingFree(w.locks) && c in w.running && !Recorded(w, c) && Reachable(w, c)
  }

  /** The card leaves the inventory while its keeper runs, and takes its lease with it. */
  lemma ADepartedKeeperIsUnrecorded(c: Card) returns (run: seq<World>)
    ensures Handoff.IsRun(run) && EverythingFree(Last(run).locks)
    ensures c in Last(run).running && !Recorded(Last(run), c) && c in Last(run).astray.dropped
  {
    var w := JustStarted(c, map[c := Keeper(0)], {}, {c});
    var w' := w.(clock := 1, leases := map[], present := {}, astray := w.astray.(dropped := {c}));
    assert OutsideHistory(w, w') == w'.astray;
    assert Environment(w, w');
    run := [w, w'];
  }

  /**
   A start fails without an answer and the stop that follows is answered exactly, so the
   error is written without a mark. Either the start has left a worker that the helper
   holds no identity for, or it has yet to act.
   */
  lemma FailedStart(c: Card, leases: map<Card, Lease>, pending: bool) returns (run: seq<World>)
    requires leases == map[] || leases == map[c := Keeper(0)]
    ensures Handoff.IsRun(run) && EverythingFree(Last(run).locks)
    ensures var w := Last(run);
            && w.leases == leases && w.marks == {} && w.sightings == map[]
            && w.running == (if pending then {} else {c}) && w.pending == (if pending then {c} else {})
            && w.present == {c} && w.unreachable == {}
            && w.astray == History({}, w.running, {}, {}, {})
  {
    hide Next, Start;
    RunOfOne(c, leases, {}, {});
    var entered := TaskEnters([JustStarted(c, leases, {}, {})], c.host, 3);
    var started := TaskStarts(entered, 0, c, 2, NoReply, if pending then {} else {c}, if pending then {c} else {});
    var stopped := TaskStops(started, 0, c, 1, if pending then {} else {c});
    run := TaskCloses(stopped, 0, c, SetError({c}, false, true));
  }

  /** The start's worker runs, and the helper, which holds no identity for it, says that it is stopped. */
  lemma ADeniedStartIsLost(c: Card) returns (run: seq<World>)
    ensures Handoff.IsRun(run) && Lost(Last(run), c) && c in Last(run).astray.denied
  {
    run := FailedStart(c, map[], false);
  }

  lemma StartsLate(run: seq<World>, c: Card) returns (longer: seq<World>)
    requires Handoff.IsRun(run) && Last(run).running == {} && Last(run).pending == {c}
    requires Last(run).astray == History({}, {}, {}, {}, {})
    ensures Handoff.IsRun(longer)
    ensures Last(longer) == Last(run).(clock := Last(run).clock + 1, running := {c}, pending := {},
                                       astray := History({}, {}, {c}, {}, {}))
  {
    var w := Last(run);
    var w' := w.(clock := w.clock + 1, running := {c}, pending := {}, astray := History({}, {}, {c}, {}, {}));
    assert OutsideHistory(w, w') == w'.astray;
    assert Environment(w, w');
    Extended(run, w');
    longer := run + [w'];
  }

  /** The start acts only after its stop. */
  lemma ALateStartIsLost(c: Card) returns (run: seq<World>)
    ensures Handoff.IsRun(run) && Lost(Last(run), c) && c in Last(run).astray.late
  {
    run := FailedStart(c, map[], true);
    run := StartsLate(run, c);
  }

  /**
   A marked worker is stopped through another account than the one it was started from,
   whose helper knows nothing of it; the mark is removed and the worker runs on.
   */
  lemma AFinishedCleanupIsLost(c: Card) returns (run: seq<World>)
    ensures Handoff.IsRun(run) && Lost(Last(run), c) && c in Last(run).astray.denied
  {
    RunOfOne(c, map[], {c}, {c});
    run := TaskEnters([JustStarted(c, map[], {c}, {c})], c.host, 2);
    run := TaskStops(run, 0, c, 1, {c});
    run := TaskCloses(run, 0, c, FinishCleanup({c}));
  }

  /** Neither the start nor its stop is answered, and the mark that would remember it cannot be written. */
  lemma AnUnwrittenMarkIsLost(c: Card) returns (run: seq<World>)
    ensures Handoff.IsRun(run) && Lost(Last(run), c) && c in Last(run).astray.unmarked
  {
    RunOfOne(c, map[], {}, {});
    run := TaskEnters([JustStarted(c, map[], {}, {})], c.host, 2);
    run := TaskStarts(run, 0, c, 1, NoReply, {c}, {});
    run := MarkFails(run, 0, c);
    run := TaskLeaves(run, 0, c.host);
  }

  /** The start's confirmation is answered with the result of an earlier one, and nothing is written. */
  lemma AReplayedConfirmationIsLost(c: Card) returns (run: seq<World>)
    ensures Handoff.IsRun(run) && Lost(Last(run), c) && c in Last(run).astray.replayed
  {
    run := StartedAndSeen(c);
    run := ConfirmationReplays(run, 0, c);
    run := TaskLeaves(run, 0, c.host);
  }

  lemma ConfirmationReplays(run: seq<World>, t: TaskId, c: Card) returns (longer: seq<World>)
    requires Handoff.IsRun(run) && Serving(Last(run), t, c, 1) && Last(run).sessions[t].open == {c}
    requires Last(run).astray == History({}, {}, {}, {}, {}) && Last(run).leases == map[]
    requires Last(run).sessions[t].stamp.Some? && c.host in Last(run).sessions[t].looked
    ensures Handoff.IsRun(longer)
    ensures forall e :: Queue(Last(longer).locks, e) == Queue(Last(run).locks, e)
    ensures var w := Last(run);
            Last(longer) == Moved(w, t, Confirm({c}, w.sessions[t].stamp.value, true)).
                              (astray := History({}, {}, {}, {c}, {}))
    ensures Last(longer).sessions[t].open == {}
  {
    var w := Last(run);
    longer := TaskActs(run, t, Confirm({c}, w.sessions[t].stamp.value, true), w);
    assert Last(longer).astray.replayed == {c};
  }

  /** The daemon is restarted after the start, before its answer. */
  lemma AnAbandonedStartIsLost(c: Card) returns (run: seq<World>)
    ensures Handoff.IsRun(run) && Lost(Last(run), c) && c in Last(run).astray.unmarked
  {
    RunOfOne(c, map[], {}, {});
    run := TaskEnters([JustStarted(c, map[], {}, {})], c.host, 2);
    run := TaskStarts(run, 0, c, 1, NoReply, {c}, {});
    var w := Last(run);
    assert Open(w, c);
    var w' := w.(clock := w.clock + 1, locks := State(map[], []), sessions := [],
                 astray := LetGo(w, set d | d in w.running && Open(w, d)));
    assert Restart(w, w');
    Extended(run, w');
    run := run + [w'];
  }

  lemma MarkFails(run: seq<World>, t: TaskId, c: Card) returns (longer: seq<World>)
    requires Handoff.IsRun(run) && Serving(Last(run), t, c, 1) && Last(run).sessions[t].open == {c}
    requires Last(run).astray == History({}, {}, {}, {}, {}) && Last(run).running == {c} && Last(run).marks == {}
    ensures Handoff.IsRun(longer)
    ensures Last(longer) == Moved(Last(run), t, SetError({c}, true, false)).(astray := History({}, {}, {}, {}, {c}))
    ensures Last(longer).sessions[t].open == {}
  {
    longer := TaskActs(run, t, SetError({c}, true, false), Last(run));
    assert Last(longer).astray.unmarked == {c};
  }

  /**
   A claim is granted although the card it planned runs a keeper: a start that was given
   up on before, and whose card has since been stopped and seen empty, acts just before.
   */
  lemma ALateStartMeetsAClaim(c: Card) returns (run: seq<World>, t: TaskId, w': World)
    ensures Handoff.IsRun(run) && ActStep(Last(run), t, Claim({c}, true), w')
    ensures c in Last(run).running && c in w'.running && c in Last(run).astray.late
    ensures !Kept(Last(run), c)
  {
    run := FailedStart(c, map[c := Keeper(0)], true);
    t := |Last(run).locks.tasks|;
    run := TaskEnters(run, c.host, 6);
    run := TaskReleases(run, t, c);
    run := StartsLate(run, c);
    var w := Last(run);
    w' := Acted(w, t, Claim({c}, true), w);
    HistoryIsOfTables(w, t, Claim({c}, true), w);
  }
}
