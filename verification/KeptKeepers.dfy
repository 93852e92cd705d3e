/** Runs in which everything goes well: starts are leased, stops release, claims find their cards empty. */
module KeptKeepers {
  import opened Prelude
  import opened Locks
  import opened Handoff
  import opened HandoffInvariant
  import opened RunBuilding

  /** Nothing has gone wrong with any card. */
  predicate Clean(w: World) {
    w.astray == History({}, {}, {}, {}, {})
  }

  /** A confirmed start is leased: the keeper runs under a lease of its own, and no task holds a lock any more. */
  lemma AConfirmedStartIsLeased(c: Card) returns (run: seq<World>)
    ensures Handoff.IsRun(run) && EverythingFree(Last(run).locks) && Clean(Last(run))
    ensures Last(run).running == {c} && Kept(Last(run), c) && c !in Last(run).marks
  {
    run := StartedAndSeen(c);
    run := Confirms(run, c);
    run := TaskLeaves(run, 0, c.host);
  }

  lemma Confirms(run: seq<World>, c: Card) returns (longer: seq<World>)
    requires Handoff.IsRun(run) && Serving(Last(run), 0, c, 1)
    requires Clean(Last(run)) && Last(run).leases == map[] && Last(run).marks == {} && Last(run).nextLease == 1
    requires Last(run).sessions[0].open == {c} && c.host in Last(run).sessions[0].looked
    requires var stamp := Last(run).sessions[0].stamp; stamp.Some? && SeenSince(Last(run), c.host, stamp.value)
    requires Last(run).sightings[c.host].busy == {c}
    ensures Handoff.IsRun(longer)
    ensures forall e :: Queue(Last(longer).locks, e) == Queue(Last(run).locks, e)
    ensures var w := Last(run);
            Last(longer) == Moved(w, 0, Confirm({c}, w.sessions[0].stamp.value, true)).
                              (leases := map[c := Keeper(1)], nextLease := 2)
    ensures Last(longer).sessions[0].open == {}
  {
    var w := Last(run);
    var ev, tables := Confirm({c}, w.sessions[0].stamp.value, true), w.(leases := map[c := Keeper(1)], nextLease := 2);
    assert Confirmed(w, {c}, ev.notBefore, tables);
    longer := TaskActs(run, 0, ev, tables);
    StaysClean(w, 0, ev, tables);
  }

  /** A confirmation that writes leaves nothing in the history. */
  lemma StaysClean(w: World, t: TaskId, ev: Event, tables: World)
    requires InsideTask(w, t) && w.locks.tasks[t].stage.work > 0 && Clean(w)
    requires ev.Confirm? && ev.ok && Confirmed(w, ev.cards, ev.notBefore, tables)
    ensures Acted(w, t, ev, tables).astray == w.astray
  {
    assert Confirmed(w, ev.cards, ev.notBefore, Acted(w, t, ev, tables));
    HistoryIsOfTables(w, t, ev, tables);
  }

  /** A claim takes a card from its keeper: it is stopped, seen empty and released, and the claim finds it so. */
  lemma AKeeperIsHandedOver(c: Card) returns (run: seq<World>, w': World)
    ensures Handoff.IsRun(run) && ActStep(Last(run), 0, Claim({c}, true), w')
    ensures c in run[0].running && Kept(run[0], c)
    ensures Clean(w') && w'.running == {} && !Kept(w', c)
  {
    RunOfOne(c, map[c := Keeper(0)], {}, {c});
    run := TaskEnters([JustStarted(c, map[c := Keeper(0)], {}, {c})], c.host, 6);
    assert run[0] == JustStarted(c, map[c := Keeper(0)], {}, {c});
    run := TaskReleases(run, 0, c);
    var w := Last(run);
    w' := Acted(w, 0, Claim({c}, true), w);
    HistoryIsOfTables(w, 0, Claim({c}, true), w);
  }

  /** A start that fails without a verified stop leaves a mark, and a later cleanup stops the worker and removes it. */
  lemma AMarkedWorkerIsCleanedUp(c: Card) returns (run: seq<World>)
    ensures Handoff.IsRun(run) && EverythingFree(Last(run).locks) && Clean(Last(run))
    ensures c in run[0].marks && c in run[0].running
    ensures Last(run).running == {} && Last(run).marks == {}
  {
    RunOfOne(c, map[], {c}, {c});
    run := TaskEnters([JustStarted(c, map[], {c}, {c})], c.host, 2);
    run := TaskStops(run, 0, c, 1, {});
    run := TaskCloses(run, 0, c, FinishCleanup({c}));
  }
}
