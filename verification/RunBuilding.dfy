/** Building runs step by step, from a world without tasks. */
module RunBuilding {
  import opened Prelude
  import opened Locks
  import opened Handoff
  import opened HandoffInvariant

  function Last(run: seq<World>): World
    requires run != []
  {
    run[|run| - 1]
  }

  /** The card is in the inventory, on an endpoint that answers; the daemon has just started. */
  function JustStarted(c: Card, leases: map<Card, Lease>, marks: set<Card>, running: set<Card>): World {
    World(State(map[], []), [], 0, leases, marks, running, map[], 1, {c}, {}, {}, History({}, {}, {}, {}, {}))
  }

  // ---------------------------------------------------------------------------
  // Building runs
  // ---------------------------------------------------------------------------

  lemma RunOfOne(c: Card, leases: map<Card, Lease>, marks: set<Card>, running: set<Card>)
    requires leases == map[] || leases == map[c := Keeper(0)]
    requires running == {} || (running == {c} && (c in leases || marks == {c}))
    ensures Handoff.IsRun([JustStarted(c, leases, marks, running)])
  {}

  lemma Extended(run: seq<World>, w': World)
    requires Handoff.IsRun(run) && Next(Last(run), w')
    ensures Handoff.IsRun(run + [w'])
  {
    hide Next, Start;
  }

  /** A new task has come to hold the one free lock it wants. */
  function Entered(w: World, h: Endpoint, n: nat): World {
    var t := |w.locks.tasks|;
    w.(clock := w.clock + 4, sessions := w.sessions + [NewSession({h})],
       locks := State(w.locks.queues[h := [t]], w.locks.tasks + [Task([h], n, Inside(n))]))
  }

  lemma TaskEnters(run: seq<World>, h: Endpoint, n: nat) returns (longer: seq<World>)
    requires Handoff.IsRun(run) && Queue(Last(run).locks, h) == []
    ensures Handoff.IsRun(longer) && longer[0] == run[0] && Last(longer) == Entered(Last(run), h, n)
    ensures |Last(run).sessions| == |Last(run).locks.tasks|
  {
    hide Good, Environment, TaskMoves, Next, Start;
    RunGood(run);
    SessionsMatchTasks(Last(run));
    var w1 := Arrives(Last(run), h, n);
    Extended(run, w1);
    var w2, w3 := TakesLock(w1, h, n);
    Extended(run + [w1], w2);
    Extended(run + [w1] + [w2], w3);
    var w4 := Begins(w3, h, n, Last(run));
    longer := run + [w1] + [w2] + [w3] + [w4];
    Extended(run + [w1] + [w2] + [w3], w4);
  }

  lemma SessionsMatchTasks(w: World)
    requires Good(w)
    ensures |w.sessions| == |w.locks.tasks|
  {}

  /** The locks of a world that a last task of one endpoint has joined. */
  function Joined(w: World, queues: map<Endpoint, seq<TaskId>>, h: Endpoint, n: nat, stage: Stage): State {
    State(queues, w.locks.tasks + [Task([h], n, stage)])
  }

  lemma Arrives(w: World, h: Endpoint, n: nat) returns (w': World)
    requires Good(w)
    ensures Next(w, w')
    ensures w' == w.(clock := w.clock + 1, sessions := w.sessions + [NewSession({})],
                     locks := Joined(w, w.locks.queues, h, n, Wanting(0)))
  {
    hide TaskOk, LeasesOk, Inv, Sighted, Accounted;
    assert Ascending([h]);
    w' := w.(clock := w.clock + 1, sessions := w.sessions + [NewSession({})],
             locks := Joined(w, w.locks.queues, h, n, Wanting(0)));
    assert OutsideHistory(w, w') == w.astray;
    assert w'.locks.tasks == w.locks.tasks + [Fresh([h], n)];
    assert Arrive(w.locks, w'.locks);
    assert Environment(w, w');
  }

  lemma TakesLock(w: World, h: Endpoint, n: nat) returns (w1: World, w2: World)
    requires w.locks.tasks != [] && w.locks.tasks[|w.locks.tasks| - 1] == Fresh([h], n) && Queue(w.locks, h) == []
    ensures Next(w, w1) && Next(w1, w2)
    ensures var t := |w.locks.tasks| - 1;
            w2 == w.(clock := w.clock + 2,
                     locks := State(w.locks.queues[h := [t]], w.locks.tasks[t := Task([h], n, Wanting(1))]))
  {
    hide Environment;
    var t := |w.locks.tasks| - 1;
    var queues := w.locks.queues[h := [t]];
    assert Queue(w.locks, h) + [t] == [t];
    w1 := w.(clock := w.clock + 1, locks := State(queues, w.locks.tasks[t := Task([h], n, Queued(0))]));
    assert Ask(w.locks, t, w1.locks) && LockStep(w, t, w1) && TaskMoves(w, t, w1);
    w2 := w.(clock := w.clock + 2, locks := State(queues, w.locks.tasks[t := Task([h], n, Wanting(1))]));
    assert w2.locks.tasks == w1.locks.tasks[t := Task([h], n, Wanting(1))];
    assert Take(w1.locks, t, w2.locks) && LockStep(w1, t, w2) && TaskMoves(w1, t, w2);
  }

  lemma Begins(w: World, h: Endpoint, n: nat, origin: World) returns (w': World)
    requires |origin.sessions| == |origin.locks.tasks|
    requires w == origin.(clock := origin.clock + 3, sessions := origin.sessions + [NewSession({})],
                          locks := Joined(origin, origin.locks.queues[h := [|origin.locks.tasks|]], h, n, Wanting(1)))
    ensures Next(w, w') && w' == Entered(origin, h, n)
  {
    hide Environment;
    var t := |origin.locks.tasks|;
    w' := Entered(origin, h, n);
    assert w'.locks.tasks == w.locks.tasks[t := Task([h], n, Inside(n))];
    assert Elements([h]) == {h};
    assert w'.sessions == w.sessions[t := NewSession({h})];
    assert BeginStep(w, t, w') && TaskMoves(w, t, w');
  }

  /** A task that holds one lock has left and given it back. */
  function Left(w: World, t: TaskId, h: Endpoint): World
    requires t < |w.locks.tasks|
  {
    w.(clock := w.clock + 2,
       locks := State(w.locks.queues[h := []], w.locks.tasks[t := w.locks.tasks[t].(stage := Leaving(0))]))
  }

  lemma TaskLeaves(run: seq<World>, t: TaskId, h: Endpoint) returns (longer: seq<World>)
    requires Handoff.IsRun(run) && InsideTask(Last(run), t) && Last(run).locks.tasks[t].order == [h]
    requires Queue(Last(run).locks, h) == [t] && Last(run).sessions[t].open == {}
    ensures Handoff.IsRun(longer) && longer[0] == run[0] && Last(longer) == Left(Last(run), t, h)
    ensures forall e :: e != h ==> Queue(Last(longer).locks, e) == Queue(Last(run).locks, e)
  {
    var w := Last(run);
    var w1 := w.(clock := w.clock + 1, locks := WithTask(w.locks, t, Leaving(1)));
    assert EndStep(w, t, w1) && TaskMoves(w, t, w1);
    var w2 := Left(w, t, h);
    assert w2.locks.tasks == w1.locks.tasks[t := w.locks.tasks[t].(stage := Leaving(0))];
    assert Dequeued(w1.locks, h) == w2.locks.queues;
    assert LockStep(w1, t, w2) && TaskMoves(w1, t, w2);
    Extended(run, w1);
    longer := run + [w1] + [w2];
    Extended(run + [w1], w2);
  }

  /** The world after a task's event that changes ledger and hosts as `tables` has them. */
  ghost function Acted(w: World, t: TaskId, ev: Event, tables: World): World
    requires InsideTask(w, t) && w.locks.tasks[t].stage.work > 0
  {
    var next := tables.(clock := w.clock + 1,
                        locks := WithTask(w.locks, t, Inside(w.locks.tasks[t].stage.work - 1)),
                        sessions := w.sessions[t := After(w.sessions[t], ev)]);
    next.(astray := ActHistory(w, w.sessions[t], ev, next))
  }

  lemma TaskActs(run: seq<World>, t: TaskId, ev: Event, tables: World) returns (longer: seq<World>)
    requires Handoff.IsRun(run) && InsideTask(Last(run), t) && Last(run).locks.tasks[t].stage.work > 0
    requires tables.present == Last(run).present && tables.unreachable == Last(run).unreachable
    requires Allowed(Last(run).sessions[t], ev) && Effect(Last(run), ev, tables)
    ensures Handoff.IsRun(longer) && longer[0] == run[0] && Last(longer) == Acted(Last(run), t, ev, tables)
  {
    var w := Last(run);
    var w' := Acted(w, t, ev, tables);
    EffectIsOfTables(w, ev, tables, w');
    HistoryIsOfTables(w, t, ev, tables);
    assert ActStep(w, t, ev, w') && TaskMoves(w, t, w');
    Extended(run, w');
    longer := run + [w'];
  }

  lemma EffectIsOfTables(w: World, ev: Event, tables: World, w': World)
    requires Effect(w, ev, tables)
    requires SameLedger(tables, w') && tables.running == w'.running && tables.sightings == w'.sightings
    requires tables.pending == w'.pending
    ensures Effect(w, ev, w')
  {}

  lemma HistoryIsOfTables(w: World, t: TaskId, ev: Event, tables: World)
    requires InsideTask(w, t) && w.locks.tasks[t].stage.work > 0
    ensures var w' := Acted(w, t, ev, tables); w'.astray == ActHistory(w, w.sessions[t], ev, w')
  {
    hide Renews, Replays, AsksToStart, SaysStopped, FailsToMark, Concerned, After;
    var w' := Acted(w, t, ev, tables);
    var bare := w'.(astray := tables.astray);
    HistoryIsNotRead(w, ev, bare, w');
  }

  lemma HistoryIsNotRead(w: World, ev: Event, bare: World, w': World)
    requires w' == bare.(astray := w'.astray)
    ensures Replays(w, ev, bare) == Replays(w, ev, w')
    ensures forall c :: Renews(w, ev, c, bare) == Renews(w, ev, c, w')
  {}

  // ---------------------------------------------------------------------------
  // Events of a task that serves one card
  // ---------------------------------------------------------------------------

  function StartOf(c: Card, reply: Reply): Event {
    Mutate(c.host, true, [c.uuid], reply)
  }

  function StopOf(c: Card, reply: Reply): Event {
    Mutate(c.host, false, [c.uuid], reply)
  }

  /** The helper's exact answer about one card. */
  function ExactAnswer(c: Card, on: bool): Reply {
    Answered(Response(on, [GpuResult(c.uuid, if on then Running else Stopped)]))
  }

  lemma AnswerIsExact(c: Card, on: bool)
    ensures ExactReply(ExactAnswer(c, on), on, [c.uuid]) && Cards(c.host, [c.uuid]) == {c}
  {
    assert Uuids([GpuResult(c.uuid, if on then Running else Stopped)]) == [c.uuid];
  }

  /** The task of a run that has just entered, or acted, with nothing of its lock shared. */
  ghost predicate Serving(w: World, t: TaskId, c: Card, work: nat) {
    && InsideTask(w, t) && w.locks.tasks[t] == Task([c.host], w.locks.tasks[t].budget, Inside(work))
    && Queue(w.locks, c.host) == [t] && w.sessions[t].held == {c.host}
  }

  /** What an event does to everything but the tables. */
  function Moved(w: World, t: TaskId, ev: Event): World
    requires InsideTask(w, t) && w.locks.tasks[t].stage.work > 0
  {
    w.(clock := w.clock + 1,
       locks := WithTask(w.locks, t, Inside(w.locks.tasks[t].stage.work - 1)),
       sessions := w.sessions[t := After(w.sessions[t], ev)])
  }

  lemma TaskStarts(
    run: seq<World>, t: TaskId, c: Card, work: nat, reply: Reply, running: set<Card>, pending: set<Card>)
    returns (longer: seq<World>)
    requires Handoff.IsRun(run) && Serving(Last(run), t, c, work + 1)
    requires Last(run).astray == History({}, {}, {}, {}, {})
    requires Last(run).running <= running <= Last(run).running + {c} && pending <= if reply.NoReply? then {c} else {}
    ensures Handoff.IsRun(longer) && longer[0] == run[0] && Serving(Last(longer), t, c, work)
    ensures Last(longer) == Moved(Last(run), t, StartOf(c, reply)).(running := running, pending := pending)
    ensures Last(longer).sessions[t].open == Last(run).sessions[t].open + {c}
  {
    AnswerIsExact(c, true);
    var w := Last(run);
    longer := TaskActs(run, t, StartOf(c, reply), w.(running := running, pending := pending));
    assert Last(longer).astray == w.astray;
  }

  /** The helper answers that the worker is stopped, whether or not it is. */
  lemma TaskStops(run: seq<World>, t: TaskId, c: Card, work: nat, running: set<Card>) returns (longer: seq<World>)
    requires Handoff.IsRun(run) && Serving(Last(run), t, c, work + 1)
    requires Last(run).running - {c} <= running <= Last(run).running
    requires Last(run).astray == History({}, {}, {}, {}, {}) && Last(run).sessions[t].open <= {c}
    ensures Handoff.IsRun(longer) && longer[0] == run[0] && Serving(Last(longer), t, c, work)
    ensures Last(longer) == Moved(Last(run), t, StopOf(c, ExactAnswer(c, false))).
                              (running := running, astray := History({}, {c} * running, {}, {}, {}))
    ensures Last(longer).sessions[t].open == {} && c in Last(longer).sessions[t].proven
  {
    AnswerIsExact(c, false);
    var w := Last(run);
    longer := TaskActs(run, t, StopOf(c, ExactAnswer(c, false)), w.(running := running));
    assert Last(longer).astray.denied == {c} * running;
  }

  /** Once a stop has been answered exactly, the error is written or the mark removed, and the task leaves. */
  lemma TaskCloses(run: seq<World>, t: TaskId, c: Card, ev: Event) returns (longer: seq<World>)
    requires Handoff.IsRun(run) && Serving(Last(run), t, c, 1)
    requires ev == SetError({c}, false, true) || ev == FinishCleanup({c})
    requires c in Last(run).sessions[t].proven && Last(run).sessions[t].open == {}
    requires Last(run).astray == History({}, Last(run).running, {}, {}, {})
    ensures Handoff.IsRun(longer) && longer[0] == run[0]
    ensures Last(longer) == Left(Moved(Last(run), t, ev), t, c.host).
                              (marks := Last(run).marks - if ev.FinishCleanup? then {c} else {})
  {
    var w := Last(run);
    longer := TaskActs(run, t, ev, w.(marks := w.marks - if ev.FinishCleanup? then {c} else {}));
    assert Last(longer).astray == w.astray;
    longer := TaskLeaves(longer, t, c.host);
  }

  /** The lease is read, the stop answered and the clock read; a collection sees the card empty, and the lease goes. */
  lemma TaskReleases(run: seq<World>, t: TaskId, c: Card) returns (longer: seq<World>)
    requires Handoff.IsRun(run) && Serving(Last(run), t, c, 6) && Last(run).sessions[t] == NewSession({c.host})
    requires Last(run).astray == History({}, {}, {}, {}, {}) && Last(run).running <= {c}
    requires Last(run).leases == map[c := Keeper(0)] && Last(run).marks == {}
    ensures Handoff.IsRun(longer) && longer[0] == run[0] && Serving(Last(longer), t, c, 1)
    ensures c in Last(longer).sessions[t].proven && c in Last(longer).sessions[t].freed && Last(longer).sessions[t].open == {}
    ensures Last(longer).running == {} && Last(longer).leases == map[] && Last(longer).pending == Last(run).pending
    ensures Last(longer).marks == {} && Last(longer).astray == History({}, {}, {}, {}, {})
    ensures forall h :: h != c.host ==> Queue(Last(longer).locks, h) == Queue(Last(run).locks, h)
    ensures |Last(longer).locks.tasks| == |Last(run).locks.tasks|
    ensures forall u :: 0 <= u < |Last(run).locks.tasks| && u != t ==> Last(longer).locks.tasks[u] == Last(run).locks.tasks[u]
  {
    hide Handoff.IsRun;
    longer := TaskReads(run, t, c);
    longer := TaskStops(longer, t, c, 4, {});
    longer := TaskObserves(longer, t, c, 2);
    longer := TaskFinalizes(longer, t, c);
  }

  lemma TaskReads(run: seq<World>, t: TaskId, c: Card) returns (longer: seq<World>)
    requires Handoff.IsRun(run) && Serving(Last(run), t, c, 6)
    requires Last(run).astray == History({}, {}, {}, {}, {}) && HasLease(Last(run), c, 0)
    ensures Handoff.IsRun(longer) && longer[0] == run[0] && Serving(Last(longer), t, c, 5)
    ensures Last(longer) == Moved(Last(run), t, Prepare(c, Some(0)))
  {
    longer := TaskActs(run, t, Prepare(c, Some(0)), Last(run));
    assert Last(longer).astray == Last(run).astray;
  }

  /** The clock is read, and a collection after it shows what runs. */
  lemma TaskObserves(run: seq<World>, t: TaskId, c: Card, work: nat) returns (longer: seq<World>)
    requires Handoff.IsRun(run) && Serving(Last(run), t, c, work + 2)
    requires Last(run).astray == History({}, {}, {}, {}, {})
    ensures Handoff.IsRun(longer) && longer[0] == run[0] && Serving(Last(longer), t, c, work)
    ensures var w := Last(run);
            Last(longer) == Moved(Moved(w, t, ReadClock(w.clock)), t, Collect(c.host)).
                              (sightings := w.sightings[c.host := Sighting(w.clock + 1, w.running)])
  {
    var w := Last(run);
    longer := TaskActs(run, t, ReadClock(w.clock), w);
    assert Last(longer).astray == w.astray;
    var w1 := Last(longer);
    var w2 := w1.(sightings := w.sightings[c.host := Sighting(w1.clock, w.running)]);
    assert Observed(w1, c.host, w2);
    longer := TaskActs(longer, t, Collect(c.host), w2);
    assert Last(longer).astray == w.astray;
  }

  lemma TaskFinalizes(run: seq<World>, t: TaskId, c: Card) returns (longer: seq<World>)
    requires Handoff.IsRun(run) && Serving(Last(run), t, c, 2) && Last(run).leases == map[c := Keeper(0)]
    requires Last(run).astray == History({}, {}, {}, {}, {}) && Last(run).running == {}
    requires Last(run).sessions[t].stamp.Some? && SeenSince(Last(run), c.host, Last(run).sessions[t].stamp.value)
    requires Last(run).sightings[c.host].busy == {} && Last(run).sessions[t].checked == map[c := 0]
    requires c.host in Last(run).sessions[t].looked
    ensures Handoff.IsRun(longer) && longer[0] == run[0] && Serving(Last(longer), t, c, 1)
    ensures var w := Last(run);
            Last(longer) == Moved(w, t, Finalize(c.host, 0, w.sessions[t].stamp.value, true)).(leases := map[])
    ensures c in Last(longer).sessions[t].freed
  {
    var w := Last(run);
    var ev, w' := Finalize(c.host, 0, w.sessions[t].stamp.value, true), w.(leases := map[]);
    assert w.leases - {c} == w'.leases;
    assert HasLease(w, c, 0) && Finalized(w, c.host, 0, w.sessions[t].stamp.value, w');
    longer := TaskActs(run, t, ev, w');
    EffectIsOfTables(w, ev, w', Last(longer));
    assert Last(longer).astray == w.astray;
  }

  /** A task starts the card's worker, gets an exact answer, and then sees the worker in a collection. */
  lemma StartedAndSeen(c: Card) returns (run: seq<World>)
    ensures Handoff.IsRun(run) && Serving(Last(run), 0, c, 1) && |Last(run).locks.tasks| == 1
    ensures forall h :: h != c.host ==> Queue(Last(run).locks, h) == []
    ensures var w := Last(run);
            && w.leases == map[] && w.marks == {} && w.running == {c} && w.nextLease == 1
            && w.present == {c} && w.unreachable == {} && w.astray == History({}, {}, {}, {}, {})
            && w.sessions[0].open == {c} && c.host in w.sessions[0].looked
            && w.sessions[0].stamp.Some? && SeenSince(w, c.host, w.sessions[0].stamp.value)
            && w.sightings[c.host].busy == {c}
  {
    hide Next, Start;
    RunOfOne(c, map[], {}, {});
    run := TaskEnters([JustStarted(c, map[], {}, {})], c.host, 4);
    run := TaskStarts(run, 0, c, 3, ExactAnswer(c, true), {c}, {});
    run := TaskObserves(run, 0, c, 1);
  }
}
