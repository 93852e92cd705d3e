/**
 The per-endpoint locks of the daemon, and every task that takes them.

 A task takes the locks of a set of endpoints in ascending order, runs its body
 while it holds all of them, and gives them back in descending order. A lock is
 fair and not re-entrant: it is a queue of tasks whose head owns it. Endpoint ids
 are numbered in their sort order.
 */
module Locks {
  import opened Prelude

  type Endpoint = nat
  type TaskId = nat

  datatype Stage =
    | Wanting(next: nat)   // owns order[..next], about to ask for order[next]
    | Queued(next: nat)    // owns order[..next], in line for order[next]
    | Inside(work: nat)    // owns everything; at most `work` body steps remain
    | Leaving(left: nat)   // owns order[..left], gives back order[left - 1] next

  datatype Task = Task(order: seq<Endpoint>, budget: nat, stage: Stage)

  datatype State = State(queues: map<Endpoint, seq<TaskId>>, tasks: seq<Task>)

  function Queue(s: State, e: Endpoint): seq<TaskId> {
    if e in s.queues then s.queues[e] else []
  }

  /** How many locks of its order a task owns, not counting one it queues for. */
  function Owned(t: Task): nat {
    match t.stage
    case Wanting(k) => k
    case Queued(k) => k
    case Inside(_) => |t.order|
    case Leaving(k) => k
  }

  ghost predicate Owns(t: Task, e: Endpoint) {
    Owned(t) <= |t.order| && e in t.order[..Owned(t)]
  }

  predicate InLineFor(t: Task, e: Endpoint) {
    t.stage.Queued? && t.stage.next < |t.order| && t.order[t.stage.next] == e
  }

  predicate Finished(t: Task) {
    t.stage == Leaving(0)
  }

  ghost predicate Ascending(order: seq<Endpoint>) {
    forall i, j :: 0 <= i < j < |order| ==> order[i] < order[j]
  }

  ghost predicate WellFormed(t: Task) {
    && Ascending(t.order)
    && Owned(t) <= |t.order|
    && (t.stage.Queued? ==> t.stage.next < |t.order|)
  }

  function Fresh(order: seq<Endpoint>, budget: nat): Task {
    Task(order, budget, Wanting(0))
  }

  // ---------------------------------------------------------------------------
  // Steps of one task
  // ---------------------------------------------------------------------------

  function WithTask(s: State, t: TaskId, stage: Stage): State
    requires t < |s.tasks|
  {
    s.(tasks := s.tasks[t := s.tasks[t].(stage := stage)])
  }

  function Enqueued(s: State, e: Endpoint, t: TaskId): map<Endpoint, seq<TaskId>> {
    s.queues[e := Queue(s, e) + [t]]
  }

  function Dequeued(s: State, e: Endpoint): map<Endpoint, seq<TaskId>>
    requires Queue(s, e) != []
  {
    s.queues[e := Queue(s, e)[1..]]
  }

  predicate AtHead(q: seq<TaskId>, t: TaskId) {
    q != [] && q[0] == t
  }

  ghost predicate Ask(s: State, t: TaskId, s': State)
    requires t < |s.tasks|
  {
    var task := s.tasks[t];
    && task.stage.Wanting? && task.stage.next < |task.order|
    && s' == WithTask(s, t, Queued(task.stage.next)).
               (queues := Enqueued(s, task.order[task.stage.next], t))
  }

  ghost predicate Take(s: State, t: TaskId, s': State)
    requires t < |s.tasks|
  {
    var task := s.tasks[t];
    && task.stage.Queued? && task.stage.next < |task.order|
    && AtHead(Queue(s, task.order[task.stage.next]), t)
    && s' == WithTask(s, t, Wanting(task.stage.next + 1))
  }

  ghost predicate Enter(s: State, t: TaskId, s': State)
    requires t < |s.tasks|
  {
    var task := s.tasks[t];
    && task.stage == Wanting(|task.order|)
    && s' == WithTask(s, t, Inside(task.budget))
  }

  ghost predicate Work(s: State, t: TaskId, s': State)
    requires t < |s.tasks|
  {
    var task := s.tasks[t];
    && task.stage.Inside? && task.stage.work > 0
    && s' == WithTask(s, t, Inside(task.stage.work - 1))
  }

  ghost predicate Leave(s: State, t: TaskId, s': State)
    requires t < |s.tasks|
  {
    s.tasks[t].stage.Inside? && s' == WithTask(s, t, Leaving(|s.tasks[t].order|))
  }

  ghost predicate GiveBack(s: State, t: TaskId, s': State)
    requires t < |s.tasks|
  {
    var task := s.tasks[t];
    && task.stage.Leaving? && 0 < task.stage.left <= |task.order|
    && AtHead(Queue(s, task.order[task.stage.left - 1]), t)
    && s' == WithTask(s, t, Leaving(task.stage.left - 1)).
               (queues := Dequeued(s, task.order[task.stage.left - 1]))
  }

  ghost predicate TaskStep(s: State, t: TaskId, s': State) {
    && t < |s.tasks|
    && (Ask(s, t, s') || Take(s, t, s') || Enter(s, t, s') || Work(s, t, s') || Leave(s, t, s') || GiveBack(s, t, s'))
  }

  /** A new task shows up. */
  ghost predicate Arrive(s: State, s': State) {
    exists order, budget :: Ascending(order) && s' == s.(tasks := s.tasks + [Fresh(order, budget)])
  }

  // ---------------------------------------------------------------------------
  // The invariant of every run
  // ---------------------------------------------------------------------------

  ghost predicate LineOk(s: State, e: Endpoint) {
    var q := Queue(s, e);
    && Distinct(q)
    && (forall t :: t in q ==> t < |s.tasks| && (Owns(s.tasks[t], e) || InLineFor(s.tasks[t], e)))
    && (forall t: TaskId :: t < |s.tasks| && InLineFor(s.tasks[t], e) ==> t in q)
    && (forall t: TaskId :: t < |s.tasks| && Owns(s.tasks[t], e) ==> AtHead(q, t))
  }

  ghost predicate AllWellFormed(tasks: seq<Task>) {
    forall t {:trigger tasks[t]} :: 0 <= t < |tasks| ==> WellFormed(tasks[t])
  }

  ghost predicate Inv(s: State) {
    && AllWellFormed(s.tasks)
    && (forall e: Endpoint :: LineOk(s, e))
  }

  lemma InitInv()
    ensures Inv(State(map[], []))
  {}

  lemma OwnsAfter(order: seq<Endpoint>, k: nat)
    requires Ascending(order) && k < |order|
    ensures forall e :: e in order[..k + 1] <==> e in order[..k] || e == order[k]
    ensures order[k] !in order[..k]
  {
    assert order[..k + 1] == order[..k] + [order[k]];
  }

  /** A queue that stays as it is still fits when the one task that moved stands in it as before. */
  lemma SameLineOk(s: State, t: TaskId, s': State, e: Endpoint)
    requires t < |s.tasks| && |s'.tasks| == |s.tasks| && LineOk(s, e) && Queue(s', e) == Queue(s, e)
    requires forall u :: 0 <= u < |s.tasks| && u != t ==> s'.tasks[u] == s.tasks[u]
    requires Owns(s.tasks[t], e) || InLineFor(s.tasks[t], e) <==> Owns(s'.tasks[t], e) || InLineFor(s'.tasks[t], e)
    requires Owns(s'.tasks[t], e) ==> Owns(s.tasks[t], e) || AtHead(Queue(s, e), t)
    requires InLineFor(s'.tasks[t], e) ==> InLineFor(s.tasks[t], e)
    ensures LineOk(s', e)
  {
    hide Owns, InLineFor, Queue, Distinct;
  }

  /** The task that asks stands behind everybody else. */
  lemma LongerLineOk(s: State, t: TaskId, s': State, e: Endpoint)
    requires t < |s.tasks| && |s'.tasks| == |s.tasks| && LineOk(s, e) && Queue(s', e) == Queue(s, e) + [t]
    requires forall u :: 0 <= u < |s.tasks| && u != t ==> s'.tasks[u] == s.tasks[u]
    requires !Owns(s.tasks[t], e) && !InLineFor(s.tasks[t], e)
    requires !Owns(s'.tasks[t], e) && InLineFor(s'.tasks[t], e)
    ensures LineOk(s', e)
  {
    hide Owns, InLineFor, Queue;
    assert t !in Queue(s, e);
    assert Queue(s', e)[|Queue(s, e)|] == t;
  }

  lemma StepKinds(s: State, t: TaskId, s': State)
    requires TaskStep(s, t, s')
    ensures t < |s.tasks|
    ensures Ask(s, t, s') || Take(s, t, s') || GiveBack(s, t, s') || Enter(s, t, s') || Work(s, t, s') || Leave(s, t, s')
  {}

  /** Entering, working and starting to leave move nobody in any queue. */
  lemma StayInv(s: State, t: TaskId, s': State)
    requires Inv(s) && t < |s.tasks| && (Enter(s, t, s') || Work(s, t, s') || Leave(s, t, s'))
    ensures Inv(s')
  {
    hide LineOk;
    forall e: Endpoint ensures LineOk(s', e) {
      assert LineOk(s, e);
      SameLineOk(s, t, s', e);
    }
  }

  lemma TakeInv(s: State, t: TaskId, s': State)
    requires Inv(s) && t < |s.tasks| && Take(s, t, s')
    ensures Inv(s')
  {
    hide LineOk;
    OwnsAfter(s.tasks[t].order, s.tasks[t].stage.next);
    forall e: Endpoint ensures LineOk(s', e) {
      assert LineOk(s, e);
      SameLineOk(s, t, s', e);
    }
  }

  lemma AskInv(s: State, t: TaskId, s': State)
    requires Inv(s) && t < |s.tasks| && Ask(s, t, s')
    ensures Inv(s')
  {
    hide LineOk;
    var task := s.tasks[t];
    OwnsAfter(task.order, task.stage.next);
    forall e: Endpoint ensures LineOk(s', e) {
      assert LineOk(s, e);
      if e == task.order[task.stage.next] {
        LongerLineOk(s, t, s', e);
      } else {
        SameLineOk(s, t, s', e);
      }
    }
  }

  lemma GiveBackInv(s: State, t: TaskId, s': State)
    requires Inv(s) && t < |s.tasks| && GiveBack(s, t, s')
    ensures Inv(s')
  {
    hide LineOk;
    var task := s.tasks[t];
    var k := task.stage.left - 1;
    OwnsAfter(task.order, k);
    forall e: Endpoint ensures LineOk(s', e) {
      assert LineOk(s, e);
      if e == task.order[k] {
        ReleasedLineOk(s, t, s', e);
      } else {
        SameLineOk(s, t, s', e);
      }
    }
  }

  lemma ReleasedLineOk(s: State, t: TaskId, s': State, e: Endpoint)
    requires t < |s.tasks| && |s'.tasks| == |s.tasks| && LineOk(s, e)
    requires Queue(s, e) != [] && Queue(s, e)[0] == t && Queue(s', e) == Queue(s, e)[1..]
    requires Owns(s.tasks[t], e) && !Owns(s'.tasks[t], e)
    requires !InLineFor(s.tasks[t], e) && !InLineFor(s'.tasks[t], e)
    requires forall u :: 0 <= u < |s.tasks| && u != t ==> s'.tasks[u] == s.tasks[u]
    ensures LineOk(s', e)
  {
    var q, q' := Queue(s, e), Queue(s', e);
    assert q == [t] + q';
    assert forall u :: u in q' ==> u in q && u != t;
    assert forall u :: u in q && u != t ==> u in q';
  }

  lemma StepInv(s: State, t: TaskId, s': State)
    requires Inv(s) && TaskStep(s, t, s')
    ensures Inv(s')
  {
    hide Inv, TaskStep, Ask, Take, Enter, Work, Leave, GiveBack;
    StepKinds(s, t, s');
    if Ask(s, t, s') {
      AskInv(s, t, s');
    } else if Take(s, t, s') {
      TakeInv(s, t, s');
    } else if GiveBack(s, t, s') {
      GiveBackInv(s, t, s');
    } else {
      StayInv(s, t, s');
    }
  }

  lemma ArriveInv(s: State, s': State)
    requires Inv(s) && Arrive(s, s')
    ensures Inv(s')
  {
    forall e: Endpoint ensures LineOk(s', e) {
      assert LineOk(s, e);
    }
  }

  /** Two tasks never own the same lock. */
  lemma MutualExclusion(s: State, t: TaskId, u: TaskId, e: Endpoint)
    requires Inv(s) && t < |s.tasks| && u < |s.tasks|
    requires Owns(s.tasks[t], e) && Owns(s.tasks[u], e)
    ensures t == u
  {
    assert LineOk(s, e);
  }

  // ---------------------------------------------------------------------------
  // No deadlock
  // ---------------------------------------------------------------------------

  ghost predicate Enabled(s: State, t: TaskId) {
    exists s' :: TaskStep(s, t, s')
  }

  /** A task that is not finished and not behind somebody else can move. */
  lemma CanMove(s: State, t: TaskId)
    requires Inv(s) && t < |s.tasks| && !Finished(s.tasks[t])
    requires s.tasks[t].stage.Queued? ==> AtHead(Queue(s, s.tasks[t].order[s.tasks[t].stage.next]), t)
    ensures Enabled(s, t)
  {
    var task := s.tasks[t];
    match task.stage
    case Wanting(k) =>
      if k < |task.order| {
        var s' := WithTask(s, t, Queued(k)).(queues := Enqueued(s, task.order[k], t));
        assert Ask(s, t, s') && TaskStep(s, t, s');
      } else {
        var s' := WithTask(s, t, Inside(task.budget));
        assert Enter(s, t, s') && TaskStep(s, t, s');
      }
    case Queued(k) =>
      var s' := WithTask(s, t, Wanting(k + 1));
      assert Take(s, t, s') && TaskStep(s, t, s');
    case Inside(_) =>
      var s' := WithTask(s, t, Leaving(|task.order|));
      assert Leave(s, t, s') && TaskStep(s, t, s');
    case Leaving(k) =>
      var e := task.order[k - 1];
      assert LineOk(s, e) && Owns(task, e);
      var s' := WithTask(s, t, Leaving(k - 1)).(queues := Dequeued(s, e));
      assert GiveBack(s, t, s') && TaskStep(s, t, s');
  }

  lemma OwnedIsLower(order: seq<Endpoint>, k: nat, e: Endpoint)
    requires Ascending(order) && k < |order| && e in order[..k]
    ensures e < order[k] && order[k] in order
  {
    var i :| 0 <= i < k && order[..k][i] == e;
    assert order[i] == e;
  }

  function Ceiling(tasks: seq<Task>): (top: nat)
    ensures forall t, e :: 0 <= t < |tasks| && e in tasks[t].order ==> e < top
  {
    if tasks == [] then 0
    else
      var rest := Ceiling(tasks[..|tasks| - 1]);
      var here := OrderCeiling(tasks[|tasks| - 1].order);
      if rest < here then here else rest
  }

  function OrderCeiling(order: seq<Endpoint>): (top: nat)
    ensures forall e :: e in order ==> e < top
  {
    if order == [] then 0
    else
      var rest := OrderCeiling(order[1..]);
      assert forall e :: e in order ==> e == order[0] || e in order[1..];
      if rest <= order[0] then order[0] + 1 else rest
  }

  /** Follow "waits for the owner of" from t: it climbs in the order, so it ends. */
  lemma {:induction false} SomeoneCanMove(s: State, t: TaskId) returns (u: TaskId)
    requires Inv(s) && t < |s.tasks| && !Finished(s.tasks[t])
    ensures u < |s.tasks| && Enabled(s, u)
    decreases Ceiling(s.tasks) -
              (if s.tasks[t].stage.Queued? then s.tasks[t].order[s.tasks[t].stage.next] else Ceiling(s.tasks))
  {
    var task := s.tasks[t];
    if !task.stage.Queued? {
      CanMove(s, t);
      u := t;
    } else {
      var e := task.order[task.stage.next];
      assert e in task.order && e < Ceiling(s.tasks);
      assert LineOk(s, e) && InLineFor(task, e);
      var h := Queue(s, e)[0];
      assert h in Queue(s, e);
      var owner := s.tasks[h];
      if InLineFor(owner, e) {
        CanMove(s, h);
        u := h;
      } else {
        assert Owns(owner, e);
        if owner.stage.Queued? {
          OwnedIsLower(owner.order, owner.stage.next, e);
        }
        u := SomeoneCanMove(s, h);
      }
    }
  }

  // ---------------------------------------------------------------------------
  // Every run ends, with every lock free
  // ---------------------------------------------------------------------------

  function Remaining(t: Task): nat
    requires WellFormed(t)
  {
    var n := |t.order|;
    match t.stage
    case Wanting(k) => n + 2 + t.budget + 2 * (n - k)
    case Queued(k) => n + 1 + t.budget + 2 * (n - k)
    case Inside(w) => n + 1 + w
    case Leaving(k) => k
  }

  function TotalRemaining(tasks: seq<Task>): nat
    requires AllWellFormed(tasks)
  {
    if tasks == [] then 0
    else TotalRemaining(tasks[..|tasks| - 1]) + Remaining(tasks[|tasks| - 1])
  }

  lemma {:induction false} TotalUpdate(tasks: seq<Task>, t: nat, task: Task)
    requires AllWellFormed(tasks)
    requires t < |tasks| && WellFormed(task)
    ensures TotalRemaining(tasks[t := task]) + Remaining(tasks[t]) == TotalRemaining(tasks) + Remaining(task)
  {
    var last := |tasks| - 1;
    if t == last {
      assert tasks[t := task][..last] == tasks[..last];
    } else {
      TotalUpdate(tasks[..last], t, task);
      assert tasks[t := task][..last] == tasks[..last][t := task];
    }
  }

  /** Every step of every task uses up a little of what remains. */
  lemma StepDecreases(s: State, t: TaskId, s': State)
    requires Inv(s) && TaskStep(s, t, s')
    ensures Inv(s') && TotalRemaining(s'.tasks) < TotalRemaining(s.tasks)
  {
    StepInv(s, t, s');
    assert s'.tasks == s.tasks[t := s'.tasks[t]];
    TotalUpdate(s.tasks, t, s'.tasks[t]);
  }

  ghost predicate SomeStep(s: State, s': State) {
    exists t :: TaskStep(s, t, s')
  }

  ghost predicate IsRun(run: seq<State>) {
    run != [] && forall i :: 0 <= i < |run| - 1 ==> SomeStep(run[i], run[i + 1])
  }

  lemma {:induction false} RunIsBounded(run: seq<State>)
    requires IsRun(run) && Inv(run[0])
    ensures Inv(run[|run| - 1])
    ensures TotalRemaining(run[|run| - 1].tasks) + |run| - 1 <= TotalRemaining(run[0].tasks)
  {
    if |run| > 1 {
      RunIsBounded(run[..|run| - 1]);
      var s, s' := run[|run| - 2], run[|run| - 2 + 1];
      assert SomeStep(s, s');
      var t :| TaskStep(s, t, s');
      StepDecreases(s, t, s');
    }
  }

  ghost predicate Stuck(s: State) {
    forall t :: !Enabled(s, t)
  }

  ghost predicate EverythingFree(s: State) {
    && (forall t {:trigger s.tasks[t]} :: 0 <= t < |s.tasks| ==> Finished(s.tasks[t]))
    && (forall e: Endpoint :: Queue(s, e) == [])
  }

  lemma HeadStandsInLine(q: seq<TaskId>)
    requires q != []
    ensures q[0] in q
  {}

  /** No deadlock: a state where no task can move is one where all have finished. */
  lemma StuckMeansFree(s: State)
    requires Inv(s) && Stuck(s)
    ensures EverythingFree(s)
  {
    forall t | 0 <= t < |s.tasks| ensures Finished(s.tasks[t]) {
      if !Finished(s.tasks[t]) {
        var u := SomeoneCanMove(s, t);
      }
    }
    forall e: Endpoint ensures Queue(s, e) == [] {
      assert LineOk(s, e);
      if Queue(s, e) != [] {
        HeadStandsInLine(Queue(s, e));
      }
    }
  }

  /**
   A run of any number of tasks is finite, and where no task can move every task
   has finished and every lock is free.
   */
  lemma MaximalRunFreesEverything(run: seq<State>)
    requires IsRun(run) && Inv(run[0]) && Stuck(run[|run| - 1])
    ensures |run| <= TotalRemaining(run[0].tasks) + 1
    ensures EverythingFree(run[|run| - 1])
  {
    RunIsBounded(run);
    StuckMeansFree(run[|run| - 1]);
  }
}
