/**
 When a condition becomes something worth telling a person: the three step rules,
 the rows they drive, and what a whole history of evaluations amounts to.
 Times are seconds.
 */
module Reminders {
  import opened Prelude

  const CAPACITY_STABLE_SECONDS := 120
  const NOTIFY_REPEAT_SECONDS := 1800

  datatype RowState = Pending | Active | Acked | Resolved | Armed

  datatype Step = Step(state: RowState, since: Option<int>, streak: nat)

  predicate Told(state: RowState) {
    state == Active || state == Acked
  }

  // ---------------------------------------------------------------------------
  // The rules
  // ---------------------------------------------------------------------------

  function StepPresent(state: RowState, since: Option<int>, hold: int, now: int): Step {
    if Told(state) then Step(state, since, 0)
    else
      var start := if since.Some? then since.value else now;
      if now - start >= hold then Step(Active, Some(start), 0) else Step(Pending, Some(start), 0)
  }

  function StepAbsent(state: RowState, since: Option<int>, streak: nat, clear: nat): Step {
    if state == Pending then Step(Resolved, None, 0)
    else if streak + 1 >= clear then Step(Resolved, since, streak + 1)
    else Step(state, since, streak + 1)
  }

  predicate Rested(lastNotified: Option<int>, now: int) {
    lastNotified.None? || now - lastNotified.value >= NOTIFY_REPEAT_SECONDS
  }

  function StepCapacity(state: Option<RowState>, since: Option<int>, free: int, lastNotified: Option<int>, now: int): Step {
    if free <= 0 then
      if state.Some? && Told(state.value) then Step(Resolved, None, 0) else Step(Armed, None, 0)
    else if state.None? then Step(Resolved, since, 0)
    else if Told(state.value) then Step(state.value, since, 0)
    else
      var start := if since.Some? then since.value else now;
      var settled := now - start >= CAPACITY_STABLE_SECONDS;
      Step(if settled && Rested(lastNotified, now) then Active else Pending, Some(start), 0)
  }

  /** A row of the inbox that is still open; a closed row is no row. */
  datatype Row = Row(state: RowState, since: Option<int>, streak: nat)

  /** A person may have acknowledged the row since the last evaluation. */
  function Acknowledged(row: Option<Row>, acked: bool): Option<Row> {
    if acked && row.Some? && row.value.state == Active then Some(row.value.(state := Acked)) else row
  }

  predicate RowTold(row: Option<Row>) {
    row.Some? && Told(row.value.state)
  }

  // ---------------------------------------------------------------------------
  // Debounced conditions
  // ---------------------------------------------------------------------------

  /**
   One evaluation of one condition. `resuming`: nobody was watching just before;
   `unseen`: cards the row is about cannot be seen now, so absence proves nothing.
   */
  datatype Look = Look(present: bool, now: int, resuming: bool, acked: bool, unseen: bool)

  function Evaluate(before: Option<Row>, look: Look, hold: int, clear: nat): Option<Row> {
    var row := Acknowledged(before, look.acked);
    if look.present then
      var state := if row.Some? then row.value.state else Pending;
      var since := if row.Some? && !look.resuming then row.value.since else None;
      var step := StepPresent(state, since, hold, look.now);
      Some(Row(step.state, step.since, 0))
    else if row.None? || row.value.state == Pending then None
    else if look.unseen then row
    else
      var step := StepAbsent(row.value.state, row.value.since, row.value.streak, clear);
      if step.state == Resolved then None else Some(Row(step.state, row.value.since, step.streak))
  }

  /** The row after the first n evaluations. */
  function RowAfter(h: seq<Look>, n: nat, hold: int, clear: nat): Option<Row>
    requires n <= |h|
  {
    if n == 0 then None else Evaluate(RowAfter(h, n - 1, hold, clear), h[n - 1], hold, clear)
  }

  ghost predicate MonotoneClock(h: seq<Look>) {
    forall i, j :: 0 <= i <= j < |h| ==> h[i].now <= h[j].now
  }

  /** The condition held, watched without a gap, at every evaluation from a to k. */
  ghost predicate Unbroken(h: seq<Look>, a: nat, k: nat) {
    && a <= k < |h|
    && (forall i :: a <= i <= k ==> h[i].present)
    && (forall i :: a < i <= k ==> !h[i].resuming)
  }

  /** At evaluation k the condition had held for the required time. */
  ghost predicate HeldAt(h: seq<Look>, k: nat, hold: int) {
    exists a: nat :: Unbroken(h, a, k) && h[k].now - h[a].now >= hold
  }

  /** An evaluation that missed the condition and could have seen it. */
  predicate Missed(look: Look) {
    !look.present && !look.unseen
  }

  /** How many evaluations before n missed the condition since one that saw it. */
  function Misses(h: seq<Look>, n: nat): (misses: nat)
    requires n <= |h|
    ensures misses <= n
  {
    if n == 0 || h[n - 1].present then 0 else Misses(h, n - 1) + if Missed(h[n - 1]) then 1 else 0
  }

  /** Evaluation m completes `need` misses since the condition was last seen. */
  ghost predicate ClearedAt(h: seq<Look>, m: nat, need: nat) {
    m < |h| && Missed(h[m]) && Misses(h, m + 1) >= need
  }

  function Needed(clear: nat): nat {
    if clear == 0 then 1 else clear
  }

  /** Told at k, and never since missed often enough. */
  ghost predicate ToldFrom(h: seq<Look>, k: nat, n: nat, hold: int, clear: nat) {
    && k < n <= |h| && HeldAt(h, k, hold)
    && forall m: nat :: k < m < n ==> !ClearedAt(h, m, Needed(clear))
  }

  /** Reference for "a person has been told and it is not over", after n evaluations. */
  ghost predicate ShouldBeTold(h: seq<Look>, n: nat, hold: int, clear: nat) {
    exists k: nat :: ToldFrom(h, k, n, hold, clear)
  }

  /** Where the unbroken presence that reaches k began. */
  function RunStart(h: seq<Look>, k: nat): (a: nat)
    requires k < |h| && h[k].present
    ensures Unbroken(h, a, k)
    ensures a == 0 || h[a].resuming || !h[a - 1].present
  {
    if k == 0 || h[k].resuming || !h[k - 1].present then k else RunStart(h, k - 1)
  }

  /** With a monotone clock the hold is met at k iff it is met since the run began. */
  lemma HeldSinceRunStart(h: seq<Look>, k: nat, hold: int)
    requires k < |h| && h[k].present && MonotoneClock(h)
    ensures HeldAt(h, k, hold) <==> h[k].now - h[RunStart(h, k)].now >= hold
  {
    var start := RunStart(h, k);
    if HeldAt(h, k, hold) {
      var a: nat :| Unbroken(h, a, k) && h[k].now - h[a].now >= hold;
      assert start <= a;
    }
  }

  /** The evaluation that told somebody, and it has not been over since. */
  ghost predicate BecameTold(h: seq<Look>, k: nat, n: nat, hold: int, clear: nat) {
    && k < n <= |h| && h[k].present && !ShouldBeTold(h, k, hold, clear)
    && forall m: nat :: k < m <= n ==> ShouldBeTold(h, m, hold, clear)
  }

  /** Somebody has acknowledged it since evaluation k told them. */
  ghost predicate AckedSince(h: seq<Look>, k: nat, n: nat) {
    exists j :: k < j < n <= |h| && h[j].acked
  }

  /** It was seen again after a gap in watching. */
  ghost predicate ResumedSince(h: seq<Look>, k: nat, n: nat) {
    exists j :: k < j < n <= |h| && h[j].present && h[j].resuming
  }

  /**
   The row of a condition that evaluation k told somebody about: acknowledged exactly
   when that happened since, and dated where the presence that was told of began,
   until it is seen again after a gap in watching, which takes the date away.
   */
  ghost predicate IsToldRow(h: seq<Look>, k: nat, n: nat, row: Row)
    requires k < n <= |h| && h[k].present
  {
    && row.state == (if AckedSince(h, k, n) then Acked else Active)
    && row.since == (if ResumedSince(h, k, n) then None else Some(h[RunStart(h, k)].now))
    && row.streak == Misses(h, n)
  }

  /** What the row says about the evaluations that produced it: all of it can be read off them. */
  ghost predicate RowFits(h: seq<Look>, n: nat, row: Option<Row>, hold: int, clear: nat)
    requires n <= |h|
  {
    && (RowTold(row) <==> ShouldBeTold(h, n, hold, clear))
    && (RowTold(row) ==> exists k: nat :: BecameTold(h, k, n, hold, clear) && IsToldRow(h, k, n, row.value))
    && (!RowTold(row) ==>
          row == if n == 0 || !h[n - 1].present then None
                 else Some(Row(Pending, Some(h[RunStart(h, n - 1)].now), 0)))
  }

  /** One more evaluation of a told row. */
  lemma SinceStep(h: seq<Look>, k: nat, n: nat)
    requires k < n < |h|
    ensures AckedSince(h, k, n + 1) <==> AckedSince(h, k, n) || h[n].acked
    ensures ResumedSince(h, k, n + 1) <==> ResumedSince(h, k, n) || (h[n].present && h[n].resuming)
  {
    if AckedSince(h, k, n) {
      var j :| k < j < n && h[j].acked;
      assert k < j < n + 1 && h[j].acked;
    }
    if ResumedSince(h, k, n) {
      var j :| k < j < n && h[j].present && h[j].resuming;
      assert k < j < n + 1 && h[j].present && h[j].resuming;
    }
  }

  lemma JustTold(h: seq<Look>, n: nat)
    requires n < |h|
    ensures !AckedSince(h, n, n + 1) && !ResumedSince(h, n, n + 1)
  {}

  lemma StaysTold(h: seq<Look>, k: nat, n: nat, hold: int, clear: nat)
    requires n < |h| && BecameTold(h, k, n, hold, clear) && ShouldBeTold(h, n + 1, hold, clear)
    ensures BecameTold(h, k, n + 1, hold, clear)
  {
    hide ShouldBeTold;
  }

  /** A told row through one evaluation that does not end it. */
  lemma ToldRowStep(h: seq<Look>, k: nat, n: nat, hold: int, clear: nat, row: Row)
    requires n < |h| && BecameTold(h, k, n, hold, clear) && IsToldRow(h, k, n, row)
    requires ShouldBeTold(h, n + 1, hold, clear)
    requires Missed(h[n]) ==> Misses(h, n + 1) < clear
    ensures BecameTold(h, k, n + 1, hold, clear)
    ensures RowTold(Evaluate(Some(row), h[n], hold, clear))
    ensures IsToldRow(h, k, n + 1, Evaluate(Some(row), h[n], hold, clear).value)
  {
    hide ShouldBeTold, AckedSince, ResumedSince, RunStart;
    StaysTold(h, k, n, hold, clear);
    SinceStep(h, k, n);
  }

  /** The evaluation that tells somebody of a pending condition. */
  lemma TellsNow(h: seq<Look>, n: nat, hold: int, clear: nat, row: Option<Row>)
    requires n < |h| && h[n].present && MonotoneClock(h)
    requires row == if n == 0 || !h[n - 1].present then None else Some(Row(Pending, Some(h[RunStart(h, n - 1)].now), 0))
    ensures var after := Evaluate(row, h[n], hold, clear);
            && after.Some? && (RowTold(after) <==> HeldAt(h, n, hold))
            && (RowTold(after) ==> IsToldRow(h, n, n + 1, after.value))
            && (!RowTold(after) ==> after.value == Row(Pending, Some(h[RunStart(h, n)].now), 0))
  {
    hide HeldAt, MonotoneClock, AckedSince, ResumedSince;
    HeldSinceRunStart(h, n, hold);
    JustTold(h, n);
  }

  lemma TellsFrom(h: seq<Look>, n: nat, hold: int, clear: nat)
    requires n < |h| && h[n].present && !ShouldBeTold(h, n, hold, clear) && ShouldBeTold(h, n + 1, hold, clear)
    ensures BecameTold(h, n, n + 1, hold, clear)
  {}

  lemma ToldWhenPresent(h: seq<Look>, n: nat, hold: int, clear: nat)
    requires n < |h| && h[n].present
    ensures ShouldBeTold(h, n + 1, hold, clear) <==> ShouldBeTold(h, n, hold, clear) || HeldAt(h, n, hold)
  {
    if ShouldBeTold(h, n, hold, clear) {
      var k: nat :| ToldFrom(h, k, n, hold, clear);
      assert !ClearedAt(h, n, Needed(clear));
      assert ToldFrom(h, k, n + 1, hold, clear);
    }
    if HeldAt(h, n, hold) {
      assert ToldFrom(h, n, n + 1, hold, clear);
    }
    if ShouldBeTold(h, n + 1, hold, clear) {
      var k: nat :| ToldFrom(h, k, n + 1, hold, clear);
      assert k == n || ToldFrom(h, k, n, hold, clear);
    }
  }

  lemma ToldWhenAbsent(h: seq<Look>, n: nat, hold: int, clear: nat)
    requires n < |h| && !h[n].present
    ensures ShouldBeTold(h, n + 1, hold, clear) <==>
            ShouldBeTold(h, n, hold, clear) && !ClearedAt(h, n, Needed(clear))
  {
    hide ClearedAt;
    if k: nat :| ToldFrom(h, k, n, hold, clear) && !ClearedAt(h, n, Needed(clear)) {
      assert ToldFrom(h, k, n + 1, hold, clear);
    }
    if ShouldBeTold(h, n + 1, hold, clear) {
      var k: nat :| ToldFrom(h, k, n + 1, hold, clear);
      assert h[k].present;
      assert ToldFrom(h, k, n, hold, clear);
    }
  }

  lemma NobodyToldAtFirst(h: seq<Look>, hold: int, clear: nat)
    ensures !ShouldBeTold(h, 0, hold, clear)
  {}

  /** The row always fits the evaluations so far. */
  lemma {:induction false} RowMatchesHistory(h: seq<Look>, n: nat, hold: int, clear: nat)
    requires n <= |h| && MonotoneClock(h)
    ensures RowFits(h, n, RowAfter(h, n, hold, clear), hold, clear)
  {
    hide ShouldBeTold, HeldAt, MonotoneClock, BecameTold, IsToldRow;
    if n == 0 {
      NobodyToldAtFirst(h, hold, clear);
    } else {
      RowMatchesHistory(h, n - 1, hold, clear);
      RowFitsNext(h, n - 1, RowAfter(h, n - 1, hold, clear), hold, clear);
    }
  }

  lemma RowFitsNext(h: seq<Look>, n: nat, row: Option<Row>, hold: int, clear: nat)
    requires n < |h| && MonotoneClock(h) && RowFits(h, n, row, hold, clear)
    ensures RowFits(h, n + 1, Evaluate(row, h[n], hold, clear), hold, clear)
  {
    hide ShouldBeTold, HeldAt, Unbroken, MonotoneClock, Evaluate, IsToldRow;
    if h[n].present {
      ToldWhenPresent(h, n, hold, clear);
    } else {
      ToldWhenAbsent(h, n, hold, clear);
    }
    if RowTold(row) {
      var k: nat :| BecameTold(h, k, n, hold, clear) && IsToldRow(h, k, n, row.value);
      EndsExactly(h, k, n, hold, clear, row.value);
      if !ClearedAt(h, n, Needed(clear)) {
        ToldRowStep(h, k, n, hold, clear, row.value);
      }
    } else if h[n].present {
      TellsNow(h, n, hold, clear, row);
      if HeldAt(h, n, hold) {
        TellsFrom(h, n, hold, clear);
      }
    } else {
      NothingToEnd(h, n, row, hold, clear);
    }
  }

  lemma NothingToEnd(h: seq<Look>, n: nat, row: Option<Row>, hold: int, clear: nat)
    requires n < |h| && !h[n].present && !RowTold(row) && (row.Some? ==> row.value.state == Pending)
    ensures Evaluate(row, h[n], hold, clear).None?
  {}

  /** A told row ends at exactly the evaluation that completes the required misses. */
  lemma EndsExactly(h: seq<Look>, k: nat, n: nat, hold: int, clear: nat, row: Row)
    requires n < |h| && k < n && h[k].present && IsToldRow(h, k, n, row)
    ensures Evaluate(Some(row), h[n], hold, clear).None? <==> ClearedAt(h, n, Needed(clear))
    ensures !ClearedAt(h, n, Needed(clear)) && Missed(h[n]) ==> Misses(h, n + 1) < clear
  {
    hide AckedSince, ResumedSince, RunStart;
  }

  /**
   A row becomes active at exactly the first evaluation at which the condition has
   held for the required time, and a told row closes at exactly the evaluation that
   completes the required number of misses in a row.
   */
  lemma ToldAndClearedExactly(h: seq<Look>, n: nat, hold: int, clear: nat)
    requires n < |h| && MonotoneClock(h)
    ensures !RowTold(RowAfter(h, n, hold, clear)) ==>
              (RowTold(RowAfter(h, n + 1, hold, clear)) <==> HeldAt(h, n, hold))
    ensures RowTold(RowAfter(h, n, hold, clear)) ==>
              (RowAfter(h, n + 1, hold, clear).None? <==> ClearedAt(h, n, Needed(clear)))
  {
    hide ShouldBeTold, ClearedAt, HeldAt, MonotoneClock;
    RowMatchesHistory(h, n, hold, clear);
    RowMatchesHistory(h, n + 1, hold, clear);
    if h[n].present {
      ToldWhenPresent(h, n, hold, clear);
      PresentClearsNothing(h, n, Needed(clear));
    } else {
      ToldWhenAbsent(h, n, hold, clear);
      AbsentHoldsNothing(h, n, hold);
    }
  }

  lemma PresentClearsNothing(h: seq<Look>, n: nat, need: nat)
    requires n < |h| && h[n].present
    ensures !ClearedAt(h, n, need)
  {}

  lemma AbsentHoldsNothing(h: seq<Look>, n: nat, hold: int)
    requires n < |h| && !h[n].present
    ensures !HeldAt(h, n, hold)
  {}

  // ---------------------------------------------------------------------------
  // Free capacity
  // ---------------------------------------------------------------------------

  /** One evaluation of one group of servers; `skipped`: too many of its cards were unseen to count. */
  datatype Count = Count(free: int, now: int, lastNotified: Option<int>, acked: bool, skipped: bool)

  /** The evaluation as the service runs it: a closed row is replaced by a waiting one. */
  function EvaluateCapacity(before: Option<Row>, count: Count): Option<Row> {
    var row := Acknowledged(before, count.acked);
    var step :=
      if row.Some? then StepCapacity(Some(row.value.state), row.value.since, count.free, count.lastNotified, count.now)
      else StepCapacity(None, None, count.free, count.lastNotified, count.now);
    if count.skipped then row
    else if row.None? && step.state != Armed then None
    else if step.state == Resolved then Some(Row(Armed, None, 0))
    else Some(Row(step.state, step.since, 0))
  }

  function CapacityAfter(h: seq<Count>, n: nat): Option<Row>
    requires n <= |h|
  {
    if n == 0 then None else EvaluateCapacity(CapacityAfter(h, n - 1), h[n - 1])
  }

  predicate SawNone(count: Count) {
    !count.skipped && count.free <= 0
  }

  predicate SawSome(count: Count) {
    !count.skipped && count.free > 0
  }

  /** The first evaluation after e and before n that was not skipped. */
  function FirstAfter(h: seq<Count>, e: nat, n: nat): (first: Option<nat>)
    requires n <= |h|
    ensures first.Some? ==> e < first.value < n && !h[first.value].skipped
    ensures first.Some? ==> forall j :: e < j < first.value ==> h[j].skipped
    ensures first.None? ==> forall j :: e < j < n ==> h[j].skipped
  {
    if n <= e + 1 then None
    else
      var earlier := FirstAfter(h, e, n - 1);
      if earlier.Some? then earlier else if h[n - 1].skipped then None else Some(n - 1)
  }

  /** Evaluation e saw no free card, i saw some, and so did every one in between that was not skipped. */
  ghost predicate FreeSince(h: seq<Count>, e: nat, i: nat) {
    e < i < |h| && SawNone(h[e]) && SawSome(h[i]) && forall j :: e < j <= i ==> !SawNone(h[j])
  }

  /** The cards appeared after e, stayed for the settling time, and the last notice has rested. */
  ghost predicate Ripe(h: seq<Count>, e: nat, i: nat) {
    && FreeSince(h, e, i)
    && FirstAfter(h, e, i + 1).Some?
    && h[i].now - h[FirstAfter(h, e, i + 1).value].now >= CAPACITY_STABLE_SECONDS
    && Rested(h[i].lastNotified, h[i].now)
  }

  ghost predicate RipeBefore(h: seq<Count>, e: nat, n: nat) {
    exists i: nat :: i < n && Ripe(h, e, i)
  }

  /** The last evaluation before n that saw no free card. */
  function LastEmpty(h: seq<Count>, n: nat): (e: Option<nat>)
    requires n <= |h|
    ensures e.Some? ==> e.value < n && SawNone(h[e.value]) && forall j :: e.value < j < n ==> !SawNone(h[j])
    ensures e.None? ==> forall j :: 0 <= j < n ==> !SawNone(h[j])
  {
    if n == 0 then None else if SawNone(h[n - 1]) then Some(n - 1) else LastEmpty(h, n - 1)
  }

  /** Evaluation k is the first to find the cards that appeared after e ripe for a notice. */
  ghost predicate FirstRipe(h: seq<Count>, e: nat, k: nat) {
    Ripe(h, e, k) && !RipeBefore(h, e, k)
  }

  /** Somebody has acknowledged the notice since evaluation k. */
  ghost predicate NoticeAcked(h: seq<Count>, k: nat, n: nat) {
    exists j :: k < j < n <= |h| && h[j].acked
  }

  /** Told of at evaluation k, and acknowledged exactly when that happened since. */
  ghost predicate IsNoticeRow(h: seq<Count>, e: nat, k: nat, n: nat, state: RowState) {
    && k < n && FirstRipe(h, e, k)
    && state == if NoticeAcked(h, k, n) then Acked else Active
  }

  /** The row after n evaluations, read off the history alone. */
  ghost predicate CapacityFits(h: seq<Count>, n: nat, row: Option<Row>)
    requires n <= |h|
  {
    var e := LastEmpty(h, n);
    if e.None? then row.None?
    else
      var first := FirstAfter(h, e.value, n);
      if first.None? then row == Some(Row(Armed, None, 0)) && !RipeBefore(h, e.value, n)
      else
        && row.Some? && row.value.since == Some(h[first.value].now) && row.value.streak == 0
        && if !RipeBefore(h, e.value, n) then row.value.state == Pending
           else exists k: nat :: IsNoticeRow(h, e.value, k, n, row.value.state)
  }

  lemma RipeLater(h: seq<Count>, e: nat, n: nat)
    ensures RipeBefore(h, e, n + 1) <==> RipeBefore(h, e, n) || Ripe(h, e, n)
  {
    hide Ripe;
  }

  lemma NotRipeYet(h: seq<Count>, e: nat)
    ensures !RipeBefore(h, e, e + 1)
  {}

  /** A told notice through one evaluation that does not find the cards gone. */
  lemma NoticeStays(h: seq<Count>, e: nat, k: nat, n: nat, state: RowState)
    requires n < |h| && IsNoticeRow(h, e, k, n, state)
    ensures IsNoticeRow(h, e, k, n + 1, if h[n].acked then Acked else state)
  {
    hide FirstRipe;
    if NoticeAcked(h, k, n) {
      var j :| k < j < n && h[j].acked;
      assert k < j < n + 1 && h[j].acked;
    }
    if NoticeAcked(h, k, n + 1) && !h[n].acked {
      var j :| k < j < n + 1 && h[j].acked;
      assert k < j < n && h[j].acked;
    }
    if h[n].acked {
      assert k < n < n + 1 && h[n].acked;
    }
  }

  lemma NoticeFires(h: seq<Count>, e: nat, n: nat)
    requires n < |h| && Ripe(h, e, n) && !RipeBefore(h, e, n)
    ensures IsNoticeRow(h, e, n, n + 1, Active)
  {}

  /** The row after one more evaluation that saw cards, or was skipped. */
  lemma CapacityFitsNext(h: seq<Count>, n: nat, row: Option<Row>)
    requires n < |h| && !SawNone(h[n]) && CapacityFits(h, n, row) && LastEmpty(h, n).Some?
    ensures CapacityFits(h, n + 1, EvaluateCapacity(row, h[n]))
  {
    hide RipeBefore, Ripe, IsNoticeRow, FirstAfter;
    var e := LastEmpty(h, n).value;
    assert LastEmpty(h, n + 1) == Some(e);
    RipeLater(h, e, n);
    FirstAfterStep(h, e, n);
    RipeNow(h, e, n);
    var first := FirstAfter(h, e, n);
    if RipeBefore(h, e, n) {
      var k: nat :| IsNoticeRow(h, e, k, n, row.value.state);
      IsNoticeState(h, e, k, n, row.value.state);
      NoticeStays(h, e, k, n, row.value.state);
    } else if Ripe(h, e, n) {
      NoticeFires(h, e, n);
    }
  }

  lemma IsNoticeState(h: seq<Count>, e: nat, k: nat, n: nat, state: RowState)
    requires IsNoticeRow(h, e, k, n, state)
    ensures Told(state)
  {}

  lemma FirstAfterStep(h: seq<Count>, e: nat, n: nat)
    requires e < n < |h|
    ensures FirstAfter(h, e, n + 1) ==
            if FirstAfter(h, e, n).Some? then FirstAfter(h, e, n) else if h[n].skipped then None else Some(n)
  {}

  lemma RipeNow(h: seq<Count>, e: nat, n: nat)
    requires n < |h| && LastEmpty(h, n) == Some(e) && !SawNone(h[n])
    ensures Ripe(h, e, n) <==>
            && !h[n].skipped
            && h[n].now - h[FirstAfter(h, e, n + 1).value].now >= CAPACITY_STABLE_SECONDS
            && Rested(h[n].lastNotified, h[n].now)
  {
    FirstAfterStep(h, e, n);
    assert !h[n].skipped ==> FreeSince(h, e, n);
  }

  lemma {:induction false} CapacityMatchesHistory(h: seq<Count>, n: nat)
    requires n <= |h|
    ensures CapacityFits(h, n, CapacityAfter(h, n))
  {
    hide RipeBefore, Ripe, IsNoticeRow;
    if n > 0 {
      CapacityMatchesHistory(h, n - 1);
      if SawNone(h[n - 1]) {
        NotRipeYet(h, n - 1);
        SeesNone(h, n - 1, CapacityAfter(h, n - 1));
      } else if LastEmpty(h, n - 1).Some? {
        CapacityFitsNext(h, n - 1, CapacityAfter(h, n - 1));
      }
    }
  }

  lemma SeesNone(h: seq<Count>, n: nat, row: Option<Row>)
    requires n < |h| && SawNone(h[n])
    ensures EvaluateCapacity(row, h[n]) == Some(Row(Armed, None, 0))
    ensures LastEmpty(h, n + 1) == Some(n) && FirstAfter(h, n, n + 1) == None
  {}

  /**
   A notice of free capacity fires exactly when cards appeared after an evaluation
   that saw none, were there at every evaluation since for the settling time, the
   last notice has rested, and no earlier evaluation already met all of that.
   */
  lemma CapacityFiresExactly(h: seq<Count>, n: nat)
    requires n < |h|
    ensures !RowTold(CapacityAfter(h, n)) && RowTold(CapacityAfter(h, n + 1)) <==>
            exists e: nat :: Ripe(h, e, n) && !RipeBefore(h, e, n)
  {
    CapacityMatchesHistory(h, n);
    CapacityMatchesHistory(h, n + 1);
    hide Ripe, RipeBefore, CapacityAfter;
    var e := LastEmpty(h, n + 1);
    if e.Some? && e.value < n {
      assert LastEmpty(h, n) == e;
      RipeLater(h, e.value, n);
    } else if e.Some? {
      NotRipeYet(h, e.value);
    }
    forall d: nat | Ripe(h, d, n) ensures e == Some(d) && d < n {
      RipeIsLastEmpty(h, d, n);
    }
  }

  lemma RipeIsLastEmpty(h: seq<Count>, e: nat, n: nat)
    requires n < |h| && Ripe(h, e, n)
    ensures LastEmpty(h, n + 1) == Some(e) && e < n
  {}
}
