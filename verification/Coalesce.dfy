/** Folding capacity alerts raised within a minute of each other into one notice. */
module Coalesce {
  import opened Prelude
  import opened Sorting

  const COALESCE_SECONDS := 60

  // Times are seconds; the order of the stored timestamps is their order in time.
  datatype Alert = Alert(id: string, capacity: bool, firstSeen: int)

  /** An alert as it is shown; a folded one stands for all the listed ids. */
  datatype Notice = Notice(alert: Alert, folded: Option<seq<string>>)

  predicate Earlier(a: Alert, b: Alert) {
    a.firstSeen <= b.firstSeen
  }

  /** The places of the alerts that are about capacity, or of those that are not, in order. */
  function Places(alerts: seq<Alert>, capacity: bool): (at: seq<nat>)
    ensures forall k :: 0 <= k < |at| ==> at[k] < |alerts| && alerts[at[k]].capacity == capacity
    ensures forall j, k :: 0 <= j < k < |at| ==> at[j] < at[k]
    ensures forall i :: 0 <= i < |alerts| && alerts[i].capacity == capacity ==> i in at
  {
    if alerts == [] then []
    else
      var n := |alerts| - 1;
      var front := Places(alerts[..n], capacity);
      if alerts[n].capacity == capacity then front + [n] else front
  }

  function At(alerts: seq<Alert>, at: seq<nat>): (chosen: seq<Alert>)
    requires forall k :: 0 <= k < |at| ==> at[k] < |alerts|
    ensures |chosen| == |at| && forall k :: 0 <= k < |at| ==> chosen[k] == alerts[at[k]]
  {
    seq(|at|, k requires 0 <= k < |at| => alerts[at[k]])
  }

  function Others(alerts: seq<Alert>): seq<Alert> {
    At(alerts, Places(alerts, false))
  }

  function Capacity(alerts: seq<Alert>): seq<Alert> {
    At(alerts, Places(alerts, true))
  }

  function Plain(alerts: seq<Alert>): (notices: seq<Notice>)
    ensures |notices| == |alerts| && forall i :: 0 <= i < |notices| ==> notices[i] == Notice(alerts[i], None)
  {
    seq(|alerts|, i requires 0 <= i < |alerts| => Notice(alerts[i], None))
  }

  function Flatten<T>(batches: seq<seq<T>>): seq<T> {
    if batches == [] then [] else Flatten(batches[..|batches| - 1]) + batches[|batches| - 1]
  }

  function Ids(alerts: seq<Alert>): (ids: seq<string>)
    ensures |ids| == |alerts| && forall i :: 0 <= i < |ids| ==> ids[i] == alerts[i].id
  {
    seq(|alerts|, i requires 0 <= i < |alerts| => alerts[i].id)
  }

  /** The alert ids one notice stands for. */
  function Covered(n: Notice): seq<string> {
    if n.folded.Some? then n.folded.value else [n.alert.id]
  }

  function CoveredIds(notices: seq<Notice>): seq<string> {
    if notices == [] then [] else CoveredIds(notices[..|notices| - 1]) + Covered(notices[|notices| - 1])
  }

  /** Any two alerts of the batch are at most a minute apart. */
  predicate Close(batch: seq<Alert>) {
    forall a, b :: a in batch && b in batch ==> a.firstSeen - b.firstSeen <= COALESCE_SECONDS
  }

  function NoticeOf(batch: seq<Alert>): Notice
    requires batch != []
  {
    Notice(batch[0], if |batch| > 1 then Some(Ids(batch)) else None)
  }

  predicate AllClose(batches: seq<seq<Alert>>) {
    forall k :: 0 <= k < |batches| ==> batches[k] != [] && Close(batches[k])
  }

  ghost predicate Spread(batches: seq<seq<Alert>>) {
    forall j, k :: 0 <= j < k < |batches| && batches[j] != [] && batches[k] != [] ==>
      batches[k][0].firstSeen - batches[j][0].firstSeen > COALESCE_SECONDS
  }

  /** Every batch non-empty and close, and each head more than a minute after the head before. */
  ghost predicate Batched(sorted: seq<Alert>, batches: seq<seq<Alert>>) {
    && Flatten(batches) == sorted
    && AllClose(batches)
    && Spread(batches)
  }

  lemma FlattenLast<T>(batches: seq<seq<T>>, last: seq<T>)
    ensures Flatten(batches + [last]) == Flatten(batches) + last
  {
    assert (batches + [last])[..|batches|] == batches;
  }

  lemma {:induction false} MemberOfBatch(batches: seq<seq<Alert>>, k: nat, a: Alert)
    requires k < |batches| && a in batches[k]
    ensures a in Flatten(batches)
  {
    if k < |batches| - 1 {
      MemberOfBatch(batches[..|batches| - 1], k, a);
    }
  }

  lemma SameHeads(batches: seq<seq<Alert>>, batches': seq<seq<Alert>>)
    requires Spread(batches) && |batches'| == |batches|
    requires forall k :: 0 <= k < |batches| ==> batches[k] != [] && batches'[k] != [] && batches'[k][0] == batches[k][0]
    ensures Spread(batches')
  {}

  lemma AloneIsClose(item: Alert)
    ensures Close([item])
  {}

  lemma OneMoreHead(batches: seq<seq<Alert>>, item: Alert)
    requires Spread(batches) && AllClose(batches)
    requires batches != [] ==> item.firstSeen - batches[|batches| - 1][0].firstSeen > COALESCE_SECONDS
    ensures Spread(batches + [[item]]) && AllClose(batches + [[item]])
  {
    hide Close;
    assert Close([item]) by { AloneIsClose(item); }
    var n := |batches|;
    forall j | 0 <= j < n ensures item.firstSeen - batches[j][0].firstSeen > COALESCE_SECONDS {
      assert j < n - 1 ==> batches[n - 1][0].firstSeen - batches[j][0].firstSeen > COALESCE_SECONDS;
    }
  }

  /** In a sorted flattening the head of a batch is its earliest alert. */
  lemma {:induction false} HeadIsFirst(sorted: seq<Alert>, batches: seq<seq<Alert>>, k: nat, a: Alert)
    requires Sorted(sorted, Earlier) && Flatten(batches) == sorted
    requires k < |batches| && batches[k] != [] && a in batches[k]
    ensures batches[k][0].firstSeen <= a.firstSeen
    decreases |batches|
  {
    var front := batches[..|batches| - 1];
    var done := Flatten(front);
    if k < |batches| - 1 {
      assert done == sorted[..|done|];
      HeadIsFirst(done, front, k, a);
    } else {
      var j :| 0 <= j < |batches[k]| && batches[k][j] == a;
      assert sorted[|done|] == batches[k][0] && sorted[|done| + j] == a;
    }
  }

  lemma JoinedClose(done: seq<Alert>, item: Alert, batches: seq<seq<Alert>>)
    requires Sorted(done + [item], Earlier) && Batched(done, batches) && batches != []
    requires item.firstSeen - batches[|batches| - 1][0].firstSeen <= COALESCE_SECONDS
    ensures Close(batches[|batches| - 1] + [item])
  {
    hide Spread, Flatten;
    var last, all := batches[|batches| - 1], done + [item];
    DoneIsSorted(done, item);
    forall a | a in last ensures a.firstSeen <= item.firstSeen && item.firstSeen - a.firstSeen <= COALESCE_SECONDS {
      MemberOfBatch(batches, |batches| - 1, a);
      HeadIsFirst(done, batches, |batches| - 1, a);
    }
  }

  lemma DoneIsSorted(done: seq<Alert>, item: Alert)
    requires Sorted(done + [item], Earlier)
    ensures Sorted(done, Earlier) && forall a :: a in done ==> Earlier(a, item)
  {
    var all := done + [item];
    assert all[|done|] == item && forall i :: 0 <= i < |done| ==> all[i] == done[i];
  }

  lemma JoinedFlattens(batches: seq<seq<Alert>>, item: Alert)
    requires batches != []
    ensures Flatten(batches[|batches| - 1 := batches[|batches| - 1] + [item]]) == Flatten(batches) + [item]
  {
    hide Flatten;
    var n := |batches| - 1;
    var front, last := batches[..n], batches[n];
    FlattenLast(front, last);
    FlattenLast(front, last + [item]);
    assert batches == front + [last];
    assert batches[n := last + [item]] == front + [last + [item]];
  }

  lemma Joins(done: seq<Alert>, item: Alert, batches: seq<seq<Alert>>, batches': seq<seq<Alert>>)
    requires Sorted(done + [item], Earlier) && Batched(done, batches) && batches != []
    requires item.firstSeen - batches[|batches| - 1][0].firstSeen <= COALESCE_SECONDS
    requires batches' == batches[|batches| - 1 := batches[|batches| - 1] + [item]]
    ensures Batched(done + [item], batches')
  {
    JoinedClose(done, item, batches);
    JoinedFlattens(batches, item);
    hide Sorted, Close, Flatten, Spread;
    assert forall k :: 0 <= k < |batches| - 1 ==> batches'[k] == batches[k];
    SameHeads(batches, batches');
  }

  lemma Opens(done: seq<Alert>, item: Alert, batches: seq<seq<Alert>>)
    requires Batched(done, batches)
    requires batches != [] ==> item.firstSeen - batches[|batches| - 1][0].firstSeen > COALESCE_SECONDS
    ensures Batched(done + [item], batches + [[item]])
  {
    hide Flatten, AllClose, Spread;
    FlattenLast(batches, [item]);
    OneMoreHead(batches, item);
  }

  /** The next alert joins the last batch or opens a new one. */
  method Batch(sorted: seq<Alert>) returns (batches: seq<seq<Alert>>)
    requires Sorted(sorted, Earlier)
    ensures Batched(sorted, batches)
  {
    batches := [];
    for i := 0 to |sorted|
      invariant Batched(sorted[..i], batches)
    {
      var item := sorted[i];
      assert sorted[..i + 1] == sorted[..i] + [item];
      var n := |batches|;
      if n > 0 && item.firstSeen - batches[n - 1][0].firstSeen <= COALESCE_SECONDS {
        ghost var before := batches;
        batches := batches[n - 1 := batches[n - 1] + [item]];
        Joins(sorted[..i], item, before, batches);
      } else {
        Opens(sorted[..i], item, batches);
        batches := batches + [[item]];
      }
    }
    assert sorted[..|sorted|] == sorted;
  }

  // ---------------------------------------------------------------------------
  // Optimality
  // ---------------------------------------------------------------------------

  /** Some cover of all the alerts by close groups. */
  ghost predicate Covers(alerts: seq<Alert>, groups: seq<seq<Alert>>) {
    && (forall a :: a in alerts ==> exists g :: 0 <= g < |groups| && a in groups[g])
    && (forall g :: 0 <= g < |groups| ==> Close(groups[g]))
  }

  /** No cover by groups spanning at most a minute is smaller: each holds at most one head. */
  lemma NoFewerBatches(sorted: seq<Alert>, batches: seq<seq<Alert>>, groups: seq<seq<Alert>>)
    requires Batched(sorted, batches) && Covers(sorted, groups)
    ensures |batches| <= |groups|
  {
    var homes := Homes(sorted, batches, groups, |batches|);
    DistinctCardinality(homes);
    assert Elements(homes) <= UpTo(|groups|);
    CardinalityMonotone(Elements(homes), UpTo(|groups|));
  }

  function UpTo(n: nat): (below: set<nat>)
    ensures forall g: nat :: g in below <==> g < n
    ensures |below| == n
  {
    if n == 0 then {} else UpTo(n - 1) + {n - 1}
  }

  lemma {:induction false} Homes(sorted: seq<Alert>, batches: seq<seq<Alert>>, groups: seq<seq<Alert>>, n: nat)
    returns (homes: seq<nat>)
    requires Batched(sorted, batches) && Covers(sorted, groups) && n <= |batches|
    ensures |homes| == n && Distinct(homes)
    ensures forall k :: 0 <= k < n ==> homes[k] < |groups| && batches[k][0] in groups[homes[k]]
  {
    if n == 0 {
      homes := [];
    } else {
      homes := Homes(sorted, batches, groups, n - 1);
      var head := batches[n - 1][0];
      MemberOfBatch(batches, n - 1, head);
      var g: nat :| 0 <= g < |groups| && head in groups[g];
      forall k | 0 <= k < n - 1 ensures homes[k] != g {
        assert batches[k] != [] && batches[n - 1][0].firstSeen - batches[k][0].firstSeen > COALESCE_SECONDS;
      }
      homes := homes + [g];
    }
  }

  lemma {:induction false} CardinalityMonotone<T>(a: set<T>, b: set<T>)
    requires a <= b
    ensures |a| <= |b|
  {
    if a != {} {
      var x :| x in a;
      CardinalityMonotone(a - {x}, b - {x});
    }
  }

  // ---------------------------------------------------------------------------
  // The whole operation
  // ---------------------------------------------------------------------------

  lemma IdsConcat(a: seq<Alert>, b: seq<Alert>)
    ensures Ids(a + b) == Ids(a) + Ids(b)
  {}

  lemma IdsOfOne(a: Alert)
    ensures Ids([a]) == [a.id]
  {}

  lemma NothingCovered()
    ensures CoveredIds([]) == Ids(Flatten([]))
  {}

  lemma CoversOneMore(notices: seq<Notice>, batches: seq<seq<Alert>>, batch: seq<Alert>)
    requires batch != [] && CoveredIds(notices) == Ids(Flatten(batches))
    ensures CoveredIds(notices + [NoticeOf(batch)]) == Ids(Flatten(batches + [batch]))
  {
    assert (notices + [NoticeOf(batch)])[..|notices|] == notices;
    FlattenLast(batches, batch);
    hide Flatten, Ids;
    if |batch| == 1 {
      assert batch == [batch[0]];
      IdsOfOne(batch[0]);
    }
    IdsConcat(Flatten(batches), batch);
  }

  /** One notice per batch, for its first alert, listing every id of a larger batch. */
  method Fold(others: seq<Notice>, batches: seq<seq<Alert>>) returns (notices: seq<Notice>)
    requires forall k :: 0 <= k < |batches| ==> batches[k] != []
    ensures |notices| == |others| + |batches| && others <= notices
    ensures forall k :: 0 <= k < |batches| ==> notices[|others| + k] == NoticeOf(batches[k])
    ensures CoveredIds(notices[|others|..]) == Ids(Flatten(batches))
  {
    hide Flatten, CoveredIds, NoticeOf, Ids;
    notices := others;
    ghost var tail: seq<Notice> := [];
    NothingCovered();
    for k := 0 to |batches|
      invariant notices == others + tail && |tail| == k
      invariant forall j :: 0 <= j < k ==> tail[j] == NoticeOf(batches[j])
      invariant CoveredIds(tail) == Ids(Flatten(batches[..k]))
    {
      CoversOneMore(tail, batches[..k], batches[k]);
      assert batches[..k + 1] == batches[..k] + [batches[k]];
      notices := notices + [NoticeOf(batches[k])];
      tail := tail + [NoticeOf(batches[k])];
    }
    assert batches[..|batches|] == batches;
    assert notices[|others|..] == tail;
  }

  /** No cover of the capacity alerts by groups spanning at most a minute is smaller. */
  ghost predicate Optimal(alerts: seq<Alert>, size: int) {
    forall groups :: CoversCapacity(alerts, groups) ==> size <= |groups|
  }

  /** Some cover of all the alerts about capacity by close groups. */
  ghost predicate CoversCapacity(alerts: seq<Alert>, groups: seq<seq<Alert>>) {
    && (forall a :: a in alerts && a.capacity ==> exists g :: 0 <= g < |groups| && a in groups[g])
    && (forall g :: 0 <= g < |groups| ==> Close(groups[g]))
  }

  /** The places of the capacity alerts by time, those of the same time in the order they came. */
  ghost predicate InTime(alerts: seq<Alert>, order: seq<nat>) {
    && (forall k :: 0 <= k < |order| ==> order[k] < |alerts| && alerts[order[k]].capacity)
    && (forall i :: 0 <= i < |alerts| && alerts[i].capacity ==> i in order)
    && forall j, k :: 0 <= j < k < |order| ==>
         var a, b := alerts[order[j]].firstSeen, alerts[order[k]].firstSeen;
         a < b || (a == b && order[j] < order[k])
  }

  /** The places picked from a list of places. */
  function Through(at: seq<nat>, inner: seq<nat>): (through: seq<nat>)
    requires forall k :: 0 <= k < |inner| ==> inner[k] < |at|
    ensures |through| == |inner| && forall k :: 0 <= k < |inner| ==> through[k] == at[inner[k]]
  {
    seq(|inner|, k requires 0 <= k < |inner| => at[inner[k]])
  }

  lemma ThroughCovers(at: seq<nat>, inner: seq<nat>, i: nat)
    requires forall k :: 0 <= k < |inner| ==> inner[k] < |at|
    requires (forall k: nat :: k < |at| ==> k in inner) && i in at
    ensures i in Through(at, inner)
  {
    var k: nat :| k < |at| && at[k] == i;
    assert k in inner;
    var m :| 0 <= m < |inner| && inner[m] == k;
    assert Through(at, inner)[m] == i;
  }

  lemma ThroughIsInTime(alerts: seq<Alert>, inner: seq<nat>, sorted: seq<Alert>)
    requires Arranges(Capacity(alerts), inner, sorted, Earlier)
    ensures forall k :: 0 <= k < |inner| ==> inner[k] < |Places(alerts, true)|
    ensures InTime(alerts, Through(Places(alerts, true), inner))
    ensures At(alerts, Through(Places(alerts, true), inner)) == sorted
  {
    hide Through, Places;
    var at := Places(alerts, true);
    forall i: nat | i < |alerts| && alerts[i].capacity ensures i in Through(at, inner) {
      ThroughCovers(at, inner, i);
    }
  }

  lemma SortedInTime(alerts: seq<Alert>) returns (order: seq<nat>)
    ensures InTime(alerts, order) && Sort(Capacity(alerts), Earlier) == At(alerts, order)
  {
    hide Sort, Arranges, InTime, At, Places, Capacity, Through;
    EarlierIsTotal();
    var inner := SortArranges(Capacity(alerts), Earlier);
    ThroughIsInTime(alerts, inner, Sort(Capacity(alerts), Earlier));
    order := Through(Places(alerts, true), inner);
  }

  lemma EarlierIsTotal()
    ensures TotalPreorder(Earlier)
  {}

  lemma BatchesAreOptimal(alerts: seq<Alert>, order: seq<nat>, batches: seq<seq<Alert>>)
    requires InTime(alerts, order) && Batched(At(alerts, order), batches)
    ensures Optimal(alerts, |batches|)
  {
    hide Batched, Close;
    forall groups | CoversCapacity(alerts, groups) ensures |batches| <= |groups| {
      forall a | a in At(alerts, order) ensures exists g :: 0 <= g < |groups| && a in groups[g] {
        var k :| 0 <= k < |order| && At(alerts, order)[k] == a;
        assert order[k] in order;
      }
      NoFewerBatches(At(alerts, order), batches, groups);
    }
  }

  /** The notice shows the earliest alert of the batch, and lists the ids of a batch of several in order. */
  ghost predicate Shows(n: Notice, batch: seq<Alert>) {
    && n.alert in batch && (forall a :: a in batch ==> n.alert.firstSeen <= a.firstSeen)
    && (n.folded.None? ==> batch == [n.alert])
    && (n.folded.Some? ==> |batch| > 1 && n.folded.value == Ids(batch) && n.folded.value[0] == n.alert.id)
  }

  /** The notices, one for each of the close batches that the capacity alerts fall into when taken by time. */
  ghost predicate Folds(alerts: seq<Alert>, order: seq<nat>, batches: seq<seq<Alert>>, notices: seq<Notice>) {
    && InTime(alerts, order) && Batched(At(alerts, order), batches)
    && |notices| == |batches| && (forall k :: 0 <= k < |batches| ==> Shows(notices[k], batches[k]))
    && CoveredIds(notices) == Ids(At(alerts, order))
  }

  lemma FoldedShows(alerts: seq<Alert>, order: seq<nat>, batches: seq<seq<Alert>>, notices: seq<Notice>)
    requires InTime(alerts, order) && Batched(At(alerts, order), batches) && |notices| == |batches|
    requires Sorted(At(alerts, order), Earlier)
    requires forall k :: 0 <= k < |batches| ==> batches[k] != [] && notices[k] == NoticeOf(batches[k])
    requires CoveredIds(notices) == Ids(At(alerts, order))
    ensures Folds(alerts, order, batches, notices)
  {
    hide CoveredIds, Sorted, Spread, Close, Flatten;
    forall k | 0 <= k < |batches| ensures Shows(notices[k], batches[k]) {
      forall a | a in batches[k] ensures notices[k].alert.firstSeen <= a.firstSeen {
        HeadIsFirst(At(alerts, order), batches, k, a);
      }
    }
  }

  /**
   Other alerts stay as they are and in order. The capacity alerts, taken by time, fall
   into close batches whose heads are more than a minute apart; each batch becomes one
   notice that shows its earliest alert, and the notices together stand for every
   capacity id once, in that order. No way of covering the capacity alerts by such
   notices needs fewer of them.
   */
  method CoalesceAlerts(alerts: seq<Alert>) returns (notices: seq<Notice>)
    ensures var plain := Places(alerts, false);
            && |plain| <= |notices|
            && (forall k :: 0 <= k < |plain| ==> notices[k] == Notice(alerts[plain[k]], None))
            && (exists order, batches :: Folds(alerts, order, batches, notices[|plain|..]))
            && Optimal(alerts, |notices| - |plain|)
  {
    hide Sort, Sorted, Spread, Optimal, Flatten, CoveredIds, Ids, Close, InTime, Folds, Places, NoticeOf;
    var others := Plain(Others(alerts));
    var sorted := Sort(Capacity(alerts), Earlier);
    SortSorts(Capacity(alerts), Earlier);
    ghost var order := SortedInTime(alerts);
    var batches := Batch(sorted);
    notices := Fold(others, batches);
    BatchesAreOptimal(alerts, order, batches);
    FoldedShows(alerts, order, batches, notices[|others|..]);
  }
}
