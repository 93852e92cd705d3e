/** Stable sorting by a total preorder, and what every caller needs to know of it. */
module Sorting {
  ghost predicate TotalPreorder<T(!new)>(le: (T, T) -> bool) {
    && (forall x, y :: le(x, y) || le(y, x))
    && (forall x, y, z :: le(x, y) && le(y, z) ==> le(x, z))
  }

  ghost predicate Sorted<T>(s: seq<T>, le: (T, T) -> bool) {
    forall i, j :: 0 <= i < j < |s| ==> le(s[i], s[j])
  }

  /** Put x behind everything that is not greater. */
  function Insert<T(!new)>(s: seq<T>, x: T, le: (T, T) -> bool): (r: seq<T>)
    ensures multiset(r) == multiset(s) + multiset{x}
    ensures |r| == |s| + 1
  {
    if s == [] then [x]
    else
      var front, last := s[..|s| - 1], s[|s| - 1];
      assert s == front + [last];
      if le(last, x) then s + [x] else Insert(front, x, le) + [last]
  }

  function Sort<T(!new)>(s: seq<T>, le: (T, T) -> bool): (r: seq<T>)
    ensures multiset(r) == multiset(s)
    ensures |r| == |s|
  {
    if s == [] then []
    else
      assert s == s[..|s| - 1] + [s[|s| - 1]];
      Insert(Sort(s[..|s| - 1], le), s[|s| - 1], le)
  }

  lemma SameMembers<T>(a: seq<T>, b: seq<T>)
    requires multiset(a) == multiset(b)
    ensures forall x :: x in a <==> x in b
  {
    forall x ensures x in a <==> x in b {
      assert x in a <==> x in multiset(a);
      assert x in b <==> x in multiset(b);
    }
  }

  lemma AppendSorted<T>(s: seq<T>, x: T, le: (T, T) -> bool)
    requires Sorted(s, le) && forall y :: y in s ==> le(y, x)
    ensures Sorted(s + [x], le)
  {
    forall i, j | 0 <= i < j < |s + [x]| ensures le((s + [x])[i], (s + [x])[j]) {
      assert s[i] in s;
    }
  }

  lemma InsertMembers<T(!new)>(s: seq<T>, x: T, le: (T, T) -> bool)
    ensures forall y :: y in Insert(s, x, le) <==> y in s || y == x
  {
    hide Insert;
    SameMembers(Insert(s, x, le), s + [x]);
  }

  lemma LastIsGreatest<T(!new)>(s: seq<T>, le: (T, T) -> bool)
    requires TotalPreorder(le) && Sorted(s, le) && s != []
    ensures forall y :: y in s ==> le(y, s[|s| - 1])
  {
    forall y | y in s ensures le(y, s[|s| - 1]) {
      var i :| 0 <= i < |s| && s[i] == y;
    }
  }

  lemma {:induction false} InsertSorted<T(!new)>(s: seq<T>, x: T, le: (T, T) -> bool)
    requires TotalPreorder(le) && Sorted(s, le)
    ensures Sorted(Insert(s, x, le), le)
  {
    hide Sorted;
    if s == [] {
      NothingToSort(le);
      AppendSorted(s, x, le);
      assert s + [x] == [x];
    } else {
      var front, last := s[..|s| - 1], s[|s| - 1];
      LastIsGreatest(s, le);
      if le(last, x) {
        AppendSorted(s, x, le);
      } else {
        FrontSorted(s, le);
        InsertSorted(front, x, le);
        InsertMembers(front, x, le);
        assert le(x, last) && forall y :: y in front ==> y in s;
        AppendSorted(Insert(front, x, le), last, le);
      }
    }
  }

  lemma NothingToSort<T>(le: (T, T) -> bool)
    ensures Sorted([], le)
  {}

  lemma FrontSorted<T>(s: seq<T>, le: (T, T) -> bool)
    requires s != [] && Sorted(s, le)
    ensures Sorted(s[..|s| - 1], le)
  {}

  lemma {:induction false} SortSorts<T(!new)>(s: seq<T>, le: (T, T) -> bool)
    requires TotalPreorder(le)
    ensures Sorted(Sort(s, le), le)
  {
    if s != [] {
      SortSorts(s[..|s| - 1], le);
      InsertSorted(Sort(s[..|s| - 1], le), s[|s| - 1], le);
    }
  }

  lemma AllBelow<T(!new)>(s: seq<T>, x: T, le: (T, T) -> bool)
    requires TotalPreorder(le) && Sorted(s, le) && s != [] && le(s[|s| - 1], x)
    ensures forall k :: 0 <= k < |s| ==> le(s[k], x)
  {
    LastIsGreatest(s, le);
    forall k | 0 <= k < |s| ensures le(s[k], x) {
      assert s[k] in s && le(s[k], s[|s| - 1]);
    }
  }

  lemma InsertUnfolds<T(!new)>(s: seq<T>, x: T, le: (T, T) -> bool)
    requires s != []
    ensures Insert(s, x, le) == if le(s[|s| - 1], x) then s + [x] else Insert(s[..|s| - 1], x, le) + [s[|s| - 1]]
  {}

  /** Behind everything that is not greater, and in front of everything that is. */
  lemma {:induction false} InsertedAt<T(!new)>(s: seq<T>, x: T, le: (T, T) -> bool) returns (p: nat)
    requires TotalPreorder(le) && Sorted(s, le)
    ensures p <= |s| && Insert(s, x, le) == s[..p] + [x] + s[p..]
    ensures (forall k :: 0 <= k < p ==> le(s[k], x)) && (forall k :: p <= k < |s| ==> !le(s[k], x))
  {
    hide TotalPreorder, Sorted;
    if s == [] {
      p := 0;
    } else {
      hide Insert;
      var n := |s| - 1;
      InsertUnfolds(s, x, le);
      if le(s[n], x) {
        p := |s|;
        AllBelow(s, x, le);
        assert s[..p] + [x] + s[p..] == s + [x];
      } else {
        FrontSorted(s, le);
        var front := s[..n];
        p := InsertedAt(front, x, le);
        SplitFront(s, p, x);
        SplitStays(s, front, p, x, le);
      }
    }
  }

  lemma SplitStays<T>(s: seq<T>, front: seq<T>, p: nat, x: T, le: (T, T) -> bool)
    requires s != [] && front == s[..|s| - 1] && p < |s| && !le(s[|s| - 1], x)
    requires (forall k :: 0 <= k < p ==> le(front[k], x)) && (forall k :: p <= k < |front| ==> !le(front[k], x))
    ensures (forall k :: 0 <= k < p ==> le(s[k], x)) && (forall k :: p <= k < |s| ==> !le(s[k], x))
  {
    assert forall k :: 0 <= k < |front| ==> front[k] == s[k];
  }

  lemma SplitFront<T>(s: seq<T>, p: nat, x: T)
    requires p < |s|
    ensures var front := s[..|s| - 1]; front[..p] + [x] + front[p..] + [s[|s| - 1]] == s[..p] + [x] + s[p..]
  {}

  /** The places in s that the arrangement takes its elements from: every place, by the order, ties by place. */
  ghost predicate Arranges<T>(s: seq<T>, order: seq<nat>, sorted: seq<T>, le: (T, T) -> bool) {
    && |order| == |sorted| == |s|
    && (forall i: nat :: i in order <==> i < |s|)
    && (forall k :: 0 <= k < |order| ==> order[k] < |s| && sorted[k] == s[order[k]])
    && (forall j, k :: 0 <= j < k < |order| ==> le(sorted[j], sorted[k]) && (le(sorted[k], sorted[j]) ==> order[j] < order[k]))
  }

  lemma SortUnfolds<T(!new)>(s: seq<T>, le: (T, T) -> bool)
    requires s != []
    ensures Sort(s, le) == Insert(Sort(s[..|s| - 1], le), s[|s| - 1], le)
  {}

  lemma NothingToArrange<T(!new)>(s: seq<T>, le: (T, T) -> bool)
    requires s == []
    ensures Arranges(s, [], Sort(s, le), le)
  {}

  /** Sorting is stable. */
  lemma {:induction false} SortArranges<T(!new)>(s: seq<T>, le: (T, T) -> bool) returns (order: seq<nat>)
    requires TotalPreorder(le)
    ensures Arranges(s, order, Sort(s, le), le)
  {
    hide TotalPreorder, Sorted, Arranges, Insert, Sort;
    if s == [] {
      order := [];
      NothingToArrange(s, le);
    } else {
      var n := |s| - 1;
      SortUnfolds(s, le);
      var done := Sort(s[..n], le);
      var before := SortArranges(s[..n], le);
      SortSorts(s[..n], le);
      var p := InsertedAt(done, s[n], le);
      ArrangedLength(s[..n], before, done, le);
      order := before[..p] + [n] + before[p..];
      ArrangesOneMore(s, before, done, p, le);
    }
  }

  lemma ArrangedLength<T>(s: seq<T>, order: seq<nat>, sorted: seq<T>, le: (T, T) -> bool)
    requires Arranges(s, order, sorted, le)
    ensures |order| == |s| == |sorted|
  {}

  lemma Spliced<T>(s: seq<T>, p: nat, x: T)
    requires p <= |s|
    ensures var r := s[..p] + [x] + s[p..];
            |r| == |s| + 1 && forall k :: 0 <= k < |r| ==> r[k] == if k == p then x else s[if k < p then k else k - 1]
    ensures forall y :: y in s[..p] + [x] + s[p..] <==> y in s || y == x
  {
    assert s == s[..p] + s[p..];
  }

  lemma ArrangesOneMore<T(!new)>(s: seq<T>, before: seq<nat>, done: seq<T>, p: nat, le: (T, T) -> bool)
    requires s != [] && Arranges(s[..|s| - 1], before, done, le) && p <= |done| && TotalPreorder(le)
    requires (forall k :: 0 <= k < p ==> le(done[k], s[|s| - 1])) && (forall k :: p <= k < |done| ==> !le(done[k], s[|s| - 1]))
    ensures Arranges(s, before[..p] + [|s| - 1] + before[p..], done[..p] + [s[|s| - 1]] + done[p..], le)
  {
    var n := |s| - 1;
    var order, sorted := before[..p] + [n] + before[p..], done[..p] + [s[n]] + done[p..];
    Spliced(before, p, n);
    Spliced(done, p, s[n]);
    forall k | p <= k < |done| ensures le(s[n], done[k]) && !le(done[k], s[n]) {}
    hide TotalPreorder;
    forall j, k | 0 <= j < k < |order|
      ensures le(sorted[j], sorted[k]) && (le(sorted[k], sorted[j]) ==> order[j] < order[k])
    {
      SplicedPair(s, before, done, p, le, j, k);
    }
  }

  /** Two places of an arrangement into which the last element has been put at p. */
  lemma SplicedPair<T>(s: seq<T>, before: seq<nat>, done: seq<T>, p: nat, le: (T, T) -> bool, j: nat, k: nat)
    requires s != [] && Arranges(s[..|s| - 1], before, done, le) && p <= |done| && j < k <= |done|
    requires forall i :: 0 <= i < p ==> le(done[i], s[|s| - 1])
    requires forall i :: p <= i < |done| ==> le(s[|s| - 1], done[i]) && !le(done[i], s[|s| - 1])
    ensures var order, sorted := before[..p] + [|s| - 1] + before[p..], done[..p] + [s[|s| - 1]] + done[p..];
            le(sorted[j], sorted[k]) && (le(sorted[k], sorted[j]) ==> order[j] < order[k])
  {
    var a, b := if j < p then j else j - 1, if k < p then k else k - 1;
    assert j != p && k != p ==> a < b;
  }

  ghost predicate NoTies<T>(a: seq<T>, le: (T, T) -> bool) {
    forall x, y :: x in a && y in a && le(x, y) && le(y, x) ==> x == y
  }

  lemma LastAgrees<T>(a: seq<T>, b: seq<T>, le: (T, T) -> bool)
    requires a != [] && multiset(a) == multiset(b) && |a| == |b|
    requires Sorted(a, le) && Sorted(b, le) && NoTies(a, le)
    ensures a[|a| - 1] == b[|b| - 1]
  {
    var n := |a| - 1;
    SameMembers(a, b);
    assert a[n] in b && b[n] in a;
    var i :| 0 <= i < |b| && b[i] == a[n];
    var j :| 0 <= j < |a| && a[j] == b[n];
    if i != n && j != n {
      assert le(b[i], b[n]) && le(a[j], a[n]);
    }
  }

  lemma DropLast<T>(a: seq<T>)
    requires a != []
    ensures multiset(a[..|a| - 1]) == multiset(a) - multiset{a[|a| - 1]}
  {
    assert a == a[..|a| - 1] + [a[|a| - 1]];
  }

  /** Taking the same thing from both leaves the same things. */
  lemma DropSame<T>(a: seq<T>, b: seq<T>, k: nat)
    requires multiset(a) == multiset(b) && a != [] && k < |b| && b[k] == a[|a| - 1]
    ensures multiset(b[..k] + b[k + 1..]) == multiset(a[..|a| - 1])
  {
    assert b == b[..k] + [b[k]] + b[k + 1..];
    DropLast(a);
  }

  /** Two sorted arrangements of the same things are equal when no two of them tie. */
  lemma {:induction false} SortedIsUnique<T>(a: seq<T>, b: seq<T>, le: (T, T) -> bool)
    requires multiset(a) == multiset(b) && Sorted(a, le) && Sorted(b, le) && NoTies(a, le)
    ensures a == b
  {
    assert |multiset(a)| == |a| && |multiset(b)| == |b|;
    if a != [] {
      LastAgrees(a, b, le);
      DropLast(a);
      DropLast(b);
      SortedIsUnique(a[..|a| - 1], b[..|b| - 1], le);
      assert a == a[..|a| - 1] + [a[|a| - 1]] && b == b[..|b| - 1] + [b[|b| - 1]];
    }
  }
}
