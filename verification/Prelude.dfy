/** Small vocabulary shared by every other module. */
module Prelude {
  datatype Option<+T> = None | Some(value: T)

  predicate Distinct<T(==)>(s: seq<T>) {
    forall i, j :: 0 <= i < j < |s| ==> s[i] != s[j]
  }

  function Elements<T>(s: seq<T>): set<T> {
    set x | x in s
  }

  lemma {:induction false} DistinctCardinality<T>(s: seq<T>)
    requires Distinct(s)
    ensures |Elements(s)| == |s|
  {
    if s == [] {
      assert Elements(s) == {};
    } else {
      var front := s[..|s| - 1];
      DistinctCardinality(front);
      assert s == front + [s[|s| - 1]];
      assert Elements(s) == Elements(front) + {s[|s| - 1]};
    }
  }

  function Mapped<T, U>(items: seq<T>, f: T -> U): (r: seq<U>)
    ensures |r| == |items| && forall i :: 0 <= i < |r| ==> r[i] == f(items[i])
  {
    seq(|items|, i requires 0 <= i < |items| => f(items[i]))
  }

  lemma CountedTwice<T>(s: seq<T>, i: nat, j: nat)
    requires i < j < |s|
    ensures s[i] == s[j] ==> multiset(s)[s[i]] >= 2
  {
    var front, rest := s[..j], s[j..];
    assert s == front + rest && front[i] == s[i] && rest[0] == s[j];
    assert s[i] in multiset(front) && s[j] in multiset(rest);
  }

  lemma {:induction false} DistinctOnce<T>(s: seq<T>, x: T)
    requires Distinct(s)
    ensures multiset(s)[x] == if x in s then 1 else 0
  {
    if s != [] {
      var front, last := s[..|s| - 1], s[|s| - 1];
      DistinctOnce(front, x);
      assert s == front + [last];
    }
  }

  /** Against a list without repetition: the same elements, each once, is a rearrangement. */
  lemma SameOnceIsRearranged<T>(a: seq<T>, b: seq<T>)
    requires Distinct(b)
    ensures Distinct(a) && Elements(a) == Elements(b) <==> multiset(a) == multiset(b)
  {
    if Distinct(a) && Elements(a) == Elements(b) {
      forall x ensures multiset(a)[x] == multiset(b)[x] {
        DistinctOnce(a, x);
        DistinctOnce(b, x);
        assert x in a <==> x in Elements(a);
        assert x in b <==> x in Elements(b);
      }
    }
    if multiset(a) == multiset(b) {
      forall x ensures x in a <==> x in b {
        assert x in a <==> x in multiset(a);
        assert x in b <==> x in multiset(b);
      }
      forall i, j | 0 <= i < j < |a| ensures a[i] != a[j] {
        CountedTwice(a, i, j);
        DistinctOnce(b, a[i]);
      }
    }
  }
}
