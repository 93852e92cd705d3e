/** Searching, splitting, counting and stripping strings, as Python does it. */
module Strings {
  import opened Prelude

  predicate OccursAt(s: string, m: string, i: nat) {
    i + |m| <= |s| && forall j :: 0 <= j < |m| ==> s[i + j] == m[j]
  }

  ghost predicate Contains(s: string, m: string) {
    exists i: nat :: OccursAt(s, m, i)
  }

  /** The first occurrence at or after i. */
  function FindFrom(s: string, m: string, i: nat): (r: Option<nat>)
    requires i <= |s|
    ensures r.Some? ==> i <= r.value && OccursAt(s, m, r.value) && forall k: nat :: i <= k < r.value ==> !OccursAt(s, m, k)
    ensures r.None? ==> forall k: nat :: i <= k ==> !OccursAt(s, m, k)
    decreases |s| - i
  {
    if OccursAt(s, m, i) then Some(i) else if i == |s| then None else FindFrom(s, m, i + 1)
  }

  function Find(s: string, m: string): (r: Option<nat>)
    ensures r.Some? ==> r.value + |m| <= |s|
    ensures r.Some? ==> OccursAt(s, m, r.value) && forall k: nat :: k < r.value ==> !OccursAt(s, m, k)
    ensures r.None? <==> !Contains(s, m)
  {
    FindFrom(s, m, 0)
  }

  /** Text before and after the first occurrence. */
  function SplitOnce(s: string, m: string): Option<(string, string)> {
    var at := Find(s, m);
    if at.None? then None else Some((s[..at.value], s[at.value + |m|..]))
  }

  /** Occurrences counted from the left without overlap. */
  function Count(s: string, m: string): nat
    requires m != ""
    decreases |s|
  {
    var at := Find(s, m);
    if at.None? then 0 else 1 + Count(s[at.value + |m|..], m)
  }

  lemma FoundWhere(s: string, m: string, i: nat)
    requires OccursAt(s, m, i) && forall k: nat :: k < i ==> !OccursAt(s, m, k)
    ensures Find(s, m) == Some(i)
  {
    assert Contains(s, m);
  }

  lemma CharOf(s: string, m: string, i: nat, j: nat)
    requires OccursAt(s, m, i) && j < |m|
    ensures s[i + j] == m[j]
  {}

  lemma OccursInPart(s: string, from: nat, to: nat, m: string, i: nat)
    requires from <= to <= |s| && OccursAt(s[from..to], m, i)
    ensures OccursAt(s, m, from + i)
  {
    forall j | 0 <= j < |m| ensures s[from + i + j] == m[j] {
      CharOf(s[from..to], m, i, j);
    }
  }

  lemma PartContains(s: string, from: nat, to: nat, m: string)
    requires from <= to <= |s| && Contains(s[from..to], m)
    ensures Contains(s, m)
  {
    var i: nat :| OccursAt(s[from..to], m, i);
    OccursInPart(s, from, to, m, i);
  }

  /** A text that is empty or ends with a character foreign to the marker. */
  predicate Sealed(a: string, m: string) {
    a == "" || a[|a| - 1] !in m
  }

  /** What is put behind a sealed text adds no occurrence that starts inside it. */
  lemma NoStraddle(a: string, b: string, m: string, i: nat)
    requires Sealed(a, m) && i < |a| && OccursAt(a + b, m, i)
    ensures OccursAt(a, m, i)
  {
    if i + |m| > |a| {
      CharOf(a + b, m, i, |a| - 1 - i);
    }
    OccursInFront(a, b, m, i);
  }

  lemma OccursBehind(a: string, b: string, m: string, i: nat)
    ensures OccursAt(a + b, m, |a| + i) <==> OccursAt(b, m, i)
  {
    if OccursAt(a + b, m, |a| + i) {
      forall j | 0 <= j < |m| ensures b[i + j] == m[j] { CharOf(a + b, m, |a| + i, j); }
    }
    if OccursAt(b, m, i) {
      forall j | 0 <= j < |m| ensures (a + b)[|a| + i + j] == m[j] { CharOf(b, m, i, j); }
    }
  }

  lemma OccursInFront(a: string, b: string, m: string, i: nat)
    requires i + |m| <= |a|
    ensures OccursAt(a + b, m, i) <==> OccursAt(a, m, i)
  {
    if OccursAt(a + b, m, i) {
      forall j | 0 <= j < |m| ensures a[i + j] == m[j] { CharOf(a + b, m, i, j); }
    }
    if OccursAt(a, m, i) {
      forall j | 0 <= j < |m| ensures (a + b)[i + j] == m[j] { CharOf(a, m, i, j); }
    }
  }

  /** Splitting at a marker undoes putting it between a clean text and anything. */
  lemma SplitInverts(a: string, b: string, m: string)
    requires Sealed(a, m) && !Contains(a, m)
    ensures SplitOnce(a + m + b, m) == Some((a, b))
  {
    var s := a + m + b;
    assert s == a + (m + b);
    forall k: nat | k < |a| ensures !OccursAt(s, m, k) {
      if OccursAt(s, m, k) { NoStraddle(a, m + b, m, k); }
    }
    OccursBehind(a, m + b, m, 0);
    FoundWhere(s, m, |a|);
    assert s[..|a|] == a && s[|a| + |m|..] == b;
  }

  // ---------------------------------------------------------------------------
  // Counting across a seam
  // ---------------------------------------------------------------------------

  lemma FindBehindClean(a: string, b: string, m: string)
    requires Sealed(a, m) && !Contains(a, m)
    ensures Find(a + b, m) == if Find(b, m).Some? then Some(|a| + Find(b, m).value) else None
  {
    forall k: nat | k < |a| ensures !OccursAt(a + b, m, k) {
      if OccursAt(a + b, m, k) { NoStraddle(a, b, m, k); }
    }
    var at := Find(b, m);
    if at.Some? {
      OccursBehind(a, b, m, at.value);
      forall k: nat | k < |a| + at.value ensures !OccursAt(a + b, m, k) {
        if k >= |a| { OccursBehind(a, b, m, k - |a|); }
      }
      FoundWhere(a + b, m, |a| + at.value);
    } else {
      forall k: nat ensures !OccursAt(a + b, m, k) {
        if k >= |a| { OccursBehind(a, b, m, k - |a|); }
      }
    }
  }

  lemma {:induction false} CountBehindClean(a: string, b: string, m: string)
    requires m != "" && Sealed(a, m) && !Contains(a, m)
    ensures Count(a + b, m) == Count(b, m)
  {
    hide Find, Contains, OccursAt, Sealed;
    FindBehindClean(a, b, m);
    var at := Find(b, m);
    if at.Some? {
      assert (a + b)[|a| + at.value + |m|..] == b[at.value + |m|..];
    }
  }

  /** A seam with a character foreign to the marker splits the count. */
  lemma {:induction false} CountAcross(a: string, c: char, b: string, m: string)
    requires m != "" && c !in m
    ensures Count(a + [c] + b, m) == Count(a, m) + Count(b, m)
    decreases |a|
  {
    hide Find, Contains, OccursAt;
    var at := Find(a, m);
    var s := a + [c] + b;
    if at.None? {
      NotInSealed(a, c, m);
      CountBehindClean(a + [c], b, m);
    } else {
      var i := at.value;
      assert s == a + ([c] + b);
      FindInFront(a, [c] + b, m);
      var rest := a[i + |m|..];
      assert s[i + |m|..] == rest + [c] + b;
      CountAcross(rest, c, b, m);
    }
  }

  lemma CountAcrossTwice(a: string, b: string, d: string, c: char, m: string)
    requires m != "" && c !in m
    ensures Count(a + [c] + (b + [c] + d), m) == Count(a, m) + Count(b, m) + Count(d, m)
  {
    hide Count;
    CountAcross(b, c, d, m);
    CountAcross(a, c, b + [c] + d, m);
  }

  lemma FindInFront(a: string, b: string, m: string)
    requires Contains(a, m)
    ensures Find(a + b, m) == Find(a, m)
  {
    var i := Find(a, m).value;
    OccursInFront(a, b, m, i);
    forall k: nat | k < i ensures !OccursAt(a + b, m, k) {
      OccursInFront(a, b, m, k);
    }
    FoundWhere(a + b, m, i);
  }

  lemma NotInSealed(a: string, c: char, m: string)
    requires m != "" && c !in m && !Contains(a, m)
    ensures !Contains(a + [c], m)
  {
    forall i: nat ensures !OccursAt(a + [c], m, i) {
      if OccursAt(a + [c], m, i) {
        if i + |m| <= |a| {
          OccursInFront(a, [c], m, i);
        } else {
          CharOf(a + [c], m, i, |m| - 1);
        }
      }
    }
  }

  lemma NoneCounted(s: string, m: string)
    requires m != ""
    ensures Count(s, m) == 0 <==> !Contains(s, m)
  {}

  lemma OnlyOne(s: string, m: string)
    requires m != "" && Count(s, m) == 1
    ensures Find(s, m).Some? && !Contains(s[Find(s, m).value + |m|..], m)
  {
    var at := Find(s, m);
    NoneCounted(s[at.value + |m|..], m);
  }

  lemma PartHasNone(s: string, from: nat, to: nat, m: string)
    requires from <= to <= |s| && !Contains(s, m)
    ensures !Contains(s[from..to], m)
  {
    if Contains(s[from..to], m) { PartContains(s, from, to, m); }
  }

  /** The text before the first occurrence holds none. */
  lemma FrontHasNone(s: string, to: nat, m: string)
    requires to <= |s| && m != "" && Find(s, m).Some? && to <= Find(s, m).value
    ensures !Contains(s[..to], m)
  {
    forall k: nat ensures !OccursAt(s[..to], m, k) {
      if OccursAt(s[..to], m, k) {
        assert s[..to] == s[0..to];
        OccursInPart(s, 0, to, m, k);
      }
    }
  }

  /** With one start and one end behind it, the text on either side holds neither. */
  lemma PairSplits(s: string, start: string, end: string, i: nat, j: nat)
    requires start != "" && Count(s, start) == 1 && Find(s, start) == Some(i)
    requires end != "" && Count(s, end) == 1 && Find(s, end) == Some(j)
    requires i + |start| <= j
    ensures !Contains(s[..i], start) && !Contains(s[..i], end)
    ensures !Contains(s[j + |end|..], start) && !Contains(s[j + |end|..], end)
  {
    hide Count, OccursAt, Contains;
    OnlyOne(s, start);
    OnlyOne(s, end);
    FrontHasNone(s, i, start);
    FrontHasNone(s, i, end);
    var rest, from := s[i + |start|..], j + |end| - (i + |start|);
    assert s[j + |end|..] == rest[from..|rest|];
    PartHasNone(rest, from, |rest|, start);
  }

  lemma FoundInFront(m: string, b: string)
    ensures Find(m + b, m) == Some(0)
  {
    FoundWhere(m + b, m, 0);
  }

  lemma CountsItselfOnce(m: string)
    requires m != ""
    ensures Count(m, m) == 1
  {
    FoundWhere(m, m, 0);
    assert m[|m|..] == "";
    assert !OccursAt("", m, 0);
    NoneCounted("", m);
  }

  // ---------------------------------------------------------------------------
  // Whitespace
  // ---------------------------------------------------------------------------

  /** The characters Python's str.strip() removes. */
  predicate IsSpace(c: char) {
    || '\t' <= c <= '\r' || c == ' '
    || '\U{1c}' <= c <= '\U{1f}' || c == '\U{85}' || c == '\U{a0}' || c == '\U{1680}'
    || '\U{2000}' <= c <= '\U{200a}' || c == '\U{2028}' || c == '\U{2029}'
    || c == '\U{202f}' || c == '\U{205f}' || c == '\U{3000}'
  }

  function LStrip(s: string): (r: string)
    ensures r == "" || !IsSpace(r[0])
    ensures |r| <= |s| && r == s[|s| - |r|..]
  {
    if s == "" || !IsSpace(s[0]) then s else LStrip(s[1..])
  }

  function RStrip(s: string): (r: string)
    ensures r == "" || !IsSpace(r[|r| - 1])
    ensures |r| <= |s| && r == s[..|r|]
  {
    if s == "" || !IsSpace(s[|s| - 1]) then s else RStrip(s[..|s| - 1])
  }

  function Strip(s: string): string {
    RStrip(LStrip(s))
  }

  predicate Blank(s: string) {
    forall i :: 0 <= i < |s| ==> IsSpace(s[i])
  }

  lemma {:induction false} RStripBefore(s: string, blank: string)
    requires Blank(blank)
    ensures RStrip(s + blank) == RStrip(s)
  {
    if blank == "" {
      assert s + blank == s;
    } else {
      assert (s + blank)[..|s + blank| - 1] == s + blank[..|blank| - 1];
      RStripBefore(s, blank[..|blank| - 1]);
    }
  }

  lemma {:induction false} LStripAfter(blank: string, s: string)
    requires Blank(blank)
    ensures LStrip(blank + s) == LStrip(s)
  {
    if blank == "" {
      assert blank + s == s;
    } else {
      assert (blank + s)[1..] == blank[1..] + s;
      LStripAfter(blank[1..], s);
    }
  }

  lemma {:induction false} BlankStrips(s: string)
    ensures Blank(s) <==> Strip(s) == ""
    ensures Blank(s) <==> RStrip(s) == ""
    ensures Blank(s) <==> LStrip(s) == ""
  {
    LeftBlank(s);
    RightBlank(s);
    RightBlank(LStrip(s));
  }

  lemma {:induction false} LeftBlank(s: string)
    ensures Blank(s) <==> LStrip(s) == ""
  {
    if s != "" && IsSpace(s[0]) {
      LeftBlank(s[1..]);
      assert forall i :: 1 <= i < |s| ==> s[i] == s[1..][i - 1];
      assert Blank(s[1..]) ==> Blank(s);
    }
  }

  lemma {:induction false} RightBlank(s: string)
    ensures Blank(s) <==> RStrip(s) == ""
  {
    if s != "" && IsSpace(s[|s| - 1]) {
      RightBlank(s[..|s| - 1]);
    }
  }
}
