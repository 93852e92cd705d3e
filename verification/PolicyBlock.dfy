/** Replacing this contract's own block in a rule file, leaving the rest of the file alone. */
module PolicyBlock {
  import opened Prelude
  import opened Strings

  datatype Marker = Start | End | LegacyStart | LegacyEnd

  function Name(m: Marker): (n: string)
    ensures |n| > 20 && forall i :: 0 <= i < |n| ==> n[i] == '_' || 'A' <= n[i] <= 'Z'
  {
    match m
    case Start => "SERVERPILOT_GLOBAL_START"
    case End => "SERVERPILOT_GLOBAL_END"
    case LegacyStart => "GPU_BROKER_GLOBAL_START"
    case LegacyEnd => "GPU_BROKER_GLOBAL_END"
  }

  /** Every marker opens with its only '<', ends with its only '>' and holds no line break. */
  function Text(m: Marker): (t: string)
    ensures 1 < |t| && t[0] == '<' && t[|t| - 1] == '>'
    ensures forall i :: 1 <= i < |t| - 1 ==> t[i] != '<' && t[i] != '>' && t[i] != '\n'
  {
    "<!-- " + Name(m) + " -->"
  }

  datatype Merged = Merged(text: string) | IncompleteMarkers | DuplicatedMarkers | MalformedMarkers

  function RenderPolicyBlock(policy: string): string {
    Text(Start) + "\n" + RStrip(policy) + "\n" + Text(End) + "\n"
  }

  function Replace(existing: string, start: Marker, end: Marker, block: string): Merged
    requires Find(existing, Text(start)).Some? && Find(existing, Text(end)).Some?
  {
    var begin, finish := Find(existing, Text(start)).value, Find(existing, Text(end)).value;
    if finish < begin then MalformedMarkers
    else
      Merged(RStrip(existing[..begin]) + "\n\n" + RStrip(block) + "\n" + LStrip(existing[finish + |Text(end)|..]))
  }

  function MergePolicyBlock(existing: string, block: string): Merged {
    var current, legacy := Count(existing, Text(Start)), Count(existing, Text(LegacyStart));
    if current != Count(existing, Text(End)) || legacy != Count(existing, Text(LegacyEnd)) then IncompleteMarkers
    else if current > 1 || legacy > 1 then DuplicatedMarkers
    else if current > 0 && legacy > 0 then DuplicatedMarkers
    else if current > 0 then
      Replace(existing, Start, End, block)
    else if legacy > 0 then
      Replace(existing, LegacyStart, LegacyEnd, block)
    else if Strip(existing) == "" then Merged(block)
    else Merged(RStrip(existing) + "\n\n" + block)
  }

  /** How often each of the four markers stands in the text. */
  predicate Stands(s: string, start: nat, end: nat, legacyStart: nat, legacyEnd: nat) {
    && Count(s, Text(Start)) == start && Count(s, Text(End)) == end
    && Count(s, Text(LegacyStart)) == legacyStart && Count(s, Text(LegacyEnd)) == legacyEnd
  }

  /** The first start marker comes before the first end marker. */
  predicate Opens(s: string, start: Marker, end: Marker) {
    && Find(s, Text(start)).Some? && Find(s, Text(end)).Some?
    && Find(s, Text(start)).value <= Find(s, Text(end)).value
  }

  /**
   A file is accepted exactly when it holds no marker, or one block of one kind, the
   right way round; refused as malformed when that one block is the wrong way round, as
   incomplete when starts and ends of a kind differ in number, and as duplicated otherwise.
   */
  lemma AcceptedExactly(existing: string, block: string)
    ensures var r := MergePolicyBlock(existing, block);
            && (r.Merged? <==>
                  || Stands(existing, 0, 0, 0, 0)
                  || (Stands(existing, 1, 1, 0, 0) && Opens(existing, Start, End))
                  || (Stands(existing, 0, 0, 1, 1) && Opens(existing, LegacyStart, LegacyEnd)))
            && (r.MalformedMarkers? <==>
                  || (Stands(existing, 1, 1, 0, 0) && !Opens(existing, Start, End))
                  || (Stands(existing, 0, 0, 1, 1) && !Opens(existing, LegacyStart, LegacyEnd)))
            && (r.IncompleteMarkers? <==>
                  || Count(existing, Text(Start)) != Count(existing, Text(End))
                  || Count(existing, Text(LegacyStart)) != Count(existing, Text(LegacyEnd)))
  {}

  // ---------------------------------------------------------------------------
  // The four markers
  // ---------------------------------------------------------------------------

  lemma NamesDiffer(m: Marker, n: Marker)
    requires m != n
    ensures exists i :: 0 <= i < |Name(m)| && i < |Name(n)| && Name(m)[i] != Name(n)[i]
  {
    assert Name(Start)[0] == Name(End)[0] == 'S' && Name(LegacyStart)[0] == Name(LegacyEnd)[0] == 'G';
    assert Name(Start)[19] == 'S' && Name(End)[19] == 'E';
    assert Name(LegacyStart)[18] == 'S' && Name(LegacyEnd)[18] == 'E';
  }

  lemma NameInText(m: Marker, k: nat)
    requires k < |Name(m)|
    ensures 5 + k < |Text(m)| && Text(m)[5 + k] == Name(m)[k]
  {
    hide Name;
  }

  lemma MarkersDiffer(m: Marker, n: Marker)
    requires m != n
    ensures exists i :: 0 <= i < |Text(m)| && i < |Text(n)| && Text(m)[i] != Text(n)[i]
  {
    hide Name, Text;
    NamesDiffer(m, n);
    var k :| 0 <= k < |Name(m)| && k < |Name(n)| && Name(m)[k] != Name(n)[k];
    NameInText(m, k);
    NameInText(n, k);
  }

  /** Where one marker occurs, another starts no sooner than behind it. */
  lemma MarkersDoNotOverlap(s: string, m: Marker, i: nat, n: Marker, j: nat)
    requires m != n && OccursAt(s, Text(m), i) && OccursAt(s, Text(n), j) && i <= j
    ensures i + |Text(m)| <= j
  {
    NotAtOnePlace(s, m, n, i);
    if i < j < i + |Text(m)| {
      NotInside(s, m, i, n, j);
    }
  }

  lemma NotAtOnePlace(s: string, m: Marker, n: Marker, i: nat)
    requires m != n && OccursAt(s, Text(m), i)
    ensures !OccursAt(s, Text(n), i)
  {
    MarkersDiffer(m, n);
    hide Text;
    var k :| 0 <= k < |Text(m)| && k < |Text(n)| && Text(m)[k] != Text(n)[k];
    CharOf(s, Text(m), i, k);
  }

  lemma NotInside(s: string, m: Marker, i: nat, n: Marker, j: nat)
    requires OccursAt(s, Text(m), i) && i < j < i + |Text(m)|
    ensures !OccursAt(s, Text(n), j)
  {
    hide Text;
    CharOf(s, Text(m), i, j - i);
    assert s[j + 0] != Text(n)[0];
  }

  /** A marker is counted once in itself and never in another. */
  lemma MarkerCountsInMarker(m: Marker, n: Marker)
    ensures Count(Text(n), Text(m)) == if m == n then 1 else 0
  {
    hide Text;
    if m == n {
      CountsItselfOnce(Text(m));
    } else {
      forall i: nat ensures !OccursAt(Text(n), Text(m), i) {
        if OccursAt(Text(n), Text(m), i) {
          CharOf(Text(n), Text(m), i, 0);
          MarkersDoNotOverlap(Text(n), m, i, n, 0);
        }
      }
      NoneCounted(Text(n), Text(m));
    }
  }

  // ---------------------------------------------------------------------------
  // Counting the markers of a file that holds one block
  // ---------------------------------------------------------------------------

  /** A text without a single marker, such as every policy text. */
  ghost predicate Foreign(s: string) {
    forall m :: !Contains(s, Text(m))
  }

  /** The block up to its end marker. */
  function Opening(policy: string): string {
    Text(Start) + ['\n'] + (RStrip(policy) + ['\n'])
  }

  function Block(policy: string): string {
    Opening(policy) + Text(End)
  }

  /** A file with one block and one line break behind it. */
  function Around(before: string, policy: string, after: string): string {
    before + (Block(policy) + ['\n'] + after)
  }

  predicate EndsLine(s: string) {
    s == "" || s[|s| - 1] == '\n'
  }

  lemma RenderedIsBlock(policy: string)
    ensures RenderPolicyBlock(policy) == Block(policy) + ['\n']
    ensures RStrip(RenderPolicyBlock(policy)) == Block(policy)
  {
    hide Text;
    var block := Block(policy);
    assert RenderPolicyBlock(policy) == block + "\n";
    assert block[|block| - 1] == '>';
    RStripBefore(block, "\n");
  }

  lemma EmptyIsForeign()
    ensures Foreign("")
  {
    hide Text;
    forall m, i: nat ensures !OccursAt("", Text(m), i) {
    }
  }

  lemma StrippedIsForeign(s: string)
    requires Foreign(s)
    ensures Foreign(RStrip(s)) && Foreign(LStrip(s))
  {
    hide Contains, Text;
    var left, right := RStrip(s), LStrip(s);
    assert left == s[0..|left|] && right == s[|s| - |right|..|s|];
    forall m ensures !Contains(left, Text(m)) && !Contains(right, Text(m)) {
      PartHasNone(s, 0, |left|, Text(m));
      PartHasNone(s, |s| - |right|, |s|, Text(m));
    }
  }

  lemma ForeignLine(s: string)
    requires Foreign(s)
    ensures Foreign(s + ['\n'])
  {
    hide Contains, Text;
    forall m ensures !Contains(s + ['\n'], Text(m)) {
      NotInSealed(s, '\n', Text(m));
    }
  }

  lemma ForeignCounts(s: string, m: Marker)
    requires Foreign(s)
    ensures Count(s, Text(m)) == 0
  {
    hide Text, Count, Contains;
    NoneCounted(s, Text(m));
  }

  lemma OpeningCounts(policy: string, m: Marker)
    requires Foreign(policy)
    ensures Count(Opening(policy), Text(m)) == if m == Start then 1 else 0
  {
    hide Count, Contains, Text, OccursAt, RStrip, Foreign;
    StrippedIsForeign(policy);
    var body := RStrip(policy);
    ForeignLine(body);
    ForeignCounts(body + ['\n'], m);
    CountAcross(Text(Start), '\n', body + ['\n'], Text(m));
    MarkerCountsInMarker(m, Start);
  }

  lemma BlockIsThreeLines(policy: string)
    ensures Block(policy) == Text(Start) + ['\n'] + (RStrip(policy) + ['\n'] + Text(End))
  {
    hide Text, RStrip;
  }

  lemma BlockCounts(policy: string, m: Marker)
    requires Foreign(policy)
    ensures Count(Block(policy), Text(m)) == if m.Start? || m.End? then 1 else 0
  {
    hide Count, Contains, Text, OccursAt, RStrip, Block;
    BlockIsThreeLines(policy);
    StrippedIsForeign(policy);
    NoneCounted(RStrip(policy), Text(m));
    CountAcrossTwice(Text(Start), RStrip(policy), Text(End), '\n', Text(m));
    MarkerCountsInMarker(m, Start);
    MarkerCountsInMarker(m, End);
  }

  lemma AroundCounts(before: string, policy: string, after: string, m: Marker)
    requires Foreign(policy) && Foreign(before) && Foreign(after) && EndsLine(before)
    ensures Count(Around(before, policy, after), Text(m)) == if m.Start? || m.End? then 1 else 0
  {
    hide Count, Contains, Text, OccursAt, Block;
    CountBehindClean(before, Block(policy) + ['\n'] + after, Text(m));
    CountAcross(Block(policy), '\n', after, Text(m));
    BlockCounts(policy, m);
    NoneCounted(after, Text(m));
  }

  lemma BlockIsFound(before: string, policy: string, after: string)
    requires Foreign(policy) && Foreign(before) && EndsLine(before)
    ensures Find(Around(before, policy, after), Text(Start)) == Some(|before|)
    ensures Find(Around(before, policy, after), Text(End)) == Some(|before| + |Opening(policy)|)
  {
    hide Find, Contains, Count, Text, OccursAt;
    var opening, tail := Opening(policy), ['\n'] + after;
    var rest := Block(policy) + ['\n'] + after;
    var inside := ['\n'] + (RStrip(policy) + ['\n']) + Text(End) + ['\n'] + after;
    assert rest == Text(Start) + inside;
    FoundInFront(Text(Start), inside);
    FindBehindClean(before, rest, Text(Start));
    assert rest == opening + (Text(End) + tail);
    OpeningCounts(policy, End);
    NoneCounted(opening, Text(End));
    FoundInFront(Text(End), tail);
    FindBehindClean(opening, Text(End) + tail, Text(End));
    FindBehindClean(before, rest, Text(End));
  }

  // ---------------------------------------------------------------------------
  // The file outside the block
  // ---------------------------------------------------------------------------

  /** What a file holds before and after its block, current or legacy. */
  function Outside(s: string): (string, string) {
    var (start, end) := if Find(s, Text(Start)).Some? then (Start, End) else (LegacyStart, LegacyEnd);
    var begin, finish := Find(s, Text(start)), Find(s, Text(end));
    if begin.Some? && finish.Some? then (s[..begin.value], s[finish.value + |Text(end)|..]) else (s, "")
  }

  lemma BesideBlock(s: string, start: Marker, end: Marker)
    requires start != end && Count(s, Text(start)) == Count(s, Text(end)) == 1
    requires Find(s, Text(start)).Some? && Find(s, Text(end)).Some?
    requires Find(s, Text(start)).value <= Find(s, Text(end)).value
    requires forall m :: m != start && m != end ==> !Contains(s, Text(m))
    ensures Foreign(s[..Find(s, Text(start)).value]) && Foreign(s[Find(s, Text(end)).value + |Text(end)|..])
  {
    hide Contains, Count, Text, OccursAt;
    var i, j := Find(s, Text(start)).value, Find(s, Text(end)).value;
    MarkersDoNotOverlap(s, start, i, end, j);
    PairSplits(s, Text(start), Text(end), i, j);
    assert s[..i] == s[0..i] && s[j + |Text(end)|..] == s[j + |Text(end)|..|s|];
    forall m ensures !Contains(s[..i], Text(m)) && !Contains(s[j + |Text(end)|..], Text(m)) {
      if m != start && m != end {
        PartHasNone(s, 0, i, Text(m));
        PartHasNone(s, j + |Text(end)|, |s|, Text(m));
      }
    }
  }

  lemma OutsideIsForeign(s: string, block: string)
    requires MergePolicyBlock(s, block).Merged?
    ensures Foreign(Outside(s).0) && Foreign(Outside(s).1)
  {
    hide Contains, Text, OccursAt, Count, RStrip, LStrip, Strip;
    forall m ensures Count(s, Text(m)) == 0 <==> !Contains(s, Text(m)) {
      NoneCounted(s, Text(m));
    }
    EmptyIsForeign();
    if Count(s, Text(Start)) > 0 {
      BesideBlock(s, Start, End);
    } else if Count(s, Text(LegacyStart)) > 0 {
      BesideBlock(s, LegacyStart, LegacyEnd);
    } else {
      forall m ensures !Contains(s, Text(m)) {
        match m {
          case Start =>
          case End =>
          case LegacyStart =>
          case LegacyEnd =>
        }
      }
    }
  }

  // ---------------------------------------------------------------------------
  // What an install leaves
  // ---------------------------------------------------------------------------

  /** The file an install leaves: one block, blank runs at its seams made regular. */
  function Installed(existing: string, policy: string): string {
    var (before, after) := Outside(existing);
    Around(if Strip(existing) == "" then "" else RStrip(before) + "\n\n", policy, LStrip(after))
  }

  lemma BlankIsForeign(s: string)
    requires Blank(s)
    ensures Foreign(s)
  {
    hide Text;
    forall m, i: nat ensures !OccursAt(s, Text(m), i) {
      if OccursAt(s, Text(m), i) { CharOf(s, Text(m), i, 0); }
    }
  }

  lemma SeamText(a: string, block: string, c: string)
    ensures a + "\n\n" + block + "\n" + c == a + "\n\n" + (block + ['\n'] + c)
    ensures a + "\n\n" + (block + ['\n']) == a + "\n\n" + (block + ['\n'] + "")
    ensures "" + (block + ['\n'] + "") == block + ['\n']
  {}

  lemma InstallLeaves(existing: string, policy: string)
    requires MergePolicyBlock(existing, RenderPolicyBlock(policy)).Merged?
    ensures MergePolicyBlock(existing, RenderPolicyBlock(policy)) == Merged(Installed(existing, policy))
  {
    hide Contains, Count, Text, Block, OccursAt, RStrip, LStrip, Blank, Strip, RenderPolicyBlock;
    RenderedIsBlock(policy);
    forall m ensures Count(existing, Text(m)) == 0 <==> !Contains(existing, Text(m)) {
      NoneCounted(existing, Text(m));
    }
    var (before, after) := Outside(existing);
    SeamText(RStrip(before), Block(policy), LStrip(after));
    if Strip(existing) == "" {
      BlankStrips(existing);
      BlankIsForeign(existing);
    }
  }

  lemma InstalledIsAround(existing: string, policy: string)
    requires Foreign(policy) && MergePolicyBlock(existing, RenderPolicyBlock(policy)).Merged?
    ensures var (before, after) := Outside(existing);
            var seam := if Strip(existing) == "" then "" else RStrip(before) + "\n\n";
            && Installed(existing, policy) == Around(seam, policy, LStrip(after))
            && Foreign(seam) && EndsLine(seam) && Foreign(LStrip(after))
  {
    hide MergePolicyBlock, Contains, Text, Around, RStrip, LStrip, Strip, Outside, RenderPolicyBlock;
    var (before, after) := Outside(existing);
    OutsideIsForeign(existing, RenderPolicyBlock(policy));
    StrippedIsForeign(before);
    StrippedIsForeign(after);
    EmptyIsForeign();
    ForeignLine(RStrip(before));
    ForeignLine(RStrip(before) + ['\n']);
    assert RStrip(before) + ['\n'] + ['\n'] == RStrip(before) + "\n\n";
  }

  /** Whatever was accepted, one current block is left, it is the rendered one, and no legacy marker. */
  lemma OneBlockRemains(existing: string, policy: string)
    requires Foreign(policy) && MergePolicyBlock(existing, RenderPolicyBlock(policy)).Merged?
    ensures var file := MergePolicyBlock(existing, RenderPolicyBlock(policy)).text;
            && Count(file, Text(Start)) == Count(file, Text(End)) == 1
            && Count(file, Text(LegacyStart)) == Count(file, Text(LegacyEnd)) == 0
            && (exists before, after :: file == before + RenderPolicyBlock(policy) + after)
  {
    hide MergePolicyBlock, Count, Contains, Text, Foreign, RStrip, LStrip, Strip, Outside, Block;
    InstallLeaves(existing, policy);
    InstalledIsAround(existing, policy);
    RenderedIsBlock(policy);
    var (before, after) := Outside(existing);
    var seam := if Strip(existing) == "" then "" else RStrip(before) + "\n\n";
    AroundCounts(seam, policy, LStrip(after), Start);
    AroundCounts(seam, policy, LStrip(after), End);
    AroundCounts(seam, policy, LStrip(after), LegacyStart);
    AroundCounts(seam, policy, LStrip(after), LegacyEnd);
    assert Around(seam, policy, LStrip(after)) == seam + RenderPolicyBlock(policy) + LStrip(after);
  }

  lemma OutsideAround(before: string, policy: string, after: string)
    requires Foreign(policy) && Foreign(before) && EndsLine(before)
    ensures Outside(Around(before, policy, after)) == (before, ['\n'] + after)
  {
    hide Text, Find, Contains, Foreign, RStrip;
    BlockIsFound(before, policy, after);
    var file, end := Around(before, policy, after), |before| + |Opening(policy)| + |Text(End)|;
    assert file[..|before|] == before;
    assert file == before + Block(policy) + (['\n'] + after);
    assert file[end..] == ['\n'] + after;
  }

  lemma {:induction false} StripTwice(s: string)
    ensures RStrip(RStrip(s)) == RStrip(s)
    ensures LStrip(LStrip(s)) == LStrip(s)
  {}

  lemma TwoLinesAreBlank()
    ensures Blank("\n\n") && Blank(['\n'])
  {}

  /** A blank file has nothing but blanks before a block it does not have. */
  lemma BlankOutside(existing: string)
    requires Strip(existing) == ""
    ensures Outside(existing) == (existing, "") && RStrip(existing) == "" == RStrip("")
  {
    hide Text, RStrip, LStrip;
    BlankStrips(existing);
    BlankStrips("");
    BlankIsForeign(existing);
  }

  lemma SeamsAreBlank(existing: string)
    ensures var (before, after) := Outside(existing);
            && RStrip(if Strip(existing) == "" then "" else RStrip(before) + "\n\n") == RStrip(before)
            && LStrip(['\n'] + LStrip(after)) == LStrip(after)
  {
    hide Text, Find, RStrip, LStrip, Strip, Blank, Outside;
    var (before, after) := Outside(existing);
    TwoLinesAreBlank();
    RStripBefore(RStrip(before), "\n\n");
    LStripAfter(['\n'], LStrip(after));
    StripTwice(before);
    StripTwice(after);
    if Strip(existing) == "" {
      BlankOutside(existing);
    }
  }

  ghost predicate SameOutside(a: string, b: string) {
    && RStrip(Outside(a).0) == RStrip(Outside(b).0)
    && LStrip(Outside(a).1) == LStrip(Outside(b).1)
  }

  /** Up to blanks at its seams, the text outside the block survives an install. */
  lemma OutsideSurvives(existing: string, policy: string)
    requires Foreign(policy) && MergePolicyBlock(existing, RenderPolicyBlock(policy)).Merged?
    ensures SameOutside(MergePolicyBlock(existing, RenderPolicyBlock(policy)).text, existing)
  {
    hide MergePolicyBlock, Count, Contains, Text, Foreign, RStrip, LStrip, Strip, Around, Outside;
    InstallLeaves(existing, policy);
    InstalledIsAround(existing, policy);
    var (before, after) := Outside(existing);
    var seam := if Strip(existing) == "" then "" else RStrip(before) + "\n\n";
    OutsideAround(seam, policy, LStrip(after));
    SeamsAreBlank(existing);
  }

  // ---------------------------------------------------------------------------
  // Installing again
  // ---------------------------------------------------------------------------

  /** A file with one block between marker-free texts takes a new block in its place. */
  lemma InstallOverBlock(before: string, policy: string, after: string, next: string)
    requires Foreign(policy) && Foreign(before) && EndsLine(before) && Foreign(after)
    ensures MergePolicyBlock(Around(before, policy, after), RenderPolicyBlock(next)) ==
            Merged(Around(RStrip(before) + "\n\n", next, LStrip(after)))
  {
    hide Count, Contains, Text, Foreign, RStrip, LStrip, Strip, Block, Opening, RenderPolicyBlock, OccursAt;
    var file := Around(before, policy, after);
    AroundCounts(before, policy, after, Start);
    AroundCounts(before, policy, after, End);
    AroundCounts(before, policy, after, LegacyStart);
    AroundCounts(before, policy, after, LegacyEnd);
    BlockIsFound(before, policy, after);
    assert |before| <= |before| + |Opening(policy)|;
    InstallLeaves(file, next);
    OutsideAround(before, policy, after);
    LStripAfter(['\n'], after);
    BlankHasNoMarker(file, Start);
  }

  lemma BlankHasNoMarker(s: string, m: Marker)
    requires Count(s, Text(m)) == 1
    ensures Strip(s) != ""
  {
    if Strip(s) == "" {
      BlankStrips(s);
      BlankIsForeign(s);
      NoneCounted(s, Text(m));
    }
  }

  lemma AcceptanceIgnoresTheBlock(existing: string, first: string, second: string)
    ensures MergePolicyBlock(existing, first).Merged? <==> MergePolicyBlock(existing, second).Merged?
  {
    hide Count, Find, Text, RStrip, LStrip, Strip;
  }

  lemma InstallOverInstalled(existing: string, first: string, second: string)
    requires Foreign(first) && Strip(existing) != "" && MergePolicyBlock(existing, RenderPolicyBlock(first)).Merged?
    ensures MergePolicyBlock(Installed(existing, first), RenderPolicyBlock(second)) == Merged(Installed(existing, second))
  {
    hide MergePolicyBlock, Foreign, RStrip, LStrip, Strip, Block, RenderPolicyBlock, Outside, Around;
    InstalledIsAround(existing, first);
    var (before, after) := Outside(existing);
    InstallOverBlock(RStrip(before) + "\n\n", first, LStrip(after), second);
    RStripBefore(RStrip(before), "\n\n");
    StripTwice(before);
    StripTwice(after);
  }

  /** Over any accepted non-blank file, a later install leaves what it alone would have left. */
  lemma LastInstallWins(existing: string, first: string, second: string)
    requires Foreign(first) && Strip(existing) != "" && MergePolicyBlock(existing, RenderPolicyBlock(first)).Merged?
    ensures var once := MergePolicyBlock(existing, RenderPolicyBlock(first)).text;
            MergePolicyBlock(once, RenderPolicyBlock(second)) == MergePolicyBlock(existing, RenderPolicyBlock(second))
  {
    hide MergePolicyBlock, Foreign, Strip, Block, RenderPolicyBlock, Installed;
    InstallLeaves(existing, first);
    AcceptanceIgnoresTheBlock(existing, RenderPolicyBlock(first), RenderPolicyBlock(second));
    InstallLeaves(existing, second);
    InstallOverInstalled(existing, first, second);
  }

  /** A blank file changes once more: the second install puts a blank line on top, and the third keeps it. */
  lemma BlankSettlesAtTheSecond(existing: string, policy: string)
    requires Foreign(policy) && Strip(existing) == ""
    ensures var block := RenderPolicyBlock(policy);
            && MergePolicyBlock(existing, block) == Merged(block)
            && MergePolicyBlock(block, block) == Merged("\n\n" + block) != Merged(block)
            && MergePolicyBlock("\n\n" + block, block) == Merged("\n\n" + block)
  {
    hide MergePolicyBlock, Count, Contains, Text, Foreign, LStrip, RStrip, Strip, RenderPolicyBlock, Around;
    var block := RenderPolicyBlock(policy);
    BlankIsMerged(existing, block);
    EmptyIsForeign();
    BlankIsForeign("\n\n");
    AroundPlain("", policy);
    AroundPlain("\n\n", policy);
    InstallOverBlock("", policy, "", policy);
    InstallOverBlock("\n\n", policy, "", policy);
    RStripBefore("", "\n\n");
    assert "" + "\n\n" == "\n\n" && "" + block == block && |"\n\n" + block| == |block| + 2;
  }

  lemma BlankIsMerged(existing: string, block: string)
    requires Strip(existing) == ""
    ensures MergePolicyBlock(existing, block) == Merged(block)
  {
    hide Text;
    BlankStrips(existing);
    BlankIsForeign(existing);
    forall m ensures Count(existing, Text(m)) == 0 {
      NoneCounted(existing, Text(m));
    }
  }

  lemma AroundPlain(before: string, policy: string)
    ensures Around(before, policy, "") == before + RenderPolicyBlock(policy)
  {
    hide Block;
    RenderedIsBlock(policy);
  }

  /** Installing the same policy twice changes nothing the second time, exactly when the file is not blank. */
  lemma IdempotentExactlyOffBlank(existing: string, policy: string)
    requires Foreign(policy) && MergePolicyBlock(existing, RenderPolicyBlock(policy)).Merged?
    ensures var once := MergePolicyBlock(existing, RenderPolicyBlock(policy));
            MergePolicyBlock(once.text, RenderPolicyBlock(policy)) == once <==> Strip(existing) != ""
  {
    hide MergePolicyBlock, RenderPolicyBlock, Foreign, Strip;
    if Strip(existing) == "" {
      BlankSettlesAtTheSecond(existing, policy);
    } else {
      LastInstallWins(existing, policy, policy);
    }
  }
}
