/** Splitting the sealed probe's output into its sections undoes the probe's printing. */
module ProbeSections {
  import opened Prelude
  import opened Strings

  const GPU_SECTION := "__SERVERPILOT_GPU__"
  const PROCESS_SECTION := "__SERVERPILOT_PROCESSES__"
  const PROCESS_DETAILS_SECTION := "__SERVERPILOT_PROCESS_DETAILS__"
  const IDENTITY_SECTION := "__SERVERPILOT_IDENTITY__"
  const HOST_RESOURCES_SECTION := "__SERVERPILOT_HOST_RESOURCES__"

  datatype Sections = Sections(gpu: string, processes: string, details: string, identity: string, host: string)

  datatype Parsed = Parsed(sections: Sections) | Incomplete | LeadingData

  function ParseCombinedProbe(raw: string): Parsed {
    match SplitOnce(raw, GPU_SECTION)
    case None => Incomplete
    case Some((lead, rest0)) =>
      match SplitOnce(rest0, PROCESS_SECTION)
      case None => Incomplete
      case Some((gpu, rest1)) =>
        match SplitOnce(rest1, PROCESS_DETAILS_SECTION)
        case None => Incomplete
        case Some((processes, rest2)) =>
          match SplitOnce(rest2, IDENTITY_SECTION)
          case None => Incomplete
          case Some((details, rest3)) =>
            match SplitOnce(rest3, HOST_RESOURCES_SECTION)
            case None => Incomplete
            case Some((identity, host)) =>
              if Strip(lead) != "" then LeadingData
              else Parsed(Sections(Strip(gpu), Strip(processes), Strip(details), Strip(identity), Strip(host)))
  }

  const MARKERS := [GPU_SECTION, PROCESS_SECTION, PROCESS_DETAILS_SECTION, IDENTITY_SECTION, HOST_RESOURCES_SECTION]

  /** The markers occur one behind the other. */
  ghost predicate InOrder(s: string, markers: seq<string>)
    decreases |markers|
  {
    markers == [] || exists i: nat :: OccursAt(s, markers[0], i) && InOrder(s[i + |markers[0]|..], markers[1..])
  }

  /** What occurs in order behind some place occurs in order behind every earlier place. */
  lemma InOrderEarlier(s: string, k: nat, markers: seq<string>)
    requires k <= |s| && InOrder(s[k..], markers)
    ensures InOrder(s, markers)
  {
    if markers != [] {
      var i: nat :| OccursAt(s[k..], markers[0], i) && InOrder(s[k..][i + |markers[0]|..], markers[1..]);
      assert OccursAt(s, markers[0], k + i);
      assert s[k..][i + |markers[0]|..] == s[k + i + |markers[0]|..];
    }
  }

  /** Taking the first occurrence loses nothing. */
  lemma FirstSuffices(s: string, markers: seq<string>)
    requires markers != []
    ensures InOrder(s, markers) <==>
            SplitOnce(s, markers[0]).Some? && InOrder(SplitOnce(s, markers[0]).value.1, markers[1..])
  {
    var m := markers[0];
    if InOrder(s, markers) {
      var i: nat :| OccursAt(s, m, i) && InOrder(s[i + |m|..], markers[1..]);
      var at := Find(s, m).value;
      var rest := s[at + |m|..];
      assert rest[i - at..] == s[i + |m|..];
      InOrderEarlier(rest, i - at, markers[1..]);
    }
  }

  /** Splitting at one marker after the other succeeds exactly when they occur in order. */
  predicate Splits(s: string, markers: seq<string>)
    decreases |markers|
  {
    markers == [] || (SplitOnce(s, markers[0]).Some? && Splits(SplitOnce(s, markers[0]).value.1, markers[1..]))
  }

  lemma {:induction false} SplitsExactlyInOrder(s: string, markers: seq<string>)
    ensures Splits(s, markers) <==> InOrder(s, markers)
    decreases |markers|
  {
    hide SplitOnce;
    if markers != [] {
      FirstSuffices(s, markers);
      if SplitOnce(s, markers[0]).Some? {
        SplitsExactlyInOrder(SplitOnce(s, markers[0]).value.1, markers[1..]);
      }
    }
  }

  lemma SplitsOff(s: string, first: string, rest: seq<string>)
    ensures Splits(s, [first] + rest) <==> SplitOnce(s, first).Some? && Splits(SplitOnce(s, first).value.1, rest)
  {
    assert ([first] + rest)[1..] == rest;
  }

  /** An output is incomplete exactly when the five markers do not occur in order. */
  lemma IncompleteExactlyWithoutMarkers(raw: string)
    ensures ParseCombinedProbe(raw).Incomplete? <==> !InOrder(raw, MARKERS)
  {
    hide InOrder, SplitOnce, Splits;
    SplitsExactlyInOrder(raw, MARKERS);
    var two, three := [IDENTITY_SECTION, HOST_RESOURCES_SECTION], [PROCESS_DETAILS_SECTION, IDENTITY_SECTION, HOST_RESOURCES_SECTION];
    var four := [PROCESS_SECTION] + three;
    assert MARKERS == [GPU_SECTION] + four && three == [PROCESS_DETAILS_SECTION] + two;
    assert two == [IDENTITY_SECTION] + [HOST_RESOURCES_SECTION];
    SplitsOff(raw, GPU_SECTION, four);
    match SplitOnce(raw, GPU_SECTION)
    case None =>
    case Some((_, rest0)) =>
      SplitsOff(rest0, PROCESS_SECTION, three);
      match SplitOnce(rest0, PROCESS_SECTION)
      case None =>
      case Some((_, rest1)) =>
        SplitsOff(rest1, PROCESS_DETAILS_SECTION, two);
        match SplitOnce(rest1, PROCESS_DETAILS_SECTION)
        case None =>
        case Some((_, rest2)) =>
          SplitsOff(rest2, IDENTITY_SECTION, [HOST_RESOURCES_SECTION]);
          match SplitOnce(rest2, IDENTITY_SECTION)
          case None =>
          case Some((_, rest3)) => LastSplits(rest3);
  }

  lemma LastSplits(s: string)
    ensures Splits(s, [HOST_RESOURCES_SECTION]) <==> SplitOnce(s, HOST_RESOURCES_SECTION).Some?
  {}

  // What the probe prints: every marker on its own line, then its section.

  function FromHost(s: Sections): string {
    "\n" + s.host
  }

  function FromIdentity(s: Sections): string {
    "\n" + s.identity + HOST_RESOURCES_SECTION + FromHost(s)
  }

  function FromDetails(s: Sections): string {
    "\n" + s.details + IDENTITY_SECTION + FromIdentity(s)
  }

  function FromProcesses(s: Sections): string {
    "\n" + s.processes + PROCESS_DETAILS_SECTION + FromDetails(s)
  }

  function FromGpu(s: Sections): string {
    "\n" + s.gpu + PROCESS_SECTION + FromProcesses(s)
  }

  function Printed(lead: string, s: Sections): string {
    lead + GPU_SECTION + FromGpu(s)
  }

  /** Empty or ending its last line, and free of the marker that follows. */
  ghost predicate Clean(section: string, next: string) {
    (section == "" || section[|section| - 1] == '\n') && !Contains(section, next)
  }

  ghost predicate Printable(s: Sections) {
    && Clean(s.gpu, PROCESS_SECTION)
    && Clean(s.processes, PROCESS_DETAILS_SECTION)
    && Clean(s.details, IDENTITY_SECTION)
    && Clean(s.identity, HOST_RESOURCES_SECTION)
  }

  lemma SectionSplits(section: string, next: string, rest: string)
    requires Clean(section, next) && '\n' !in next && next != ""
    ensures SplitOnce("\n" + section + next + rest, next) == Some(("\n" + section, rest))
  {
    forall i: nat ensures !OccursAt("\n" + section, next, i) {
      if i > 0 {
        OccursBehind("\n", section, next, i - 1);
      } else if OccursAt("\n" + section, next, 0) {
        CharOf("\n" + section, next, 0, 0);
      }
    }
    SplitInverts("\n" + section, rest, next);
  }

  lemma EverySectionSplits(s: Sections)
    requires Printable(s)
    ensures SplitOnce(FromGpu(s), PROCESS_SECTION) == Some(("\n" + s.gpu, FromProcesses(s)))
    ensures SplitOnce(FromProcesses(s), PROCESS_DETAILS_SECTION) == Some(("\n" + s.processes, FromDetails(s)))
    ensures SplitOnce(FromDetails(s), IDENTITY_SECTION) == Some(("\n" + s.details, FromIdentity(s)))
    ensures SplitOnce(FromIdentity(s), HOST_RESOURCES_SECTION) == Some(("\n" + s.identity, FromHost(s)))
  {
    hide SplitOnce, Clean;
    SectionSplits(s.gpu, PROCESS_SECTION, FromProcesses(s));
    SectionSplits(s.processes, PROCESS_DETAILS_SECTION, FromDetails(s));
    SectionSplits(s.details, IDENTITY_SECTION, FromIdentity(s));
    SectionSplits(s.identity, HOST_RESOURCES_SECTION, FromHost(s));
  }

  lemma StripsNewline(section: string)
    ensures Strip("\n" + section) == Strip(section)
  {
    hide LStrip, RStrip;
    LStripAfter("\n", section);
  }

  /** Whatever blank text comes first, parsing returns exactly the stripped sections. */
  lemma ParsingInvertsPrinting(lead: string, s: Sections)
    requires Blank(lead) && Printable(s)
    ensures ParseCombinedProbe(Printed(lead, s)) ==
            Parsed(Sections(Strip(s.gpu), Strip(s.processes), Strip(s.details), Strip(s.identity), Strip(s.host)))
  {
    hide SplitOnce, Strip, Blank, Printable;
    BlankLeadSplits(lead, FromGpu(s));
    EverySectionSplits(s);
    StripsNewline(s.gpu);
    StripsNewline(s.processes);
    StripsNewline(s.details);
    StripsNewline(s.identity);
    StripsNewline(s.host);
    BlankStrips(lead);
  }

  lemma BlankLeadSplits(lead: string, rest: string)
    requires Blank(lead)
    ensures SplitOnce(lead + GPU_SECTION + rest, GPU_SECTION) == Some((lead, rest))
  {
    forall i: nat ensures !OccursAt(lead, GPU_SECTION, i) {
      if OccursAt(lead, GPU_SECTION, i) { CharOf(lead, GPU_SECTION, i, 0); }
    }
    assert forall c :: c in GPU_SECTION ==> !IsSpace(c);
    SplitInverts(lead, rest, GPU_SECTION);
  }

  /** Anything but blanks before the first marker is refused. */
  lemma LeadingDataIsRefused(lead: string, s: Sections)
    requires !Blank(lead) && Clean(lead, GPU_SECTION) && Printable(s)
    ensures ParseCombinedProbe(Printed(lead, s)) == LeadingData
  {
    hide SplitOnce, Strip, Blank, Printable;
    SplitInverts(lead, FromGpu(s), GPU_SECTION);
    EverySectionSplits(s);
    BlankStrips(lead);
  }
}
