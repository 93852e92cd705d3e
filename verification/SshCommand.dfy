/** The one SSH command form the importer accepts, and the normal form it prints. */
module SshCommand {
  import opened Prelude

  /** The three texts the command pattern captures. */
  datatype Fields = Fields(user: string, host: string, port: Option<string>)

  /** A parsed SSH destination. */
  datatype Destination = Destination(user: string, host: string, port: nat)

  // ---------------------------------------------------------------------------
  // Characters
  // ---------------------------------------------------------------------------

  predicate IsBlank(c: char) { c == ' ' }

  predicate IsDigit(c: char) { '0' <= c <= '9' }

  predicate IsLower(c: char) { 'a' <= c <= 'z' }

  predicate IsLetter(c: char) { IsLower(c) || 'A' <= c <= 'Z' }

  predicate IsUserChar(c: char) { IsLetter(c) || IsDigit(c) || c == '_' || c == '-' }

  predicate IsHostChar(c: char) { IsLetter(c) || IsDigit(c) || c == '.' || c == '-' }

  predicate IsAddressChar(c: char) { IsDigit(c) || c == '.' }

  predicate IsSlugChar(c: char) { IsLower(c) || IsDigit(c) }

  const SMALL := "abcdefghijklmnopqrstuvwxyz"
  const CAPITAL := "ABCDEFGHIJKLMNOPQRSTUVWXYZ"
  const DIGITS := "0123456789"

  lemma SmallLetters(c: char)
    ensures IsLower(c) <==> c in SMALL
  {
    assert IsLower(c) ==> SMALL[c as int - 'a' as int] == c;
  }

  lemma CapitalLetters(c: char)
    ensures 'A' <= c <= 'Z' <==> c in CAPITAL
  {
    assert 'A' <= c <= 'Z' ==> CAPITAL[c as int - 'A' as int] == c;
  }

  lemma Digits(c: char)
    ensures IsDigit(c) <==> c in DIGITS
  {
    assert IsDigit(c) ==> DIGITS[c as int - '0' as int] == c;
  }

  /** The classes of the patterns, letter by letter. */
  lemma CharacterClasses(c: char)
    ensures IsLetter(c) <==> c in SMALL || c in CAPITAL
    ensures IsUserChar(c) <==> c in SMALL || c in CAPITAL || c in DIGITS || c == '_' || c == '-'
    ensures IsHostChar(c) <==> c in SMALL || c in CAPITAL || c in DIGITS || c == '.' || c == '-'
    ensures IsAddressChar(c) <==> c in DIGITS || c == '.'
    ensures IsSlugChar(c) <==> c in SMALL || c in DIGITS
  {
    SmallLetters(c);
    CapitalLetters(c);
    Digits(c);
  }

  predicate All(s: string, p: char -> bool) {
    forall i :: 0 <= i < |s| ==> p(s[i])
  }

  /** How many characters at the front satisfy p. */
  function Span(s: string, p: char -> bool): (n: nat)
    ensures n <= |s| && (forall i :: 0 <= i < n ==> p(s[i]))
    ensures n < |s| ==> !p(s[n])
  {
    if s == "" || !p(s[0]) then 0 else 1 + Span(s[1..], p)
  }

  /** The front of a + b is a when a satisfies p and b does not go on with it. */
  lemma SpanIs(a: string, b: string, p: char -> bool)
    requires All(a, p) && (b == "" || !p(b[0]))
    ensures Span(a + b, p) == |a| && (a + b)[..|a|] == a && (a + b)[|a|..] == b
  {
    assert b != "" ==> (a + b)[|a|] == b[0];
    assert forall i :: 0 <= i < |a| ==> (a + b)[i] == a[i];
  }

  // ---------------------------------------------------------------------------
  // The command pattern
  // ---------------------------------------------------------------------------

  predicate IsUser(s: string) {
    1 <= |s| <= 32 && All(s, IsUserChar) && !IsDigit(s[0]) && s[0] != '-'
  }

  /** A user is a letter or an underscore and up to 31 more characters. */
  lemma UsersAreExact(s: string)
    ensures IsUser(s) <==>
            exists first, rest :: s == [first] + rest && (IsLetter(first) || first == '_') && |rest| <= 31 && All(rest, IsUserChar)
  {
    if IsUser(s) {
      assert s == [s[0]] + s[1..];
    }
    if first, rest :| s == [first] + rest && (IsLetter(first) || first == '_') && |rest| <= 31 && All(rest, IsUserChar) {
      assert forall i :: 1 <= i < |s| ==> s[i] == rest[i - 1];
    }
  }

  predicate IsPortText(s: string) {
    s != "" && All(s, IsDigit)
  }

  predicate IsHostText(s: string) {
    s != "" && All(s, IsHostChar)
  }

  predicate WellFormed(f: Fields) {
    IsUser(f.user) && IsHostText(f.host) && (f.port.Some? ==> IsPortText(f.port.value))
  }

  /** How many spaces stand at each of the five places; the two inner ones matter with a port only. */
  datatype Layout = Layout(lead: nat, afterSsh: nat, afterFlag: nat, afterPort: nat, trail: nat)

  predicate Spaced(l: Layout) {
    l.afterSsh >= 1 && l.afterFlag >= 1 && l.afterPort >= 1
  }

  function Blanks(n: nat): (s: string)
    ensures |s| == n && All(s, IsBlank)
  {
    seq(n, i => ' ')
  }

  function WrittenTarget(f: Fields, trail: nat): string {
    f.user + ("@" + (f.host + Blanks(trail)))
  }

  function WrittenRest(l: Layout, f: Fields): string {
    match f.port
    case None => WrittenTarget(f, l.trail)
    case Some(port) => "-p" + (Blanks(l.afterFlag) + (port + (Blanks(l.afterPort) + WrittenTarget(f, l.trail))))
  }

  /** The command pattern, read as a grammar: every text it matches and what it captures. */
  function Written(l: Layout, f: Fields): string {
    Blanks(l.lead) + ("ssh" + (Blanks(l.afterSsh) + WrittenRest(l, f)))
  }

  /** What follows one space or more. */
  function AfterBlanks(s: string): Option<string> {
    var n := Span(s, IsBlank);
    if n == 0 then None else Some(s[n..])
  }

  function RecogniseTarget(s: string, port: Option<string>): (r: Option<Fields>)
    ensures r.Some? ==> IsUser(r.value.user) && IsHostText(r.value.host) && r.value.port == port
  {
    var n := Span(s, IsUserChar);
    if !IsUser(s[..n]) || n == |s| || s[n] != '@' then None
    else
      var rest := s[n + 1..];
      var k := Span(rest, IsHostChar);
      if k == 0 || !All(rest[k..], IsBlank) then None else Some(Fields(s[..n], rest[..k], port))
  }

  function RecogniseRest(rest: string): (r: Option<Fields>)
    ensures r.Some? ==> WellFormed(r.value)
  {
    if !("-p" <= rest) then RecogniseTarget(rest, None)
    else
      match AfterBlanks(rest[2..])
      case None => None
      case Some(number) =>
        var n := Span(number, IsDigit);
        if n == 0 then None
        else
          match AfterBlanks(number[n..])
          case None => None
          case Some(target) => RecogniseTarget(target, Some(number[..n]))
  }

  function Recognise(command: string): (r: Option<Fields>)
    ensures r.Some? ==> WellFormed(r.value)
  {
    var text := command[Span(command, IsBlank)..];
    if !("ssh" <= text) then None
    else
      match AfterBlanks(text[3..])
      case None => None
      case Some(rest) => RecogniseRest(rest)
  }

  lemma AfterBlanksInverts(n: nat, rest: string)
    requires n >= 1 && (rest == "" || rest[0] != ' ')
    ensures AfterBlanks(Blanks(n) + rest) == Some(rest)
  {
    SpanIs(Blanks(n), rest, IsBlank);
  }

  lemma BlanksAre(s: string)
    requires All(s, IsBlank)
    ensures s == Blanks(|s|)
  {}

  lemma SeparatorsStandOut()
    ensures !IsUserChar('@') && !IsHostChar(' ')
  {}

  lemma TargetIsRecognised(f: Fields, trail: nat)
    requires WellFormed(f)
    ensures RecogniseTarget(WrittenTarget(f, trail), f.port) == Some(f)
  {
    hide Span, Blanks, IsUserChar, IsHostChar;
    var s, behind := WrittenTarget(f, trail), f.host + Blanks(trail);
    assert !IsUserChar('@') && !IsHostChar(' ') by { SeparatorsStandOut(); }
    SpanIs(f.user, "@" + behind, IsUserChar);
    assert s[|f.user|] == '@' && s[|f.user| + 1..] == behind;
    SpanIs(f.host, Blanks(trail), IsHostChar);
  }

  lemma RestIsRecognised(l: Layout, f: Fields)
    requires Spaced(l) && WellFormed(f)
    ensures RecogniseRest(WrittenRest(l, f)) == Some(f)
    ensures WrittenRest(l, f) != "" && WrittenRest(l, f)[0] != ' '
  {
    hide Span, Blanks, AfterBlanks, RecogniseTarget;
    var target := WrittenTarget(f, l.trail);
    assert target[0] == f.user[0];
    TargetIsRecognised(f, l.trail);
    if f.port.Some? {
      var port := f.port.value;
      var number := port + (Blanks(l.afterPort) + target);
      assert WrittenRest(l, f)[2..] == Blanks(l.afterFlag) + number;
      assert number[0] == port[0];
      AfterBlanksInverts(l.afterFlag, number);
      SpanIs(port, Blanks(l.afterPort) + target, IsDigit);
      AfterBlanksInverts(l.afterPort, target);
    }
  }

  lemma EveryLayoutIsRecognised(l: Layout, f: Fields)
    requires Spaced(l) && WellFormed(f)
    ensures Recognise(Written(l, f)) == Some(f)
  {
    hide Span, Blanks, AfterBlanks, WrittenRest, RecogniseRest, WellFormed;
    var rest := WrittenRest(l, f);
    RestIsRecognised(l, f);
    SpanIs(Blanks(l.lead), "ssh" + (Blanks(l.afterSsh) + rest), IsBlank);
    assert ("ssh" + (Blanks(l.afterSsh) + rest))[3..] == Blanks(l.afterSsh) + rest;
    AfterBlanksInverts(l.afterSsh, rest);
  }

  lemma RecognisedTargetIsWritten(s: string, port: Option<string>) returns (trail: nat)
    requires RecogniseTarget(s, port).Some?
    ensures var f := RecogniseTarget(s, port).value;
            f.port == port && IsUser(f.user) && IsHostText(f.host) && s == WrittenTarget(f, trail)
  {
    var f := RecogniseTarget(s, port).value;
    var n := Span(s, IsUserChar);
    var rest := s[n + 1..];
    var k := Span(rest, IsHostChar);
    trail := |rest| - k;
    BlanksAre(rest[k..]);
    assert rest == f.host + Blanks(trail);
    assert s == f.user + ("@" + rest);
  }

  lemma AfterBlanksIsBehindBlanks(s: string)
    requires AfterBlanks(s).Some?
    ensures var rest := AfterBlanks(s).value;
            |rest| < |s| && s == Blanks(|s| - |rest|) + rest
  {
    var n := Span(s, IsBlank);
    BlanksAre(s[..n]);
  }

  lemma RecognisedRestIsWritten(rest: string, lead: nat, afterSsh: nat) returns (l: Layout)
    requires RecogniseRest(rest).Some? && afterSsh >= 1
    ensures var f := RecogniseRest(rest).value;
            Spaced(l) && WellFormed(f) && rest == WrittenRest(l, f) && l.lead == lead && l.afterSsh == afterSsh
  {
    hide RecogniseTarget, AfterBlanks, Blanks, WrittenTarget, IsUser, IsHostText;
    if "-p" <= rest {
      assert rest == "-p" + rest[2..];
      AfterBlanksIsBehindBlanks(rest[2..]);
      var number := AfterBlanks(rest[2..]).value;
      var n := Span(number, IsDigit);
      assert number == number[..n] + number[n..];
      AfterBlanksIsBehindBlanks(number[n..]);
      var target := AfterBlanks(number[n..]).value;
      var trail := RecognisedTargetIsWritten(target, Some(number[..n]));
      l := Layout(lead, afterSsh, |rest[2..]| - |number|, |number[n..]| - |target|, trail);
    } else {
      var trail := RecognisedTargetIsWritten(rest, None);
      l := Layout(lead, afterSsh, 1, 1, trail);
    }
  }

  lemma RecognisedIsWritten(command: string) returns (l: Layout)
    requires Recognise(command).Some?
    ensures var f := Recognise(command).value;
            Spaced(l) && WellFormed(f) && command == Written(l, f)
  {
    hide RecogniseRest, WrittenRest, AfterBlanks, Blanks, WellFormed, Span;
    var lead := Span(command, IsBlank);
    var front, text, behind := command[..lead], command[lead..], command[lead + 3..];
    BlanksAre(front);
    assert text[3..] == behind;
    AfterBlanksIsBehindBlanks(behind);
    var rest := AfterBlanks(behind).value;
    l := RecognisedRestIsWritten(rest, lead, |behind| - |rest|);
    assert text == "ssh" + behind && command == front + text;
  }

  /** The recogniser accepts exactly the texts of the command pattern and captures what it captures. */
  lemma RecogniseIsThePattern(command: string, f: Fields)
    ensures Recognise(command) == Some(f) <==>
            exists l :: Spaced(l) && WellFormed(f) && command == Written(l, f)
  {
    hide Recognise, Written, WellFormed;
    if Recognise(command) == Some(f) {
      var l := RecognisedIsWritten(command);
    }
    forall l | Spaced(l) && WellFormed(f) && command == Written(l, f) ensures Recognise(command) == Some(f) {
      EveryLayoutIsRecognised(l, f);
    }
  }

  // ---------------------------------------------------------------------------
  // Decimal numbers
  // ---------------------------------------------------------------------------

  function Value(digits: string): nat
    requires All(digits, IsDigit)
  {
    if digits == "" then 0
    else Value(digits[..|digits| - 1]) * 10 + (digits[|digits| - 1] as int - '0' as int)
  }

  function Decimal(n: nat): (s: string)
    ensures s != "" && All(s, IsDigit)
    ensures n > 0 ==> s[0] != '0'
  {
    var last := ('0' as int + n % 10) as char;
    if n < 10 then [last] else Decimal(n / 10) + [last]
  }

  lemma {:induction false} PrintedReadsBack(n: nat)
    ensures Value(Decimal(n)) == n
  {
    var s := Decimal(n);
    if n >= 10 {
      PrintedReadsBack(n / 10);
      assert s[..|s| - 1] == Decimal(n / 10);
    } else {
      assert s[..|s| - 1] == "";
    }
  }

  /** Digits without a needless zero in front are the number's own print. */
  lemma {:induction false} ReadPrintsBack(s: string)
    requires s != "" && All(s, IsDigit) && (s[0] != '0' || s == "0")
    ensures Decimal(Value(s)) == s
    ensures s[0] != '0' ==> Value(s) > 0
  {
    var front, last := s[..|s| - 1], s[|s| - 1] as int - '0' as int;
    assert s == front + [s[|s| - 1]];
    if front != "" {
      ReadPrintsBack(front);
      assert Value(s) / 10 == Value(front) && Value(s) % 10 == last;
    } else {
      assert Value(front) == 0;
    }
  }

  // ---------------------------------------------------------------------------
  // Hosts
  // ---------------------------------------------------------------------------

  predicate NotDot(c: char) { c != '.' }

  function Parts(host: string): (r: seq<string>)
    ensures r != []
    decreases |host|
  {
    var n := Span(host, NotDot);
    if n == |host| then [host] else [host[..n]] + Parts(host[n + 1..])
  }

  function Dotted(parts: seq<string>): string
    requires parts != []
  {
    if |parts| == 1 then parts[0] else parts[0] + "." + Dotted(parts[1..])
  }

  lemma OnePartDotted(part: string)
    ensures Dotted([part]) == part
  {}

  lemma MorePartsDotted(part: string, rest: seq<string>)
    requires rest != []
    ensures Dotted([part] + rest) == part + "." + Dotted(rest)
  {
    assert ([part] + rest)[1..] == rest;
  }

  lemma {:induction false} DottedPartsAreTheHost(host: string)
    ensures Dotted(Parts(host)) == host
    decreases |host|
  {
    hide Span, Dotted;
    var n := Span(host, NotDot);
    if n == |host| {
      OnePartDotted(host);
    } else {
      var rest := host[n + 1..];
      DottedPartsAreTheHost(rest);
      MorePartsDotted(host[..n], Parts(rest));
      assert host == host[..n] + "." + rest;
    }
  }

  predicate IsOctet(s: string) {
    1 <= |s| <= 3 && All(s, IsDigit) && (s[0] != '0' || s == "0") && Value(s) <= 255
  }

  /** The address in the form its numbers print. */
  function NormalAddress(host: string): Option<string> {
    var octets := Parts(host);
    if |octets| != 4 || exists i :: 0 <= i < |octets| && !IsOctet(octets[i]) then None
    else Some(Dotted(seq(4, i requires 0 <= i < 4 => Decimal(Value(octets[i])))))
  }

  predicate IsLabel(s: string) {
    && 1 <= |s| <= 63
    && (IsLetter(s[0]) || IsDigit(s[0])) && (IsLetter(s[|s| - 1]) || IsDigit(s[|s| - 1]))
    && forall i :: 0 <= i < |s| ==> IsLetter(s[i]) || IsDigit(s[i]) || s[i] == '-'
  }

  function LowerChar(c: char): char {
    if 'A' <= c <= 'Z' then c + 32 as char else c
  }

  function Lower(s: string): (r: string)
    ensures |r| == |s| && forall i :: 0 <= i < |s| ==> r[i] == LowerChar(s[i])
  {
    seq(|s|, i requires 0 <= i < |s| => LowerChar(s[i]))
  }

  /** Capital letters become the small ones of the same place in the alphabet; nothing else changes. */
  lemma LowersLetters(c: char)
    ensures 'A' <= c <= 'Z' ==> CAPITAL[c as int - 'A' as int] == c && SMALL[c as int - 'A' as int] == LowerChar(c)
    ensures !('A' <= c <= 'Z') ==> LowerChar(c) == c
  {}

  function NormalHost(host: string): Option<string> {
    if |host| > 253 then None
    else if All(host, IsAddressChar) then NormalAddress(host)
    else if exists i :: 0 <= i < |Parts(host)| && !IsLabel(Parts(host)[i]) then None
    else Some(Lower(host))
  }

  predicate IsAlnum(c: char) {
    IsLetter(c) || IsDigit(c)
  }

  /** One letter or digit, or two with at most 61 letters, digits and dashes in between. */
  ghost predicate SpellsLabel(s: string, first: char, middle: string, last: char) {
    && s == [first] + middle + [last] && |middle| <= 61 && IsAlnum(first) && IsAlnum(last)
    && forall i :: 0 <= i < |middle| ==> IsAlnum(middle[i]) || middle[i] == '-'
  }

  lemma LabelsAreExact(s: string)
    ensures IsLabel(s) <==>
            (|s| == 1 && IsAlnum(s[0])) || exists first, middle, last :: SpellsLabel(s, first, middle, last)
  {
    if IsLabel(s) && |s| > 1 {
      assert s == [s[0]] + s[1..|s| - 1] + [s[|s| - 1]];
      assert SpellsLabel(s, s[0], s[1..|s| - 1], s[|s| - 1]);
    }
    if first, middle, last :| SpellsLabel(s, first, middle, last) {
      assert forall i :: 1 <= i < |s| - 1 ==> s[i] == middle[i - 1];
    }
  }

  lemma AddressIsKept(host: string)
    requires NormalAddress(host).Some?
    ensures NormalAddress(host).value == host
  {
    var octets := Parts(host);
    forall i | 0 <= i < 4 ensures Decimal(Value(octets[i])) == octets[i] {
      ReadPrintsBack(octets[i]);
    }
    assert seq(4, i requires 0 <= i < 4 => Decimal(Value(octets[i]))) == octets;
    DottedPartsAreTheHost(host);
  }

  lemma PartsUnfold(part: string, rest: string)
    requires All(part, NotDot)
    ensures Parts(part) == [part] && Parts(part + "." + rest) == [part] + Parts(rest)
  {
    hide Span;
    SpanIs(part, "", NotDot);
    assert part + "" == part;
    var host := part + "." + rest;
    SpanIs(part, "." + rest, NotDot);
    assert host == part + ("." + rest);
    assert host[|part| + 1..] == rest;
  }

  lemma {:induction false} PartsOfDotted(parts: seq<string>)
    requires parts != [] && forall i :: 0 <= i < |parts| ==> All(parts[i], NotDot)
    ensures Parts(Dotted(parts)) == parts
  {
    hide Parts, Dotted, All;
    if |parts| == 1 {
      PartsUnfold(parts[0], "");
      OnePartDotted(parts[0]);
      assert parts == [parts[0]];
    } else {
      var first, rest := parts[0], parts[1..];
      assert parts == [first] + rest;
      PartsOfDotted(rest);
      MorePartsDotted(first, rest);
      PartsUnfold(first, Dotted(rest));
    }
  }

  /** Four numbers up to 255, each as it prints. */
  predicate IsAddress(host: string, octets: seq<nat>) {
    && |octets| == 4 && (forall i :: 0 <= i < 4 ==> octets[i] <= 255)
    && host == Dotted([Decimal(octets[0]), Decimal(octets[1]), Decimal(octets[2]), Decimal(octets[3])])
  }

  lemma {:induction false} DecimalLength(n: nat)
    requires n <= 255
    ensures |Decimal(n)| <= 3
  {
    if n >= 10 {
      DecimalLength(n / 10);
      if n >= 100 {
        assert n / 10 < 26 && n / 10 / 10 < 3;
      }
    }
  }

  lemma OctetPrints(n: nat)
    requires n <= 255
    ensures IsOctet(Decimal(n)) && All(Decimal(n), NotDot)
  {
    DecimalLength(n);
    PrintedReadsBack(n);
  }

  /** Digits and dots are a host exactly when they are an address, and they are kept as they stand. */
  lemma AddressesAreFourOctets(host: string)
    ensures NormalAddress(host).Some? <==> exists octets :: IsAddress(host, octets)
    ensures NormalAddress(host).Some? ==> NormalAddress(host).value == host
  {
    hide Dotted, Decimal, IsOctet, All;
    if NormalAddress(host).Some? {
      AddressIsKept(host);
      var parts := Parts(host);
      var octets := OctetValues(parts);
      assert seq(4, i requires 0 <= i < 4 => Decimal(octets[i])) ==
             [Decimal(octets[0]), Decimal(octets[1]), Decimal(octets[2]), Decimal(octets[3])];
      DottedPartsAreTheHost(host);
      assert parts == [Decimal(octets[0]), Decimal(octets[1]), Decimal(octets[2]), Decimal(octets[3])];
      assert IsAddress(host, octets);
    }
    if octets :| IsAddress(host, octets) {
      var parts := [Decimal(octets[0]), Decimal(octets[1]), Decimal(octets[2]), Decimal(octets[3])];
      forall i | 0 <= i < 4 ensures IsOctet(parts[i]) && All(parts[i], NotDot) {
        OctetPrints(octets[i]);
      }
      PartsOfDotted(parts);
    }
  }

  /**
   A host of digits and dots has a normal form exactly as an address, and keeps it; any
   other has one exactly when its parts between the dots are labels, namely itself in
   small letters. No host is longer than 253.
   */
  lemma HostsAreExact(host: string, normal: string)
    ensures NormalHost(host) == Some(normal) <==>
            && |host| <= 253
            && if (forall i :: 0 <= i < |host| ==> host[i] in DIGITS || host[i] == '.') then
                 normal == host && exists octets :: IsAddress(host, octets)
               else
                 normal == Lower(host) && exists labels ::
                   && labels != [] && host == Dotted(labels)
                   && forall k :: 0 <= k < |labels| ==> IsLabel(labels[k])
  {
    hide Dotted, NormalAddress, IsAddress, Parts, Lower, IsLabel;
    forall i | 0 <= i < |host| ensures IsAddressChar(host[i]) <==> host[i] in DIGITS || host[i] == '.' {
      CharacterClasses(host[i]);
    }
    AddressesAreFourOctets(host);
    DottedPartsAreTheHost(host);
    if labels :| labels != [] && host == Dotted(labels) && forall k :: 0 <= k < |labels| ==> IsLabel(labels[k]) {
      forall k | 0 <= k < |labels| ensures All(labels[k], NotDot) {
        LabelHasNoDot(labels[k]);
      }
      PartsOfDotted(labels);
    }
  }

  lemma LabelHasNoDot(s: string)
    requires IsLabel(s)
    ensures All(s, NotDot)
  {}

  lemma OctetValues(parts: seq<string>) returns (octets: seq<nat>)
    requires |parts| == 4 && forall i :: 0 <= i < 4 ==> IsOctet(parts[i])
    ensures |octets| == 4 && forall i :: 0 <= i < 4 ==> octets[i] <= 255 && Decimal(octets[i]) == parts[i]
  {
    octets := seq(4, i requires 0 <= i < 4 => Value(parts[i]));
    forall i | 0 <= i < 4 ensures Decimal(octets[i]) == parts[i] {
      ReadPrintsBack(parts[i]);
    }
  }

  lemma LowerSpan(host: string)
    ensures Span(Lower(host), NotDot) == Span(host, NotDot)
  {
    hide Lower;
    var low, n := Lower(host), Span(host, NotDot);
    var front, rest := low[..n], low[n..];
    assert low == front + rest;
    SpanIs(front, rest, NotDot);
  }

  lemma {:induction false} LowerParts(host: string)
    ensures |Parts(Lower(host))| == |Parts(host)|
    ensures forall i :: 0 <= i < |Parts(host)| ==> Parts(Lower(host))[i] == Lower(Parts(host)[i])
    decreases |host|
  {
    hide Lower, Span, LowerChar;
    var low, n := Lower(host), Span(host, NotDot);
    LowerSpan(host);
    if n < |host| {
      var rest := host[n + 1..];
      LowerParts(rest);
      assert low[n + 1..] == Lower(rest);
      assert low[..n] == Lower(host[..n]);
      assert Parts(host) == [host[..n]] + Parts(rest);
      assert Parts(low) == [Lower(host[..n])] + Parts(Lower(rest));
    }
  }

  lemma LowerLabel(s: string)
    requires IsLabel(s)
    ensures IsLabel(Lower(s))
  {
    hide Lower;
  }

  lemma LowerHostIsFixed(host: string)
    requires !All(host, IsAddressChar) && IsHostText(host)
    ensures !All(Lower(host), IsAddressChar) && IsHostText(Lower(host)) && Lower(Lower(host)) == Lower(host)
  {
    hide Lower;
    var k :| 0 <= k < |host| && !IsAddressChar(host[k]);
    assert !IsAddressChar(Lower(host)[k]);
  }

  /** A normal host is its own normal form, and is written in the characters of a host. */
  lemma NormalHostIsFixed(host: string)
    requires NormalHost(host).Some? && IsHostText(host)
    ensures var h := NormalHost(host).value;
            NormalHost(h) == Some(h) && IsHostText(h) && |h| <= 253
  {
    hide All, Lower, IsLabel, Parts, NormalAddress, IsHostText;
    if All(host, IsAddressChar) {
      AddressIsKept(host);
    } else {
      LowerHostIsFixed(host);
      LowerParts(host);
      var low := Lower(host);
      forall i | 0 <= i < |Parts(low)| ensures IsLabel(Parts(low)[i]) {
        LowerLabel(Parts(host)[i]);
      }
    }
  }

  // ---------------------------------------------------------------------------
  // Parsing
  // ---------------------------------------------------------------------------

  predicate IsSeparator(c: char) {
    !IsSlugChar(c)
  }

  /** What comes behind the first word and the separators after it. */
  function BehindWord(s: string): (rest: string)
    requires Span(s, IsSlugChar) < |s|
    ensures |rest| < |s|
  {
    var behind := s[Span(s, IsSlugChar)..];
    behind[Span(behind, IsSeparator)..]
  }

  function CollapseToDashes(s: string): string
    decreases |s|
  {
    var n := Span(s, IsSlugChar);
    if n == |s| then s else s[..n] + "-" + CollapseToDashes(BehindWord(s))
  }

  function StripDashes(s: string): string {
    if s != "" && s[0] == '-' then StripDashes(s[1..])
    else if s != "" && s[|s| - 1] == '-' then StripDashes(s[..|s| - 1])
    else s
  }

  function EndpointId(d: Destination): string {
    "server-" + StripDashes(CollapseToDashes(d.host)) + "-p" + Decimal(d.port)
  }

  function NormalizedCommand(d: Destination): string {
    var port := if d.port != 22 then " -p " + Decimal(d.port) else "";
    "ssh" + port + " " + d.user + "@" + d.host
  }

  predicate IsControl(c: char) {
    c as int < 32 || c as int == 127
  }

  function ParseSshCommand(command: string): Option<Destination> {
    if command == "" || |command| > 512 then None
    else if exists i :: 0 <= i < |command| && IsControl(command[i]) then None
    else
      match Recognise(command)
      case None => None
      case Some(f) =>
        var port := if f.port.Some? then Value(f.port.value) else 22;
        if !(1 <= port <= 65535) then None
        else
          match NormalHost(f.host)
          case None => None
          case Some(host) =>
            var d := Destination(f.user, host, port);
            if |EndpointId(d)| > 128 then None else Some(d)
  }

  /** The destination that captured texts name: the port read in decimal, 22 without one, the host in normal form. */
  predicate Names(f: Fields, d: Destination) {
    && WellFormed(f)
    && d.user == f.user
    && 1 <= d.port <= 65535
    && d.port == (if f.port.Some? then Value(f.port.value) else 22)
    && NormalHost(f.host) == Some(d.host)
    && |EndpointId(d)| <= 128
  }

  lemma WrittenHasNoControl(l: Layout, f: Fields)
    requires WellFormed(f)
    ensures forall i :: 0 <= i < |Written(l, f)| ==> !IsControl(Written(l, f)[i])
  {
    hide Blanks;
    var target, rest := WrittenTarget(f, l.trail), WrittenRest(l, f);
    assert forall i :: 0 <= i < |target| ==> !IsControl(target[i]);
    assert forall i :: 0 <= i < |rest| ==> !IsControl(rest[i]);
  }

  /**
   * A command is accepted exactly when it is at most 512 characters of the pattern naming a destination.
   * No command is lost to the check for control characters alone.
   */
  lemma AcceptsExactly(command: string, d: Destination)
    ensures ParseSshCommand(command) == Some(d) <==>
            |command| <= 512 && exists l, f :: Spaced(l) && Names(f, d) && command == Written(l, f)
  {
    hide Recognise, Written, NormalHost, EndpointId, Value, WellFormed;
    if ParseSshCommand(command) == Some(d) {
      var l := RecognisedIsWritten(command);
      assert Names(Recognise(command).value, d);
    }
    forall l, f | |command| <= 512 && Spaced(l) && Names(f, d) && command == Written(l, f)
      ensures ParseSshCommand(command) == Some(d)
    {
      EveryLayoutIsRecognised(l, f);
      WrittenHasNoControl(l, f);
      NotEmpty(l, f);
    }
  }

  lemma NotEmpty(l: Layout, f: Fields)
    ensures Written(l, f) != ""
  {}

  lemma {:induction false} ShortDecimal(n: nat)
    requires n <= 65535
    ensures |Decimal(n)| <= 5
  {
    if n >= 10 {
      assert n / 10 <= 6553;
      assert |Decimal(n)| == |Decimal(n / 10)| + 1;
      assert n >= 100 ==> |Decimal(n / 10)| == |Decimal(n / 10 / 10)| + 1;
      assert n >= 1000 ==> |Decimal(n / 10 / 10)| == |Decimal(n / 10 / 10 / 10)| + 1;
      assert n >= 10000 ==> |Decimal(n / 10 / 10 / 10)| == |Decimal(n / 10 / 10 / 10 / 10)| + 1;
    }
  }

  function NormalFields(d: Destination): Fields {
    Fields(d.user, d.host, if d.port != 22 then Some(Decimal(d.port)) else None)
  }

  lemma NormalizedIsWritten(d: Destination)
    ensures NormalizedCommand(d) == Written(Layout(0, 1, 1, 1, 0), NormalFields(d))
  {
    var port := Decimal(d.port);
    var target := d.user + ("@" + d.host);
    assert Blanks(0) == "" && Blanks(1) == " " && d.host + "" == d.host;
    assert WrittenTarget(NormalFields(d), 0) == target;
    if d.port != 22 {
      assert NormalizedCommand(d) == "ssh" + (" " + ("-p" + (" " + (port + (" " + target)))));
    } else {
      assert NormalizedCommand(d) == "ssh" + (" " + target);
    }
  }

  /** The normal form of every accepted command is accepted and names the same destination. */
  lemma NormalFormParsesBack(command: string)
    requires ParseSshCommand(command).Some?
    ensures var d := ParseSshCommand(command).value;
            ParseSshCommand(NormalizedCommand(d)) == Some(d)
  {
    hide Recognise, Written, NormalHost, EndpointId, Value, Decimal;
    var d, f := ParseSshCommand(command).value, Recognise(command).value;
    var l := RecognisedIsWritten(command);
    var g, text := NormalFields(d), NormalizedCommand(d);
    NormalHostIsFixed(f.host);
    PrintedReadsBack(d.port);
    ShortDecimal(d.port);
    NormalizedIsWritten(d);
    EveryLayoutIsRecognised(Layout(0, 1, 1, 1, 0), g);
    assert |text| <= 512;
    assert forall i :: 0 <= i < |text| ==> !IsControl(text[i]);
  }

  /** Two accepted commands have one normal form exactly when they name one destination. */
  lemma OneNormalFormEach(a: string, b: string)
    requires ParseSshCommand(a).Some? && ParseSshCommand(b).Some?
    ensures NormalizedCommand(ParseSshCommand(a).value) == NormalizedCommand(ParseSshCommand(b).value) <==>
            ParseSshCommand(a) == ParseSshCommand(b)
  {
    hide ParseSshCommand, NormalizedCommand;
    NormalFormParsesBack(a);
    NormalFormParsesBack(b);
  }

  predicate IsIdChar(c: char) {
    IsSlugChar(c) || c == '-'
  }

  lemma SlugIsIdText(s: string)
    requires forall i :: 0 <= i < |s| ==> IsSlugChar(s[i])
    ensures All(s, IsIdChar)
  {}

  lemma DashIsIdText(a: string, b: string)
    requires All(a, IsIdChar) && All(b, IsIdChar)
    ensures All(a + "-" + b, IsIdChar)
  {}

  lemma {:induction false} CollapsedIsIdText(s: string)
    ensures All(CollapseToDashes(s), IsIdChar)
    decreases |s|
  {
    hide Span, All;
    var n := Span(s, IsSlugChar);
    SlugIsIdText(s[..n]);
    if n == |s| {
      assert s[..n] == s;
    } else {
      var rest := BehindWord(s);
      CollapsedIsIdText(rest);
      DashIsIdText(s[..n], CollapseToDashes(rest));
    }
  }

  lemma {:induction false} StrippedIsIdText(s: string)
    requires All(s, IsIdChar)
    ensures All(StripDashes(s), IsIdChar)
  {
    if s != "" && s[0] == '-' {
      StrippedIsIdText(s[1..]);
    } else if s != "" && s[|s| - 1] == '-' {
      StrippedIsIdText(s[..|s| - 1]);
    }
  }

  /** The id derived from an accepted command is one the inventory accepts: [a-z][a-z0-9-]{1,127}. */
  lemma AcceptedIdsAreInventoryIds(command: string)
    requires ParseSshCommand(command).Some?
    ensures var id := EndpointId(ParseSshCommand(command).value);
            2 <= |id| <= 128 && IsLower(id[0]) && All(id, IsIdChar)
  {
    hide Recognise, NormalHost, CollapseToDashes, StripDashes, Decimal;
    var d := ParseSshCommand(command).value;
    CollapsedIsIdText(d.host);
    StrippedIsIdText(CollapseToDashes(d.host));
    assert "server-"[0] == 's';
  }

  /** A host with every run of other characters than a-z and 0-9 made one dash, and none at the ends. */
  function Slug(host: string): string {
    StripDashes(CollapseToDashes(host))
  }

  /** The longest stretches of a-z and 0-9, in order. */
  function Words(s: string): (words: seq<string>)
    ensures forall i :: 0 <= i < |words| ==> words[i] != "" && All(words[i], IsSlugChar)
    ensures s != "" && IsSlugChar(s[0]) ==> words != []
    decreases |s|
  {
    var n := Span(s, IsSlugChar);
    if s == "" then [] else if n == 0 then Words(s[1..]) else [s[..n]] + Words(s[n..])
  }

  function Joined(words: seq<string>): string {
    if words == [] then "" else if |words| == 1 then words[0] else words[0] + "-" + Joined(words[1..])
  }

  lemma {:induction false} SeparatorsHoldNoWords(s: string, m: nat)
    requires m <= |s| && forall i :: 0 <= i < m ==> IsSeparator(s[i])
    ensures Words(s) == Words(s[m..])
  {
    if m > 0 {
      SeparatorsHoldNoWords(s[1..], m - 1);
      assert s[1..][m - 1..] == s[m..];
    } else {
      assert s[m..] == s;
    }
  }

  lemma JoinedMore(word: string, words: seq<string>)
    requires words != []
    ensures Joined([word] + words) == word + "-" + Joined(words)
  {
    assert ([word] + words)[1..] == words;
  }

  predicate EndsInSeparator(s: string) {
    s != "" && IsSeparator(s[|s| - 1])
  }

  lemma SpanIsPositive(s: string, p: char -> bool)
    requires s != "" && p(s[0])
    ensures Span(s, p) > 0
  {}

  lemma WordsUnfold(s: string)
    requires Span(s, IsSlugChar) > 0
    ensures var n := Span(s, IsSlugChar); s != "" && Words(s) == [s[..n]] + Words(s[n..])
  {}

  /** The first word of a text, the separators behind it, and the rest. */
  lemma FirstWord(s: string) returns (n: nat, m: nat)
    requires Span(s, IsSlugChar) < |s|
    ensures n + m <= |s| && m > 0 && n == Span(s, IsSlugChar) && BehindWord(s) == s[n + m..]
    ensures n + m < |s| ==> IsSlugChar(s[n + m])
    ensures n + m == |s| ==> IsSeparator(s[|s| - 1])
    ensures Words(s) == (if n == 0 then [] else [s[..n]]) + Words(s[n + m..])
  {
    n := Span(s, IsSlugChar);
    var behind := s[n..];
    m := Span(behind, IsSeparator);
    assert behind[0] == s[n];
    SpanIsPositive(behind, IsSeparator);
    hide Span, Words;
    SeparatorsHoldNoWords(behind, m);
    assert behind[m..] == s[n + m..];
    if n == 0 {
      assert behind == s;
    } else {
      WordsUnfold(s);
    }
    assert n + m < |s| ==> behind[m] == s[n + m];
    assert n + m == |s| ==> behind[m - 1] == s[|s| - 1];
  }

  lemma CollapseUnfolds(s: string)
    requires Span(s, IsSlugChar) < |s|
    ensures CollapseToDashes(s) == s[..Span(s, IsSlugChar)] + "-" + CollapseToDashes(BehindWord(s))
  {
    hide Span, BehindWord;
  }

  lemma OneWord(s: string)
    requires Span(s, IsSlugChar) == |s|
    ensures CollapseToDashes(s) == s && Words(s) == if s == "" then [] else [s]
    ensures !EndsInSeparator(s)
  {
    assert s[..|s|] == s && s[|s|..] == "";
  }

  /** A text that does not open with a separator collapses to its words, and a dash for a separator at its end. */
  lemma {:induction false} CollapsesToWords(s: string)
    requires s == "" || IsSlugChar(s[0])
    ensures CollapseToDashes(s) == Joined(Words(s)) + if EndsInSeparator(s) then "-" else ""
    decreases |s|
  {
    hide Span, Joined, CollapseToDashes, Words;
    if Span(s, IsSlugChar) == |s| {
      OneWord(s);
      JoinedFew(s);
    } else {
      WordsOf(s);
      CollapseUnfolds(s);
      var n, m := FirstWord(s);
      var word, rest := s[..n], s[n + m..];
      CollapsesToWords(rest);
      if rest == "" {
        NothingCollapses();
        JoinedFew(word);
        assert [word] + [] == [word];
      } else {
        WordsOf(rest);
        JoinedMore(word, Words(rest));
        assert rest[|rest| - 1] == s[|s| - 1];
      }
    }
  }

  lemma NothingCollapses()
    ensures CollapseToDashes("") == "" && Words("") == []
  {}

  lemma WordsOf(s: string)
    requires s != "" && IsSlugChar(s[0])
    ensures Words(s) != [] && Span(s, IsSlugChar) > 0
  {}

  lemma JoinedFew(word: string)
    ensures Joined([]) == "" && Joined([word]) == word
  {}

  lemma {:induction false} JoinedIsTight(words: seq<string>)
    requires forall i :: 0 <= i < |words| ==> words[i] != "" && All(words[i], IsSlugChar)
    ensures var j := Joined(words);
            words != [] ==> j != "" && IsSlugChar(j[0]) && IsSlugChar(j[|j| - 1])
    ensures words == [] ==> Joined(words) == ""
  {
    if |words| > 1 {
      JoinedIsTight(words[1..]);
    }
  }

  lemma DashInFront(text: string)
    ensures StripDashes("-" + text) == StripDashes(text)
  {
    assert ("-" + text)[1..] == text;
  }

  lemma DashBehind(text: string)
    requires text == "" || text[0] != '-'
    ensures StripDashes(text + "-") == StripDashes(text)
  {
    var s := text + "-";
    assert s[..|s| - 1] == text;
    if text == "" {
      assert s[1..] == "";
    }
  }

  lemma NothingToStrip(text: string)
    requires text == "" || (text[0] != '-' && text[|text| - 1] != '-')
    ensures StripDashes(text) == text
  {}

  lemma DashesStrip(text: string, before: bool, after: bool)
    requires text == "" || (text[0] != '-' && text[|text| - 1] != '-')
    ensures StripDashes((if before then "-" else "") + text + (if after then "-" else "")) == text
  {
    hide StripDashes;
    NothingToStrip(text);
    DashBehind(text);
    var tail := if after then text + "-" else text;
    assert text + (if after then "-" else "") == tail;
    if before {
      DashInFront(tail);
      assert "-" + text + (if after then "-" else "") == "-" + tail;
    } else {
      assert "" + text + (if after then "-" else "") == tail;
    }
  }

  /** The slug of a host is its words with one dash between them. */
  lemma SlugIsItsWords(host: string)
    ensures Slug(host) == Joined(Words(host))
  {
    hide Span, Joined, StripDashes, CollapseToDashes, Words;
    JoinedIsTight(Words(host));
    if host == "" || IsSlugChar(host[0]) {
      CollapsesToWords(host);
      DashesStrip(Joined(Words(host)), false, EndsInSeparator(host));
      assert "" + Joined(Words(host)) == Joined(Words(host));
    } else {
      NoWordFirst(host);
      CollapseUnfolds(host);
      var n, m := FirstWord(host);
      var rest := host[n + m..];
      CollapsesToWords(rest);
      assert Words(host) == Words(rest);
      assert CollapseToDashes(host) == "-" + CollapseToDashes(rest);
      DashesStrip(Joined(Words(rest)), true, EndsInSeparator(rest));
      assert "-" + (Joined(Words(rest)) + if EndsInSeparator(rest) then "-" else "") ==
             "-" + Joined(Words(rest)) + if EndsInSeparator(rest) then "-" else "";
    }
  }

  lemma NoWordFirst(s: string)
    requires s != "" && IsSeparator(s[0])
    ensures Span(s, IsSlugChar) == 0
  {}

  /** Two destinations share an id exactly when their ports agree and their hosts differ in separators only. */
  lemma IdTellsPortAndSlug(d: Destination, e: Destination)
    ensures EndpointId(d) == EndpointId(e) <==> d.port == e.port && Slug(d.host) == Slug(e.host)
  {
    hide Decimal, StripDashes, CollapseToDashes;
    if EndpointId(d) == EndpointId(e) {
      SamePortText(d, e);
      SamePortText(e, d);
      var id, front := EndpointId(d), |EndpointId(d)| - |Decimal(d.port)|;
      assert id[front..] == Decimal(d.port) && id[front..] == Decimal(e.port);
      PrintedReadsBack(d.port);
      PrintedReadsBack(e.port);
      assert id[7..front - 2] == Slug(d.host) && id[7..front - 2] == Slug(e.host);
    }
  }

  /** In front of the port stands a 'p', which is no digit. */
  lemma SamePortText(d: Destination, e: Destination)
    requires EndpointId(d) == EndpointId(e)
    ensures |Decimal(d.port)| >= |Decimal(e.port)|
  {
    hide Decimal, StripDashes, CollapseToDashes;
    var id, digits := EndpointId(e), Decimal(e.port);
    var at := |id| - |Decimal(d.port)| - 1;
    assert id[at] == 'p';
    assert forall i :: |id| - |digits| <= i < |id| ==> id[i] == digits[i - (|id| - |digits|)];
  }
}
