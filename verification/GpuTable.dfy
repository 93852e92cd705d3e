/** Reading the GPU table of a probe: which rows are refused, and how cards get their CUDA ordinals. */
module GpuTable {
  import opened Prelude
  import opened Strings
  import opened Sorting

  /** A PCI bus id as the four numbers it is compared by. */
  datatype BusKey = BusKey(domain: nat, bus: nat, device: nat, function_: nat)

  datatype Sample = Sample(
    index: int, uuid: string, name: string, total: int, used: int, free: int,
    gpuUse: Option<int>, memoryUse: Option<int>, temperature: Option<int>, power: Option<real>, pstate: Option<string>)

  datatype Entry = Entry(key: BusKey, sample: Sample)

  datatype Telemetry = Telemetry(ordinal: nat, sample: Sample)

  datatype Fault = WrongColumns | InvalidBusId | MissingField | DuplicateIdentity | EmptyTable | OutOfRange

  datatype RowRead = Read(entry: Entry) | Faulty(fault: Fault)

  datatype Table = Parsed(cards: seq<Telemetry>) | Refused(fault: Fault)

  /** How texts such as "81 %" and "35.5 W" become numbers. */
  datatype Numerals = Numerals(toInt: string -> Option<int>, toReal: string -> Option<real>)

  type Row = seq<string>

  // ---------------------------------------------------------------------------
  // One row
  // ---------------------------------------------------------------------------

  predicate IsMissing(text: string) {
    text == "" || text == "N/A" || text == "[Not Supported]" || text == "Not Supported"
  }

  /** A column's text, or nothing where the driver has no value. */
  function Value(row: Row, i: nat): Option<string> {
    var text := if i < |row| then Strip(row[i]) else "";
    if IsMissing(text) then None else Some(text)
  }

  function IntValue(row: Row, i: nat, read: Numerals): Option<int> {
    match Value(row, i)
    case None => None
    case Some(text) => read.toInt(text)
  }

  function RealValue(row: Row, i: nat, read: Numerals): Option<real> {
    match Value(row, i)
    case None => None
    case Some(text) => read.toReal(text)
  }

  predicate BlankRow(row: Row) {
    forall i :: 0 <= i < |row| ==> Strip(row[i]) == ""
  }

  function HexDigit(c: char): Option<nat> {
    if '0' <= c <= '9' then Some(c as int - '0' as int)
    else if 'a' <= c <= 'f' then Some(c as int - 'a' as int + 10)
    else if 'A' <= c <= 'F' then Some(c as int - 'A' as int + 10)
    else None
  }

  /** The number a hexadecimal text stands for, if it is one. */
  function Hex(s: string): Option<nat> {
    if s == "" then Some(0)
    else
      match (Hex(s[..|s| - 1]), HexDigit(s[|s| - 1]))
      case (Some(high), Some(low)) => Some(16 * high + low)
      case _ => None
  }

  /** domain:bus:device.function, with four to eight, two, two hexadecimal digits and one octal digit. */
  function PciBusKey(value: Option<string>): Option<BusKey> {
    var s := if value.Some? then value.value else "";
    if !(12 <= |s| <= 16) then None
    else
      var n := |s| - 8;
      if s[n] != ':' || s[n + 3] != ':' || s[n + 6] != '.' || !('0' <= s[n + 7] <= '7') then None
      else
        match (Hex(s[..n]), Hex(s[n + 1..n + 3]), Hex(s[n + 4..n + 6]))
        case (Some(domain), Some(bus), Some(device)) =>
          Some(BusKey(domain, bus, device, s[n + 7] as int - '0' as int))
        case _ => None
  }

  function ReadRow(row: Row, read: Numerals): RowRead {
    if |row| != 12 then Faulty(WrongColumns)
    else
      var index, uuid, name := IntValue(row, 0, read), Value(row, 1), Value(row, 2);
      var total, used, free := IntValue(row, 3, read), IntValue(row, 4, read), IntValue(row, 5, read);
      var key := PciBusKey(Value(row, 11));
      if key.None? then Faulty(InvalidBusId)
      else if index.None? || uuid.None? || name.None? || total.None? || used.None? || free.None? then
        Faulty(MissingField)
      else
        Read(Entry(key.value, Sample(
          index.value, uuid.value, name.value, total.value, used.value, free.value,
          IntValue(row, 6, read), IntValue(row, 7, read), IntValue(row, 8, read), RealValue(row, 9, read), Value(row, 10))))
  }

  /** The sixteen digits, in either case. */
  lemma HexDigitsAreExact(c: char, v: nat)
    ensures HexDigit(c) == Some(v) <==> v < 16 && (c == "0123456789abcdef"[v] || c == "0123456789ABCDEF"[v])
  {}

  predicate AllHex(s: string) {
    forall i :: 0 <= i < |s| ==> HexDigit(s[i]).Some?
  }

  lemma {:induction false} HexReadsHex(s: string)
    ensures Hex(s).Some? <==> AllHex(s)
  {
    if s != "" {
      HexReadsHex(s[..|s| - 1]);
    }
  }

  /** The text is domain, bus, device and function with their separators. */
  ghost predicate SpellsPlace(s: string, domain: string, bus: string, device: string, slot: char) {
    && s == domain + ":" + bus + ":" + device + "." + [slot]
    && 4 <= |domain| <= 8 && |bus| == |device| == 2
    && AllHex(domain) && AllHex(bus) && AllHex(device) && '0' <= slot <= '7'
  }

  /** A text is taken for a bus place exactly when it is one of the pattern. */
  lemma PlacesAreExact(s: string)
    ensures PciBusKey(Some(s)).Some? <==>
            exists domain, bus, device, slot :: SpellsPlace(s, domain, bus, device, slot)
  {
    hide Hex, HexDigit;
    if PciBusKey(Some(s)).Some? {
      var n := |s| - 8;
      HexReadsHex(s[..n]);
      HexReadsHex(s[n + 1..n + 3]);
      HexReadsHex(s[n + 4..n + 6]);
      assert s == s[..n] + ":" + s[n + 1..n + 3] + ":" + s[n + 4..n + 6] + "." + [s[n + 7]];
      assert SpellsPlace(s, s[..n], s[n + 1..n + 3], s[n + 4..n + 6], s[n + 7]);
    }
    if domain, bus, device, slot :| SpellsPlace(s, domain, bus, device, slot) {
      var n := |domain|;
      HexReadsHex(domain);
      HexReadsHex(bus);
      HexReadsHex(device);
      assert s[..n] == domain && s[n + 1..n + 3] == bus && s[n + 4..n + 6] == device;
      assert s[n] == ':' && s[n + 3] == ':' && s[n + 6] == '.' && s[n + 7] == slot;
    }
  }

  /** A column that has a value, and for a number one that can be read. */
  predicate HasInt(row: Row, i: nat, read: Numerals) {
    i < |row| && !IsMissing(Strip(row[i])) && read.toInt(Strip(row[i])).Some?
  }

  predicate HasText(row: Row, i: nat) {
    i < |row| && !IsMissing(Strip(row[i]))
  }

  /**
   A row of twelve columns is read exactly when its bus place is one and index, UUID,
   name and the three memory columns are there; what is wrong is said in this order.
   The other columns may be missing or unreadable.
   */
  lemma RowIsReadExactly(row: Row, read: Numerals)
    ensures var r, placed, complete := ReadRow(row, read), PciBusKey(Value(row, 11)).Some?,
                    HasText(row, 1) && HasText(row, 2) && forall i :: i in {0, 3, 4, 5} ==> HasInt(row, i, read);
            && (r.Read? <==> |row| == 12 && placed && complete)
            && (r == Faulty(WrongColumns) <==> |row| != 12)
            && (r == Faulty(InvalidBusId) <==> |row| == 12 && !placed)
            && (r == Faulty(MissingField) <==> |row| == 12 && placed && !complete)
  {
    hide PciBusKey, IsMissing, Strip;
    forall i: nat | i < |row| ensures IntValue(row, i, read).Some? <==> HasInt(row, i, read) {}
  }

  // ---------------------------------------------------------------------------
  // The whole table
  // ---------------------------------------------------------------------------

  /** What the readable data rows say, in row order. */
  function Entries(rows: seq<Row>, read: Numerals): seq<Entry> {
    if rows == [] then []
    else
      var front, last := Entries(rows[..|rows| - 1], read), rows[|rows| - 1];
      if BlankRow(last) then front
      else
        match ReadRow(last, read)
        case Read(entry) => front + [entry]
        case Faulty(_) => front
  }

  predicate Readable(row: Row, read: Numerals) {
    BlankRow(row) || ReadRow(row, read).Read?
  }

  /** Two cards share neither index, nor UUID, nor place on the bus. */
  predicate Differ(a: Entry, b: Entry) {
    a.sample.index != b.sample.index && a.sample.uuid != b.sample.uuid && a.key != b.key
  }

  ghost predicate Apart(entries: seq<Entry>) {
    forall i, j :: 0 <= i < j < |entries| ==> Differ(entries[i], entries[j])
  }

  ghost predicate Clashes(entries: seq<Entry>, entry: Entry) {
    exists i :: 0 <= i < |entries| && !Differ(entries[i], entry)
  }

  predicate KeyLess(a: BusKey, b: BusKey) {
    || a.domain < b.domain
    || (a.domain == b.domain && a.bus < b.bus)
    || (a.domain == b.domain && a.bus == b.bus && a.device < b.device)
    || (a.domain == b.domain && a.bus == b.bus && a.device == b.device && a.function_ < b.function_)
  }

  predicate ByKey(a: Entry, b: Entry) {
    !KeyLess(b.key, a.key)
  }

  /** The cards in bus order, numbered from 0. */
  function Ranked(entries: seq<Entry>): seq<Telemetry> {
    var sorted := Sort(entries, ByKey);
    seq(|sorted|, i requires 0 <= i < |sorted| => Telemetry(i, sorted[i].sample))
  }

  const LAST_ORDINAL := 1024

  predicate Percentage(n: int) {
    0 <= n <= 100
  }

  /** The limits a telemetry record puts on a card's values. */
  predicate InRange(s: Sample) {
    && 1 <= |s.uuid| <= 160 && 0 <= s.index <= 1024 && 1 <= |s.name| <= 255
    && s.total >= 1 && s.used >= 0 && s.free >= 0
    && (s.gpuUse.Some? ==> Percentage(s.gpuUse.value))
    && (s.memoryUse.Some? ==> Percentage(s.memoryUse.value))
    && (s.temperature.Some? ==> -100 <= s.temperature.value <= 300)
    && (s.power.Some? ==> s.power.value >= 0.0)
    && (s.pstate.Some? ==> |s.pstate.value| <= 32)
  }

  ghost predicate AllInRange(entries: seq<Entry>) {
    |entries| <= LAST_ORDINAL + 1 && forall e :: e in entries ==> InRange(e.sample)
  }

  /** Row i is the first that cannot be taken, and f is why. */
  ghost predicate FaultAt(rows: seq<Row>, i: nat, f: Fault, read: Numerals) {
    && i < |rows|
    && (forall k :: 0 <= k < i ==> Readable(rows[k], read))
    && Apart(Entries(rows[..i], read))
    && !BlankRow(rows[i])
    && match ReadRow(rows[i], read)
       case Faulty(fault) => f == fault
       case Read(entry) => f == DuplicateIdentity && Clashes(Entries(rows[..i], read), entry)
  }

  /** Every data row can be read, no two cards share an identity, and there is a card. */
  ghost predicate Sound(rows: seq<Row>, read: Numerals) {
    && (forall row :: row in rows ==> Readable(row, read))
    && Apart(Entries(rows, read))
    && Entries(rows, read) != []
  }

  /** Moreover every value, and every ordinal, is one a telemetry record admits. */
  ghost predicate Acceptable(rows: seq<Row>, read: Numerals) {
    Sound(rows, read) && AllInRange(Entries(rows, read))
  }

  ghost predicate Outcome(rows: seq<Row>, table: Table, read: Numerals) {
    match table
    case Parsed(cards) => Acceptable(rows, read) && cards == Ranked(Entries(rows, read))
    case Refused(f) =>
      || (exists i: nat :: FaultAt(rows, i, f, read))
      || (f == EmptyTable && Entries(rows, read) == [] && forall row :: row in rows ==> Readable(row, read))
      || (f == OutOfRange && Sound(rows, read) && !AllInRange(Entries(rows, read)))
  }

  lemma EntriesStep(rows: seq<Row>, n: nat, read: Numerals)
    requires n < |rows| && Readable(rows[n], read)
    ensures Entries(rows[..n + 1], read) == Entries(rows[..n], read) +
            if BlankRow(rows[n]) then [] else [ReadRow(rows[n], read).entry]
  {
    hide ReadRow, BlankRow;
    assert rows[..n + 1][..n] == rows[..n];
  }

  lemma ClashesWhen(entries: seq<Entry>, entry: Entry)
    ensures Clashes(entries, entry) <==>
            || entry.sample.index in (set e | e in entries :: e.sample.index)
            || entry.sample.uuid in (set e | e in entries :: e.sample.uuid)
            || entry.key in (set e | e in entries :: e.key)
  {
    if e: Entry :| e in entries && !Differ(e, entry) {
      var i :| 0 <= i < |entries| && entries[i] == e;
      assert Clashes(entries, entry);
    }
  }

  lemma ApartGrows(entries: seq<Entry>, entry: Entry)
    requires Apart(entries)
    ensures Apart(entries + [entry]) <==> !Clashes(entries, entry)
  {
    var grown := entries + [entry];
    if i :| 0 <= i < |entries| && !Differ(entries[i], entry) {
      assert !Differ(grown[i], grown[|entries|]);
    }
  }

  method ParseGpuCsv(rows: seq<Row>, read: Numerals) returns (table: Table)
    ensures Outcome(rows, table, read)
  {
    hide ReadRow, BlankRow, Ranked;
    var observed: seq<Entry> := [];
    var indexes: set<int>, uuids: set<string>, buses: set<BusKey> := {}, {}, {};
    for n := 0 to |rows|
      invariant observed == Entries(rows[..n], read) && Apart(observed)
      invariant forall k :: 0 <= k < n ==> Readable(rows[k], read)
      invariant indexes == set e | e in observed :: e.sample.index
      invariant uuids == set e | e in observed :: e.sample.uuid
      invariant buses == set e | e in observed :: e.key
    {
      hide ReadRow, BlankRow, Entries, Apart, Clashes, Differ;
      if BlankRow(rows[n]) {
        EntriesStep(rows, n, read);
      } else {
        match ReadRow(rows[n], read)
        case Faulty(fault) =>
          assert FaultAt(rows, n, fault, read);
          return Refused(fault);
        case Read(entry) =>
          ClashesWhen(observed, entry);
          if entry.sample.index in indexes || entry.sample.uuid in uuids || entry.key in buses {
            assert FaultAt(rows, n, DuplicateIdentity, read);
            return Refused(DuplicateIdentity);
          }
          EntriesStep(rows, n, read);
          ApartGrows(observed, entry);
          indexes, uuids, buses :=
            indexes + {entry.sample.index}, uuids + {entry.sample.uuid}, buses + {entry.key};
          observed := observed + [entry];
      }
    }
    assert rows[..|rows|] == rows;
    if observed == [] {
      return Refused(EmptyTable);
    }
    table := NumberCards(observed);
  }

  /** The records, one by one in bus order; the first value out of range refuses the table. */
  method NumberCards(observed: seq<Entry>) returns (table: Table)
    ensures table == if AllInRange(observed) then Parsed(Ranked(observed)) else Refused(OutOfRange)
  {
    hide InRange, Sort;
    var sorted := Sort(observed, ByKey);
    SameMembers(observed, sorted);
    var cards: seq<Telemetry> := [];
    for i := 0 to |sorted|
      invariant cards == Ranked(observed)[..i]
      invariant i <= LAST_ORDINAL + 1 && forall k :: 0 <= k < i ==> InRange(sorted[k].sample)
    {
      if !InRange(sorted[i].sample) || i > LAST_ORDINAL {
        assert sorted[i] in sorted;
        return Refused(OutOfRange);
      }
      cards := cards + [Telemetry(i, sorted[i].sample)];
    }
    assert Ranked(observed)[..|sorted|] == Ranked(observed);
    return Parsed(cards);
  }

  /**
   A table is parsed exactly when every row can be read, all cards differ, there is one,
   and every value and ordinal is in range.
   */
  lemma ParsedExactlyWhenAcceptable(rows: seq<Row>, table: Table, read: Numerals)
    requires Outcome(rows, table, read)
    ensures table.Parsed? <==> Acceptable(rows, read)
  {
    hide ReadRow, BlankRow, Entries;
    if f: Fault, i: nat :| table == Refused(f) && FaultAt(rows, i, f, read) {
      FaultIsFatal(rows, i, f, read);
    }
  }

  lemma FaultIsFatal(rows: seq<Row>, i: nat, f: Fault, read: Numerals)
    requires FaultAt(rows, i, f, read)
    ensures !Sound(rows, read)
  {
    hide ReadRow, BlankRow, Entries, Differ, Clashes;
    assert rows[i] in rows;
    if Readable(rows[i], read) && Apart(Entries(rows, read)) {
      EntriesStep(rows, i, read);
      ApartGrows(Entries(rows[..i], read), ReadRow(rows[i], read).entry);
      EntriesExtend(rows, i + 1, read);
    }
  }

  lemma {:induction false} EntriesExtend(rows: seq<Row>, n: nat, read: Numerals)
    requires n <= |rows|
    ensures Entries(rows[..n], read) <= Entries(rows, read)
  {
    hide ReadRow, BlankRow;
    if n == |rows| {
      assert rows[..n] == rows;
    } else {
      var front := rows[..|rows| - 1];
      EntriesExtend(front, n, read);
      assert front[..n] == rows[..n];
    }
  }

  // ---------------------------------------------------------------------------
  // Ordinals are ranks on the bus
  // ---------------------------------------------------------------------------

  lemma BusOrderIsTotal()
    ensures TotalPreorder(ByKey)
    ensures forall a, b :: a != b ==> (KeyLess(a, b) <==> !KeyLess(b, a))
    ensures forall a :: !KeyLess(a, a)
  {}

  lemma RankedIsSorted(entries: seq<Entry>)
    ensures Sorted(Sort(entries, ByKey), ByKey)
    ensures forall e :: e in entries <==> e in Sort(entries, ByKey)
  {
    BusOrderIsTotal();
    SortSorts(entries, ByKey);
    SameMembers(entries, Sort(entries, ByKey));
  }

  /**
   * The ordinals 0 to n-1 are given out one to a card, each card keeps its own row's values,
   * and one card's ordinal is below another's exactly when its place on the bus is.
   */
  lemma OrdinalsRankByBus(entries: seq<Entry>) returns (ordinal: seq<nat>)
    requires Apart(entries)
    ensures |Ranked(entries)| == |ordinal| == |entries|
    ensures forall a :: 0 <= a < |entries| ==>
      ordinal[a] < |entries| && Ranked(entries)[ordinal[a]] == Telemetry(ordinal[a], entries[a].sample)
    ensures forall a, b :: 0 <= a < |entries| && 0 <= b < |entries| ==>
      (ordinal[a] < ordinal[b] <==> KeyLess(entries[a].key, entries[b].key))
    ensures Distinct(ordinal)
  {
    hide Sort, Ranked, KeyLess;
    var sorted := Sort(entries, ByKey);
    RankedIsSorted(entries);
    BusOrderIsTotal();
    ordinal := seq(|entries|, a requires 0 <= a < |entries| => PlaceIn(sorted, entries[a]));
    forall a, b | 0 <= a < |entries| && 0 <= b < |entries|
      ensures ordinal[a] < ordinal[b] <==> KeyLess(entries[a].key, entries[b].key)
      ensures a != b ==> ordinal[a] != ordinal[b]
    {
      var x, y := entries[a], entries[b];
      assert sorted[ordinal[a]] == x && sorted[ordinal[b]] == y;
      if a != b {
        assert Differ(entries[if a < b then a else b], entries[if a < b then b else a]);
        if ordinal[a] < ordinal[b] {
          assert ByKey(x, y);
        } else if ordinal[b] < ordinal[a] {
          assert ByKey(y, x);
        }
      }
    }
    RankedAt(entries);
  }

  lemma RankedAt(entries: seq<Entry>)
    ensures |Ranked(entries)| == |entries|
    ensures forall i :: 0 <= i < |entries| ==> Ranked(entries)[i] == Telemetry(i, Sort(entries, ByKey)[i].sample)
  {}

  ghost function PlaceIn(s: seq<Entry>, x: Entry): (p: nat)
    requires x in s
    ensures p < |s| && s[p] == x
  {
    var p :| 0 <= p < |s| && s[p] == x;
    p
  }

  // ---------------------------------------------------------------------------
  // The order of the rows does not matter
  // ---------------------------------------------------------------------------

  lemma {:induction false} EntriesConcat(a: seq<Row>, b: seq<Row>, read: Numerals)
    ensures Entries(a + b, read) == Entries(a, read) + Entries(b, read)
  {
    hide ReadRow, BlankRow;
    if b == [] {
      assert a + b == a;
    } else {
      assert (a + b)[..|a + b| - 1] == a + b[..|b| - 1];
      EntriesConcat(a, b[..|b| - 1], read);
    }
  }

  lemma {:induction false} SameRowsSameEntries(a: seq<Row>, b: seq<Row>, read: Numerals)
    requires multiset(a) == multiset(b)
    ensures multiset(Entries(a, read)) == multiset(Entries(b, read))
    decreases |a|
  {
    hide ReadRow, BlankRow, Entries;
    assert |multiset(a)| == |a| && |multiset(b)| == |b|;
    if a == [] {
      assert b == [];
    } else {
      var n := |a| - 1;
      SameMembers(a, b);
      assert a[n] in b;
      var k :| 0 <= k < |b| && b[k] == a[n];
      var front, before, last, after := a[..n], b[..k], [a[n]], b[k + 1..];
      assert a == front + last && b == before + last + after;
      DropSame(a, b, k);
      SameRowsSameEntries(front, before + after, read);
      EntriesConcat(front, last, read);
      EntriesConcat(before + last, after, read);
      EntriesConcat(before, last, read);
      EntriesConcat(before, after, read);
    }
  }

  lemma {:induction false} ApartOnce(entries: seq<Entry>, e: Entry)
    requires Apart(entries)
    ensures multiset(entries)[e] <= 1
  {
    if entries != [] {
      var front, last := entries[..|entries| - 1], entries[|entries| - 1];
      ApartOnce(front, e);
      assert entries == front + [last];
      assert last !in front;
    }
  }

  lemma DifferInApart(entries: seq<Entry>, x: Entry, y: Entry)
    requires Apart(entries) && x in entries && y in entries
    ensures x != y ==> Differ(x, y)
  {
    var i, j :| 0 <= i < |entries| && 0 <= j < |entries| && entries[i] == x && entries[j] == y;
    assert i < j ==> Differ(entries[i], entries[j]);
    assert j < i ==> Differ(entries[j], entries[i]);
  }

  lemma ApartIsOrderFree(a: seq<Entry>, b: seq<Entry>)
    requires multiset(a) == multiset(b) && Apart(a)
    ensures Apart(b)
  {
    SameMembers(a, b);
    forall i, j | 0 <= i < j < |b| ensures Differ(b[i], b[j]) {
      CountedTwice(b, i, j);
      ApartOnce(a, b[i]);
      DifferInApart(a, b[i], b[j]);
    }
  }

  lemma NoTiesApart(entries: seq<Entry>)
    requires Apart(entries)
    ensures NoTies(Sort(entries, ByKey), ByKey)
  {
    hide Sort;
    var sorted := Sort(entries, ByKey);
    BusOrderIsTotal();
    ApartIsOrderFree(entries, sorted);
    forall x, y | x in sorted && y in sorted && ByKey(x, y) && ByKey(y, x) ensures x == y {
      DifferInApart(sorted, x, y);
    }
  }

  lemma RankedIsOrderFree(a: seq<Entry>, b: seq<Entry>)
    requires multiset(a) == multiset(b) && Apart(a)
    ensures Ranked(a) == Ranked(b)
  {
    RankedIsSorted(a);
    RankedIsSorted(b);
    NoTiesApart(a);
    SortedIsUnique(Sort(a, ByKey), Sort(b, ByKey), ByKey);
  }

  /** The same rows in another order are accepted alike, and give the same cards the same ordinals. */
  lemma RowOrderDoesNotMatter(a: seq<Row>, b: seq<Row>, x: Table, y: Table, read: Numerals)
    requires multiset(a) == multiset(b) && Outcome(a, x, read) && Outcome(b, y, read)
    ensures x.Parsed? <==> y.Parsed?
    ensures x.Parsed? ==> x == y
  {
    hide Outcome, Acceptable, Ranked;
    ParsedExactlyWhenAcceptable(a, x, read);
    ParsedExactlyWhenAcceptable(b, y, read);
    if Acceptable(a, read) {
      AcceptableIsOrderFree(a, b, read);
    }
    if Acceptable(b, read) {
      AcceptableIsOrderFree(b, a, read);
    }
    if x.Parsed? {
      ParsedIsRanked(a, x, read);
      ParsedIsRanked(b, y, read);
      SameRowsSameEntries(a, b, read);
      RankedIsOrderFree(Entries(a, read), Entries(b, read));
    }
  }

  lemma ParsedIsRanked(rows: seq<Row>, table: Table, read: Numerals)
    requires Outcome(rows, table, read) && table.Parsed?
    ensures table.cards == Ranked(Entries(rows, read)) && Apart(Entries(rows, read))
  {}

  lemma AcceptableIsOrderFree(a: seq<Row>, b: seq<Row>, read: Numerals)
    requires multiset(a) == multiset(b) && Acceptable(a, read)
    ensures Acceptable(b, read)
  {
    hide Readable, Apart, InRange;
    SameMembers(a, b);
    SameRowsSameEntries(a, b, read);
    ApartIsOrderFree(Entries(a, read), Entries(b, read));
    assert |multiset(Entries(a, read))| == |Entries(a, read)|;
    assert |multiset(Entries(b, read))| == |Entries(b, read)|;
    SameMembers(Entries(a, read), Entries(b, read));
  }

  // ---------------------------------------------------------------------------
  // Bus ids read back
  // ---------------------------------------------------------------------------

  function HexChar(n: nat): char
    requires n < 16
  {
    if n < 10 then '0' + n as char else 'A' + (n - 10) as char
  }

  function Power16(width: nat): nat {
    if width == 0 then 1 else 16 * Power16(width - 1)
  }

  /** A number printed in a fixed width. */
  function HexText(n: nat, width: nat): (s: string)
    ensures |s| == width
  {
    if width == 0 then "" else HexText(n / 16, width - 1) + [HexChar(n % 16)]
  }

  lemma HexDigitReadsBack(n: nat)
    requires n < 16
    ensures HexDigit(HexChar(n)) == Some(n)
  {}

  lemma {:induction false} HexReadsBack(n: nat, width: nat)
    requires n < Power16(width)
    ensures Hex(HexText(n, width)) == Some(n)
  {
    hide HexDigit, HexChar;
    if width > 0 {
      HexReadsBack(n / 16, width - 1);
      HexDigitReadsBack(n % 16);
      var s := HexText(n, width);
      assert s[..|s| - 1] == HexText(n / 16, width - 1);
    }
  }

  function BusText(key: BusKey, width: nat): string
    requires key.function_ < 16
  {
    HexText(key.domain, width) +
    (":" + (HexText(key.bus, 2) + (":" + (HexText(key.device, 2) + ("." + [HexChar(key.function_)])))))
  }

  lemma BusTextParts(key: BusKey, width: nat)
    requires key.function_ < 8
    ensures var s := BusText(key, width);
            && |s| == width + 8 && s[..width] == HexText(key.domain, width)
            && s[width] == ':' && s[width + 1..width + 3] == HexText(key.bus, 2)
            && s[width + 3] == ':' && s[width + 4..width + 6] == HexText(key.device, 2)
            && s[width + 6] == '.' && s[width + 7] == '0' + key.function_ as char
  {
    hide HexText;
  }

  /** Every bus place is read back from its print, however wide its domain is printed. */
  lemma BusKeyReadsBack(key: BusKey, width: nat)
    requires 4 <= width <= 8 && key.domain < Power16(width) && key.bus < 256 && key.device < 256 && key.function_ < 8
    ensures PciBusKey(Some(BusText(key, width))) == Some(key)
  {
    hide Hex, HexText, BusText, HexChar;
    assert Power16(2) == 256;
    HexReadsBack(key.domain, width);
    HexReadsBack(key.bus, 2);
    HexReadsBack(key.device, 2);
    BusTextParts(key, width);
  }

  // ---------------------------------------------------------------------------
  // Rows read back
  // ---------------------------------------------------------------------------

  /** The first and last character are no blanks. */
  predicate Tight(text: string) {
    text != "" && !IsSpace(text[0]) && !IsSpace(text[|text| - 1])
  }

  /** A text that stands for itself: nothing to strip, and not one of the texts for "no value". */
  predicate Plain(text: string) {
    Tight(text) && !IsMissing(text)
  }

  lemma PlainStrips(text: string)
    ensures Tight(text) ==> Strip(text) == text
  {
    hide IsSpace;
  }

  lemma MissingTextIsTight()
    ensures Tight("N/A") && IsMissing("N/A")
  {}

  lemma PlainIsItsValue(row: Row, i: nat)
    requires i < |row|
    ensures Plain(row[i]) ==> Value(row, i) == Some(row[i])
    ensures row[i] == "N/A" ==> Value(row, i) == None
  {
    hide IsMissing, Tight, Strip;
    PlainStrips(row[i]);
    MissingTextIsTight();
    PlainStrips("N/A");
  }

  function Shown<T>(value: Option<T>, show: T -> string): string {
    if value.Some? then show(value.value) else "N/A"
  }

  /** The columns in the order the probe asks for them. */
  function PrintedRow(e: Entry, width: nat, showInt: int -> string, showReal: real -> string): Row
    requires e.key.function_ < 16
  {
    var s := e.sample;
    [showInt(s.index), s.uuid, s.name, showInt(s.total), showInt(s.used), showInt(s.free),
     Shown(s.gpuUse, showInt), Shown(s.memoryUse, showInt), Shown(s.temperature, showInt), Shown(s.power, showReal),
     Shown(s.pstate, (t: string) => t), BusText(e.key, width)]
  }

  lemma BusTextIsPlain(key: BusKey, width: nat)
    requires 4 <= width && key.function_ < 8
    ensures Plain(BusText(key, width))
  {
    hide HexText;
    var s := BusText(key, width);
    var domain := HexText(key.domain, width);
    HexTextIsPlain(key.domain, width);
    assert s[0] == domain[0] && s[|s| - 1] == HexChar(key.function_) && |s| == width + 8;
    assert |"[Not Supported]"| == 15 && |"Not Supported"| == 13;
    assert "[Not Supported]"[0] == '[' && "Not Supported"[0] == 'N';
  }

  lemma {:induction false} HexTextIsPlain(n: nat, width: nat)
    ensures forall i :: 0 <= i < width ==> '0' <= HexText(n, width)[i] <= '9' || 'A' <= HexText(n, width)[i] <= 'F'
  {
    if width > 0 {
      HexTextIsPlain(n / 16, width - 1);
    }
  }

  /** What the driver prints for a card, column by column, is read back as that card. */
  lemma RowReadsBack(e: Entry, width: nat, showInt: int -> string, showReal: real -> string, read: Numerals)
    requires forall n :: Plain(showInt(n)) && read.toInt(showInt(n)) == Some(n)
    requires forall x :: Plain(showReal(x)) && read.toReal(showReal(x)) == Some(x)
    requires Plain(e.sample.uuid) && Plain(e.sample.name) && (e.sample.pstate.Some? ==> Plain(e.sample.pstate.value))
    requires 4 <= width <= 8 && e.key.domain < Power16(width)
    requires e.key.bus < 256 && e.key.device < 256 && e.key.function_ < 8
    ensures ReadRow(PrintedRow(e, width, showInt, showReal), read) == Read(e)
  {
    hide Value, Plain, PciBusKey, BusText;
    var row := PrintedRow(e, width, showInt, showReal);
    BusTextIsPlain(e.key, width);
    BusKeyReadsBack(e.key, width);
    forall i: nat | i < 12 ensures Plain(row[i]) ==> Value(row, i) == Some(row[i])
                          ensures row[i] == "N/A" ==> Value(row, i) == None {
      PlainIsItsValue(row, i);
    }
    var s := e.sample;
    assert row[0] == showInt(s.index) && row[1] == s.uuid && row[2] == s.name;
    assert row[3] == showInt(s.total) && row[4] == showInt(s.used) && row[5] == showInt(s.free);
    ShownReadsBack(row, 6, s.gpuUse, showInt, read);
    ShownReadsBack(row, 7, s.memoryUse, showInt, read);
    ShownReadsBack(row, 8, s.temperature, showInt, read);
    assert Plain(row[0]) && Plain(row[3]) && Plain(row[4]) && Plain(row[5]);
    if s.power.Some? {
      var x := s.power.value;
      assert Plain(showReal(x)) && read.toReal(showReal(x)) == Some(x);
    }
    assert row[9] == Shown(s.power, showReal) && row[10] == Shown(s.pstate, (t: string) => t);
    assert row[11] == BusText(e.key, width);
  }

  lemma ShownReadsBack(row: Row, i: nat, value: Option<int>, show: int -> string, read: Numerals)
    requires i < |row| && row[i] == Shown(value, show)
    requires forall n :: Plain(show(n)) && read.toInt(show(n)) == Some(n)
    ensures IntValue(row, i, read) == value
  {
    hide Value, Plain;
    PlainIsItsValue(row, i);
    if value.Some? {
      var n := value.value;
      assert Plain(show(n)) && read.toInt(show(n)) == Some(n);
    }
  }
}
