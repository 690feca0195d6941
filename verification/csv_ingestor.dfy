/** The CSV ingestion path of `pkg/service/csv_ingestor.go`: the row
    sanitiser and the `Ingest` driver. The CSV reader is an already-split
    sequence of records with a terminal outcome; the store is reduced to the
    outcome of its one `BulkCreate` call; the context is a per-check
    cancellation flag. */
module CsvIngestor {
  import opened Wrappers
  import opened Model
  import opened Validators
  import Strings

  /** The positional columns of a record (the `column` constants). */
  datatype Column =
    | IpAddressColumn | CountryCodeColumn | CountryColumn | CityColumn
    | LatitudeColumn | LongitudeColumn | MysteryValueColumn

  /** The `switch column(i)` of `sanitise`: index 7 and beyond match no case. */
  function ColumnAt(i: nat): (col: Option<Column>)
    ensures col.None? <==> i >= 7
  {
    if i == 0 then Some(IpAddressColumn)
    else if i == 1 then Some(CountryCodeColumn)
    else if i == 2 then Some(CountryColumn)
    else if i == 3 then Some(CityColumn)
    else if i == 4 then Some(LatitudeColumn)
    else if i == 5 then Some(LongitudeColumn)
    else if i == 6 then Some(MysteryValueColumn)
    else None
  }

  const HeaderColumns: seq<string> :=
    ["ip_address", "country_code", "country", "city", "latitude", "longitude", "mystery_value"]

  /** `csv_header`, the exact text the first record must join to:
      "ip_address,country_code,country,city,latitude,longitude,mystery_value". */
  const CsvHeader: string := Strings.Join(HeaderColumns, ",")

  /** Whether column `j` of a row may hold `v`, stated per index without the
      column switch: 0 is an address, 1..3 non-blank text, 4..5 parsable
      floats, anything else is unchecked. */
  predicate FieldOk(parse: FloatParser, j: nat, v: string)
  {
    if j == 0 then IsIPValid(v).valid
    else if j <= 3 then !Strings.AllSpace(v)
    else if j <= 5 then parse(v).Some?
    else true
  }

  /** Column `j` of a row, or the empty text when the row is shorter. */
  function FieldOr(values: seq<string>, j: nat): string
  {
    if j < |values| then values[j] else ""
  }

  /** Every column at index `i` or later passes its check. */
  predicate ValidFrom(parse: FloatParser, values: seq<string>, i: nat)
  {
    forall j :: i <= j < |values| ==> FieldOk(parse, j, values[j])
  }

  /** The float a column parses to, or `otherwise` when it does not parse. */
  function ParsedOr(parse: FloatParser, v: string, otherwise: Float64): Float64
  {
    match parse(v)
    case Some(f) => f
    case None => otherwise
  }

  /** `loc` with every column from index `i` on stored in its field: the
      address verbatim, the names trimmed, the floats parsed, the mystery
      value copied. */
  function Overlay(parse: FloatParser, values: seq<string>, i: nat, loc: Location): Location
  {
    Location(
      if i <= 0 < |values| then values[0] else loc.ipAddress,
      if i <= 1 < |values| then Strings.TrimSpace(values[1]) else loc.countryCode,
      if i <= 2 < |values| then Strings.TrimSpace(values[2]) else loc.country,
      if i <= 3 < |values| then Strings.TrimSpace(values[3]) else loc.city,
      if i <= 4 < |values| then ParsedOr(parse, values[4], loc.latitude) else loc.latitude,
      if i <= 5 < |values| then ParsedOr(parse, values[5], loc.longitude) else loc.longitude,
      if i <= 6 < |values| then values[6] else loc.mysteryValue)
  }

  /** The loop of `sanitise` from index `i` on, with `loc` the fields set so
      far: the first failing validator rejects the row, otherwise each
      column stores its (validated) value. */
  function SanitiseFrom(parse: FloatParser, values: seq<string>, i: nat, loc: Location): (r: Option<Location>)
    requires i <= |values|
    ensures r.None? <==> !ValidFrom(parse, values, i)
    ensures r.Some? ==> r.value == Overlay(parse, values, i, loc)
    decreases |values| - i
  {
    if i == |values| then Some(loc)
    else
      var value := values[i];
      match ColumnAt(i)
      case None => SanitiseFrom(parse, values, i + 1, loc)
      case Some(IpAddressColumn) =>
        var c := IsIPValid(value);
        if !c.valid then None else SanitiseFrom(parse, values, i + 1, loc.(ipAddress := c.value))
      case Some(CountryCodeColumn) =>
        var c := IsStringValid(value);
        if !c.valid then None else SanitiseFrom(parse, values, i + 1, loc.(countryCode := c.value))
      case Some(CountryColumn) =>
        var c := IsStringValid(value);
        if !c.valid then None else SanitiseFrom(parse, values, i + 1, loc.(country := c.value))
      case Some(CityColumn) =>
        var c := IsStringValid(value);
        if !c.valid then None else SanitiseFrom(parse, values, i + 1, loc.(city := c.value))
      case Some(LatitudeColumn) =>
        var c := IsFloat64Valid(parse, value);
        if !c.valid then None else SanitiseFrom(parse, values, i + 1, loc.(latitude := c.value))
      case Some(LongitudeColumn) =>
        var c := IsFloat64Valid(parse, value);
        if !c.valid then None else SanitiseFrom(parse, values, i + 1, loc.(longitude := c.value))
      case Some(MysteryValueColumn) =>
        SanitiseFrom(parse, values, i + 1, loc.(mysteryValue := value))
  }

  /** `sanitise`: a row is rejected exactly when one of its columns fails its
      validator (only columns 0..5 have one); otherwise every column is
      stored over the zero location. */
  function Sanitise(parse: FloatParser, values: seq<string>): (r: Option<Location>)
    ensures r.None? <==> !ValidFrom(parse, values, 0)
    ensures r.Some? ==> r.value == Overlay(parse, values, 0, EmptyLocation)
  {
    SanitiseFrom(parse, values, 0, EmptyLocation)
  }

  /** The fields of an accepted row, column by column: the address is raw
      column 0, the names are trimmed columns 1..3, the floats are the parsed
      columns 4..5 and the mystery value is raw column 6. Columns a short
      row lacks keep their zero values. */
  lemma SanitiseFields(parse: FloatParser, values: seq<string>)
    requires Sanitise(parse, values).Some?
    ensures Sanitise(parse, values).value == Location(
      FieldOr(values, 0),
      Strings.TrimSpace(FieldOr(values, 1)),
      Strings.TrimSpace(FieldOr(values, 2)),
      Strings.TrimSpace(FieldOr(values, 3)),
      if 4 < |values| then parse(values[4]).value else Zero,
      if 5 < |values| then parse(values[5]).value else Zero,
      FieldOr(values, 6))
  {
    assert Strings.TrimSpace("") == "";
    if 4 < |values| { assert FieldOk(parse, 4, values[4]); }
    if 5 < |values| { assert FieldOk(parse, 5, values[5]); }
  }

  /** Columns after the seventh never influence the result. */
  lemma SanitiseIgnoresExtraColumns(parse: FloatParser, values: seq<string>)
    requires |values| > 7
    ensures Sanitise(parse, values) == Sanitise(parse, values[..7])
  {
    var short := values[..7];
    assert ValidFrom(parse, values, 0) <==> ValidFrom(parse, short, 0) by {
      forall j | 0 <= j < 7 ensures short[j] == values[j] { }
    }
  }

  /** The rows `sanitise` accepts, in input order: the reference for what
      `Ingest` collects. */
  function AcceptedRows(parse: FloatParser, rows: seq<seq<string>>): (locs: seq<Location>)
    ensures |locs| <= |rows|
  {
    FilterMap(row => Sanitise(parse, row), rows)
  }

  /** Accepting distributes over concatenation, so accepted rows keep their
      relative order. */
  lemma AcceptedRowsAppend(parse: FloatParser, a: seq<seq<string>>, b: seq<seq<string>>)
    ensures AcceptedRows(parse, a + b) == AcceptedRows(parse, a) + AcceptedRows(parse, b)
  {
    FilterMapAppend(row => Sanitise(parse, row), a, b);
  }

  /** Every accepted location is the sanitised form of some row, and every
      row that sanitises contributes its location. */
  lemma AcceptedRowsMembership(parse: FloatParser, rows: seq<seq<string>>, l: Location)
    ensures l in AcceptedRows(parse, rows) <==> exists j :: 0 <= j < |rows| && Sanitise(parse, rows[j]) == Some(l)
  {
    FilterMapMembership(row => Sanitise(parse, row), rows, l);
  }

  /** How the reader ends after its records: cleanly, or with a read error. */
  datatype StreamEnd = EndOfFile | ReadError(reason: string)

  /** What `csv.Reader.Read` returns, call after call. */
  datatype Stream = Stream(records: seq<seq<string>>, end: StreamEnd)

  /** The state `Ingest` accumulates while reading. */
  datatype Scan = Scan(locations: seq<Location>, stat: Stat)

  /** The records after the header. */
  function Body(records: seq<seq<string>>): seq<seq<string>>
  {
    if |records| == 0 then [] else records[1..]
  }

  /** The header check: only the first record, joined with commas, is
      compared with `csv_header`; an empty stream has nothing to check. */
  predicate HeaderOk(records: seq<seq<string>>)
  {
    |records| == 0 || Strings.Join(records[0], ",") == CsvHeader
  }

  /** No cancellation is seen at checks `from` through `to`. */
  predicate NotCancelled(cancelled: nat -> bool, from: nat, to: nat)
  {
    forall j :: from <= j <= to ==> !cancelled(j)
  }

  /** The data records the loop still has to read when it is about to make
      read number `k`. */
  function Remaining(s: Stream, k: nat): seq<seq<string>>
    requires k <= |s.records|
  {
    if k == 0 then Body(s.records) else s.records[k..]
  }

  /** Why the reading phase stops early, if it does, given that the next
      read is number `k`: a bad header is seen right after the first check
      succeeds; otherwise any cancellation at a remaining check; otherwise
      the read error that ends the stream. */
  function ScanFailure(s: Stream, cancelled: nat -> bool, k: nat): Option<Error>
    requires k <= |s.records|
  {
    if k == 0 && !cancelled(0) && !HeaderOk(s.records) then Some(InvalidHeader)
    else if !NotCancelled(cancelled, k, |s.records|) then Some(ContextDone)
    else if s.end.ReadError? then Some(ReadFailed(s.end.reason))
    else None
  }

  /** Reading data record `k` either accepts it, ahead of the rows still to
      come, or discards it. */
  lemma RemainingStep(s: Stream, parse: FloatParser, k: nat)
    requires 0 < k < |s.records|
    ensures |Remaining(s, k)| == |Remaining(s, k + 1)| + 1
    ensures Sanitise(parse, s.records[k]).Some? ==>
      AcceptedRows(parse, Remaining(s, k)) == [Sanitise(parse, s.records[k]).value] + AcceptedRows(parse, Remaining(s, k + 1))
    ensures Sanitise(parse, s.records[k]).None? ==>
      AcceptedRows(parse, Remaining(s, k)) == AcceptedRows(parse, Remaining(s, k + 1))
  {
    var rest := Remaining(s, k);
    assert rest[0] == s.records[k] && rest[1..] == Remaining(s, k + 1);
  }

  /** The read loop of `Ingest`. Before read `k` the context is checked;
      read `|s.records|` is the one that meets the end of the stream. The
      first record is compared with the header; each later one is
      sanitised and either collected or counted as discarded. */
  function ReadLoop(s: Stream, parse: FloatParser, cancelled: nat -> bool, k: nat, acc: seq<Location>, stat: Stat): (r: Result<Scan, Error>)
    requires k <= |s.records|
    ensures r.Success? <==> ScanFailure(s, cancelled, k).None?
    ensures r.Failure? ==> r.error == ScanFailure(s, cancelled, k).value
    ensures r.Success? ==>
      var accepted := AcceptedRows(parse, Remaining(s, k));
      && r.value.locations == acc + accepted
      && r.value.stat.accepted == stat.accepted + |accepted|
      && r.value.stat.discarded == stat.discarded + (|Remaining(s, k)| - |accepted|)
    decreases |s.records| - k
  {
    if cancelled(k) then Failure(ContextDone)
    else if k == |s.records| then
      match s.end
      case EndOfFile => Success(Scan(acc, stat))
      case ReadError(reason) => Failure(ReadFailed(reason))
    else
      assert NotCancelled(cancelled, k, |s.records|) <==> NotCancelled(cancelled, k + 1, |s.records|);
      if k == 0 then
        if Strings.Join(s.records[0], ",") != CsvHeader then Failure(InvalidHeader)
        else
          assert Remaining(s, 0) == Remaining(s, 1);
          assert ScanFailure(s, cancelled, 0) == ScanFailure(s, cancelled, 1);
          ReadLoop(s, parse, cancelled, 1, acc, stat)
      else
        assert ScanFailure(s, cancelled, k) == ScanFailure(s, cancelled, k + 1);
        RemainingStep(s, parse, k);
        match Sanitise(parse, s.records[k])
        case Some(l) =>
          var next := AcceptedRows(parse, Remaining(s, k + 1));
          assert acc + [l] + next == acc + ([l] + next);
          ReadLoop(s, parse, cancelled, k + 1, acc + [l], stat.(accepted := stat.accepted + 1))
        case None =>
          ReadLoop(s, parse, cancelled, k + 1, acc, stat.(discarded := stat.discarded + 1))
  }

  /** The store's `BulkCreate`, reduced to the error it returns (if any)
      for the list it is given. */
  type BulkCreateFn = seq<Location> -> Option<Error>

  /** What a successful run returns. */
  datatype Report = Report(stat: Stat, locations: seq<Location>)

  /** The outcome of `Ingest`, together with the list it handed to
      `BulkCreate` (`None` when the call was never made). */
  datatype IngestRun = IngestRun(result: Result<Report, Error>, handedOff: Option<seq<Location>>)

  /** `Ingest`. A missing store or reader fails before any read; otherwise
      the records are read, and only if the reading phase completes is
      `BulkCreate` called, once, with every accepted location. Statistics
      and locations come back only when that call succeeds too. */
  function Ingest(store: Option<BulkCreateFn>, reader: Option<Stream>, parse: FloatParser, cancelled: nat -> bool): (run: IngestRun)
    ensures store.None? ==> run == IngestRun(Failure(NilStore), None)
    ensures store.Some? && reader.None? ==> run == IngestRun(Failure(NilReader), None)
    ensures run.handedOff.Some? <==>
      store.Some? && reader.Some? && ScanFailure(reader.value, cancelled, 0).None?
    ensures store.Some? && reader.Some? && run.handedOff.None? ==>
      run.result == Failure(ScanFailure(reader.value, cancelled, 0).value)
    ensures run.handedOff.Some? ==> run.handedOff.value == AcceptedRows(parse, Body(reader.value.records))
    ensures run.result.Success? <==> run.handedOff.Some? && store.value(run.handedOff.value).None?
    ensures run.result.Success? ==>
      && run.result.value.locations == run.handedOff.value
      && run.result.value.stat.accepted == |run.result.value.locations|
      && run.result.value.stat.accepted + run.result.value.stat.discarded == |Body(reader.value.records)|
    ensures run.handedOff.Some? && run.result.Failure? ==>
      run.result.error == BulkCreateFailed(store.value(run.handedOff.value).value)
  {
    if store.None? then IngestRun(Failure(NilStore), None)
    else if reader.None? then IngestRun(Failure(NilReader), None)
    else
      match ReadLoop(reader.value, parse, cancelled, 0, [], Stat(0, 0))
      case Failure(e) => IngestRun(Failure(e), None)
      case Success(scan) =>
        match store.value(scan.locations)
        case Some(e) => IngestRun(Failure(BulkCreateFailed(e)), Some(scan.locations))
        case None => IngestRun(Success(Report(scan.stat, scan.locations)), Some(scan.locations))
  }

  /** An empty stream skips the header check: `BulkCreate` gets the empty
      list and, if it succeeds, the run reports 0 accepted and 0 discarded. */
  lemma IngestEmptyStream(bulk: BulkCreateFn, parse: FloatParser, cancelled: nat -> bool)
    requires !cancelled(0)
    ensures Ingest(Some(bulk), Some(Stream([], EndOfFile)), parse, cancelled).handedOff == Some([])
    ensures bulk([]).None? ==>
      Ingest(Some(bulk), Some(Stream([], EndOfFile)), parse, cancelled).result == Success(Report(Stat(0, 0), []))
  {
    var run := Ingest(Some(bulk), Some(Stream([], EndOfFile)), parse, cancelled);
    assert NotCancelled(cancelled, 0, 0);
  }

  /** Every location a successful run returns has a valid address, as long
      as no data record is empty (the CSV reader never yields an empty
      record). */
  lemma IngestedAddressesAreValid(bulk: BulkCreateFn, s: Stream, parse: FloatParser, cancelled: nat -> bool)
    requires forall j :: 0 <= j < |Body(s.records)| ==> |Body(s.records)[j]| > 0
    ensures var run := Ingest(Some(bulk), Some(s), parse, cancelled);
      run.result.Success? ==>
        forall l :: l in run.result.value.locations ==> IsIPValid(l.ipAddress).valid
  {
    var run := Ingest(Some(bulk), Some(s), parse, cancelled);
    if run.result.Success? {
      forall l | l in run.result.value.locations ensures IsIPValid(l.ipAddress).valid {
        var rows := Body(s.records);
        AcceptedRowsMembership(parse, rows, l);
        var j :| 0 <= j < |rows| && Sanitise(parse, rows[j]) == Some(l);
        assert FieldOk(parse, 0, rows[j][0]);
      }
    }
  }

  /** An empty record passes `sanitise`: no column fails, so the zero
      location (with an empty address) is accepted. */
  lemma SanitiseAcceptsEmptyRecord(parse: FloatParser)
    ensures Sanitise(parse, []) == Some(EmptyLocation)
  {
  }

  /** The header is checked on the first record only: a later record equal
      to the header is an ordinary row, and is discarded. */
  lemma HeaderRecordAsDataIsDiscarded(parse: FloatParser)
    ensures Sanitise(parse, HeaderColumns) == None
  {
    IsIPValidRejectsName();
    assert !FieldOk(parse, 0, HeaderColumns[0]);
  }

  /** A record of the worked example, for address `ip`: three names, two
      floats and a mystery value. */
  function ExampleRow(ip: string): seq<string>
  {
    [ip, "SI", "Nepal", "DuBuquemouth", "-84.87503094689836", "7.206435933364332", "7823011346"]
  }

  /** The location a good example record yields. */
  function ExampleLocation(parse: FloatParser, ip: string): Location
    requires parse("-84.87503094689836").Some? && parse("7.206435933364332").Some?
  {
    Location(ip, "SI", "Nepal", "DuBuquemouth", parse("-84.87503094689836").value, parse("7.206435933364332").value, "7823011346")
  }

  /** Text `sanitise` stores unchanged in a name column: non-empty, with no
      white space at either end. */
  predicate IsTrimmedName(t: string)
  {
    |t| > 0 && !Strings.IsSpace(t[0]) && !Strings.IsSpace(t[|t| - 1])
  }

  /** A row written out from a location with a valid address and trimmed
      names, whose float columns parse, sanitises back to that location. */
  lemma SanitiseRoundTrip(parse: FloatParser, l: Location, lat: string, lon: string)
    requires IsIPValid(l.ipAddress).valid
    requires IsTrimmedName(l.countryCode) && IsTrimmedName(l.country) && IsTrimmedName(l.city)
    requires parse(lat) == Some(l.latitude) && parse(lon) == Some(l.longitude)
    ensures Sanitise(parse, [l.ipAddress, l.countryCode, l.country, l.city, lat, lon, l.mysteryValue]) == Some(l)
  {
    var row := [l.ipAddress, l.countryCode, l.country, l.city, lat, lon, l.mysteryValue];
    Strings.TrimUnchanged(l.countryCode);
    Strings.TrimUnchanged(l.country);
    Strings.TrimUnchanged(l.city);
    assert !Strings.AllSpace(l.countryCode) && !Strings.AllSpace(l.country) && !Strings.AllSpace(l.city);
    assert ValidFrom(parse, row, 0);
  }

  /** A header, a record with a good address and one with a bad address
      (such as "200.106.141.15" and "200.106.141.tyr", see
      `IsIPValidAcceptsAddress` and `IsIPValidRejectsLongerLetters`) give one
      accepted and one discarded row. */
  lemma IngestWorkedExample(bulk: BulkCreateFn, parse: FloatParser, cancelled: nat -> bool, good: string, bad: string)
    requires IsIPValid(good).valid && !IsIPValid(bad).valid
    requires parse("-84.87503094689836").Some? && parse("7.206435933364332").Some?
    requires forall j :: 0 <= j <= 3 ==> !cancelled(j)
    requires forall l :: bulk(l).None?
    ensures var run := Ingest(Some(bulk), Some(Stream([HeaderColumns, ExampleRow(good), ExampleRow(bad)], EndOfFile)), parse, cancelled);
      && run.result.Success?
      && run.result.value.stat == Stat(1, 1)
      && run.result.value.locations == [ExampleLocation(parse, good)]
  {
    var s := Stream([HeaderColumns, ExampleRow(good), ExampleRow(bad)], EndOfFile);
    assert NotCancelled(cancelled, 0, 3);
    assert Body(s.records) == [ExampleRow(good), ExampleRow(bad)];
    ExampleRowsAccepted(parse, good, bad);
  }

  /** Of the two example records only the one with the good address is
      accepted. */
  lemma ExampleRowsAccepted(parse: FloatParser, good: string, bad: string)
    requires IsIPValid(good).valid && !IsIPValid(bad).valid
    requires parse("-84.87503094689836").Some? && parse("7.206435933364332").Some?
    ensures AcceptedRows(parse, [ExampleRow(good), ExampleRow(bad)]) == [ExampleLocation(parse, good)]
  {
    var l := ExampleLocation(parse, good);
    assert IsTrimmedName(l.countryCode) && IsTrimmedName(l.country) && IsTrimmedName(l.city);
    SanitiseRoundTrip(parse, l, "-84.87503094689836", "7.206435933364332");
    assert !FieldOk(parse, 0, ExampleRow(bad)[0]);
    assert [ExampleRow(good), ExampleRow(bad)][1..] == [ExampleRow(bad)];
    assert AcceptedRows(parse, [ExampleRow(bad)]) == [];
  }

  /** A stream whose first record is data, not the header, fails as a
      whole before anything is handed to the store. */
  lemma IngestRejectsMissingHeader(bulk: BulkCreateFn, parse: FloatParser, cancelled: nat -> bool)
    requires !cancelled(0)
    ensures Ingest(Some(bulk), Some(Stream([ExampleRow("7"), ExampleRow("7")], EndOfFile)), parse, cancelled)
            == IngestRun(Failure(InvalidHeader), None)
  {
    assert Strings.Join(ExampleRow("7"), ",")[0] == '7';
    assert CsvHeader[0] == 'i';
  }
}
