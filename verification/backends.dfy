/** How the two implementations of the `Store` interface
    (`internal/store.go`) compare, and what the whole service does when
    `Ingest` and `Resolve` run over one of them. */
module Backends {
  import opened Wrappers
  import opened Model
  import MockStore
  import Database
  import CsvIngestor
  import LocationService
  import Validators

  /** The in-memory store after loading `locations` into a fresh one. */
  function LoadedMock(locations: seq<Location>): MockStore.Conn
  {
    MockStore.BulkCreate(MockStore.New(), false, locations).conn
  }

  /** The database after loading `locations` into an empty table. */
  function LoadedDatabase(locations: seq<Location>, engine: Database.Engine): Database.Conn
  {
    Database.BulkCreate(Database.Conn(map[], false), locations, engine).conn
  }

  /** After the same successful load, the two stores answer every lookup
      alike: the same rows are found (the first row of each address, in
      list order) and the same addresses are missing. The only difference
      is the `ip_address` column, which the database leaves empty. */
  lemma LookupsAgree(locations: seq<Location>, engine: Database.Engine, ip: string)
    requires Database.AcceptsAll(engine, locations)
    ensures var m := MockStore.Get(LoadedMock(locations), false, ip);
      var d := Database.Get(LoadedDatabase(locations, engine), ip, None, None, None);
      && (m == Failure(NotFound) <==> d == Failure(NotFound))
      && (m.Success? <==> d.Success?)
      && (m.Success? ==> d.value == m.value.(ipAddress := ""))
  {
    Database.BulkCreateAllAccepted(Database.Conn(map[], false), locations, engine);
  }

  /** Consequently `Resolve` gives the same response over either store. */
  lemma ResolveAgrees(locations: seq<Location>, engine: Database.Engine, verb: string, ip: string)
    requires Database.AcceptsAll(engine, locations)
    ensures LocationService.Resolve(verb, ip, q => MockStore.Get(LoadedMock(locations), false, q))
         == LocationService.Resolve(verb, ip, q => Database.Get(LoadedDatabase(locations, engine), q, None, None, None))
  {
    var a: LocationService.Lookup := q => MockStore.Get(LoadedMock(locations), false, q);
    var b: LocationService.Lookup := q => Database.Get(LoadedDatabase(locations, engine), q, None, None, None);
    forall q
      ensures (a(q).Failure? <==> b(q).Failure?) && (a(q).Failure? ==> a(q) == b(q))
      ensures a(q).Success? ==> a(q).value.(ipAddress := "") == b(q).value.(ipAddress := "")
    {
      LookupsAgree(locations, engine, q);
    }
    LocationService.AnswerIgnoresStoredAddress(verb, ip, a, b);
  }

  /** A second load is where the stores part ways: the in-memory store
      replaces its contents, the database keeps the first load's rows. */
  lemma SecondLoadDiverges(first: seq<Location>, second: seq<Location>, e1: Database.Engine, e2: Database.Engine, i: nat)
    requires Database.AcceptsAll(e1, first) && Database.AcceptsAll(e2, second)
    requires i < |first|
    requires forall j :: 0 <= j < |second| ==> second[j].ipAddress != first[i].ipAddress
    ensures var m := MockStore.BulkCreate(LoadedMock(first), false, second).conn;
      MockStore.Get(m, false, first[i].ipAddress) == Failure(NotFound)
    ensures var d := Database.BulkCreate(LoadedDatabase(first, e1), second, e2).conn;
      Database.Get(d, first[i].ipAddress, None, None, None).Success?
  {
    var ip := first[i].ipAddress;
    Database.BulkCreateAllAccepted(Database.Conn(map[], false), first, e1);
    assert FirstWithAddress(first, ip).Some?;
    var d1 := LoadedDatabase(first, e1);
    assert ip in d1.table;
    Database.BulkCreateAllAccepted(d1, second, e2);
  }

  /** A failure while advancing to a stored row turns into a 404 as
      written; with the iteration error checked it is a 500. */
  lemma IterationErrorOnDatabase(c: Database.Conn, ip: string, e: Error)
    requires !c.closed && ip in c.table && Validators.IsIPValid(ip).valid
    requires e != NotFound
    ensures LocationService.Resolve("GET", ip, q => Database.Get(c, q, None, Some(e), None)).status
         == LocationService.StatusNotFound
    ensures LocationService.Resolve("GET", ip, q => Database.GetChecked(c, q, None, Some(e), None)).status
         == LocationService.StatusInternalServerError
  {
    Database.GetMasksIterationError(c, ip, e);
  }

  /** `Ingest` over the in-memory store: the `BulkCreate` it calls. */
  function MockBulk(c: MockStore.Conn, cancelled: bool): CsvIngestor.BulkCreateFn
  {
    l => MockStore.BulkCreate(c, cancelled, l).err
  }

  /** A successful ingestion into an open in-memory store leaves exactly
      the reported locations in it, and `Resolve` then finds a valid
      address iff some accepted row carries it. */
  lemma IngestThenResolve(c: MockStore.Conn, s: CsvIngestor.Stream, parse: Validators.FloatParser,
                          cancelled: nat -> bool, ip: string)
    requires CsvIngestor.Ingest(Some(MockBulk(c, false)), Some(s), parse, cancelled).result.Success?
    requires Validators.IsIPValid(ip).valid
    ensures var run := CsvIngestor.Ingest(Some(MockBulk(c, false)), Some(s), parse, cancelled);
      var after := MockStore.BulkCreate(c, false, run.handedOff.value).conn;
      && after.locations == run.result.value.locations
      && (LocationService.Resolve("GET", ip, q => MockStore.Get(after, false, q)).status == LocationService.StatusNotFound
          <==> forall j :: 0 <= j < |after.locations| ==> after.locations[j].ipAddress != ip)
  {
  }

  /** `Ingest` over the database: the `BulkCreate` it calls, as written. */
  function DatabaseBulk(c: Database.Conn, engine: Database.Engine): CsvIngestor.BulkCreateFn
  {
    l => Database.BulkCreate(c, l, engine).err
  }

  /** ... and with the empty list treated as a trivial success. */
  function DatabaseBulkGuarded(c: Database.Conn, engine: Database.Engine): CsvIngestor.BulkCreateFn
  {
    l => Database.BulkCreateGuarded(c, l, engine).err
  }

  /** A file holding only the header line. */
  const HeaderOnly := CsvIngestor.Stream([CsvIngestor.HeaderColumns], CsvIngestor.EndOfFile)

  /** A file holding only its header hands `BulkCreate` the empty list,
      and the run's outcome is exactly what that call returns. */
  lemma HeaderOnlyHandsOffNothing(bulk: CsvIngestor.BulkCreateFn, parse: Validators.FloatParser,
                                  cancelled: nat -> bool)
    requires !cancelled(0) && !cancelled(1)
    ensures var run := CsvIngestor.Ingest(Some(bulk), Some(HeaderOnly), parse, cancelled);
      && run.handedOff == Some([])
      && (bulk([]).None? ==> run.result == Success(CsvIngestor.Report(Stat(0, 0), [])))
      && (bulk([]).Some? ==> run.result == Failure(BulkCreateFailed(bulk([]).value)))
  {
    assert CsvIngestor.HeaderOk(HeaderOnly.records);
    assert CsvIngestor.Body(HeaderOnly.records) == [];
    assert CsvIngestor.NotCancelled(cancelled, 0, 1);
    assert CsvIngestor.AcceptedRows(parse, []) == [];
  }

  /** As written, the database backend sends its row-less statement for a
      header-only file, the engine rejects it, and the ingestion fails; with
      the guard the same file ingests cleanly with nothing accepted and
      nothing discarded. */
  lemma HeaderOnlyFileOnDatabase(c: Database.Conn, engine: Database.Engine, parse: Validators.FloatParser,
                                 cancelled: nat -> bool, syntaxError: Error)
    requires !c.closed && engine.beginErr.None? && engine.execErr(0) == Some(syntaxError)
    requires !cancelled(0) && !cancelled(1)
    ensures CsvIngestor.Ingest(Some(DatabaseBulk(c, engine)), Some(HeaderOnly), parse, cancelled).result
         == Failure(BulkCreateFailed(syntaxError))
    ensures CsvIngestor.Ingest(Some(DatabaseBulkGuarded(c, engine)), Some(HeaderOnly), parse, cancelled).result
         == Success(CsvIngestor.Report(Stat(0, 0), []))
  {
    Database.EmptyBulkCreateSendsRowlessInsert(c, engine);
    assert DatabaseBulk(c, engine)([]) == Some(syntaxError);
    assert DatabaseBulkGuarded(c, engine)([]) == None;
    HeaderOnlyHandsOffNothing(DatabaseBulk(c, engine), parse, cancelled);
    HeaderOnlyHandsOffNothing(DatabaseBulkGuarded(c, engine), parse, cancelled);
  }
}
