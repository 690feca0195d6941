/** The engine-independent logic of the persistent store in
    `internal/store/database/connection.go`: the batch partition of
    `BulkCreate`, the placeholder and argument layout of each batch's
    INSERT, the batch loop, the `closed` guards, and the table as a map
    keyed by `ip_address` with insert-if-absent semantics
    (`ON CONFLICT (ip_address) DO NOTHING`). Every statement the engine
    executes is reduced to "succeeded" or "failed with this error". */
module Database {
  import opened Wrappers
  import opened Model

  /** The table, keyed by the primary key `ip_address`, and the `closed`
      flag of the connection. */
  datatype Conn = Conn(table: map<string, Location>, closed: bool)

  /** The connection after an operation, and the error it returned. */
  datatype Step = Step(conn: Conn, err: Option<Error>)

  /** `New`: opening or pinging the engine may fail; otherwise the
      connection starts open, over whatever the table already holds. */
  function New(existing: map<string, Location>, connectErr: Option<Error>): (r: Result<Conn, Error>)
    ensures connectErr.Some? ==> r == Failure(connectErr.value)
    ensures connectErr.None? ==> r == Success(Conn(existing, false))
  {
    match connectErr
    case Some(e) => Failure(e)
    case None => Success(Conn(existing, false))
  }

  /** `Migrate`: `CREATE TABLE IF NOT EXISTS` never changes stored rows;
      `execErr` is what the engine returns for it. */
  function Migrate(c: Conn, execErr: Option<Error>): (r: Step)
    ensures r.conn == c
    ensures c.closed ==> r.err == Some(InvalidConn)
    ensures !c.closed ==> r.err == execErr
  {
    if c.closed then Step(c, Some(InvalidConn)) else Step(c, execErr)
  }

  // ----- Batch partition -------------------------------------------------

  /** The `size` of `BulkCreate`. */
  const BatchSize: int := 1000

  /** The batches laid end to end. */
  function Flatten(batches: seq<seq<Location>>): seq<Location>
  {
    if |batches| == 0 then [] else batches[0] + Flatten(batches[1..])
  }

  /** The `for from := 0; from < lenBulk; from += size` loop, from `from` on:
      consecutive slices of `BatchSize` rows, the last one possibly shorter. */
  function Chunks(locations: seq<Location>, from: nat): (batches: seq<seq<Location>>)
    requires from <= |locations|
    ensures Flatten(batches) == locations[from..]
    ensures |batches| == (|locations| - from + BatchSize - 1) / BatchSize
    ensures forall i :: 0 <= i < |batches| ==> 1 <= |batches[i]| <= BatchSize
    ensures forall i :: 0 <= i < |batches| - 1 ==> |batches[i]| == BatchSize
    decreases |locations| - from
  {
    if from >= |locations| then []
    else
      var till := if from + BatchSize > |locations| then |locations| else from + BatchSize;
      var rest := Chunks(locations, till);
      assert locations[from..] == locations[from..till] + locations[till..];
      [locations[from..till]] + rest
  }

  /** The partition of `BulkCreate`: fewer rows than the batch size (the
      empty list included) form a single batch; otherwise `Chunks`. */
  function Partition(locations: seq<Location>): (batches: seq<seq<Location>>)
    ensures Flatten(batches) == locations
    ensures |locations| < BatchSize ==> batches == [locations]
    ensures |locations| >= BatchSize ==> |batches| == (|locations| + BatchSize - 1) / BatchSize
    ensures |locations| >= BatchSize ==> forall i :: 0 <= i < |batches| ==> 1 <= |batches[i]| <= BatchSize
    ensures forall i :: 0 <= i < |batches| - 1 ==> |batches[i]| == BatchSize
  {
    if BatchSize <= 0 || BatchSize > |locations| then
      assert Flatten([locations]) == locations + Flatten([]);
      [locations]
    else
      assert locations[0..] == locations;
      Chunks(locations, 0)
  }

  /** Batch `i` of `Chunks(locations, from)` is the slice starting at row
      `from + BatchSize * i`. */
  lemma {:induction false} ChunkIsSlice(locations: seq<Location>, from: nat, i: nat)
    requires from <= |locations| && i < |Chunks(locations, from)|
    ensures from + i * BatchSize + |Chunks(locations, from)[i]| <= |locations|
    ensures Chunks(locations, from)[i] == locations[from + i * BatchSize .. from + i * BatchSize + |Chunks(locations, from)[i]|]
    decreases i
  {
    if i > 0 {
      var till := from + BatchSize;
      assert till <= |locations|;
      ChunkIsSlice(locations, till, i - 1);
      assert till + (i - 1) * BatchSize == from + i * BatchSize;
      assert Chunks(locations, from)[i] == Chunks(locations, till)[i - 1];
    }
  }

  /** The batches are consecutive slices of the input: batch `i` starts at
      row `BatchSize * i`. */
  lemma PartitionIsSlices(locations: seq<Location>, i: nat)
    requires i < |Partition(locations)|
    ensures i * BatchSize + |Partition(locations)[i]| <= |locations|
    ensures Partition(locations)[i] == locations[i * BatchSize .. i * BatchSize + |Partition(locations)[i]|]
  {
    if |locations| >= BatchSize {
      ChunkIsSlice(locations, 0, i);
    }
  }

  // ----- Statement layout -------------------------------------------------

  /** A bound argument: the text columns and the two floats. */
  datatype Arg = TextArg(text: string) | FloatArg(number: Float64)

  /** One multi-row INSERT: the placeholder numbers of each row tuple, and
      the arguments in binding order (`$k` binds `args[k - 1]`). */
  datatype Insert = Insert(tuples: seq<seq<nat>>, args: seq<Arg>)

  /** The seven arguments of a row, in column order: ip_address,
      country_code, country, city, latitude, longitude, mystery_value. */
  function RowArgs(l: Location): seq<Arg>
  {
    [TextArg(l.ipAddress), TextArg(l.countryCode), TextArg(l.country), TextArg(l.city),
     FloatArg(l.latitude), FloatArg(l.longitude), TextArg(l.mysteryValue)]
  }

  /** The tuple `($idx+1, ..., $idx+7)`. */
  function Placeholders(idx: nat): seq<nat>
  {
    seq(7, c requires 0 <= c < 7 => idx + c + 1)
  }

  /** The layout of a batch's statement: one tuple per row, row `r`'s
      tuple numbering `$(7r+1) .. $(7r+7)`, and row `r`'s seven arguments
      bound at positions `7r .. 7r+6`. */
  ghost predicate LaysOut(stmt: Insert, batch: seq<Location>)
  {
    && |stmt.tuples| == |batch| && |stmt.args| == 7 * |batch|
    && (forall r :: 0 <= r < |batch| ==> stmt.tuples[r] == Placeholders(7 * r))
    && (forall r :: 0 <= r < |batch| ==> stmt.args[7 * r .. 7 * r + 7] == RowArgs(batch[r]))
  }

  /** The inner loop of `BulkCreate` for one batch: row `i` gets the tuple
      starting at `7 * i`, and its seven arguments are appended. */
  function BuildInsert(batch: seq<Location>): (stmt: Insert)
    ensures LaysOut(stmt, batch)
    decreases |batch|
  {
    if |batch| == 0 then Insert([], [])
    else
      var prev := BuildInsert(batch[..|batch| - 1]);
      ExtendInsert(prev, batch);
      Insert(prev.tuples + [Placeholders(7 * (|batch| - 1))], prev.args + RowArgs(batch[|batch| - 1]))
  }

  /** Appending the last row's tuple and arguments to the layout of the
      rows before it gives the layout of the whole batch. */
  lemma ExtendInsert(prev: Insert, batch: seq<Location>)
    requires |batch| > 0 && LaysOut(prev, batch[..|batch| - 1])
    ensures LaysOut(Insert(prev.tuples + [Placeholders(7 * (|batch| - 1))], prev.args + RowArgs(batch[|batch| - 1])), batch)
  {
    var n := |batch| - 1;
    var row := RowArgs(batch[n]);
    var args := prev.args + row;
    var tuples := prev.tuples + [Placeholders(7 * n)];
    forall r | 0 <= r < |batch| ensures tuples[r] == Placeholders(7 * r) {
      if r < n { assert tuples[r] == prev.tuples[r]; }
    }
    forall r | 0 <= r < |batch| ensures args[7 * r .. 7 * r + 7] == RowArgs(batch[r]) {
      if r < n {
        assert batch[..n][r] == batch[r];
        assert args[7 * r .. 7 * r + 7] == prev.args[7 * r .. 7 * r + 7];
      } else {
        assert args[7 * n ..] == row;
      }
    }
  }

  /** Column `c` of row `r` is bound to placeholder `$(7r + c + 1)`. */
  lemma PlaceholderNumber(batch: seq<Location>, r: nat, c: nat)
    requires r < |batch| && c < 7
    ensures BuildInsert(batch).tuples[r][c] == 7 * r + c + 1
  {
  }

  /** Placeholder `$(7r + c + 1)` binds row `r`'s value for column `c`:
      the tuples and the arguments line up. */
  lemma PlaceholderBinding(batch: seq<Location>, r: nat, c: nat)
    requires r < |batch| && c < 7
    ensures BuildInsert(batch).args[7 * r + c] == RowArgs(batch[r])[c]
  {
    var stmt := BuildInsert(batch);
    var row := stmt.args[7 * r .. 7 * r + 7];
    assert row[c] == stmt.args[7 * r + c];
  }

  /** Numbering restarts at `$1` in every batch's statement. */
  lemma NumberingRestartsPerBatch(locations: seq<Location>, i: nat)
    requires i < |Partition(locations)| && |Partition(locations)[i]| > 0
    ensures BuildInsert(Partition(locations)[i]).tuples[0] == [1, 2, 3, 4, 5, 6, 7]
  {
  }

  // ----- Table semantics ---------------------------------------------------

  /** Executing the rows one after another with `ON CONFLICT (ip_address)
      DO NOTHING`: a row whose key is already present is skipped. So a
      stored row never changes, and a new key holds the first row that
      carries it. */
  function InsertRows(table: map<string, Location>, rows: seq<Location>): (r: map<string, Location>)
    ensures forall k :: k in table ==> k in r && r[k] == table[k]
    ensures forall k :: k !in table ==> (k in r <==> FirstWithAddress(rows, k).Some?)
    ensures forall k :: k !in table && k in r ==>
      FirstWithAddress(rows, k).Some? && r[k] == rows[FirstWithAddress(rows, k).value]
    decreases |rows|
  {
    if |rows| == 0 then table
    else
      var l := rows[0];
      var next := if l.ipAddress in table then table else table[l.ipAddress := l];
      InsertRows(next, rows[1..])
  }

  /** Inserting two lists in turn is inserting their concatenation. */
  lemma {:induction false} InsertRowsAppend(table: map<string, Location>, a: seq<Location>, b: seq<Location>)
    ensures InsertRows(table, a + b) == InsertRows(InsertRows(table, a), b)
    decreases |a|
  {
    if |a| == 0 {
      assert a + b == b;
    } else {
      var l := a[0];
      var next := if l.ipAddress in table then table else table[l.ipAddress := l];
      assert (a + b)[0] == l && (a + b)[1..] == a[1..] + b;
      InsertRowsAppend(next, a[1..], b);
    }
  }

  /** Re-inserting rows whose keys are all present changes nothing. */
  lemma {:induction false} ReinsertIsNoOp(table: map<string, Location>, rows: seq<Location>)
    requires forall i :: 0 <= i < |rows| ==> rows[i].ipAddress in table
    ensures InsertRows(table, rows) == table
    decreases |rows|
  {
    if |rows| > 0 {
      assert forall i :: 0 <= i < |rows[1..]| ==> rows[1..][i] == rows[i + 1];
      ReinsertIsNoOp(table, rows[1..]);
    }
  }

  // ----- Batch loop ----------------------------------------------------------

  /** The first batch index in `[from, n)` the engine rejects, or `n`
      when it accepts them all. */
  function FirstFailure(execErr: nat -> Option<Error>, from: nat, n: nat): (f: nat)
    requires from <= n
    ensures from <= f <= n
    ensures forall j :: from <= j < f ==> execErr(j).None?
    ensures f < n ==> execErr(f).Some?
    decreases n - from
  {
    if from == n then n
    else if execErr(from).Some? then from
    else FirstFailure(execErr, from + 1, n)
  }

  /** What the batch loop did: the table it left, the error it stopped on,
      and how many batches had been sent to the engine when it stopped
      (each as the statement `BuildInsert` lays out). */
  datatype BatchRun = BatchRun(table: map<string, Location>, err: Option<Error>, sent: nat)

  /** The `for _, batch := range batches` loop, from batch `k` on. Each
      statement runs on the connection itself, outside the transaction, so
      a statement that succeeds stays applied; a failing statement applies
      nothing and ends the loop. `execErr(j)` is the engine's answer to
      `batches[j]`. */
  function RunBatches(table: map<string, Location>, batches: seq<seq<Location>>, k: nat, execErr: nat -> Option<Error>): (r: BatchRun)
    requires k <= |batches|
    ensures var f := FirstFailure(execErr, k, |batches|);
      && r.sent == (if f < |batches| then f + 1 else |batches|)
      && r.err == (if f < |batches| then execErr(f) else None)
      && r.table == InsertRows(table, Flatten(batches[k..f]))
    decreases |batches| - k
  {
    if k == |batches| then
      assert batches[k..k] == [];
      BatchRun(table, None, k)
    else
      match execErr(k)
      case Some(e) =>
        assert batches[k..k] == [];
        BatchRun(table, Some(e), k + 1)
      case None =>
        var rest := RunBatches(InsertRows(table, batches[k]), batches, k + 1, execErr);
        RunBatchesStep(table, batches, k, FirstFailure(execErr, k, |batches|));
        rest
  }

  /** The table step of `RunBatches`: inserting batch `k`, then the
      batches after it up to `f`, is inserting batches `k` to `f`. */
  lemma RunBatchesStep(table: map<string, Location>, batches: seq<seq<Location>>, k: nat, f: nat)
    requires k < f <= |batches|
    ensures InsertRows(InsertRows(table, batches[k]), Flatten(batches[k + 1..f])) == InsertRows(table, Flatten(batches[k..f]))
  {
    var tail := batches[k..f];
    assert tail[0] == batches[k] && tail[1..] == batches[k + 1..f];
    InsertRowsAppend(table, batches[k], Flatten(batches[k + 1..f]));
  }

  /** The engine's answers to one `BulkCreate`: to `Begin`, and to the
      statement of each batch by position. */
  datatype Engine = Engine(beginErr: Option<Error>, execErr: nat -> Option<Error>)

  /** What `BulkCreate` returned and left behind: the connection, the
      error, the batches it sent (in order, one statement each), and
      whether the deferred function committed the transaction. */
  datatype BulkResult = BulkResult(conn: Conn, err: Option<Error>, sent: seq<seq<Location>>, committed: bool)

  /** `BulkCreate` as written: partition, open a transaction, then run the
      batches in order, stopping at the first failure. `success` (hence
      Commit) is set only after every batch succeeded; otherwise the
      transaction is rolled back, but since no statement ran inside it the
      batches before the failure stay in the table. */
  function BulkCreate(c: Conn, locations: seq<Location>, engine: Engine): (r: BulkResult)
    ensures c.closed ==> r == BulkResult(c, Some(InvalidConn), [], false)
    ensures !c.closed && engine.beginErr.Some? ==> r == BulkResult(c, engine.beginErr, [], false)
    ensures r.conn.closed == c.closed
    ensures r.committed <==> r.err.None?
    ensures !c.closed && engine.beginErr.None? ==>
      var batches := Partition(locations);
      var f := FirstFailure(engine.execErr, 0, |batches|);
      && r.sent == batches[..if f < |batches| then f + 1 else f]
      && r.err == (if f < |batches| then engine.execErr(f) else None)
      && r.conn.table == InsertRows(c.table, Flatten(batches[..f]))
  {
    if c.closed then BulkResult(c, Some(InvalidConn), [], false)
    else
      var batches := Partition(locations);
      if engine.beginErr.Some? then BulkResult(c, engine.beginErr, [], false)
      else
        var run := RunBatches(c.table, batches, 0, engine.execErr);
        assert batches[0..FirstFailure(engine.execErr, 0, |batches|)] == batches[..FirstFailure(engine.execErr, 0, |batches|)];
        var success := run.err.None?;
        BulkResult(c.(table := run.table), run.err, batches[..run.sent], success)
  }

  /** An engine that accepts the transaction and every statement. */
  predicate AcceptsAll(engine: Engine, locations: seq<Location>)
  {
    engine.beginErr.None? && forall j :: 0 <= j < |Partition(locations)| ==> engine.execErr(j).None?
  }

  /** A `BulkCreate` the engine accepts in full stores every row: each
      new key holds the first row carrying it, and stored rows stay. */
  lemma BulkCreateAllAccepted(c: Conn, locations: seq<Location>, engine: Engine)
    requires !c.closed && AcceptsAll(engine, locations)
    ensures var r := BulkCreate(c, locations, engine);
      && r.err.None? && r.committed
      && r.sent == Partition(locations)
      && r.conn.table == InsertRows(c.table, locations)
  {
    var batches := Partition(locations);
    assert batches[..|batches|] == batches;
  }

  /** A failure after the first batch leaves that batch's rows stored even
      though the transaction is rolled back: `BulkCreate` is not
      all-or-nothing. */
  lemma PartialFailureIsNotRolledBack(c: Conn, locations: seq<Location>, engine: Engine)
    requires !c.closed && engine.beginErr.None?
    requires |locations| > BatchSize
    requires engine.execErr(0).None? && engine.execErr(1).Some?
    ensures !BulkCreate(c, locations, engine).committed
    ensures BulkCreate(c, locations, engine).err == engine.execErr(1)
    ensures forall i :: 0 <= i < BatchSize ==> locations[i].ipAddress in BulkCreate(c, locations, engine).conn.table
  {
    var r := BulkCreate(c, locations, engine);
    var batches := Partition(locations);
    assert |batches| >= 2;
    assert FirstFailure(engine.execErr, 1, |batches|) == 1;
    var done := batches[..1];
    assert Flatten(done) == batches[0] + Flatten([]);
    assert batches == [batches[0]] + batches[1..];
    assert locations == batches[0] + Flatten(batches[1..]);
    forall i | 0 <= i < BatchSize
      ensures locations[i].ipAddress in r.conn.table
    {
      assert locations[i] == batches[0][i];
      assert FirstWithAddress(batches[0], locations[i].ipAddress).Some?;
    }
  }

  /** Idempotent ingestion: `BulkCreate` of rows whose keys are all stored
      succeeds (when the engine accepts every statement) and leaves the
      table as it was. */
  lemma BulkCreateOfStoredKeysIsNoOp(c: Conn, locations: seq<Location>, engine: Engine)
    requires !c.closed && AcceptsAll(engine, locations)
    requires forall i :: 0 <= i < |locations| ==> locations[i].ipAddress in c.table
    ensures BulkCreate(c, locations, engine).err.None?
    ensures BulkCreate(c, locations, engine).conn == c
  {
    BulkCreateAllAccepted(c, locations, engine);
    ReinsertIsNoOp(c.table, locations);
  }

  // ----- The empty list ------------------------------------------------------

  /** On an empty list `BulkCreate` still sends one statement, and that
      statement has no row tuple: its text is `... VALUES  ON CONFLICT ...`,
      which the engine rejects as a syntax error. Its answer is then what
      `BulkCreate` returns, and nothing is committed. */
  lemma EmptyBulkCreateSendsRowlessInsert(c: Conn, engine: Engine)
    requires !c.closed && engine.beginErr.None?
    ensures BulkCreate(c, [], engine).sent == [[]]
    ensures |BuildInsert(BulkCreate(c, [], engine).sent[0]).tuples| == 0
    ensures BulkCreate(c, [], engine).err == engine.execErr(0)
    ensures engine.execErr(0).Some? ==> !BulkCreate(c, [], engine).committed
  {
    assert Partition([]) == [[]];
  }

  /** `BulkCreate` with the empty list treated as the trivial success the
      in-memory store gives it: no statement is sent. */
  function BulkCreateGuarded(c: Conn, locations: seq<Location>, engine: Engine): (r: BulkResult)
    ensures forall i :: 0 <= i < |r.sent| ==> |BuildInsert(r.sent[i]).tuples| >= 1
    ensures |locations| == 0 && !c.closed ==> r == BulkResult(c, None, [], true)
    ensures |locations| > 0 || c.closed ==> r == BulkCreate(c, locations, engine)
  {
    if !c.closed && |locations| == 0 then BulkResult(c, None, [], true)
    else
      var r := BulkCreate(c, locations, engine);
      NoEmptyBatch(locations);
      r
  }

  /** A non-empty list is partitioned into non-empty batches. */
  lemma NoEmptyBatch(locations: seq<Location>)
    ensures |locations| > 0 ==> forall i :: 0 <= i < |Partition(locations)| ==> |Partition(locations)[i]| >= 1
  {
  }

  // ----- Lookup and close ----------------------------------------------------

  /** `Get`: a point lookup by primary key. The engine's answers are
      parameters: `queryErr` to the query, `nextErr` to advancing to the
      first result row, and `scanErr` (a reason) to scanning a found row.
      The code reads `rows.Next()` as "no row" whether the table lacks the
      key or advancing failed, and never asks `rows.Err()`; so an
      iteration failure is reported as `NotFound` (see `GetChecked`). A hit
      comes back with its `IPAddress` left empty, because the query does
      not select that column. */
  function Get(c: Conn, ip: string, queryErr: Option<Error>, nextErr: Option<Error>, scanErr: Option<string>): (r: Result<Location, Error>)
    ensures c.closed ==> r == Failure(InvalidConn)
    ensures !c.closed && queryErr.Some? ==> r == Failure(queryErr.value)
    ensures !c.closed && queryErr.None? && nextErr.Some? ==> r == Failure(NotFound)
    ensures !c.closed && queryErr.None? && nextErr.None? ==> (r == Failure(NotFound) <==> ip !in c.table)
    ensures !c.closed && queryErr.None? && nextErr.None? && ip in c.table && scanErr.Some? ==>
      r == Failure(DriverError(scanErr.value))
    ensures !c.closed && queryErr.None? && nextErr.None? && ip in c.table && scanErr.None? ==>
      r == Success(c.table[ip].(ipAddress := ""))
    ensures r.Success? ==> ip in c.table && nextErr.None? && scanErr.None?
  {
    if c.closed then Failure(InvalidConn)
    else if queryErr.Some? then Failure(queryErr.value)
    else if nextErr.None? && ip in c.table then
      match scanErr
      case Some(reason) => Failure(DriverError(reason))
      case None => Success(c.table[ip].(ipAddress := ""))
    else Failure(NotFound)
  }

  /** As written, a stored key is reported missing when advancing to its
      row fails. */
  lemma GetMasksIterationError(c: Conn, ip: string, e: Error)
    requires !c.closed && ip in c.table
    ensures Get(c, ip, None, Some(e), None) == Failure(NotFound)
  {
  }

  /** `Get` with the iteration error checked after `rows.Next()` comes back
      false, as `database/sql` intends: `NotFound` then means the key is
      absent (unless the engine itself answered with that error), and
      without an iteration error it is `Get`. */
  function GetChecked(c: Conn, ip: string, queryErr: Option<Error>, nextErr: Option<Error>, scanErr: Option<string>): (r: Result<Location, Error>)
    ensures r == Failure(NotFound) ==> ip !in c.table || queryErr == Some(NotFound) || nextErr == Some(NotFound)
    ensures !c.closed && queryErr.None? && nextErr.Some? ==> r == Failure(nextErr.value)
    ensures nextErr.None? || c.closed || queryErr.Some? ==> r == Get(c, ip, queryErr, nextErr, scanErr)
  {
    if !c.closed && queryErr.None? && nextErr.Some? then Failure(nextErr.value)
    else Get(c, ip, queryErr, nextErr, scanErr)
  }

  /** `Close`: the engine handle is closed, but the `closed` flag is left
      as it was. */
  function Close(c: Conn, closeErr: Option<Error>): (r: Step)
    ensures r.conn == c
    ensures c.closed ==> r.err == Some(InvalidConn)
    ensures !c.closed ==> r.err == closeErr
  {
    if c.closed then Step(c, Some(InvalidConn)) else Step(c, closeErr)
  }

  // ----- Whole-connection properties ----------------------------------------

  /** One call on the connection, with the engine's answers to it. */
  datatype Op =
    | MigrateOp(execErr: Option<Error>)
    | BulkCreateOp(locations: seq<Location>, engine: Engine)
    | GetOp(ip: string)
    | CloseOp(closeErr: Option<Error>)

  function Apply(c: Conn, op: Op): Conn
  {
    match op
    case MigrateOp(e) => Migrate(c, e).conn
    case BulkCreateOp(locations, engine) => BulkCreate(c, locations, engine).conn
    case GetOp(_) => c
    case CloseOp(e) => Close(c, e).conn
  }

  function Run(c: Conn, ops: seq<Op>): Conn
    decreases |ops|
  {
    if |ops| == 0 then c else Run(Apply(c, ops[0]), ops[1..])
  }

  /** No sequence of calls sets `closed`, and no call removes or rewrites a
      stored row. */
  lemma {:induction false} RunKeepsClosedAndRows(c: Conn, ops: seq<Op>)
    ensures Run(c, ops).closed == c.closed
    ensures forall k :: k in c.table ==> k in Run(c, ops).table && Run(c, ops).table[k] == c.table[k]
    decreases |ops|
  {
    if |ops| > 0 {
      RunKeepsClosedAndRows(Apply(c, ops[0]), ops[1..]);
    }
  }

  /** Hence the `closed` guard of a connection made by `New` never fires:
      even after `Close`, the next `Get` reaches the engine and a second
      `Close` reports the engine's answer rather than `InvalidConn`. */
  lemma NeverInvalid(existing: map<string, Location>, ops: seq<Op>, ip: string)
    ensures var c := Run(New(existing, None).value, ops);
      && !c.closed
      && Get(c, ip, None, None, None) != Failure(InvalidConn)
      && Close(c, None).err.None?
      && Migrate(c, None).err.None?
  {
    RunKeepsClosedAndRows(New(existing, None).value, ops);
  }
}
