# geolocation — a Dafny model of the ingestion and lookup core

The geolocation service loads a CSV file of IP-address locations into a
store and answers lookups by address over HTTP. This project models its
core as pure Dafny functions and proves what the code promises:

- **Field validators** (`internal/utils/common.go`): `IsIPValid`,
  `IsStringValid` and `IsFloat64Valid`. They rest on a model of Go's
  `strings.Split`, `strings.Join` and `strings.TrimSpace` (module `Strings`).
- **Row sanitiser and ingestion driver** (`pkg/service/csv_ingestor.go`):
  - `sanitise`, column by column;
  - `Ingest`, as a read loop over an abstract record stream. A context check
    comes before every read, the header is checked once, rows are counted,
    and the accepted list goes to one `BulkCreate` call.
- **Persistent store** (`internal/store/database/connection.go`), the parts
  that do not depend on the engine:
  - the 1000-row batch partition;
  - the placeholder and argument layout of each batch's INSERT;
  - the batch loop that stops at the first failure;
  - the commit flag and the `closed` guards;
  - the table as a map keyed by `ip_address` with insert-if-absent semantics.
- **In-memory store** (`internal/store/mock/connection.go`): pure transitions
  over `(locations, closed)`.
- **`Resolve`** (`pkg/service/location.go`): how a request's status (405,
  400, 404, 500 or 200) and its answer are chosen.
- **Both backends compared** (module `Backends`): where the two stores agree
  and where they differ, and what happens when `Ingest` and `Resolve` run
  over them.

How the outside world enters the model:

- **Engine answers are parameters.** Each engine call is reduced to "succeeded" or
  "failed with this error", and these answers are passed in. This covers
  connecting, `Begin`, each batch statement, the lookup query, advancing to
  its first result row, scanning that row, and closing.
- **Cancellation is a parameter.** A context becomes `cancelled: nat -> bool`,
  read at each check point.
- **Float parsing is a parameter.** `strconv.ParseFloat` becomes
  `parse: string -> Option<Float64>`.
- **Floats are opaque.** A float is kept as its 64-bit pattern. Only NaN and
  infinity are told apart, because `Resolve` cannot marshal them.

Three behaviours of the code are worth stating up front, because a reader
might expect otherwise:

- The persistent store's `BulkCreate` is not atomic. Its statements run on the
  connection, not on the transaction (`connection.go:96`), so batches before a
  failure stay stored.
- Neither store ever sets `closed`.
- The in-memory `BulkCreate` replaces the store's contents instead of adding
  to them.

## Model

| member | source | states |
|---|---|---|
| Strings.Join | pkg/service/csv_ingestor.go:61 | `strings.Join`: the parts with the separator between consecutive ones |
| Strings.Split | internal/utils/common.go:53 | `strings.Split` on one separator: always at least one part, no part contains the separator, and joining the parts with it gives the input back |
| Strings.SplitJoin | internal/utils/common.go:53 | the other round trip: splitting the join of separator-free parts gives the parts back |
| Strings.SplitNoSeparator | internal/utils/common.go:53 | text without the separator splits into itself alone |
| Strings.SplitAtFirstSeparator | internal/utils/common.go:53 | splitting `a + sep + b`, with `a` free of the separator, gives `a` followed by the parts of `b` |
| Strings.SkipSpace | internal/utils/common.go:66 | the first position at or after `i` that is not white space (or the end); everything skipped is white space |
| Strings.SkipSpaceBack | internal/utils/common.go:66 | the start of the white-space run that ends at `j`, not going below `from`; the character before it is not white space |
| Strings.TrimSpace | internal/utils/common.go:66 | the result is a contiguous slice of the input with only white space on either side, and it has no white space at either end |
| Strings.TrimSpaceEmpty | internal/utils/common.go:66-67 | trimming gives the empty string iff the input is all white space |
| Strings.TrimSpaceIdempotent | internal/utils/common.go:66 | trimming twice is trimming once |
| Strings.TrimUnchanged | internal/utils/common.go:66 | text with no white space at either end is its own trim |
| Model.FirstWithAddress | internal/store/mock/connection.go:55-60 | the index of the first location with the address, or none iff no location has it |
| Validators.IsInteger | internal/utils/common.go:58 | the text `strconv.Atoi` accepts: an optional sign and at least one ASCII digit |
| Validators.IsIPValid | internal/utils/common.go:52-63 | the second result is always the input unchanged; a valid address splits into exactly four parts |
| Validators.IsIPValidIffDottedQuad | internal/utils/common.go:52-63 | valid iff the text is four integers (optional sign, at least one digit) joined by dots |
| Validators.IsIPValidOfParts | internal/utils/common.go:53-61 | for text built from dot-free parts: valid iff there are exactly four parts and each one parses as an integer |
| Validators.IntegerHasNoDot | internal/utils/common.go:58 | text that parses as an integer contains no dot |
| Validators.IntegerCharset | internal/utils/common.go:58 | text that parses as an integer consists of digits and signs only |
| Validators.ValidIPCharset | internal/utils/common.go:52-63 | a valid address consists of digits, signs and dots only |
| Validators.QuadValidity | internal/utils/common.go:53-61 | for four dot-free parts joined by dots: valid iff each part parses as an integer |
| Validators.JoinFour | internal/utils/common.go:53 | joining four parts with dots puts a dot between each pair |
| Validators.IsIPValidAcceptsAddress | internal/utils/common_test.go:17-23 | "200.106.141.15" is valid |
| Validators.IsIPValidRejectsThreeParts | internal/utils/common_test.go:25-32 | "200.106.141" is invalid: three parts |
| Validators.IsIPValidRejectsLetters | internal/utils/common_test.go:33-40 | "200.106.141.er" is invalid: a part is not an integer |
| Validators.IsIPValidRejectsLongerLetters | pkg/service/csv_ingestor_test.go:101 | "200.106.141.tyr", the address of the test's discarded record, is invalid |
| Validators.IsIPValidRejectsName | internal/utils/common.go:54-56 | "ip_address" is invalid: one part |
| Validators.IsIPValidIgnoresOctetRange | internal/utils/common.go:57-61 | "999.1.1.1" is valid: no 0–255 range check |
| Validators.IsIPValidRejectsEmpty | internal/utils/common.go:53-56 | the empty string is invalid |
| Validators.IsIPValidRejectsEmptyInnerPart | internal/utils/common.go:57-60 | "1..2.3" is invalid: an empty part is not an integer |
| Validators.IsIPValidRejectsTrailingDot | internal/utils/common.go:57-60 | "1.2.3." is invalid: its last part is empty |
| Validators.IsStringValid | internal/utils/common.go:65-68 | valid iff the input is not all white space, iff the returned trim is non-empty; the trim is the input's slice with only white space around it |
| Validators.IsStringValidIdempotent | internal/utils/common.go:65-68 | validating the returned string again gives the same pair |
| Validators.IsFloat64Valid | internal/utils/common.go:70-73 | valid iff the parse succeeds; the value is the parsed one on success and zero on failure |
| CsvIngestor.ColumnAt | pkg/service/csv_ingestor.go:133-143 | the `column` constant of each index; no column (no `switch` case) iff the index is 7 or more |
| CsvIngestor.SanitiseFrom | pkg/service/csv_ingestor.go:88-129 | from column `i` on, the row is rejected iff some remaining column fails its validator; otherwise the result is the reference overlay of those columns on the fields set so far |
| CsvIngestor.Sanitise | pkg/service/csv_ingestor.go:86-131 | rejected iff some column 0..5 fails its validator, whatever the others hold; accepted rows equal the reference overlay on the zero location |
| CsvIngestor.SanitiseFields | pkg/service/csv_ingestor.go:90-127 | an accepted row's address is raw column 0, its names are trimmed columns 1..3, its floats are parsed columns 4..5, its mystery value is raw column 6; missing columns keep zero values |
| CsvIngestor.SanitiseIgnoresExtraColumns | pkg/service/csv_ingestor.go:86-143 | columns after the seventh never change the outcome |
| CsvIngestor.SanitiseRoundTrip | pkg/service/csv_ingestor.go:86-131 | a location with a valid address and trimmed names, written out as a row whose floats parse back, sanitises to itself |
| CsvIngestor.SanitiseAcceptsEmptyRecord | pkg/service/csv_ingestor.go:87-130 | an empty record is accepted as the zero location |
| CsvIngestor.HeaderRecordAsDataIsDiscarded | pkg/service/csv_ingestor.go:60-73 | a later record equal to the header is sanitised as data and discarded |
| CsvIngestor.AcceptedRows | pkg/service/csv_ingestor.go:68-73 | the reference list of accepted rows is never longer than the input |
| Wrappers.FilterMap | pkg/service/csv_ingestor.go:68-73 | keeping the present results of a partial map never yields more elements than the input |
| Wrappers.FilterMapAppend | pkg/service/csv_ingestor.go:68-73 | filtering distributes over concatenation |
| Wrappers.FilterMapMembership | pkg/service/csv_ingestor.go:68-69 | a value is kept iff the map yields it for some element |
| CsvIngestor.AcceptedRowsAppend | pkg/service/csv_ingestor.go:68-73 | accepting distributes over concatenation, so accepted rows keep their input order |
| CsvIngestor.AcceptedRowsMembership | pkg/service/csv_ingestor.go:68-69 | a location is collected iff some row sanitises to it |
| CsvIngestor.HeaderOk | pkg/service/csv_ingestor.go:60-64 | the first record, joined with commas, equals `csv_header`; an empty stream has nothing to check |
| CsvIngestor.RemainingStep | pkg/service/csv_ingestor.go:67-73 | reading a data record either puts its location ahead of the rows still to come, or discards it |
| CsvIngestor.ReadLoop | pkg/service/csv_ingestor.go:47-74 | the loop succeeds iff no early stop happens: a bad header, a cancellation at any remaining check, or a read error; the error is the first such cause; on success the locations are the accepted remaining rows in order, and the counts grow by accepted and discarded rows |
| CsvIngestor.Ingest | pkg/service/csv_ingestor.go:31-84 | nil store or nil reader fail before any read; `BulkCreate` is called once, iff reading completes, with exactly the accepted rows; success iff that call succeeds, and then accepted = number of locations and accepted + discarded = number of records after the header; a store failure is wrapped |
| CsvIngestor.IngestEmptyStream | pkg/service/csv_ingestor.go:47-83 | an empty stream skips the header check, hands over the empty list and, if the store accepts it, reports 0 accepted and 0 discarded |
| CsvIngestor.IngestRejectsMissingHeader | pkg/service/csv_ingestor.go:60-64 | a stream whose first record is data fails with the header error before the store is called |
| CsvIngestor.IngestedAddressesAreValid | pkg/service/csv_ingestor.go:68-95 | every location of a successful run has a valid address (when no data record is empty) |
| CsvIngestor.ExampleRowsAccepted | pkg/service/csv_ingestor_test.go:85-110 | of a record with a good address and one with a bad address, only the first is accepted, as its location |
| CsvIngestor.IngestWorkedExample | pkg/service/csv_ingestor.go:31-84 | a header, one good record and one bad record give 1 accepted, 1 discarded and the good record's location |
| MockStore.New | internal/store/mock/connection.go:17-19 | a new store is empty and open |
| MockStore.Migrate | internal/store/mock/connection.go:21-31 | never changes the store; fails with the closed error first, then with the cancellation error |
| MockStore.BulkCreate | internal/store/mock/connection.go:33-44 | closed, then cancelled, fail and leave the store unchanged; success iff neither, and then the contents are exactly the given list |
| MockStore.Get | internal/store/mock/connection.go:46-61 | closed, then cancelled, fail; on an open, live store a present address returns its first location in list order, and not-found iff no location has the address; no other error is possible |
| MockStore.Close | internal/store/mock/connection.go:63-69 | an open store is emptied and stays open; a closed one reports the closed error |
| MockStore.RunKeepsClosed | internal/store/mock/connection.go:11-69 | no sequence of calls changes the `closed` flag |
| MockStore.NeverInvalid | internal/store/mock/connection.go:17-69 | a store made by `New` never reports the closed error, whatever was called before |
| MockStore.CloseThenUse | internal/store/mock/connection.go:63-69 | after `Close` a second `Close` succeeds and a lookup finds nothing |
| MockStore.SecondBulkCreateDiscardsFirst | internal/store/mock/connection.go:42 | a second successful load hides every address that only the first load had |
| Database.New | internal/store/database/connection.go:23-33 | a connect or ping failure is returned; otherwise the connection is open over the existing table |
| Database.Migrate | internal/store/database/connection.go:36-42 | never changes stored rows; closed gives the closed error, otherwise the engine's answer |
| Database.Chunks | internal/store/database/connection.go:54-61 | the slices laid end to end are the input from `from` on; there are ⌈remaining/1000⌉ of them; each has 1..1000 rows and all but the last exactly 1000 |
| Database.Partition | internal/store/database/connection.go:49-62 | the batches laid end to end are the input; fewer than 1000 rows (the empty list included) form one batch equal to the input; otherwise ⌈n/1000⌉ batches of 1..1000 rows, all but the last exactly 1000 |
| Database.ChunkIsSlice | internal/store/database/connection.go:55-60 | chunk `i` is the slice of the input starting at row `from + 1000 i` |
| Database.PartitionIsSlices | internal/store/database/connection.go:49-61 | the batches are consecutive slices: batch `i` starts at row `1000 i` |
| Database.NoEmptyBatch | internal/store/database/connection.go:49-62 | a non-empty list is split into batches that each hold at least one row |
| Database.RowArgs | internal/store/database/connection.go:85-91 | a row's seven arguments in column order |
| Database.BuildInsert | internal/store/database/connection.go:78-93 | a batch of n rows gets n tuples and 7n arguments; row r's tuple is `$7r+1..$7r+7` and its arguments are its seven columns in order ip, country code, country, city, latitude, longitude, mystery value |
| Database.ExtendInsert | internal/store/database/connection.go:81-91 | appending the last row's tuple and arguments to the layout of the rows before it gives the layout of the whole batch |
| Database.PlaceholderNumber | internal/store/database/connection.go:82-84 | column c of row r is placeholder `$(7r+c+1)` |
| Database.NumberingRestartsPerBatch | internal/store/database/connection.go:76-83 | every batch's first tuple is `$1..$7`: numbering restarts per statement |
| Database.PlaceholderBinding | internal/store/database/connection.go:83-91 | placeholder `$(7r+c+1)` binds row r's value for column c |
| Database.InsertRows | internal/store/database/connection.go:94 | insert-if-absent: a stored row never changes; a new key is stored iff some row carries it, and then it holds the first such row |
| Database.InsertRowsAppend | internal/store/database/connection.go:77-100 | inserting two lists in turn is inserting their concatenation |
| Database.ReinsertIsNoOp | internal/store/database/connection.go:94 | inserting rows whose keys are all stored leaves the table as it was |
| Database.FirstFailure | internal/store/database/connection.go:96-99 | the first rejected batch index, or the batch count when the engine accepts them all |
| Database.RunBatches | internal/store/database/connection.go:77-100 | batches run in order up to and including the first rejected one, whose error is returned; later batches are never sent; the table holds exactly the batches before it |
| Database.RunBatchesStep | internal/store/database/connection.go:76-100 | inserting one batch and then the batches after it is inserting them all at once |
| Database.BulkCreate | internal/store/database/connection.go:45-103 | closed gives the closed error and no change; a `Begin` failure is returned with nothing sent; otherwise the batches sent, the error and the table follow `RunBatches`; commit iff no error; the `closed` flag never changes |
| Database.BulkCreateAllAccepted | internal/store/database/connection.go:77-102 | when the engine accepts everything, every batch is sent, the run commits, and the table is insert-if-absent of the whole list |
| Database.PartialFailureIsNotRolledBack | internal/store/database/connection.go:64-99 | when the second batch fails, nothing is committed, yet every row of the first batch is stored |
| Database.BulkCreateOfStoredKeysIsNoOp | internal/store/database/connection.go:94 | loading rows whose keys are already stored succeeds and changes nothing |
| Database.EmptyBulkCreateSendsRowlessInsert | internal/store/database/connection.go:51-96 | on the empty list one statement is sent, it has no row tuple, and the engine's answer to it is the result |
| Database.BulkCreateGuarded | internal/store/database/connection.go:45-103 | corrected: no statement sent is ever row-less; the empty list succeeds with nothing sent; any other input behaves as `BulkCreate` |
| Database.Get | internal/store/database/connection.go:106-124 | closed gives the closed error; a query error is returned; a failure advancing to the result row reads as not-found; otherwise not-found iff the key is absent, a scan failure is an engine error carrying its reason, and a present key returns the stored row with its address left empty |
| Database.GetMasksIterationError | internal/store/database/connection.go:116-123 | as written, a stored key is reported not-found when advancing to its row fails |
| Database.GetChecked | internal/store/database/connection.go:106-124 | corrected: an iteration failure is returned as itself, so not-found means the key is absent; with no iteration failure it is `Get` |
| Database.Close | internal/store/database/connection.go:127-132 | never changes the connection or its `closed` flag; closed gives the closed error, otherwise the engine's answer |
| Database.RunKeepsClosedAndRows | internal/store/database/connection.go:16-132 | no sequence of calls changes `closed` or removes or rewrites a stored row |
| Database.NeverInvalid | internal/store/database/connection.go:23-132 | a connection made by `New` never reports the closed error, even after `Close` |
| LocationService.Marshals | pkg/service/location.go:64-79 | a location marshals iff both coordinates are finite |
| LocationService.Resolve | pkg/service/location.go:24-82 | 405 iff the method is not GET or OPTIONS; 400 iff it is and the address is invalid; the store is asked iff neither; 404 iff it answers not-found; 200 iff it answers a row that marshals, whose body is that row with the queried address; 500 otherwise |
| LocationService.QueriedAddressHasNoQuote | pkg/service/location.go:36-48 | an address that reaches the store has no quote character, so the database's interpolated query stays a plain key lookup |
| LocationService.AnswerIgnoresStoredAddress | pkg/service/location.go:64-72 | stores that differ only in the stored `ip_address` get the same response |
| Backends.LookupsAgree | internal/store/mock/connection.go:42-60 | after the same successful load into fresh stores (the database through its `BulkCreate` as written), both find the same first row per address (the database without its address) and miss the same addresses |
| Backends.ResolveAgrees | pkg/service/location.go:48-81 | after the same successful load, `Resolve` answers every request alike over either store |
| Backends.SecondLoadDiverges | internal/store/mock/connection.go:42 | after a second load lacking an address, the in-memory store no longer finds it but the database still does |
| Backends.IngestThenResolve | pkg/service/csv_ingestor.go:77-83 | after a successful ingestion the in-memory store holds exactly the reported locations, and `Resolve` gives 404 for a valid address iff no accepted row has it |
| Backends.HeaderOnlyHandsOffNothing | pkg/service/csv_ingestor.go:47-83 | a file holding only its header hands `BulkCreate` the empty list, and the run succeeds with 0/0 iff that call succeeds, otherwise fails with its wrapped error |
| Backends.HeaderOnlyFileOnDatabase | pkg/service/csv_ingestor.go:77-80 | when the engine rejects the row-less statement, a header-only file fails to ingest into the database as written, and ingests with 0/0 with the guard |
| Backends.IterationErrorOnDatabase | pkg/service/location.go:48-60 | over the database, a failure advancing to a stored row makes `Resolve` answer 404 as written, and 500 with the iteration error checked |

## Left out

- Command-line wiring, configuration, logging, the HTTP server, file
  opening, headers and body bytes: process plumbing with no decision logic.
- `encoding/csv`: quoting and the field-count check. The reader is a
  sequence of records that ends cleanly or with a read error.
- `strconv.ParseFloat` is a parameter. Float arithmetic is not modelled.
- Validators.IsFloat64Valid: returns zero on every failure; Go returns ±Inf
  with a range error for out-of-range input, which the caller discards anyway.
- Validators.IsInteger: accepts any optional sign plus digits; `strconv.Atoi`'s
  rejection of values outside the range of Go's `int` (such as
  "9223372036854775808" on a 64-bit build) is not modelled.
- Validators.IsIPValid: `strconv.Atoi` is modelled as optional sign plus
  digits; its rejection of values that overflow `int` is not modelled.
- Strings.TrimSpace: trims the ASCII white space set only; Go's Unicode white
  space beyond it is not modelled.
- `TimeSpent` and the clock.
- The error texts: errors are values of one datatype. A scan failure in
  `Database.Get` carries only the engine's reason, not the wrapping message.
- Database SQL text, the connection string and the `CREATE TABLE` script.
  Only the statement's tuple and argument layout is modelled.
- Database.BulkCreate: the answers of `Commit` and `Rollback` are ignored by
  the code and are not modelled. What the engine does to an open transaction
  is not modelled either.
- Database.Close: what the engine handle does after `Close` is left to the
  caller-supplied answers of later calls.
- Database.Get: the query interpolates the address, which is an injection risk
  in general; the model keeps only its key-lookup meaning, and
  `LocationService.QueriedAddressHasNoQuote` shows `Resolve` never passes a
  quote.
- CsvIngestor.Sanitise: a short row leaves the Go mystery value `nil`, which
  the database backend's `.(string)` assertion would reject at run time. The
  model uses the empty string. The CSV reader's field-count check keeps data
  records as long as the header record.
- `Resolve`'s JSON marshalling is reduced to "fails iff a float is NaN or
  infinite".

## Findings

| source | as written | input that shows it | evidently intended | confidence | as-written member | corrected member |
|---|---|---|---|---|---|---|
| internal/store/database/connection.go:51-96 | a list shorter than 1000 rows becomes one batch, the empty list included, and every batch is sent as `INSERT ... VALUES %s ...` | a CSV file with only the header line (or whose rows are all discarded) ingested into the database: the statement has an empty `VALUES` list, the engine rejects it, and `Ingest` fails | an empty list stores nothing and succeeds, as the in-memory store does | high; not executed | Database.EmptyBulkCreateSendsRowlessInsert | Database.BulkCreateGuarded |
| internal/store/database/connection.go:116-123 | `rows.Next()` returning false is read as "no such address"; `rows.Err()` is never consulted | a stored address whose lookup query succeeds but whose first row cannot be fetched (the request's context ends, the connection drops): `Get` returns not-found and `Resolve` answers 404 | an iteration failure is returned as an error, so a stored address is never reported missing and `Resolve` answers 500 | medium; not executed | Database.GetMasksIterationError | Database.GetChecked |
