# ODBC reader for TensorFlow — a Dafny model

This project models `ODBCReader`, the TensorFlow reader that streams the rows
of an SQL result set, fetched through ODBC, as key/value records. It covers:

- the classification of ODBC return codes;
- the resolution of the key and value columns from the result metadata;
- the lifecycle of the three driver handles (environment, connection and
  statement): acquired on work start, released on work finish;
- the chunked retrieval of column data;
- the per-row step that bumps the line counter and builds the synthetic key;
- the counter reset.

The ODBC driver is replaced by an oracle. Everything the driver would answer
is given up front as a script:

- a `StartScript` holds the return codes of allocation, connect and execute,
  the handle values, and the column descriptions;
- a `RowScript` per step holds the `SQLFetch` code and, for each column, the
  `(return code, bytes)` replies of `SQLGetData`.

The reader's handle allocations, the version attribute, the connect, the
execute, the handle releases and every `SQLGetData` request are recorded as
a trace of `DriverCall`s. The lifecycle and read properties are stated about
that trace: in what order the start steps are issued, which handles are
released and in what order, and what chunk type, size and offset each read
requests. `SQLFetch`, `SQLNumResultCols` and `SQLDescribeCol` are not
recorded; their answers come from the oracle. Every operation is a pure function from the reader state
(`OdbcReader.ReaderState`) and the oracle to the new state, the status and
the trace.

Modules:

- `Odbc` (odbc.dfy): return codes, `Status`, `ODBCStatus`, the oracle
  datatypes and the call trace.
- `Columns` (columns.dfy): `FindColumn`, `IsColumnBinary`, `SetupColumns`
  and the resolution lemmas.
- `Chunks` (chunks.dfy): `ReadValue` with the string-growth check as
  written, and `ReadValueCorrected` with the corrected check.
- `Decimal` (decimal.dfy): decimal rendering of the line counter, with its
  parser.
- `OdbcReader` (reader.dfy): the state machine, with `OnWorkStarted`,
  `OnWorkFinished`, `ReadLocked` and `ResetLocked`.

Driver assumptions the model makes explicit:

- The count `SQLGetData` reports in `read_size` is the number of bytes that
  call delivered (`|Reply.data|`).
- A column whose reply script has run out answers `SQL_NO_DATA`, as a driver
  does once a column has been drained.
- A failed `SQLAllocHandle` leaves the handle NULL.
- The driver rejects a describe of a column number outside `1..count`.
- The column count `SQLNumResultCols` reports is the length of the column
  list.
- The host passes empty key and value strings to each step.

Behaviour of the code that a reader may not expect, kept as written:

- The counter is zeroed at the end of every start, failed or not.
- On any code other than `SQL_NO_DATA`, the step bumps the counter before it
  checks the fetch status. A failed fetch therefore still advances the
  counter.
- A one-column result never recomputes `value_is_binary`, so the flag keeps
  its prior value.
- A describe failure stops a name search, and the search then reports "not
  found". The failed search's status is then discarded.
- The string-growth check never grows the string, so the driver is told it
  may write past the string's end (see Findings).
- Start does not first release handles that a previous, unfinished work
  unit still holds. A successful start overwrites, and so leaks, all three
  old handles. A failed start releases the old statement and connection
  handles it has not yet overwritten. The old environment handle is always
  lost.

A consequence of the resolution order, kept as written: a first column named
`key`, with no `value`/`VALUE` column, makes column 1 both the key and the
value. The key read then drains column 1, and every record's value comes out
empty (`OdbcReader.SameColumnValueIsEmpty`).

## Model

| member | source | states |
|---|---|---|
| Odbc.ODBCStatus | src/odbc_reader_op.cc:40-45 | a code is an error exactly when it is negative; the error is INTERNAL "ODBCReader error" |
| Odbc.NonNegativeCodesAreOk | src/odbc_reader_op.cc:40-45 | SQL_SUCCESS, SQL_SUCCESS_WITH_INFO and SQL_NO_DATA are OK; SQL_ERROR and SQL_INVALID_HANDLE are errors |
| Columns.FindFrom | src/odbc_reader_op.cc:57-66 | the scan from a given column on stops at the first describe failure (error, -1) or the first exact name match (that 1-based index), having passed over only describable, differently named columns |
| Columns.FindColumn | src/odbc_reader_op.cc:47-68 | result is -1 or the smallest index whose name equals the searched name with every earlier column describable and differently named; a describe failure leaves -1 and an error; an OK -1 means no column carries the name |
| Columns.FindColumnFindsFirst | src/odbc_reader_op.cc:47-68 | when every column describes, the search succeeds and returns j+1 exactly when column j+1 is the first with that name, and -1 exactly when no column has it |
| Columns.IsColumnBinary | src/odbc_reader_op.cc:70-86 | the flag is true iff the describe succeeds and the declared type is exactly SQL_BINARY; the status is the describe's |
| Columns.SetupColumns | src/odbc_reader_op.cc:88-114 | a failed count and a zero count are errors that leave the roles untouched; one column gives key -1 and value 1 and keeps the binary flag; otherwise both roles point into the result, and the status and binary flag are those of the value column's describe |
| Columns.RoleByName | src/odbc_reader_op.cc:99-104 | a role is -1 or a describable column carrying the lower- or upper-case name, with every earlier column describable and named differently; an upper-case hit only when the lower-case search found nothing; -1 only when neither search found a column |
| Columns.RoleByNameResolves | src/odbc_reader_op.cc:99-104 | when every column describes, a role is the first column with the lower-case name, else the first with the upper-case name, and -1 exactly when neither name occurs |
| Columns.ResolveKeyAndValueByName | src/odbc_reader_op.cc:99-110 | with both roles named ("key" before "KEY", "value" before "VALUE"), each role is the first column so named, whatever its position |
| Columns.ResolveValueOnly | src/odbc_reader_op.cc:99-110 | a value column found by name and no key name leave the key absent (-1) |
| Columns.ResolveKeyOnly | src/odbc_reader_op.cc:99-109 | a key found by name and no value name make column 1 the value |
| Columns.ResolveKeyValueCoincide | src/odbc_reader_op.cc:99-109 | a first column named "key" with no value name makes column 1 both key and value |
| Columns.ResolveByPosition | src/odbc_reader_op.cc:99-107 | with no key or value names among two or more columns, key is column 1 and value column 2 |
| Columns.ResolveIgnoresSearchFailures | src/odbc_reader_op.cc:99-110 | the statuses of the name searches are dropped: a describe failure before every "key"/"KEY" column makes the key -1, or 1 when no value column is found; a value column named before the failure then gives a successful start with no key; with no role name before the failure the roles are (1, 2) and the status is that of the describe of column 2 |
| Chunks.ReadChunks | src/odbc_reader_op.cc:166-180 | the loop appends each delivered chunk to what has been read so far; it ends with the value on SQL_NO_DATA and fails on a negative code; it issues one request per reply consumed, each for the same column, type and chunk size at the running byte count; with the check as written no request gets more room than the string had, with the corrected check every request's window lies inside the string |
| Chunks.ReadValue | src/odbc_reader_op.cc:160-186 | success exactly when the replies end in SQL_NO_DATA rather than an error; the value is the delivered chunks concatenated in order, its length the sum of the reported counts; unread replies are left for the next read; each request asks for the same column, type and chunk size at the running byte count, and none gets more room than the string's starting size |
| Chunks.ReadValueOverrunsEmptyString | src/odbc_reader_op.cc:164-170 | reading into an empty string with a positive chunk size, every request, the first included, lets the driver write past the string's end |
| Chunks.ReadValueCorrected | src/odbc_reader_op.cc:160-186 | with the corrected growth check the read delivers the same value and leftover replies, and every request's window of one chunk lies inside the string |
| Chunks.LongValueNeedsSeveralCalls | src/odbc_reader_op.cc:166-180 | when each reply is at most one chunk, a value longer than a chunk takes at least three requests |
| Chunks.GrowAsWritten | src/odbc_reader_op.cc:167-168 | the check as written never makes the string longer |
| Chunks.Grow | src/odbc_reader_op.cc:167-168 | the corrected check leaves room for a full chunk at the write position and never shrinks the string |
| Decimal.Digits | src/odbc_reader_op.cc:202 | the counter renders as at least one ASCII digit, with a leading zero only for 0 |
| Decimal.ParseDigits | src/odbc_reader_op.cc:202 | the decimal rendering of the counter reads back as the counter |
| Decimal.DigitsInjective | src/odbc_reader_op.cc:202 | distinct counters render differently |
| OdbcReader.NewReader | src/odbc_reader_op.cc:27-38 | a new reader holds no handle, no key or value column, a cleared binary flag and a zero counter |
| OdbcReader.OnWorkFinished | src/odbc_reader_op.cc:144-158 | always OK; afterwards no handle is held; each held handle is released exactly once, statement then connection then environment, and absent ones not at all; nothing else changes |
| OdbcReader.FinishIsIdempotent | src/odbc_reader_op.cc:144-158 | a second finish releases nothing and leaves the state as it was |
| OdbcReader.OnWorkStarted | src/odbc_reader_op.cc:116-142 | the counter is zero and the handle order holds after any start; a failed start holds no handle; a successful one holds the three allocated handles and the resolved roles; errors are "ODBCReader error" or "Query returns no columns" |
| OdbcReader.Abandon | src/odbc_reader_op.cc:137-140 | after a failed start step every handle the reader held is released exactly once, after the calls already issued and in statement, connection, environment order, and none is held afterwards; the counter is zero, the failing status is returned and the roles and configuration are kept |
| OdbcReader.StartStepsInOrder | src/odbc_reader_op.cc:116-136 | the version attribute is set, the connection allocated, the connect issued, the statement allocated and the query executed exactly when every earlier step succeeded; start succeeds exactly when all six steps and the column setup do |
| OdbcReader.StartTraceFollowsPlan | src/odbc_reader_op.cc:116-140 | the start trace begins with the steps issued (those that succeeded and the one that failed) in the order environment allocation, version attribute, connection allocation, connect, statement allocation, execute; after them come only releases, statement before connection before environment |
| OdbcReader.FailedStartReleasesWhatItAllocated | src/odbc_reader_op.cc:116-158 | a failed start from an idle reader releases exactly the handles it allocated, each once |
| OdbcReader.ReadValueStep | src/odbc_reader_op.cc:205-208 | the value read succeeds exactly when the value column's replies end in SQL_NO_DATA; it then yields the delivered bytes and sets produced; a failure leaves produced as it was; one request per reply consumed, each for the value column with the binary or text type in 16384-byte chunks at the running byte count |
| OdbcReader.ReadLocked | src/odbc_reader_op.cc:188-213 | SQL_NO_DATA sets produced false and at_end true, issues no read and changes nothing else; any other code bumps the counter; a failed fetch issues no read; without a key column the key is "work:counter" and no key read is issued; otherwise the key column is read as text in 1024-byte requests, one per reply consumed at the running byte count, and a failed key read issues no value read; the value is read whenever the key is known, as binary or text in 16384-byte requests; the outputs are the columns' delivered bytes; produced is set only when fetch and both reads succeed |
| OdbcReader.SameColumnValueIsEmpty | src/odbc_reader_op.cc:201-206 | when key and value are the same column, the value read after the key read gets no bytes |
| OdbcReader.ResetLocked | src/odbc_reader_op.cc:215-218 | the counter becomes zero and the handles, roles and configuration are unchanged |
| OdbcReader.ResetRestartsNumbering | src/odbc_reader_op.cc:198-218 | the first row after a reset gets the synthetic key "work:1" |
| OdbcReader.SyntheticKey | src/odbc_reader_op.cc:201-202 | the key starts with the work label, then a ':', then only decimal digits, which read back as the line number |
| OdbcReader.SyntheticKeyRoundTrip | src/odbc_reader_op.cc:201-202 | splitting a synthetic key at its last ':' gives back the work label and the line number, even when the label contains ':' |
| OdbcReader.SyntheticKeysDistinct | src/odbc_reader_op.cc:201-202 | equal synthetic keys come from the same work label and line number |
| OdbcReader.ReadAllNumbersRows | src/odbc_reader_op.cc:193-209 | over a run of good rows without a key column, record i is keyed "work:(n+i+1)" and carries the value column's bytes, and the counter advances by the number of rows |
| OdbcReader.IdValueScenarioStart | src/odbc_reader_op.cc:88-131 | columns "id" and "value" start with no key column and column 2 as the value |
| OdbcReader.IdValueScenarioRows | src/odbc_reader_op.cc:188-213 | rows "a" and "b" then end of data give records ("work:1", "a") and ("work:2", "b") and at_end |

## Left out

- TensorFlow glue is not modelled. This covers `ODBCReaderOp`, `SetReaderFactory`, the kernel registration (src/odbc_reader_op.cc:233-251) and the `ReaderBase` inheritance. It is framework wiring, not reader logic.
- `current_work()` is a foreign framework call. It is the parameter `work` of `ReadLocked`.
- The call to `ReaderBase::ResetLocked()` is a framework call and is not modelled.
- The host's read loop is only approximated: `ReadAll` steps with both flags false. It serves to state multi-row properties.
- Locking, threading and the unused `env_` field belong to the host and are left out.
- Real ODBC semantics are replaced by the oracle. This covers `SQL_NO_TOTAL`, a `read_size` that reports the remaining length, NUL terminators of `SQL_C_CHAR` data, column names longer than the 1024-byte name buffer, and numeric type codes. The assumptions stated above stand in for them.
- SQL NULL column values are not modelled. For a NULL value the driver reports `read_size == SQL_NULL_DATA` (-1); src/odbc_reader_op.cc:176-177 then add -1 to the position and size, and line 183 calls `resize(-1)`. The assumption `read_size == |data|` rules this case out.
- Integer widths are not modelled. Column indices are SQLSMALLINT, `line_number_` is int64 and the buffer positions are int. The model uses unbounded integers, since none of them can wrap for realistic inputs.
- Raw memory writes into the string's buffer are not modelled. The model keeps the accumulated bytes as a sequence. It records each request's offset and capacity, but proves nothing else about memory.
- Chunks.ReadValue: the value is stated as the delivered chunks in order. As written, the chunks are written past the end of the string (see Findings), and the final `resize(value_size)` at src/odbc_reader_op.cc:183 then pads the string with NUL bytes instead of keeping them. What the bytes would be under that undefined behaviour is not modelled.
- Key and value contents after a failed read are not modelled: they are `None`. The source leaves them untrimmed and the host discards them.
- `SQLNumResultCols` and `SQLDescribeCol` are not recorded in the start trace. Their answers come from the oracle's `ResultMeta`.
- `SQLFetch` is not recorded in a step's trace. Every step issues exactly one, first; its return code is `RowScript.fetchRc`.
- python/setup.py is packaging metadata and is left out.
- python/test/odbc_reader_test.py needs a live data source and asserts nothing, so it is left out.

## Findings

| source | as written | input that shows it | evidently intended | confidence | as-written member | corrected member |
|---|---|---|---|---|---|---|
| src/odbc_reader_op.cc:167-170 | the string is resized to `value_pos + buf_size` only when it is already longer than that, so it only ever shrinks; `SQLGetData` is then told it may write `buf_size` bytes at `value_pos` | the first key read of a row: empty string, position 0, chunk 1024, so no resize, and the driver may write 1024 bytes into an empty string | grow the string to `value_pos + buf_size` whenever it is shorter | not executed; high | Chunks.GrowAsWritten, used by Chunks.ReadValue, shown by Chunks.ReadValueOverrunsEmptyString (for example, an empty key string with 1024-byte chunks stays empty); the final `resize(value_size)` at line 183 then pads with NUL bytes rather than keeping the driver's bytes | Chunks.Grow, used by Chunks.ReadValueCorrected, whose every request has offset + chunk size within the string |
