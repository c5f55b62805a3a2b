/** The ODBCReader state machine: handle acquisition on work start, teardown
    on work finish, one row per step, and the counter reset. */
module OdbcReader {
  import opened Odbc
  import opened Columns
  import opened Chunks
  import Decimal

  /** The reader's fields: its configuration, the three driver handles
      (absent = NULL), the resolved column roles and the line counter. */
  datatype ReaderState = ReaderState(
    connectionString: string,
    sqlQuery: string,
    env: Option<Handle>,
    dbc: Option<Handle>,
    stmt: Option<Handle>,
    roles: Roles,
    lineNumber: nat)

  /** The handle of one kind held by the reader. */
  function HandleOf(r: ReaderState, kind: HandleKind): Option<Handle> {
    match kind
    case EnvHandle => r.env
    case DbcHandle => r.dbc
    case StmtHandle => r.stmt
  }

  /** Acquisition order env -> dbc -> stmt: a statement only with a
      connection, a connection only with an environment. */
  predicate HandlesOrdered(r: ReaderState) {
    (r.stmt.Some? ==> r.dbc.Some?) && (r.dbc.Some? ==> r.env.Some?)
  }

  predicate NoHandles(r: ReaderState) {
    r.env.None? && r.dbc.None? && r.stmt.None?
  }

  /** A freshly constructed reader holds no handle, no column and a zero counter. */
  function NewReader(connectionString: string, sqlQuery: string): (r: ReaderState)
    ensures NoHandles(r) && HandlesOrdered(r)
    ensures r.roles.keyColumn < 0 && r.roles.valueColumn < 0 && !r.roles.valueIsBinary
    ensures r.lineNumber == 0
    ensures r.connectionString == connectionString && r.sqlQuery == sqlQuery
  {
    ReaderState(connectionString, sqlQuery, None, None, None, Roles(-1, -1, false), 0)
  }

  // ---------------------------------------------------------------------
  // Teardown

  datatype FinishResult = FinishResult(reader: ReaderState, status: Status, calls: seq<DriverCall>)

  /** Release rank: statements go first, environments last. */
  function ReleaseRank(kind: HandleKind): nat {
    match kind
    case StmtHandle => 0
    case DbcHandle => 1
    case EnvHandle => 2
  }

  /** A trace made only of releases, in strictly increasing release rank. */
  predicate ReleaseOrdered(calls: seq<DriverCall>) {
    && (forall i | 0 <= i < |calls| :: calls[i].FreeHandle?)
    && (forall i, j | 0 <= i < j < |calls| && calls[i].FreeHandle? && calls[j].FreeHandle? ::
          ReleaseRank(calls[i].kind) < ReleaseRank(calls[j].kind))
  }

  function AsSeq(h: Option<Handle>): seq<Handle> {
    if h.Some? then [h.value] else []
  }

  function Release(h: Option<Handle>, kind: HandleKind): seq<DriverCall> {
    if h.Some? then [FreeHandle(kind, h.value)] else []
  }

  /** OnWorkFinishedLocked: release statement, connection, environment, each
      only when present, and mark each absent. Always OK. */
  function OnWorkFinished(r: ReaderState): (res: FinishResult)
    ensures res.status == Ok
    ensures NoHandles(res.reader) && HandlesOrdered(res.reader)
    ensures res.reader.roles == r.roles && res.reader.lineNumber == r.lineNumber
    ensures res.reader.connectionString == r.connectionString && res.reader.sqlQuery == r.sqlQuery
    ensures ReleaseOrdered(res.calls)
    ensures forall kind: HandleKind :: Frees(res.calls, kind) == AsSeq(HandleOf(r, kind))
  {
    ReleaseFacts(r);
    FinishResult(r.(env := None, dbc := None, stmt := None), Ok, Teardown(r))
  }

  /** The releases of OnWorkFinished, statement first. */
  function Teardown(r: ReaderState): seq<DriverCall> {
    Release(r.stmt, StmtHandle) + Release(r.dbc, DbcHandle) + Release(r.env, EnvHandle)
  }

  lemma FreesRelease(h: Option<Handle>, k: HandleKind, kind: HandleKind)
    ensures Frees(Release(h, k), kind) == if k == kind then AsSeq(h) else []
  {
  }

  lemma ReleaseFacts(r: ReaderState)
    ensures ReleaseOrdered(Teardown(r))
    ensures forall kind: HandleKind :: Frees(Teardown(r), kind) == AsSeq(HandleOf(r, kind))
  {
    var a, b, c := Release(r.stmt, StmtHandle), Release(r.dbc, DbcHandle), Release(r.env, EnvHandle);
    var calls := a + b + c;
    assert forall i | 0 <= i < |calls| ::
      calls[i].FreeHandle? && ReleaseRank(calls[i].kind) == (if i < |a| then 0 else if i < |a| + |b| then 1 else 2);
    forall kind: HandleKind ensures Frees(calls, kind) == AsSeq(HandleOf(r, kind)) {
      FreesAppend(a + b, c, kind);
      FreesAppend(a, b, kind);
      FreesRelease(r.stmt, StmtHandle, kind);
      FreesRelease(r.dbc, DbcHandle, kind);
      FreesRelease(r.env, EnvHandle, kind);
    }
  }

  /** A second teardown releases nothing and changes nothing. */
  lemma FinishIsIdempotent(r: ReaderState)
    ensures OnWorkFinished(OnWorkFinished(r).reader).calls == []
    ensures OnWorkFinished(OnWorkFinished(r).reader).reader == OnWorkFinished(r).reader
  {
  }

  // ---------------------------------------------------------------------
  // Start

  /** What the driver answers during OnWorkStartedLocked, in call order. */
  datatype StartScript = StartScript(
    allocEnv: AllocReply,
    setEnvAttrRc: int,
    allocDbc: AllocReply,
    connectRc: int,
    allocStmt: AllocReply,
    execRc: int,
    result: ResultMeta)

  /** The trace records the handle lifecycle, the connect and the execute;
      the metadata queries of SetupColumns are not recorded. */
  datatype StartResult = StartResult(reader: ReaderState, status: Status, calls: seq<DriverCall>)

  /** The handle a successful allocation hands out; a failed one leaves NULL. */
  function Allocated(reply: AllocReply): Option<Handle> {
    if ODBCStatus(reply.rc).Ok? then Some(reply.handle) else None
  }

  /** The return codes of the six driver steps of start, in order. */
  function StartCodes(s: StartScript): seq<int> {
    [s.allocEnv.rc, s.setEnvAttrRc, s.allocDbc.rc, s.connectRc, s.allocStmt.rc, s.execRc]
  }

  /** The number of leading codes that are not errors. */
  function LeadingOk(codes: seq<int>): (n: nat)
    ensures n <= |codes|
    ensures forall i | 0 <= i < n :: codes[i] >= 0
    ensures n < |codes| ==> codes[n] < 0
  {
    if codes == [] || codes[0] < 0 then 0 else 1 + LeadingOk(codes[1..])
  }

  /** How many of the six start steps succeeded before the first failure. */
  function Progress(s: StartScript): nat {
    LeadingOk(StartCodes(s))
  }

  /** Compensating teardown after a failed start step, whose trace so far
      released nothing. */
  function Abandon(r: ReaderState, calls: seq<DriverCall>, status: Status): (res: StartResult)
    requires forall c | c in calls :: !c.FreeHandle?
    ensures NoHandles(res.reader) && res.reader.lineNumber == 0 && res.status == status
    ensures res.reader.roles == r.roles
    ensures res.reader.connectionString == r.connectionString && res.reader.sqlQuery == r.sqlQuery
    ensures forall c | c in res.calls :: c in calls || c.FreeHandle?
    ensures forall c | c in calls :: c in res.calls
    ensures |calls| <= |res.calls| && res.calls[..|calls|] == calls
    ensures ReleaseOrdered(res.calls[|calls|..])
    ensures forall kind: HandleKind :: Frees(res.calls, kind) == AsSeq(HandleOf(r, kind))
  {
    var fin := OnWorkFinished(r);
    assert (calls + fin.calls)[|calls|..] == fin.calls;
    forall kind: HandleKind ensures Frees(calls + fin.calls, kind) == AsSeq(HandleOf(r, kind)) {
      FreesAppend(calls, fin.calls, kind);
      FreesNone(calls, kind);
    }
    StartResult(fin.reader.(lineNumber := 0), status, calls + fin.calls)
  }

  lemma {:induction false} FreesNone(calls: seq<DriverCall>, kind: HandleKind)
    requires forall c | c in calls :: !c.FreeHandle?
    ensures Frees(calls, kind) == []
    decreases |calls|
  {
    if calls != [] {
      assert calls[0] in calls;
      FreesNone(calls[1..], kind);
    }
  }

  /** Progress in terms of the individual codes. */
  lemma ProgressSteps(s: StartScript)
    ensures Progress(s) <= 6
    ensures Progress(s) >= 1 <==> s.allocEnv.rc >= 0
    ensures Progress(s) >= 2 <==> Progress(s) >= 1 && s.setEnvAttrRc >= 0
    ensures Progress(s) >= 3 <==> Progress(s) >= 2 && s.allocDbc.rc >= 0
    ensures Progress(s) >= 4 <==> Progress(s) >= 3 && s.connectRc >= 0
    ensures Progress(s) >= 5 <==> Progress(s) >= 4 && s.allocStmt.rc >= 0
    ensures Progress(s) == 6 <==> Progress(s) >= 5 && s.execRc >= 0
  {
    var codes := StartCodes(s);
    assert codes[0] == s.allocEnv.rc && codes[1] == s.setEnvAttrRc && codes[2] == s.allocDbc.rc;
    assert codes[3] == s.connectRc && codes[4] == s.allocStmt.rc && codes[5] == s.execRc;
  }

  /** OnWorkStartedLocked: allocate the environment, set the ODBC version,
      allocate the connection, connect, allocate the statement, execute the
      query and resolve the columns, each step only when the previous one
      succeeded; on any failure tear everything down. The counter is zeroed
      in every case. */
  function OnWorkStarted(r: ReaderState, s: StartScript): (res: StartResult)
    ensures res.reader.lineNumber == 0
    ensures HandlesOrdered(res.reader)
    ensures res.reader.connectionString == r.connectionString && res.reader.sqlQuery == r.sqlQuery
    ensures res.status.Internal? ==> NoHandles(res.reader)
    ensures res.status.Ok? ==>
              res.reader.env == Some(s.allocEnv.handle) && res.reader.dbc == Some(s.allocDbc.handle)
              && res.reader.stmt == Some(s.allocStmt.handle)
    ensures res.status.Ok? ==> res.reader.roles == SetupColumns(s.result, r.roles).roles
    ensures res.status.Internal? ==> res.status.message in {READER_ERROR, NO_COLUMNS}
  {
    var r1 := r.(env := Allocated(s.allocEnv));
    var c1 := [AllocHandle(EnvHandle)];
    if ODBCStatus(s.allocEnv.rc).Internal? then Abandon(r1, c1, ODBCStatus(s.allocEnv.rc))
    else
      var c2 := c1 + [SetEnvAttr];
      if ODBCStatus(s.setEnvAttrRc).Internal? then Abandon(r1, c2, ODBCStatus(s.setEnvAttrRc))
      else
        var r3 := r1.(dbc := Allocated(s.allocDbc));
        var c3 := c2 + [AllocHandle(DbcHandle)];
        if ODBCStatus(s.allocDbc.rc).Internal? then Abandon(r3, c3, ODBCStatus(s.allocDbc.rc))
        else
          var c4 := c3 + [DriverConnect(r.connectionString)];
          if ODBCStatus(s.connectRc).Internal? then Abandon(r3, c4, ODBCStatus(s.connectRc))
          else
            var r5 := r3.(stmt := Allocated(s.allocStmt));
            var c5 := c4 + [AllocHandle(StmtHandle)];
            if ODBCStatus(s.allocStmt.rc).Internal? then Abandon(r5, c5, ODBCStatus(s.allocStmt.rc))
            else
              var c6 := c5 + [ExecDirect(r.sqlQuery)];
              if ODBCStatus(s.execRc).Internal? then Abandon(r5, c6, ODBCStatus(s.execRc))
              else
                var setup := SetupColumns(s.result, r.roles);
                var r7 := r5.(roles := setup.roles);
                if setup.status.Internal? then Abandon(r7, c6, setup.status)
                else StartResult(r7.(lineNumber := 0), Ok, c6)
  }

  /** The six driver steps of start, in the order they are issued. */
  function StartPlan(r: ReaderState): seq<DriverCall> {
    [AllocHandle(EnvHandle), SetEnvAttr, AllocHandle(DbcHandle), DriverConnect(r.connectionString),
     AllocHandle(StmtHandle), ExecDirect(r.sqlQuery)]
  }

  /** How many steps of the plan a start issues: those that succeeded and
      the one that failed. */
  function Issued(s: StartScript): nat {
    if Progress(s) < 6 then Progress(s) + 1 else 6
  }

  /** Each start step runs only when all earlier ones succeeded, and the
      start succeeds exactly when all six driver steps and the column
      resolution do. */
  lemma StartStepsInOrder(r: ReaderState, s: StartScript)
    ensures SetEnvAttr in OnWorkStarted(r, s).calls <==> Progress(s) >= 1
    ensures AllocHandle(DbcHandle) in OnWorkStarted(r, s).calls <==> Progress(s) >= 2
    ensures DriverConnect(r.connectionString) in OnWorkStarted(r, s).calls <==> Progress(s) >= 3
    ensures AllocHandle(StmtHandle) in OnWorkStarted(r, s).calls <==> Progress(s) >= 4
    ensures ExecDirect(r.sqlQuery) in OnWorkStarted(r, s).calls <==> Progress(s) >= 5
    ensures OnWorkStarted(r, s).status.Ok? <==> Progress(s) == 6 && SetupColumns(s.result, r.roles).status.Ok?
  {
    ProgressSteps(s);
  }

  /** The trace of a start is the issued prefix of the plan, in plan order,
      followed only by releases in statement, connection, environment order. */
  lemma StartTraceFollowsPlan(r: ReaderState, s: StartScript)
    ensures Issued(s) <= |OnWorkStarted(r, s).calls|
    ensures OnWorkStarted(r, s).calls[..Issued(s)] == StartPlan(r)[..Issued(s)]
    ensures ReleaseOrdered(OnWorkStarted(r, s).calls[Issued(s)..])
  {
    ProgressSteps(s);
    var plan := StartPlan(r);
    var n := Issued(s);
    if n < 6 {
      assert plan[..n] == [AllocHandle(EnvHandle), SetEnvAttr, AllocHandle(DbcHandle),
                           DriverConnect(r.connectionString), AllocHandle(StmtHandle)][..n];
    } else {
      assert plan[..n] == plan;
    }
  }

  /** No handle leaks from a failed start on an idle reader: exactly the
      handles this start allocated are released, each once. */
  lemma FailedStartReleasesWhatItAllocated(r: ReaderState, s: StartScript)
    requires NoHandles(r)
    requires OnWorkStarted(r, s).status.Internal?
    ensures Frees(OnWorkStarted(r, s).calls, EnvHandle) == (if Progress(s) >= 1 then [s.allocEnv.handle] else [])
    ensures Frees(OnWorkStarted(r, s).calls, DbcHandle) == (if Progress(s) >= 3 then [s.allocDbc.handle] else [])
    ensures Frees(OnWorkStarted(r, s).calls, StmtHandle) == (if Progress(s) >= 5 then [s.allocStmt.handle] else [])
  {
    ProgressSteps(s);
  }

  // ---------------------------------------------------------------------
  // Row step

  /** What the driver answers for one step: the SQLFetch code and, per
      column, the replies SQLGetData gives for the fetched row. */
  datatype RowScript = RowScript(fetchRc: int, cells: map<int, seq<Reply>>)

  /** The replies for a column; a column without a script answers SQL_NO_DATA. */
  function Cell(cells: map<int, seq<Reply>>, column: int): seq<Reply> {
    if column in cells then cells[column] else []
  }

  /** Outputs of ReadLocked. `key` and `value` are None when this step did
      not deliver them; `keyReads` and `valueReads` are the SQLGetData
      requests issued for each. */
  datatype StepResult = StepResult(
    reader: ReaderState,
    status: Status,
    key: Option<Bytes>,
    value: Option<Bytes>,
    produced: bool,
    atEnd: bool,
    keyReads: seq<DriverCall>,
    valueReads: seq<DriverCall>)

  /** The key made up when there is no key column: "<work>:<line>". The
      label comes first, then a ':', then only decimal digits, which read
      back as the line number; so the ':' after the label is the key's
      last one (SyntheticKeyRoundTrip). */
  function SyntheticKey(work: Bytes, line: nat): (k: Bytes)
    ensures |work| < |k| && k[..|work|] == work && k[|work|] == Decimal.COLON
    ensures Decimal.AllDigits(k[|work| + 1..]) && Decimal.Parse(k[|work| + 1..]) == line
  {
    var k := work + [Decimal.COLON] + Decimal.Digits(line);
    assert k[|work| + 1..] == Decimal.Digits(line);
    Decimal.ParseDigits(line);
    k
  }

  function ValueCType(roles: Roles): CType {
    if roles.valueIsBinary then CBinary else CChar
  }

  /** Reads the value column once the key is known. */
  function ReadValueStep(r: ReaderState, key: Bytes, keyReads: seq<DriverCall>,
                         cells: map<int, seq<Reply>>, produced: bool, atEnd: bool): (res: StepResult)
    ensures res.reader == r && res.key == Some(key) && res.keyReads == keyReads && res.atEnd == atEnd
    ensures res.status.Ok? <==> Completes(Cell(cells, r.roles.valueColumn))
    ensures res.status.Ok? ==> res.value == Some(Payload(Cell(cells, r.roles.valueColumn))) && res.produced
    ensures res.status.Internal? ==> res.value.None? && res.produced == produced && res.status.message == READER_ERROR
    ensures |res.valueReads| == Terminator(Cell(cells, r.roles.valueColumn)) + 1
    ensures forall i | 0 <= i < |res.valueReads| ::
              Request(res.valueReads[i], r.roles.valueColumn, ValueCType(r.roles), VALUE_CHUNK)
              && res.valueReads[i].offset == TotalSize(Cell(cells, r.roles.valueColumn)[..i])
  {
    var v := ReadValue(r.roles.valueColumn, ValueCType(r.roles), VALUE_CHUNK, Cell(cells, r.roles.valueColumn), 0);
    if v.Read? then StepResult(r, Ok, Some(key), Some(v.value), true, atEnd, keyReads, v.calls)
    else StepResult(r, v.Status(), Some(key), None, produced, atEnd, keyReads, v.calls)
  }

  /** ReadLocked: fetch one row. SQL_NO_DATA marks the end and changes
      nothing else; any other code bumps the counter before it is checked.
      The key is synthesised when there is no key column and otherwise read
      as text in KEY_CHUNK pieces; the value is read in VALUE_CHUNK pieces as
      binary or text. `produced` and `atEnd` are the caller's flags. */
  function ReadLocked(r: ReaderState, work: Bytes, row: RowScript, produced: bool, atEnd: bool): (res: StepResult)
    ensures row.fetchRc == SQL_NO_DATA ==>
              res.reader == r && res.status == Ok && !res.produced && res.atEnd
              && res.keyReads == [] && res.valueReads == []
    ensures row.fetchRc != SQL_NO_DATA ==>
              res.reader == r.(lineNumber := r.lineNumber + 1) && res.atEnd == atEnd
              && (res.produced <==> res.status.Ok? || produced)
    ensures res.status.Internal? ==> res.status.message == READER_ERROR
    ensures res.status.Ok? && row.fetchRc != SQL_NO_DATA ==>
              row.fetchRc >= 0 && res.key.Some? && res.value.Some?
    ensures row.fetchRc >= 0 && row.fetchRc != SQL_NO_DATA && r.roles.keyColumn < 0 ==>
              res.key == Some(SyntheticKey(work, r.lineNumber + 1)) && res.keyReads == []
    ensures row.fetchRc >= 0 && row.fetchRc != SQL_NO_DATA && r.roles.keyColumn >= 0 ==>
              (res.key.Some? <==> Completes(Cell(row.cells, r.roles.keyColumn)))
              && (res.key.Some? ==> res.key.value == Payload(Cell(row.cells, r.roles.keyColumn)))
    ensures res.value.Some? ==> res.key.Some? && res.status.Ok?
    ensures row.fetchRc >= 0 && row.fetchRc != SQL_NO_DATA && res.key.Some? && r.roles.keyColumn != r.roles.valueColumn ==>
              (res.status.Ok? <==> Completes(Cell(row.cells, r.roles.valueColumn)))
              && (res.status.Ok? ==> res.value == Some(Payload(Cell(row.cells, r.roles.valueColumn))))
    ensures ODBCStatus(row.fetchRc).Internal? ==> res.keyReads == [] && res.valueReads == []
    ensures row.fetchRc >= 0 && row.fetchRc != SQL_NO_DATA && r.roles.keyColumn >= 0 ==>
              |res.keyReads| == Terminator(Cell(row.cells, r.roles.keyColumn)) + 1
              && (res.key.None? ==> res.valueReads == [])
    ensures row.fetchRc >= 0 && row.fetchRc != SQL_NO_DATA && res.key.Some? ==> |res.valueReads| >= 1
    ensures row.fetchRc >= 0 && row.fetchRc != SQL_NO_DATA && res.key.Some? && r.roles.keyColumn != r.roles.valueColumn ==>
              |res.valueReads| == Terminator(Cell(row.cells, r.roles.valueColumn)) + 1
    ensures forall i | 0 <= i < |res.keyReads| ::
              Request(res.keyReads[i], r.roles.keyColumn, CChar, KEY_CHUNK)
              && res.keyReads[i].offset == TotalSize(Cell(row.cells, r.roles.keyColumn)[..i])
    ensures forall i | 0 <= i < |res.valueReads| ::
              Request(res.valueReads[i], r.roles.valueColumn, ValueCType(r.roles), VALUE_CHUNK)
    ensures row.fetchRc >= 0 && row.fetchRc != SQL_NO_DATA && r.roles.keyColumn != r.roles.valueColumn ==>
              forall i | 0 <= i < |res.valueReads| ::
                res.valueReads[i].GetData? && res.valueReads[i].offset == TotalSize(Cell(row.cells, r.roles.valueColumn)[..i])
  {
    if row.fetchRc == SQL_NO_DATA then StepResult(r, Ok, None, None, false, true, [], [])
    else
      var r' := r.(lineNumber := r.lineNumber + 1);
      var fetched := ODBCStatus(row.fetchRc);
      if fetched.Internal? then StepResult(r', fetched, None, None, produced, atEnd, [], [])
      else if r.roles.keyColumn < 0 then
        ReadValueStep(r', SyntheticKey(work, r'.lineNumber), [], row.cells, produced, atEnd)
      else
        var k := ReadValue(r.roles.keyColumn, CChar, KEY_CHUNK, Cell(row.cells, r.roles.keyColumn), 0);
        if k.ReadFailed? then StepResult(r', k.Status(), None, None, produced, atEnd, k.calls, [])
        else ReadValueStep(r', k.value, k.calls, row.cells[r.roles.keyColumn := k.rest], produced, atEnd)
  }

  /** The replies of a column the driver drains in one pass: chunks, then a
      single SQL_NO_DATA, then nothing. */
  predicate DrainedOnce(replies: seq<Reply>) {
    |replies| >= 1 && Terminator(replies) == |replies| - 1 && replies[|replies| - 1].rc == SQL_NO_DATA
  }

  /** The key/value quirk at work: when key and value are the same column,
      the key read drains it and the value read gets nothing, so the value
      of every produced record is empty. */
  lemma SameColumnValueIsEmpty(r: ReaderState, work: Bytes, row: RowScript, produced: bool, atEnd: bool)
    requires r.roles.keyColumn >= 0 && r.roles.keyColumn == r.roles.valueColumn
    requires row.fetchRc >= 0 && row.fetchRc != SQL_NO_DATA
    requires DrainedOnce(Cell(row.cells, r.roles.keyColumn))
    ensures ReadLocked(r, work, row, produced, atEnd).status == Ok
    ensures ReadLocked(r, work, row, produced, atEnd).key == Some(Payload(Cell(row.cells, r.roles.keyColumn)))
    ensures ReadLocked(r, work, row, produced, atEnd).value == Some([])
  {
    var replies := Cell(row.cells, r.roles.keyColumn);
    var k := ReadValue(r.roles.keyColumn, CChar, KEY_CHUNK, replies, 0);
    assert k.rest == [];
    assert Cell(row.cells[r.roles.keyColumn := k.rest], r.roles.valueColumn) == [];
    assert Terminator([]) == 0;
    assert Payload([]) == [];
  }

  /** ResetLocked: the counter goes back to zero and nothing else changes;
      no handle, column or query is touched. */
  function ResetLocked(r: ReaderState): (r': ReaderState)
    ensures r'.lineNumber == 0
    ensures r'.env == r.env && r'.dbc == r.dbc && r'.stmt == r.stmt
    ensures r'.roles == r.roles
    ensures r'.connectionString == r.connectionString && r'.sqlQuery == r.sqlQuery
  {
    r.(lineNumber := 0)
  }

  /** After a reset, numbering of synthetic keys restarts at 1. */
  lemma ResetRestartsNumbering(r: ReaderState, work: Bytes, row: RowScript, produced: bool, atEnd: bool)
    requires r.roles.keyColumn < 0 && row.fetchRc >= 0 && row.fetchRc != SQL_NO_DATA
    ensures ReadLocked(ResetLocked(r), work, row, produced, atEnd).key == Some(SyntheticKey(work, 1))
    ensures ReadLocked(ResetLocked(r), work, row, produced, atEnd).reader.lineNumber == 1
  {
  }

  // ---------------------------------------------------------------------
  // Synthetic keys

  /** The position of the last `b` in `s`, or -1. */
  function LastIndexOf(s: Bytes, b: byte): (i: int)
    ensures -1 <= i < |s|
    ensures i >= 0 ==> s[i] == b
    ensures forall j | i < j < |s| :: s[j] != b
  {
    if s == [] then -1 else if s[|s| - 1] == b then |s| - 1 else LastIndexOf(s[..|s| - 1], b)
  }

  /** Splits a key at its last ':' into the work label and the line number
      written after it; None when the key has no such shape. */
  function SplitKey(key: Bytes): Option<(Bytes, nat)> {
    var i := LastIndexOf(key, Decimal.COLON);
    if i < 0 then None
    else
      var digits := key[i + 1..];
      if |digits| >= 1 && Decimal.AllDigits(digits) then Some((key[..i], Decimal.Parse(digits))) else None
  }

  /** A synthetic key gives back its work label and line number, whatever
      the label contains (a ':' in it included). */
  lemma SyntheticKeyRoundTrip(work: Bytes, line: nat)
    ensures SplitKey(SyntheticKey(work, line)) == Some((work, line))
  {
    var key := SyntheticKey(work, line);
    var i := LastIndexOf(key, Decimal.COLON);
    assert key[|work|] == Decimal.COLON;
    assert key[|work| + 1..] == Decimal.Digits(line);
    assert i == |work|;
    assert key[..|work|] == work;
    Decimal.ParseDigits(line);
  }

  /** Two rows of a work unit never get the same synthetic key, nor do two
      work units. */
  lemma SyntheticKeysDistinct(w1: Bytes, n1: nat, w2: Bytes, n2: nat)
    requires SyntheticKey(w1, n1) == SyntheticKey(w2, n2)
    ensures w1 == w2 && n1 == n2
  {
    SyntheticKeyRoundTrip(w1, n1);
    SyntheticKeyRoundTrip(w2, n2);
  }

  // ---------------------------------------------------------------------
  // A whole work unit

  datatype Record = Record(key: Bytes, value: Bytes)

  /** Steps over a script of rows as the host does (each step with both
      flags false), collecting records until the end, an error or the script
      runs out. */
  datatype Drain = Drain(reader: ReaderState, status: Status, records: seq<Record>, atEnd: bool)

  function ReadAll(r: ReaderState, work: Bytes, rows: seq<RowScript>): (res: Drain)
    ensures res.reader.roles == r.roles && res.reader.stmt == r.stmt
    ensures r.lineNumber <= res.reader.lineNumber
    decreases |rows|
  {
    if rows == [] then Drain(r, Ok, [], false)
    else
      var step := ReadLocked(r, work, rows[0], false, false);
      if step.status.Internal? then Drain(step.reader, step.status, [], false)
      else if step.atEnd then Drain(step.reader, Ok, [], true)
      else
        var rest := ReadAll(step.reader, work, rows[1..]);
        rest.(records := [Record(step.key.value, step.value.value)] + rest.records)
  }

  /** A row the driver fetches and whose value column reads through. */
  predicate GoodRow(row: RowScript, valueColumn: int) {
    row.fetchRc >= 0 && row.fetchRc != SQL_NO_DATA && Completes(Cell(row.cells, valueColumn))
  }

  /** Without a key column, the i-th record of a run of good rows is keyed
      "<work>:<n+i+1>" (n the counter before the run) and carries the value
      column's delivered bytes. */
  lemma {:induction false} ReadAllNumbersRows(r: ReaderState, work: Bytes, rows: seq<RowScript>)
    requires r.roles.keyColumn < 0
    requires forall i | 0 <= i < |rows| :: GoodRow(rows[i], r.roles.valueColumn)
    ensures ReadAll(r, work, rows).status == Ok
    ensures |ReadAll(r, work, rows).records| == |rows|
    ensures ReadAll(r, work, rows).reader.lineNumber == r.lineNumber + |rows|
    ensures forall i | 0 <= i < |rows| ::
              ReadAll(r, work, rows).records[i]
              == Record(SyntheticKey(work, r.lineNumber + i + 1), Payload(Cell(rows[i].cells, r.roles.valueColumn)))
    decreases |rows|
  {
    if rows != [] {
      var step := ReadLocked(r, work, rows[0], false, false);
      ReadAllNumbersRows(step.reader, work, rows[1..]);
    }
  }

  /** The two-column scenario: columns "id" and "value", rows (1, "a") and
      (2, "b"), then the end of data. Start resolves no key column and
      column 2 as the value ... */
  lemma IdValueScenarioStart(s: StartScript)
    requires Progress(s) == 6
    requires s.result == ResultMeta(SQL_SUCCESS,
               [ColumnDesc(SQL_SUCCESS, "id", SqlOtherType), ColumnDesc(SQL_SUCCESS, "value", SqlVarChar)])
    ensures OnWorkStarted(NewReader("dsn", "query"), s).status == Ok
    ensures OnWorkStarted(NewReader("dsn", "query"), s).reader.roles == Roles(-1, 2, false)
    ensures OnWorkStarted(NewReader("dsn", "query"), s).reader.lineNumber == 0
  {
    var cols := s.result.columns;
    assert FirstNamed(cols, "value", 1) by {
      assert cols[..1][0].name == "id";
    }
    ResolveValueOnly(s.result, NewReader("dsn", "query").roles, 1);
    StartStepsInOrder(NewReader("dsn", "query"), s);
  }

  /** ... and the steps then produce ("<work>:1", "a") and ("<work>:2", "b")
      and report the end of data. */
  lemma IdValueScenarioRows(r: ReaderState, work: Bytes)
    requires r.roles == Roles(-1, 2, false) && r.lineNumber == 0
    ensures ReadAll(r, work,
                    [RowScript(SQL_SUCCESS, map[2 := [Reply(SQL_SUCCESS, [97]), Reply(SQL_NO_DATA, [])]]),
                     RowScript(SQL_SUCCESS, map[2 := [Reply(SQL_SUCCESS, [98]), Reply(SQL_NO_DATA, [])]]),
                     RowScript(SQL_NO_DATA, map[])])
            == Drain(r.(lineNumber := 2), Ok, [Record(SyntheticKey(work, 1), [97]), Record(SyntheticKey(work, 2), [98])], true)
  {
    var rowA := [Reply(SQL_SUCCESS, [97]), Reply(SQL_NO_DATA, [])];
    var rowB := [Reply(SQL_SUCCESS, [98]), Reply(SQL_NO_DATA, [])];
    var rows := [RowScript(SQL_SUCCESS, map[2 := rowA]), RowScript(SQL_SUCCESS, map[2 := rowB]),
                 RowScript(SQL_NO_DATA, map[])];
    assert Terminator(rowA[1..]) == 0 && Terminator(rowB[1..]) == 0;
    assert Terminator(rowA) == 1 && Terminator(rowB) == 1;
    assert rowA[..1] == [rowA[0]] && rowB[..1] == [rowB[0]];
    assert [rowA[0]][1..] == [] && [rowB[0]][1..] == [];
    assert Concat([rowA[0]]) == [97] && Concat([rowB[0]]) == [98];
    var s1 := ReadLocked(r, work, rows[0], false, false);
    assert s1.reader == r.(lineNumber := 1) && s1.key == Some(SyntheticKey(work, 1)) && s1.value == Some([97]);
    var s2 := ReadLocked(s1.reader, work, rows[1], false, false);
    assert s2.reader == r.(lineNumber := 2) && s2.key == Some(SyntheticKey(work, 2)) && s2.value == Some([98]);
    var s3 := ReadLocked(s2.reader, work, rows[2], false, false);
    assert s3.atEnd && s3.status == Ok;
    assert rows[1..][1..] == [rows[2]];
    assert ReadAll(s2.reader, work, rows[2..]) == Drain(r.(lineNumber := 2), Ok, [], true);
    assert rows[1..][1..] == rows[2..];
  }
}
