/** Vocabulary shared by the ODBC reader model: return codes, the reader's
    status type, the abstract driver oracle and the driver-call trace.

    The ODBC driver itself is not modelled. Everything it would answer is
    supplied up front as a script (an oracle), and everything the reader asks
    of it is recorded as a `DriverCall`, so that properties of the protocol
    can be stated about the calls the reader issues.
 */
module Odbc {

  datatype Option<+T> = None | Some(value: T)

  /** A std::string holds raw bytes; keys and values are byte strings. */
  type byte = x: int | 0 <= x < 256
  type Bytes = seq<byte>

  // SQLRETURN values as defined by the ODBC headers (sql.h).
  const SQL_SUCCESS: int := 0
  const SQL_SUCCESS_WITH_INFO: int := 1
  const SQL_NO_DATA: int := 100
  const SQL_ERROR: int := -1
  const SQL_INVALID_HANDLE: int := -2

  /** The reader's status: every failure is an INTERNAL error with a fixed text. */
  datatype Status = Ok | Internal(message: string)

  const READER_ERROR: string := "ODBCReader error"
  const NO_COLUMNS: string := "Query returns no columns"

  /** Classification of a driver return code: negative codes are errors,
      everything else (SQL_SUCCESS_WITH_INFO and SQL_NO_DATA included) is OK. */
  function ODBCStatus(rc: int): (s: Status)
    ensures s.Ok? <==> rc >= 0
    ensures s.Internal? ==> s.message == READER_ERROR
  {
    if rc < 0 then Internal(READER_ERROR) else Ok
  }

  lemma NonNegativeCodesAreOk()
    ensures ODBCStatus(SQL_SUCCESS) == Ok
    ensures ODBCStatus(SQL_SUCCESS_WITH_INFO) == Ok
    ensures ODBCStatus(SQL_NO_DATA) == Ok
    ensures ODBCStatus(SQL_ERROR) == Internal(READER_ERROR)
    ensures ODBCStatus(SQL_INVALID_HANDLE) == Internal(READER_ERROR)
  {
  }

  /** Declared SQL types, as abstract tags. Only SqlBinary marks a binary value. */
  datatype SqlType = SqlBinary | SqlVarBinary | SqlLongVarBinary | SqlChar | SqlVarChar | SqlOtherType

  /** What SQLDescribeCol answers for one result column. */
  datatype ColumnDesc = ColumnDesc(describeRc: int, name: string, dataType: SqlType)

  /** What SQLNumResultCols answers; the column count is |columns|. */
  datatype ResultMeta = ResultMeta(numResultColsRc: int, columns: seq<ColumnDesc>)

  /** C target type requested from SQLGetData. */
  datatype CType = CChar | CBinary

  /** One answer of SQLGetData: the return code and the bytes delivered.
      The count the driver reports (read_size) is taken to be |data|. */
  datatype Reply = Reply(rc: int, data: Bytes)

  /** Opaque handle values handed out by the driver. */
  type Handle = nat

  datatype HandleKind = EnvHandle | DbcHandle | StmtHandle

  /** What SQLAllocHandle answers: a return code and the handle it produced. */
  datatype AllocReply = AllocReply(rc: int, handle: Handle)

  /** A request the reader sends to the driver. For SQLGetData the trace
      records where in the destination string the driver is told to write
      (`offset`) and how large that string is at the time (`capacity`). */
  datatype DriverCall =
    | AllocHandle(kind: HandleKind)
    | SetEnvAttr
    | DriverConnect(connection: string)
    | ExecDirect(query: string)
    | FreeHandle(kind: HandleKind, handle: Handle)
    | GetData(column: int, cType: CType, bufSize: nat, offset: nat, capacity: nat)

  /** The handles released by a trace, for one kind, in release order. */
  function Frees(calls: seq<DriverCall>, kind: HandleKind): seq<Handle>
  {
    if calls == [] then []
    else
      (if calls[0].FreeHandle? && calls[0].kind == kind then [calls[0].handle] else [])
      + Frees(calls[1..], kind)
  }

  lemma {:induction false} FreesAppend(a: seq<DriverCall>, b: seq<DriverCall>, kind: HandleKind)
    ensures Frees(a + b, kind) == Frees(a, kind) + Frees(b, kind)
    decreases |a|
  {
    if a == [] {
      assert a + b == b;
    } else {
      assert (a + b)[1..] == a[1..] + b;
      FreesAppend(a[1..], b, kind);
    }
  }
}
