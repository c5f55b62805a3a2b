/** Chunked retrieval of one column value (ODBCReader::ReadValue): repeated
    SQLGetData calls of at most `bufSize` bytes each, accumulated until the
    driver answers SQL_NO_DATA. */
module Chunks {
  import opened Odbc

  /** Chunk sizes used by ReadLocked for the key and for the value. */
  const KEY_CHUNK: nat := 1024
  const VALUE_CHUNK: nat := 16 * 1024

  /** Outcome of a chunked read: the value, or a failure; in both cases the
      replies the driver has not yet given and the requests that were sent. */
  datatype ReadOutcome =
    | Read(value: Bytes, rest: seq<Reply>, calls: seq<DriverCall>)
    | ReadFailed(rest: seq<Reply>, calls: seq<DriverCall>)
  {
    function Status(): Status {
      if Read? then Ok else Internal(READER_ERROR)
    }
  }

  /** A reply that hands over a chunk and lets the read go on. */
  predicate Delivers(rep: Reply) {
    rep.rc != SQL_NO_DATA && ODBCStatus(rep.rc).Ok?
  }

  /** Position of the reply that ends the read: the first SQL_NO_DATA or
      error code, or |replies| when the script runs out. */
  function Terminator(replies: seq<Reply>): (t: nat)
    ensures t <= |replies|
    ensures forall i | 0 <= i < t :: Delivers(replies[i])
    ensures t < |replies| ==> !Delivers(replies[t])
  {
    if replies == [] || !Delivers(replies[0]) then 0 else 1 + Terminator(replies[1..])
  }

  /** The bytes of the replies, concatenated in order. */
  function Concat(replies: seq<Reply>): Bytes
  {
    if replies == [] then [] else replies[0].data + Concat(replies[1..])
  }

  /** The sum of the byte counts the driver reports (read_size). */
  function TotalSize(replies: seq<Reply>): nat
  {
    if replies == [] then 0 else |replies[0].data| + TotalSize(replies[1..])
  }

  lemma {:induction false} ConcatLength(replies: seq<Reply>)
    ensures |Concat(replies)| == TotalSize(replies)
    decreases |replies|
  {
    if replies != [] {
      ConcatLength(replies[1..]);
    }
  }

  /** The read ends with SQL_NO_DATA (or the script runs out), not with an error. */
  predicate Completes(replies: seq<Reply>) {
    var t := Terminator(replies);
    t == |replies| || replies[t].rc == SQL_NO_DATA
  }

  /** The bytes delivered before the read ends. */
  function Payload(replies: seq<Reply>): Bytes {
    Concat(replies[..Terminator(replies)])
  }

  /** The size of the destination string before SQLGetData writes at `pos`,
      as the string-growth check of ReadValue computes it: the string is
      resized only when it is already LONGER than pos + bufSize, so it can
      only shrink. */
  function GrowAsWritten(size: nat, pos: nat, bufSize: nat): (s: nat)
    ensures s <= size
  {
    if pos + bufSize < size then pos + bufSize else size
  }

  /** The evidently intended check: grow the string whenever the next write
      of up to bufSize bytes at pos would not fit. */
  function Grow(size: nat, pos: nat, bufSize: nat): (s: nat)
    ensures pos + bufSize <= s
    ensures size <= s
    ensures s == size || s == pos + bufSize
  {
    if size < pos + bufSize then pos + bufSize else size
  }

  /** Which string-growth check a read runs before each SQLGetData call. */
  datatype GrowthCheck = AsWritten | Corrected

  function Resize(check: GrowthCheck, size: nat, pos: nat, bufSize: nat): nat {
    match check
    case AsWritten => GrowAsWritten(size, pos, bufSize)
    case Corrected => Grow(size, pos, bufSize)
  }

  /** A SQLGetData request for `column` with the given C type and chunk size. */
  predicate Request(c: DriverCall, column: int, cType: CType, bufSize: nat) {
    c.GetData? && c.column == column && c.cType == cType && c.bufSize == bufSize
  }

  /** The request's destination window of bufSize bytes lies inside the string. */
  predicate Fits(c: DriverCall)
    requires c.GetData?
  {
    c.offset + c.bufSize <= c.capacity
  }

  /** The loop of ReadValue, from the point where `acc` has been read and the
      destination string has `size` bytes; `check` sizes the string before
      each call. */
  function ReadChunks(check: GrowthCheck, column: int, cType: CType, bufSize: nat,
                      replies: seq<Reply>, acc: Bytes, size: nat): (r: ReadOutcome)
    ensures r.Read? <==> Completes(replies)
    ensures r.Read? ==> r.value == acc + Payload(replies)
    ensures Terminator(replies) < |replies| ==> r.rest == replies[Terminator(replies) + 1..]
    ensures Terminator(replies) == |replies| ==> r.rest == []
    ensures |r.calls| == Terminator(replies) + 1
    ensures forall i | 0 <= i < |r.calls| ::
              Request(r.calls[i], column, cType, bufSize) && r.calls[i].offset == |acc| + TotalSize(replies[..i])
    ensures check == AsWritten ==> forall i | 0 <= i < |r.calls| :: r.calls[i].GetData? && r.calls[i].capacity <= size
    ensures check == Corrected ==> forall i | 0 <= i < |r.calls| :: r.calls[i].GetData? && Fits(r.calls[i])
    decreases |replies|
  {
    var capacity := Resize(check, size, |acc|, bufSize);
    var call := GetData(column, cType, bufSize, |acc|, capacity);
    if replies == [] then Read(acc, [], [call])
    else if replies[0].rc == SQL_NO_DATA then Read(acc, replies[1..], [call])
    else if ODBCStatus(replies[0].rc).Internal? then ReadFailed(replies[1..], [call])
    else
      var r := ReadChunks(check, column, cType, bufSize, replies[1..], acc + replies[0].data, capacity);
      ChunksStep(replies);
      r.(calls := [call] + r.calls)
  }

  /** How the reply script decomposes when its first reply delivers. */
  lemma ChunksStep(replies: seq<Reply>)
    requires replies != [] && Delivers(replies[0])
    ensures Terminator(replies) == 1 + Terminator(replies[1..])
    ensures Completes(replies) <==> Completes(replies[1..])
    ensures Payload(replies) == replies[0].data + Payload(replies[1..])
    ensures forall i | 1 <= i <= |replies| :: TotalSize(replies[..i]) == |replies[0].data| + TotalSize(replies[1..][..i - 1])
  {
    var t := Terminator(replies);
    assert replies[..t][1..] == replies[1..][..t - 1];
    forall i | 1 <= i <= |replies|
      ensures TotalSize(replies[..i]) == |replies[0].data| + TotalSize(replies[1..][..i - 1])
    {
      assert replies[..i][1..] == replies[1..][..i - 1];
    }
  }

  /** ReadValue: read one column, as the source does, into a string of
      `size` bytes. On success the value is the delivered chunks in order,
      its length the sum of the reported counts; every request asks for the
      same column, type and chunk size, at the running byte count. The
      string is never grown, so no request gets more room than `size`. */
  function ReadValue(column: int, cType: CType, bufSize: nat, replies: seq<Reply>, size: nat): (r: ReadOutcome)
    ensures r.Read? <==> Completes(replies)
    ensures r.Read? ==> r.value == Payload(replies)
    ensures r.Read? ==> |r.value| == TotalSize(replies[..Terminator(replies)])
    ensures Terminator(replies) < |replies| ==> r.rest == replies[Terminator(replies) + 1..]
    ensures Terminator(replies) == |replies| ==> r.rest == []
    ensures |r.calls| == Terminator(replies) + 1
    ensures forall i | 0 <= i < |r.calls| ::
              Request(r.calls[i], column, cType, bufSize) && r.calls[i].offset == TotalSize(replies[..i])
    ensures forall i | 0 <= i < |r.calls| :: r.calls[i].GetData? && r.calls[i].capacity <= size
  {
    var r := ReadChunks(AsWritten, column, cType, bufSize, replies, [], size);
    assert [] + Payload(replies) == Payload(replies);
    ConcatLength(replies[..Terminator(replies)]);
    r
  }

  /** Reading into an empty string, as the host hands it in, every request
      (the very first included) lets the driver write past the end of the
      string. */
  lemma ReadValueOverrunsEmptyString(column: int, cType: CType, bufSize: nat, replies: seq<Reply>)
    requires bufSize > 0
    ensures !Fits(ReadValue(column, cType, bufSize, replies, 0).calls[0])
    ensures var calls := ReadValue(column, cType, bufSize, replies, 0).calls;
            forall i | 0 <= i < |calls| :: calls[i].GetData? && !Fits(calls[i])
  {
  }

  /** ReadValue with the corrected growth check: the same value and requests,
      and now every request's window lies inside the string. */
  function ReadValueCorrected(column: int, cType: CType, bufSize: nat, replies: seq<Reply>, size: nat): (r: ReadOutcome)
    ensures r.Read? <==> Completes(replies)
    ensures r.Read? ==> r.value == Payload(replies)
    ensures Terminator(replies) < |replies| ==> r.rest == replies[Terminator(replies) + 1..]
    ensures Terminator(replies) == |replies| ==> r.rest == []
    ensures |r.calls| == Terminator(replies) + 1
    ensures forall i | 0 <= i < |r.calls| ::
              Request(r.calls[i], column, cType, bufSize) && r.calls[i].offset == TotalSize(replies[..i])
              && Fits(r.calls[i])
  {
    var r := ReadChunks(Corrected, column, cType, bufSize, replies, [], size);
    assert [] + Payload(replies) == Payload(replies);
    r
  }

  /** A value longer than one chunk needs more than one request: if the
      driver never delivers more than bufSize bytes at once, a successful read
      of more than bufSize bytes issued at least three SQLGetData calls (two
      delivering and the final SQL_NO_DATA). */
  lemma {:induction false} LongValueNeedsSeveralCalls(column: int, cType: CType, bufSize: nat, replies: seq<Reply>, size: nat)
    requires forall i | 0 <= i < |replies| :: |replies[i].data| <= bufSize
    requires ReadValue(column, cType, bufSize, replies, size).Read?
    requires |ReadValue(column, cType, bufSize, replies, size).value| > bufSize
    ensures |ReadValue(column, cType, bufSize, replies, size).calls| >= 3
  {
    var t := Terminator(replies);
    TotalSizeBound(replies[..t], bufSize);
  }

  lemma {:induction false} TotalSizeBound(replies: seq<Reply>, bufSize: nat)
    requires forall i | 0 <= i < |replies| :: |replies[i].data| <= bufSize
    ensures TotalSize(replies) <= |replies| * bufSize
    decreases |replies|
  {
    if replies != [] {
      TotalSizeBound(replies[1..], bufSize);
    }
  }
}
