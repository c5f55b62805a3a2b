/** Column-role resolution: which result column is the key, which is the
    value, and whether the value is binary (ODBCReader::FindColumn,
    IsColumnBinary and SetupColumns). */
module Columns {
  import opened Odbc

  /** key_column_ (-1 when absent), value_column_ and value_is_binary_. */
  datatype Roles = Roles(keyColumn: int, valueColumn: int, valueIsBinary: bool)

  /** Result of a name search: its status and the 1-based column, or -1. */
  datatype Lookup = Lookup(status: Status, column: int)

  /** Result of the binary check: its status and the flag it wrote. */
  datatype BinaryCheck = BinaryCheck(status: Status, binary: bool)

  /** Result of SetupColumns: its status and the roles after it ran. */
  datatype Setup = Setup(status: Status, roles: Roles)

  predicate Describable(c: ColumnDesc) {
    ODBCStatus(c.describeRc).Ok?
  }

  predicate AllDescribable(cols: seq<ColumnDesc>) {
    forall j | 0 <= j < |cols| :: Describable(cols[j])
  }

  /** Columns lo+1 .. hi (1-based) all describe and none is called `name`:
      a scan for `name` passes over them without stopping. */
  predicate PassedOver(cols: seq<ColumnDesc>, name: string, lo: nat, hi: nat)
    requires lo <= hi <= |cols|
  {
    forall j | lo <= j < hi :: Describable(cols[j]) && cols[j].name != name
  }

  /** `name` occurs in no column. */
  predicate Unnamed(cols: seq<ColumnDesc>, name: string) {
    forall j | 0 <= j < |cols| :: cols[j].name != name
  }

  /** Column j+1 is the first column called `name`. */
  predicate FirstNamed(cols: seq<ColumnDesc>, name: string, j: int) {
    0 <= j < |cols| && cols[j].name == name && Unnamed(cols[..j], name)
  }

  /** The scan of FindColumn from 0-based position i on. */
  function FindFrom(cols: seq<ColumnDesc>, name: string, i: nat): (r: Lookup)
    requires i <= |cols|
    ensures r.column == -1 || (i < r.column <= |cols| && PassedOver(cols, name, i, r.column - 1)
                               && Describable(cols[r.column - 1]) && cols[r.column - 1].name == name)
    ensures r.column != -1 ==> r.status == Ok
    ensures r.column == -1 ==> (r.status == Ok <==> PassedOver(cols, name, i, |cols|))
    ensures r.status.Internal? ==> r.status.message == READER_ERROR
    ensures r.status.Internal? ==> exists j | i <= j < |cols| :: PassedOver(cols, name, i, j) && !Describable(cols[j])
    decreases |cols| - i
  {
    if i == |cols| then Lookup(Ok, -1)
    else
      var status := ODBCStatus(cols[i].describeRc);
      if status.Internal? then Lookup(status, -1)
      else if cols[i].name == name then Lookup(Ok, i + 1)
      else FindFrom(cols, name, i + 1)
  }

  /** Linear, case-sensitive search for the first column called `name`.
      The result is the 1-based index of the first match, reached before
      any describe failure; a describe failure stops the scan with -1 and
      an error. */
  function FindColumn(cols: seq<ColumnDesc>, name: string): (r: Lookup)
    ensures r.column == -1 || (1 <= r.column <= |cols| && PassedOver(cols, name, 0, r.column - 1)
                               && Describable(cols[r.column - 1]) && cols[r.column - 1].name == name)
    ensures r.column != -1 ==> r.status == Ok
    ensures r.column == -1 ==> (r.status == Ok <==> PassedOver(cols, name, 0, |cols|))
    ensures r.status.Internal? ==> r.status.message == READER_ERROR
    ensures r.status.Internal? ==> exists j | 0 <= j < |cols| :: PassedOver(cols, name, 0, j) && !Describable(cols[j])
  {
    FindFrom(cols, name, 0)
  }

  /** When every column describes, FindColumn finds exactly the first
      column called `name`, and -1 when there is none. */
  lemma FindColumnFindsFirst(cols: seq<ColumnDesc>, name: string)
    requires AllDescribable(cols)
    ensures FindColumn(cols, name).status == Ok
    ensures FindColumn(cols, name).column == -1 <==> Unnamed(cols, name)
    ensures forall j | 0 <= j < |cols| :: FirstNamed(cols, name, j) <==> FindColumn(cols, name).column == j + 1
  {
    var r := FindColumn(cols, name);
    forall j | 0 <= j < |cols|
      ensures FirstNamed(cols, name, j) <==> r.column == j + 1
    {
      assert forall i | 0 <= i < j :: cols[..j][i] == cols[i];
    }
  }

  /** The column description as the driver reports it; a column number
      outside 1..|cols| is rejected by the driver (invalid descriptor index). */
  function DescribeCol(cols: seq<ColumnDesc>, column: int): ColumnDesc
  {
    if 1 <= column <= |cols| then cols[column - 1] else ColumnDesc(SQL_ERROR, "", SqlOtherType)
  }

  /** The flag is cleared first and set only when the describe succeeds and
      the declared type is exactly SQL_BINARY. */
  function IsColumnBinary(cols: seq<ColumnDesc>, column: int): (r: BinaryCheck)
    ensures r.status.Ok? <==> 1 <= column <= |cols| && Describable(cols[column - 1])
    ensures r.binary <==> r.status.Ok? && cols[column - 1].dataType == SqlBinary
    ensures r.status.Internal? ==> r.status.message == READER_ERROR
  {
    var desc := DescribeCol(cols, column);
    var status := ODBCStatus(desc.describeRc);
    BinaryCheck(status, status.Ok? && desc.dataType == SqlBinary)
  }

  /** Roles that point into a result of `count` columns. */
  predicate ValidRoles(roles: Roles, count: int) {
    (roles.keyColumn == -1 || 1 <= roles.keyColumn <= count) && 1 <= roles.valueColumn <= count
  }

  /** Lookup of one role: the lower-case name first, the upper-case name
      only when the first search left -1. Search statuses are discarded. */
  function RoleByName(cols: seq<ColumnDesc>, lower: string, upper: string): (c: int)
    ensures c == -1 || 1 <= c <= |cols|
    ensures c != -1 ==> Describable(cols[c - 1]) && (cols[c - 1].name == lower || cols[c - 1].name == upper)
    ensures c != -1 ==> PassedOver(cols, cols[c - 1].name, 0, c - 1)
    ensures c != -1 && cols[c - 1].name != lower ==> FindColumn(cols, lower).column == -1
    ensures c == -1 ==> FindColumn(cols, lower).column == -1 && FindColumn(cols, upper).column == -1
  {
    var first := FindColumn(cols, lower).column;
    if first < 0 then FindColumn(cols, upper).column else first
  }

  /** Decides the key and value columns from the result metadata.
      `prior` holds the roles before the call: the early failures and the
      one-column case leave (part of) it untouched. */
  function SetupColumns(meta: ResultMeta, prior: Roles): (r: Setup)
    ensures meta.numResultColsRc < 0 ==> r == Setup(Internal(READER_ERROR), prior)
    ensures meta.numResultColsRc >= 0 && |meta.columns| == 0 ==> r == Setup(Internal(NO_COLUMNS), prior)
    ensures meta.numResultColsRc >= 0 && |meta.columns| == 1 ==>
              r.status == Ok && r.roles.keyColumn == -1 && r.roles.valueColumn == 1
              && r.roles.valueIsBinary == prior.valueIsBinary
    ensures meta.numResultColsRc >= 0 && |meta.columns| >= 1 ==> ValidRoles(r.roles, |meta.columns|)
    ensures meta.numResultColsRc >= 0 && |meta.columns| >= 2 ==>
              (r.status.Ok? <==> Describable(meta.columns[r.roles.valueColumn - 1]))
              && (r.roles.valueIsBinary <==> r.status.Ok? && meta.columns[r.roles.valueColumn - 1].dataType == SqlBinary)
    ensures r.status.Internal? ==> r.status.message in {READER_ERROR, NO_COLUMNS}
  {
    var cols := meta.columns;
    var status := ODBCStatus(meta.numResultColsRc);
    if status.Internal? then Setup(status, prior)
    else if |cols| < 1 then Setup(Internal(NO_COLUMNS), prior)
    else if |cols| == 1 then Setup(Ok, prior.(keyColumn := -1, valueColumn := 1))
    else
      var key := RoleByName(cols, "key", "KEY");
      var value := RoleByName(cols, "value", "VALUE");
      var (key, value) :=
        if key < 0 && value < 0 then (1, 2)
        else if value < 0 then (key, 1)
        else (key, value);
      var check := IsColumnBinary(cols, value);
      Setup(check.status, Roles(key, value, check.binary))
  }

  /** The role a name pair resolves to when every column describes: the
      first column called `lower`, else the first called `upper`. */
  predicate Resolves(cols: seq<ColumnDesc>, lower: string, upper: string, j: int) {
    FirstNamed(cols, lower, j) || (Unnamed(cols, lower) && FirstNamed(cols, upper, j))
  }

  lemma RoleByNameResolves(cols: seq<ColumnDesc>, lower: string, upper: string)
    requires AllDescribable(cols)
    ensures RoleByName(cols, lower, upper) == -1 <==> Unnamed(cols, lower) && Unnamed(cols, upper)
    ensures forall j | 0 <= j < |cols| :: Resolves(cols, lower, upper, j) <==> RoleByName(cols, lower, upper) == j + 1
  {
    FindColumnFindsFirst(cols, lower);
    FindColumnFindsFirst(cols, upper);
  }

  /** Both roles found by name: each is the column found, wherever it sits. */
  lemma ResolveKeyAndValueByName(meta: ResultMeta, prior: Roles, k: nat, v: nat)
    requires meta.numResultColsRc >= 0 && |meta.columns| >= 2 && AllDescribable(meta.columns)
    requires Resolves(meta.columns, "key", "KEY", k)
    requires Resolves(meta.columns, "value", "VALUE", v)
    ensures SetupColumns(meta, prior).status == Ok
    ensures SetupColumns(meta, prior).roles.keyColumn == k + 1
    ensures SetupColumns(meta, prior).roles.valueColumn == v + 1
  {
    RoleByNameResolves(meta.columns, "key", "KEY");
    RoleByNameResolves(meta.columns, "value", "VALUE");
  }

  /** Only the value found by name: the key stays absent. */
  lemma ResolveValueOnly(meta: ResultMeta, prior: Roles, v: nat)
    requires meta.numResultColsRc >= 0 && |meta.columns| >= 2 && AllDescribable(meta.columns)
    requires Unnamed(meta.columns, "key") && Unnamed(meta.columns, "KEY")
    requires Resolves(meta.columns, "value", "VALUE", v)
    ensures SetupColumns(meta, prior).status == Ok
    ensures SetupColumns(meta, prior).roles.keyColumn == -1
    ensures SetupColumns(meta, prior).roles.valueColumn == v + 1
  {
    RoleByNameResolves(meta.columns, "key", "KEY");
    RoleByNameResolves(meta.columns, "value", "VALUE");
  }

  /** Only the key found by name: the value falls back to column 1. */
  lemma ResolveKeyOnly(meta: ResultMeta, prior: Roles, k: nat)
    requires meta.numResultColsRc >= 0 && |meta.columns| >= 2 && AllDescribable(meta.columns)
    requires Resolves(meta.columns, "key", "KEY", k)
    requires Unnamed(meta.columns, "value") && Unnamed(meta.columns, "VALUE")
    ensures SetupColumns(meta, prior).status == Ok
    ensures SetupColumns(meta, prior).roles.keyColumn == k + 1
    ensures SetupColumns(meta, prior).roles.valueColumn == 1
  {
    RoleByNameResolves(meta.columns, "key", "KEY");
    RoleByNameResolves(meta.columns, "value", "VALUE");
  }

  /** The resolution quirk: a first column called "key" and no value column
      make column 1 both the key and the value. */
  lemma ResolveKeyValueCoincide(meta: ResultMeta, prior: Roles)
    requires meta.numResultColsRc >= 0 && |meta.columns| >= 2 && AllDescribable(meta.columns)
    requires meta.columns[0].name == "key"
    requires Unnamed(meta.columns, "value") && Unnamed(meta.columns, "VALUE")
    ensures SetupColumns(meta, prior).roles.keyColumn == 1
    ensures SetupColumns(meta, prior).roles.valueColumn == 1
  {
    assert FirstNamed(meta.columns, "key", 0);
    ResolveKeyOnly(meta, prior, 0);
  }

  /** Neither role found by name: the first two columns by position. */
  lemma ResolveByPosition(meta: ResultMeta, prior: Roles)
    requires meta.numResultColsRc >= 0 && |meta.columns| >= 2 && AllDescribable(meta.columns)
    requires Unnamed(meta.columns, "key") && Unnamed(meta.columns, "KEY")
    requires Unnamed(meta.columns, "value") && Unnamed(meta.columns, "VALUE")
    ensures SetupColumns(meta, prior).status == Ok
    ensures SetupColumns(meta, prior).roles.keyColumn == 1
    ensures SetupColumns(meta, prior).roles.valueColumn == 2
  {
    RoleByNameResolves(meta.columns, "key", "KEY");
    RoleByNameResolves(meta.columns, "value", "VALUE");
  }

  /** The statuses of the name searches are discarded. When column d+1 is
      the first that cannot be described and no "key"/"KEY" column comes
      before it, the key is missed even if it sits further on: it is absent
      when a value column was found before the failure, and column 1 when
      not. With no value name before the failure either, the roles fall
      back to the first two columns, and only the binary check of column 2
      decides the status. */
  lemma ResolveIgnoresSearchFailures(meta: ResultMeta, prior: Roles, d: nat)
    requires meta.numResultColsRc >= 0 && |meta.columns| >= 2
    requires d < |meta.columns| && !Describable(meta.columns[d])
    requires PassedOver(meta.columns, "key", 0, d) && PassedOver(meta.columns, "KEY", 0, d)
    ensures RoleByName(meta.columns, "key", "KEY") == -1
    ensures SetupColumns(meta, prior).roles.keyColumn
              == (if RoleByName(meta.columns, "value", "VALUE") == -1 then 1 else -1)
    ensures forall j | 0 <= j < d :: FirstNamed(meta.columns, "value", j) ==>
              SetupColumns(meta, prior) == Setup(Ok, Roles(-1, j + 1, meta.columns[j].dataType == SqlBinary))
    ensures PassedOver(meta.columns, "value", 0, d) && PassedOver(meta.columns, "VALUE", 0, d) ==>
              SetupColumns(meta, prior).roles.keyColumn == 1
              && SetupColumns(meta, prior).roles.valueColumn == 2
              && SetupColumns(meta, prior).status == ODBCStatus(meta.columns[1].describeRc)
  {
    var cols := meta.columns;
    forall j | 0 <= j < d && FirstNamed(cols, "value", j)
      ensures FindColumn(cols, "value").column == j + 1
    {
      assert PassedOver(cols, "value", 0, j);
    }
  }
}
