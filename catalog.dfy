// What Connection.normalize (sqlite6nf.py:534-581) does to a database, as a
// function of the database's state: the rows it adds to the six sqlite6nf
// catalog tables, the statements it sends, and the transaction it opens and
// commits. The rows of the catalog tables are kept in insertion order.

module Catalogs {
  import opened Templates
  import Scanner

  /** A row of sqlite6nf_table_exist or sqlite6nf_column_exist (sqlite6nf.py:99-107, :127-135). */
  datatype ExistRow = ExistRow(id: int, transaction: string, exist: int)

  /**
   * A row of sqlite6nf_table_name or sqlite6nf_column_name (sqlite6nf.py:109-117, :137-145),
   * with name the string normalize binds. Both tables declare that column INTEGER; what
   * SQLite stores under that declaration is modelled in Affinity.
   */
  datatype NameRow = NameRow(id: int, transaction: string, name: string)

  /** A row of sqlite6nf_column: the column's id and its table's id (sqlite6nf.py:119-125). */
  datatype ColumnRow = ColumnRow(id: int, tableId: int)

  /** A row of the pragma_table_info query, as normalize keeps it: the column's name and declared type (sqlite6nf.py:566-567). */
  datatype ColumnInfo = ColumnInfo(name: string, dtype: string)

  /**
   * What normalize learns from the database: `tables` holds the names whose
   * insert trigger (sqlite6nf.py:564) succeeds when the table loop visits
   * them, which includes any table an earlier call created, such as
   * `sqlite6nf_1`; `unnormalized` is the result of the query for the tables
   * not yet normalized (sqlite6nf.py:274-286, in its row order); `columns`
   * is the result of the column query (sqlite6nf.py:288-295) for each name.
   */
  datatype Schema = Schema(tables: set<string>, unnormalized: seq<string>, columns: map<string, seq<ColumnInfo>>)

  /** The column query's rows for a name: none when the query finds no such table. */
  function ColumnsOf(schema: Schema, name: string): seq<ColumnInfo> {
    if name in schema.columns then schema.columns[name] else []
  }

  /** The tables argument of normalize (sqlite6nf.py:536): None, one name, or an iterable of names. */
  datatype Selector = AllTables | OneTable(name: string) | Tables(names: seq<string>)

  /** The names the table loop visits, in order (sqlite6nf.py:549-553). */
  function SelectedNames(selector: Selector, schema: Schema): seq<string> {
    match selector
    case AllTables => schema.unnormalized
    case OneTable(name) => [name]
    case Tables(names) => names
  }

  /**
   * The state normalize works on: the connection's in_transaction flag, the
   * rows of the six catalog tables, and every statement sent so far.
   */
  datatype Catalog = Catalog(
    inTransaction: bool,
    tables: seq<int>,
    tableExist: seq<ExistRow>,
    tableNames: seq<NameRow>,
    columns: seq<ColumnRow>,
    columnExist: seq<ExistRow>,
    columnNames: seq<NameRow>,
    issued: seq<Statement>)

  /** A run that returns, or one that raises part way (the state is then what the statements before the failing one left). */
  datatype Outcome = Done(cat: Catalog) | Failed(cat: Catalog)

  // ------------------------------------------------------------- statements

  /** The catalog tables (sqlite6nf.py:93-145). */
  datatype CatalogDdl = TableCatalog | TableExistCatalog | TableNameCatalog | ColumnCatalog | ColumnExistCatalog | ColumnNameCatalog

  /** The templates formatted with table_format (sqlite6nf.py:147-161, :173-195). */
  datatype TableDdl = InstanceTable | InstanceExistTable | InsertTrigger | DeleteTrigger

  /** The templates formatted with column_format (sqlite6nf.py:163-171, :197-215). */
  datatype ColumnDdl = ValueTable | ValueInsertTrigger | ValueUpdateTrigger

  /** A statement normalize sends: which SQL, and the arguments it was formatted with. */
  datatype Statement =
    | Begin
    | Commit
    | CreateCatalog(catalog: CatalogDdl)
    | ListTables
    | InsertTableRow
    | InsertTableExistRow
    | InsertTableNameRow
    | CreateForTable(tableDdl: TableDdl, tableId: int, tableName: string)
    | ListColumns
    | InsertColumnRow
    | InsertColumnExistRow
    | InsertColumnNameRow
    | CreateForColumn(columnDdl: ColumnDdl, tableId: int, tableName: string, columnId: int, column: ColumnInfo)

  /** The template of a per-table statement. */
  function TableTemplate(ddl: TableDdl): (tpl: Template)
    ensures Fills(tpl, TableKeys) && NamesQuoted(tpl)
  {
    InstanceTemplatesWellFormed();
    InsertTriggerTemplateWellFormed();
    DeleteTriggerTemplateWellFormed();
    match ddl
    case InstanceTable => CreateInstance
    case InstanceExistTable => CreateInstanceExist
    case InsertTrigger => CreateInsertTrigger
    case DeleteTrigger => CreateDeleteTrigger
  }

  /** The template of a per-column statement. */
  function ColumnTemplate(ddl: ColumnDdl): (tpl: Template)
    ensures Fills(tpl, ColumnKeys) && NamesQuoted(tpl)
  {
    ValueTableTemplateWellFormed();
    ValueInsertTriggerTemplateWellFormed();
    ValueUpdateTriggerTemplateWellFormed();
    match ddl
    case ValueTable => CreateInstanceValue
    case ValueInsertTrigger => CreateValueInsertTrigger
    case ValueUpdateTrigger => CreateValueUpdateTrigger
  }

  /** The CREATE TABLE IF NOT EXISTS statement of a catalog table. */
  function CatalogText(catalog: CatalogDdl): string {
    match catalog
    case TableCatalog => CreateTableCatalog
    case TableExistCatalog => CreateTableExistCatalog
    case TableNameCatalog => CreateTableNameCatalog
    case ColumnCatalog => CreateColumnCatalog
    case ColumnExistCatalog => CreateColumnExistCatalog
    case ColumnNameCatalog => CreateColumnNameCatalog
  }

  /** The SQL text of a statement, as sqlite6nf.py:541-579 passes it to execute. */
  function Text(st: Statement): string {
    match st
    case Begin => BeginTransaction
    case Commit => CommitTransaction
    case CreateCatalog(catalog) => CatalogText(catalog)
    case ListTables => SelectUnnormalizedTables
    case InsertTableRow => InsertTable
    case InsertTableExistRow => InsertTableExist
    case InsertTableNameRow => InsertTableName
    case CreateForTable(ddl, tableId, tableName) => Format(TableTemplate(ddl), TableFormat(tableId, tableName))
    case ListColumns => SelectTableInfo
    case InsertColumnRow => InsertColumn
    case InsertColumnExistRow => InsertColumnExist
    case InsertColumnNameRow => InsertColumnName
    case CreateForColumn(ddl, tableId, tableName, columnId, column) =>
      Format(ColumnTemplate(ddl), ColumnFormat(tableId, tableName, columnId, column.name, column.dtype))
  }

  // ---------------------------------------------------------------- row ids

  /**
   * The id SQLite gives a row inserted with a NULL INTEGER PRIMARY KEY
   * (sqlite6nf.py:557, :569): one more than the largest id in the table, or 1
   * when the table is empty.
   */
  function NextId(ids: seq<int>): (id: int)
    decreases |ids|
    ensures forall i :: 0 <= i < |ids| ==> ids[i] < id
    ensures ids == [] ==> id == 1
    ensures ids != [] ==> id - 1 in ids
  {
    if ids == [] then 1
    else
      var last := ids[|ids| - 1] + 1;
      if |ids| == 1 then last
      else
        var before := NextId(ids[..|ids| - 1]);
        assert before - 1 in ids[..|ids| - 1];
        if before <= last then last else before
  }

  /** The ids of the rows of sqlite6nf_column. */
  function ColumnIds(rows: seq<ColumnRow>): (ids: seq<int>)
    ensures |ids| == |rows|
    ensures forall i :: 0 <= i < |rows| ==> ids[i] == rows[i].id
  {
    seq(|rows|, i requires 0 <= i < |rows| => rows[i].id)
  }

  // ------------------------------------------------------------- one column

  /** The statements one column iteration sends (sqlite6nf.py:569-577). */
  function ColumnStatements(tableId: int, tableName: string, columnId: int, column: ColumnInfo): seq<Statement> {
    [ InsertColumnRow, InsertColumnExistRow, InsertColumnNameRow
    , CreateForColumn(ValueTable, tableId, tableName, columnId, column)
    , CreateForColumn(ValueInsertTrigger, tableId, tableName, columnId, column)
    , CreateForColumn(ValueUpdateTrigger, tableId, tableName, columnId, column) ]
  }

  /** One iteration of the column loop (sqlite6nf.py:568-577): a fresh column id linked to the table, its exist and name rows. */
  function AddColumn(c: Catalog, tableId: int, tableName: string, column: ColumnInfo, now: string): Catalog {
    var id := NextId(ColumnIds(c.columns));
    c.(columns := c.columns + [ColumnRow(id, tableId)],
       columnExist := c.columnExist + [ExistRow(id, now, 1)],
       columnNames := c.columnNames + [NameRow(id, now, column.name)],
       issued := c.issued + ColumnStatements(tableId, tableName, id, column))
  }

  /** The column loop over the first |columns| columns. */
  function AddColumns(c: Catalog, tableId: int, tableName: string, columns: seq<ColumnInfo>, now: string): Catalog
    decreases |columns|
  {
    if columns == [] then c
    else AddColumn(AddColumns(c, tableId, tableName, columns[..|columns| - 1], now), tableId, tableName, columns[|columns| - 1], now)
  }

  // -------------------------------------------------------------- one table

  /** The statements one table iteration sends up to and including the insert trigger (sqlite6nf.py:557-564). */
  function RegisterStatements(tableId: int, tableName: string): seq<Statement> {
    [ InsertTableRow, InsertTableExistRow, InsertTableNameRow
    , CreateForTable(InstanceTable, tableId, tableName)
    , CreateForTable(InstanceExistTable, tableId, tableName)
    , CreateForTable(InsertTrigger, tableId, tableName) ]
  }

  /** The statements after the insert trigger and before the columns (sqlite6nf.py:565-566). */
  function DeleteTriggerStatements(tableId: int, tableName: string): seq<Statement> {
    [CreateForTable(DeleteTrigger, tableId, tableName), ListColumns]
  }

  /** The table's fresh id, exist and name rows and the statements up to the insert trigger. */
  function Register(c: Catalog, name: string, now: string): Catalog {
    var id := NextId(c.tables);
    c.(tables := c.tables + [id],
       tableExist := c.tableExist + [ExistRow(id, now, 1)],
       tableNames := c.tableNames + [NameRow(id, now, name)],
       issued := c.issued + RegisterStatements(id, name))
  }

  /**
   * One iteration of the table loop (sqlite6nf.py:557-577). Creating the
   * insert trigger fails when the database has no such table; the exception
   * leaves the statements before it in effect.
   */
  function AddTable(c: Catalog, name: string, schema: Schema, now: string): Outcome {
    var r := Register(c, name, now);
    var id := r.tables[|r.tables| - 1];
    if name !in schema.tables then Failed(r)
    else Done(AddColumns(r.(issued := r.issued + DeleteTriggerStatements(id, name)), id, name, ColumnsOf(schema, name), now))
  }

  /** The table loop over the first |names| names. */
  function AddTables(c: Catalog, names: seq<string>, schema: Schema, now: string): Outcome
    decreases |names|
  {
    if names == [] then Done(c)
    else
      match AddTables(c, names[..|names| - 1], schema, now)
      case Failed(f) => Failed(f)
      case Done(d) => AddTable(d, names[|names| - 1], schema, now)
  }

  // --------------------------------------------------------------- the call

  /** The catalog tables normalize creates when missing (sqlite6nf.py:543-548). */
  const CatalogTables: seq<Statement> :=
    [ CreateCatalog(TableCatalog), CreateCatalog(TableExistCatalog), CreateCatalog(TableNameCatalog)
    , CreateCatalog(ColumnCatalog), CreateCatalog(ColumnExistCatalog), CreateCatalog(ColumnNameCatalog) ]

  /** The statements before the table loop: BEGIN unless in a transaction, the catalog tables, and for None the listing query (sqlite6nf.py:540-551). */
  function Opening(c: Catalog, selector: Selector): seq<Statement> {
    (if c.inTransaction then [] else [Begin]) + CatalogTables + (if selector.AllTables? then [ListTables] else [])
  }

  /** The state after the transaction is open, the catalog exists and, for None, the tables are listed. */
  function Prepare(c: Catalog, selector: Selector): Catalog {
    c.(inTransaction := true, issued := c.issued + Opening(c, selector))
  }

  /**
   * Connection.normalize(tables) (sqlite6nf.py:534-581), with now standing
   * for the datetime.now() value it takes once (sqlite6nf.py:554).
   */
  function Normalize(c: Catalog, selector: Selector, schema: Schema, now: string): Outcome {
    match AddTables(Prepare(c, selector), SelectedNames(selector, schema), schema, now)
    case Failed(f) => Failed(f)
    case Done(d) =>
      if c.inTransaction then Done(d)
      else Done(d.(inTransaction := false, issued := d.issued + [Commit]))
  }

  // ------------------------------------------------------------- properties

  /** d keeps every row and statement of c, in place, and may only add after them. */
  predicate Extends(c: Catalog, d: Catalog) {
    && c.tables <= d.tables && c.tableExist <= d.tableExist && c.tableNames <= d.tableNames
    && c.columns <= d.columns && c.columnExist <= d.columnExist && c.columnNames <= d.columnNames
    && c.issued <= d.issued
  }

  /** Every id from position b on is larger than every id before it: the ids added are new and distinct. */
  predicate FreshFrom(ids: seq<int>, b: nat) {
    forall i, j :: 0 <= i < j < |ids| && b <= j ==> ids[i] < ids[j]
  }

  /** Neither BEGIN nor COMMIT is among the statements. */
  predicate NoBrackets(statements: seq<Statement>) {
    forall k :: 0 <= k < |statements| ==> !statements[k].Begin? && !statements[k].Commit?
  }

  /** COMMIT is not among the statements. */
  predicate NoCommit(statements: seq<Statement>) {
    forall k :: 0 <= k < |statements| ==> !statements[k].Commit?
  }

  /** A column the loop visits, with the id of its table. */
  datatype Placed = Placed(tableId: int, column: ColumnInfo)

  /** The columns of one table, in order, with the table's id. */
  function PlaceColumns(tableId: int, columns: seq<ColumnInfo>): (ps: seq<Placed>)
    ensures |ps| == |columns|
    ensures forall k :: 0 <= k < |columns| ==> ps[k] == Placed(tableId, columns[k])
  {
    seq(|columns|, k requires 0 <= k < |columns| => Placed(tableId, columns[k]))
  }

  /** The names of the placed columns. */
  function ColumnNames(placed: seq<Placed>): (names: seq<string>)
    ensures |names| == |placed|
    ensures forall k :: 0 <= k < |placed| ==> names[k] == placed[k].column.name
  {
    seq(|placed|, k requires 0 <= k < |placed| => placed[k].column.name)
  }

  /** The exist rows normalize inserts for new ids: exist 1, at time now (sqlite6nf.py:555, :560, :573). */
  function ExistRows(ids: seq<int>, now: string): (rows: seq<ExistRow>)
    ensures |rows| == |ids|
    ensures forall k :: 0 <= k < |ids| ==> rows[k] == ExistRow(ids[k], now, 1)
  {
    seq(|ids|, k requires 0 <= k < |ids| => ExistRow(ids[k], now, 1))
  }

  /** The name rows normalize inserts for new ids, at time now (sqlite6nf.py:561, :574). */
  function NameRows(ids: seq<int>, names: seq<string>, now: string): (rows: seq<NameRow>)
    requires |ids| == |names|
    ensures |rows| == |ids|
    ensures forall k :: 0 <= k < |ids| ==> rows[k] == NameRow(ids[k], now, names[k])
  {
    seq(|ids|, k requires 0 <= k < |ids| => NameRow(ids[k], now, names[k]))
  }

  /** From index from on, the column rows belong to the tables of the placed columns, in order. */
  predicate PlacedFrom(rows: seq<ColumnRow>, from: nat, placed: seq<Placed>) {
    && from + |placed| <= |rows|
    && forall j :: 0 <= j < |placed| ==> rows[from + j].tableId == placed[j].tableId
  }

  /**
   * The columns added after c: c's rows stay in place, and each placed column
   * gets one new id linked to its table, one exist row (exist 1) and one name
   * row, both at time now, in order.
   */
  predicate ColumnsAdded(c: Catalog, d: Catalog, placed: seq<Placed>, now: string) {
    && c.columns <= d.columns && |d.columns| == |c.columns| + |placed|
    && FreshFrom(ColumnIds(d.columns), |c.columns|)
    && PlacedFrom(d.columns, |c.columns|, placed)
    && d.columnExist == c.columnExist + ExistRows(ColumnIds(d.columns[|c.columns|..]), now)
    && d.columnNames == c.columnNames + NameRows(ColumnIds(d.columns[|c.columns|..]), ColumnNames(placed), now)
  }

  /**
   * The tables added after c: c's rows stay in place, and each name gets one
   * new id, one exist row (exist 1) and one name row, both at time now, in order.
   */
  predicate TablesAdded(c: Catalog, d: Catalog, names: seq<string>, now: string) {
    && c.tables <= d.tables && |d.tables| == |c.tables| + |names|
    && FreshFrom(d.tables, |c.tables|)
    && d.tableExist == c.tableExist + ExistRows(d.tables[|c.tables|..], now)
    && d.tableNames == c.tableNames + NameRows(d.tables[|c.tables|..], names, now)
  }

  /** c and d hold the same table rows. */
  predicate SameTables(c: Catalog, d: Catalog) {
    c.tables == d.tables && c.tableExist == d.tableExist && c.tableNames == d.tableNames
  }

  /** c and d hold the same column rows. */
  predicate SameColumns(c: Catalog, d: Catalog) {
    c.columns == d.columns && c.columnExist == d.columnExist && c.columnNames == d.columnNames
  }

  // ------------------------------------------------------ sequence helpers

  /** What follows x in z is what follows x in y, then what follows y in z. */
  lemma SliceSplit<T>(x: seq<T>, y: seq<T>, z: seq<T>)
    requires x <= y <= z
    ensures z[|x|..] == y[|x|..] + z[|y|..]
  {
  }

  /** Appending x and then y appends x + y. */
  lemma AppendTwice<T>(a: seq<T>, b: seq<T>, d: seq<T>, x: seq<T>, y: seq<T>)
    requires b == a + x && d == b + y
    ensures d == a + (x + y)
  {
  }

  lemma ColumnIdsConcat(x: seq<ColumnRow>, y: seq<ColumnRow>)
    ensures ColumnIds(x + y) == ColumnIds(x) + ColumnIds(y)
  {
  }

  lemma ExistRowsConcat(x: seq<int>, y: seq<int>, now: string)
    ensures ExistRows(x + y, now) == ExistRows(x, now) + ExistRows(y, now)
  {
  }

  lemma NameRowsConcat(x: seq<int>, y: seq<int>, nx: seq<string>, ny: seq<string>, now: string)
    requires |x| == |nx| && |y| == |ny|
    ensures NameRows(x + y, nx + ny, now) == NameRows(x, nx, now) + NameRows(y, ny, now)
  {
  }

  lemma ColumnNamesConcat(p: seq<Placed>, q: seq<Placed>)
    ensures ColumnNames(p + q) == ColumnNames(p) + ColumnNames(q)
  {
  }

  /** Adding a value above every id keeps the ids from b on fresh. */
  lemma FreshAppend(ids: seq<int>, x: int, b: nat)
    requires FreshFrom(ids, b) && b <= |ids|
    requires forall i :: 0 <= i < |ids| ==> ids[i] < x
    ensures FreshFrom(ids + [x], b)
  {
  }

  /** Ids fresh from a within a prefix, and fresh from the prefix's end in the whole, are fresh from a in the whole. */
  lemma FreshCompose(x: seq<int>, y: seq<int>, a: nat)
    requires x <= y && a <= |x|
    requires FreshFrom(x, a) && FreshFrom(y, |x|)
    ensures FreshFrom(y, a)
  {
    forall i, j | 0 <= i < j < |y| && a <= j
      ensures y[i] < y[j]
    {
      if j < |x| {
        assert y[i] == x[i] && y[j] == x[j];
      }
    }
  }

  /** The ids of a prefix of the rows are a prefix of the ids. */
  lemma ColumnIdsPrefix(rows: seq<ColumnRow>, more: seq<ColumnRow>)
    requires rows <= more
    ensures ColumnIds(rows) <= ColumnIds(more)
  {
  }

  /** Extending is transitive. */
  lemma ExtendsTrans(a: Catalog, b: Catalog, d: Catalog)
    requires Extends(a, b) && Extends(b, d)
    ensures Extends(a, d)
  {
  }

  /** No BEGIN or COMMIT in either part means none in the whole. */
  lemma NoBracketsConcat(x: seq<Statement>, y: seq<Statement>)
    requires NoBrackets(x) && NoBrackets(y)
    ensures NoBrackets(x + y)
  {
  }

  // ------------------------------------------------------------ column loop

  /** One column iteration adds that column. */
  lemma AddColumnAdds(c: Catalog, tableId: int, tableName: string, column: ColumnInfo, now: string)
    ensures ColumnsAdded(c, AddColumn(c, tableId, tableName, column, now), [Placed(tableId, column)], now)
  {
    var ids := ColumnIds(c.columns);
    var d := AddColumn(c, tableId, tableName, column, now);
    assert ColumnIds(d.columns) == ids + [NextId(ids)];
    assert d.columns[|c.columns|..] == [ColumnRow(NextId(ids), tableId)];
  }

  /** Two runs of column rows placed one after the other are placed as one run. */
  lemma PlacedCompose(ac: seq<ColumnRow>, bc: seq<ColumnRow>, dc: seq<ColumnRow>, p: seq<Placed>, q: seq<Placed>)
    requires ac <= bc && |bc| == |ac| + |p| && bc <= dc && |dc| == |bc| + |q|
    requires PlacedFrom(bc, |ac|, p) && PlacedFrom(dc, |bc|, q)
    ensures PlacedFrom(dc, |ac|, p + q)
  {
    forall j | 0 <= j < |p + q|
      ensures dc[|ac| + j].tableId == (p + q)[j].tableId
    {
      if j < |p| {
        assert dc[|ac| + j] == bc[|ac| + j];
      } else {
        assert |ac| + j == |bc| + (j - |p|);
      }
    }
  }

  /** The exist and name rows of two column runs, one after the other, are those of the joined run. */
  lemma ColumnRowsCompose(a: Catalog, b: Catalog, d: Catalog, p: seq<Placed>, q: seq<Placed>, now: string)
    requires a.columns <= b.columns && |b.columns| == |a.columns| + |p|
    requires b.columns <= d.columns && |d.columns| == |b.columns| + |q|
    requires b.columnExist == a.columnExist + ExistRows(ColumnIds(b.columns[|a.columns|..]), now)
    requires d.columnExist == b.columnExist + ExistRows(ColumnIds(d.columns[|b.columns|..]), now)
    requires b.columnNames == a.columnNames + NameRows(ColumnIds(b.columns[|a.columns|..]), ColumnNames(p), now)
    requires d.columnNames == b.columnNames + NameRows(ColumnIds(d.columns[|b.columns|..]), ColumnNames(q), now)
    ensures d.columnExist == a.columnExist + ExistRows(ColumnIds(d.columns[|a.columns|..]), now)
    ensures d.columnNames == a.columnNames + NameRows(ColumnIds(d.columns[|a.columns|..]), ColumnNames(p + q), now)
  {
    var x := ColumnIds(b.columns[|a.columns|..]);
    var y := ColumnIds(d.columns[|b.columns|..]);
    SliceSplit(a.columns, b.columns, d.columns);
    ColumnIdsConcat(b.columns[|a.columns|..], d.columns[|b.columns|..]);
    assert ColumnIds(d.columns[|a.columns|..]) == x + y;
    ExistRowsConcat(x, y, now);
    AppendTwice(a.columnExist, b.columnExist, d.columnExist, ExistRows(x, now), ExistRows(y, now));
    ColumnNamesConcat(p, q);
    NameRowsConcat(x, y, ColumnNames(p), ColumnNames(q), now);
    AppendTwice(a.columnNames, b.columnNames, d.columnNames, NameRows(x, ColumnNames(p), now), NameRows(y, ColumnNames(q), now));
  }

  /** Columns added in two stretches are added in one. */
  lemma ColumnsAddedCompose(a: Catalog, b: Catalog, d: Catalog, p: seq<Placed>, q: seq<Placed>, now: string)
    requires ColumnsAdded(a, b, p, now) && ColumnsAdded(b, d, q, now)
    ensures ColumnsAdded(a, d, p + q, now)
  {
    ColumnIdsPrefix(b.columns, d.columns);
    FreshCompose(ColumnIds(b.columns), ColumnIds(d.columns), |a.columns|);
    PlacedCompose(a.columns, b.columns, d.columns, p, q);
    ColumnRowsCompose(a, b, d, p, q, now);
  }

  /** One column iteration changes only column rows, and sends its six statements. */
  lemma AddColumnKeeps(c: Catalog, tableId: int, tableName: string, column: ColumnInfo, now: string)
    ensures var d := AddColumn(c, tableId, tableName, column, now);
            && Extends(c, d) && d.inTransaction == c.inTransaction && SameTables(c, d)
            && |d.issued| == |c.issued| + 6
            && NoBrackets(d.issued[|c.issued|..])
  {
    var d := AddColumn(c, tableId, tableName, column, now);
    assert d.issued[|c.issued|..] == ColumnStatements(tableId, tableName, NextId(ColumnIds(c.columns)), column);
  }

  /** The column loop adds no table and only appends, and sends six statements per column, none of them BEGIN or COMMIT. */
  lemma {:induction false} AddColumnsKeepsTables(c: Catalog, tableId: int, tableName: string, columns: seq<ColumnInfo>, now: string)
    decreases |columns|
    ensures var d := AddColumns(c, tableId, tableName, columns, now);
            && Extends(c, d) && d.inTransaction == c.inTransaction && SameTables(c, d)
            && |d.issued| == |c.issued| + 6 * |columns|
            && NoBrackets(d.issued[|c.issued|..])
  {
    if columns != [] {
      var n := |columns| - 1;
      AddColumnsKeepsTables(c, tableId, tableName, columns[..n], now);
      var m := AddColumns(c, tableId, tableName, columns[..n], now);
      AddColumnKeeps(m, tableId, tableName, columns[n], now);
      var d := AddColumn(m, tableId, tableName, columns[n], now);
      ExtendsTrans(c, m, d);
      SliceSplit(c.issued, m.issued, d.issued);
      NoBracketsConcat(m.issued[|c.issued|..], d.issued[|m.issued|..]);
    }
  }

  /** Placing all columns places all but the last, then the last. */
  lemma PlaceColumnsLast(tableId: int, columns: seq<ColumnInfo>)
    requires columns != []
    ensures PlaceColumns(tableId, columns[..|columns| - 1]) + [Placed(tableId, columns[|columns| - 1])] == PlaceColumns(tableId, columns)
  {
    var n := |columns| - 1;
    var ps := PlaceColumns(tableId, columns[..n]) + [Placed(tableId, columns[n])];
    forall k | 0 <= k < |columns|
      ensures ps[k] == PlaceColumns(tableId, columns)[k]
    {
      if k < n {
        assert columns[..n][k] == columns[k];
      }
    }
  }

  /** The column loop adds exactly the table's columns, in order, each with a fresh id linked to the table. */
  lemma {:induction false} AddColumnsAddsColumns(c: Catalog, tableId: int, tableName: string, columns: seq<ColumnInfo>, now: string)
    decreases |columns|
    ensures ColumnsAdded(c, AddColumns(c, tableId, tableName, columns, now), PlaceColumns(tableId, columns), now)
  {
    if columns != [] {
      var n := |columns| - 1;
      AddColumnsAddsColumns(c, tableId, tableName, columns[..n], now);
      var m := AddColumns(c, tableId, tableName, columns[..n], now);
      AddColumnAdds(m, tableId, tableName, columns[n], now);
      ColumnsAddedCompose(c, m, AddColumn(m, tableId, tableName, columns[n], now), PlaceColumns(tableId, columns[..n]), [Placed(tableId, columns[n])], now);
      PlaceColumnsLast(tableId, columns);
    }
  }

  // ------------------------------------------------------------- table loop

  /**
   * The columns the table loop visits for the tables given ids, in order: the
   * column query's rows for each name, with that table's id.
   */
  function Placements(ids: seq<int>, names: seq<string>, schema: Schema): (ps: seq<Placed>)
    requires |ids| == |names|
    decreases |names|
    ensures names == [] ==> ps == []
  {
    if names == [] then []
    else
      var n := |names| - 1;
      Placements(ids[..n], names[..n], schema) + PlaceColumns(ids[n], ColumnsOf(schema, names[n]))
  }

  /** Registering a table adds its rows and nothing else, and sends six statements, none of them BEGIN or COMMIT. */
  lemma RegisterAdds(c: Catalog, name: string, now: string)
    ensures var r := Register(c, name, now);
            && TablesAdded(c, r, [name], now) && SameColumns(c, r)
            && Extends(c, r) && r.inTransaction == c.inTransaction
            && |r.issued| == |c.issued| + 6 && NoBrackets(r.issued[|c.issued|..])
  {
    var r := Register(c, name, now);
    assert r.tables[|c.tables|..] == [NextId(c.tables)];
    assert r.issued[|c.issued|..] == RegisterStatements(NextId(c.tables), name);
  }

  /** Tables added in two stretches are added in one. */
  lemma TablesAddedCompose(a: Catalog, b: Catalog, d: Catalog, p: seq<string>, q: seq<string>, now: string)
    requires TablesAdded(a, b, p, now) && TablesAdded(b, d, q, now)
    ensures TablesAdded(a, d, p + q, now)
  {
    FreshCompose(b.tables, d.tables, |a.tables|);
    var x := b.tables[|a.tables|..];
    var y := d.tables[|b.tables|..];
    SliceSplit(a.tables, b.tables, d.tables);
    ExistRowsConcat(x, y, now);
    AppendTwice(a.tableExist, b.tableExist, d.tableExist, ExistRows(x, now), ExistRows(y, now));
    NameRowsConcat(x, y, p, q, now);
    AppendTwice(a.tableNames, b.tableNames, d.tableNames, NameRows(x, p, now), NameRows(y, q, now));
  }

  /** Nothing is added between a state and itself. */
  lemma NothingAdded(c: Catalog, now: string)
    ensures TablesAdded(c, c, [], now) && ColumnsAdded(c, c, [], now)
  {
    assert c.tables[|c.tables|..] == [];
    assert c.columns[|c.columns|..] == [];
  }

  /** One table iteration succeeds exactly when the database has the table, only appends, and sends no BEGIN or COMMIT. */
  lemma AddTableKeeps(c: Catalog, name: string, schema: Schema, now: string)
    ensures var o := AddTable(c, name, schema, now);
            && (o.Done? <==> name in schema.tables)
            && Extends(c, o.cat) && o.cat.inTransaction == c.inTransaction
            && NoBrackets(o.cat.issued[|c.issued|..])
  {
    var r := Register(c, name, now);
    RegisterAdds(c, name, now);
    if name in schema.tables {
      var id := r.tables[|r.tables| - 1];
      var r' := r.(issued := r.issued + DeleteTriggerStatements(id, name));
      AddColumnsKeepsTables(r', id, name, ColumnsOf(schema, name), now);
      var d := AddColumns(r', id, name, ColumnsOf(schema, name), now);
      assert Extends(r, r');
      ExtendsTrans(r, r', d);
      ExtendsTrans(c, r, d);
      SliceSplit(c.issued, r.issued, r'.issued);
      SliceSplit(c.issued, r'.issued, d.issued);
      NoBracketsConcat(r.issued[|c.issued|..], r'.issued[|r.issued|..]);
      NoBracketsConcat(r'.issued[|c.issued|..], d.issued[|r'.issued|..]);
    }
  }

  /** The part of a successful table iteration before its columns adds the table and no column. */
  lemma RegisterWithDeleteTrigger(c: Catalog, name: string, now: string)
    ensures var r := Register(c, name, now);
            var r' := r.(issued := r.issued + DeleteTriggerStatements(r.tables[|r.tables| - 1], name));
            && TablesAdded(c, r', [name], now) && SameColumns(c, r')
            && r'.tables[|c.tables|] == r'.tables[|r'.tables| - 1]
  {
    RegisterAdds(c, name, now);
  }

  /** A successful table iteration adds the table and then its columns, with the table's new id. */
  lemma AddTableAdds(c: Catalog, name: string, schema: Schema, now: string)
    requires name in schema.tables
    ensures var d := AddTable(c, name, schema, now).cat;
            && |d.tables| == |c.tables| + 1
            && TablesAdded(c, d, [name], now)
            && ColumnsAdded(c, d, PlaceColumns(d.tables[|c.tables|], ColumnsOf(schema, name)), now)
  {
    var r := Register(c, name, now);
    var id := r.tables[|r.tables| - 1];
    var r' := r.(issued := r.issued + DeleteTriggerStatements(id, name));
    var columns := ColumnsOf(schema, name);
    RegisterWithDeleteTrigger(c, name, now);
    AddColumnsKeepsTables(r', id, name, columns, now);
    AddColumnsAddsColumns(r', id, name, columns, now);
  }

  /** The placements for one more table are those before it, then its columns. */
  lemma PlacementsLast(c: Catalog, m: Catalog, d: Catalog, names: seq<string>, schema: Schema)
    requires names != []
    requires c.tables <= m.tables <= d.tables
    requires |m.tables| == |c.tables| + |names| - 1 && |d.tables| == |m.tables| + 1
    ensures Placements(d.tables[|c.tables|..], names, schema)
         == Placements(m.tables[|c.tables|..], names[..|names| - 1], schema)
          + PlaceColumns(d.tables[|m.tables|], ColumnsOf(schema, names[|names| - 1]))
  {
    var ids := d.tables[|c.tables|..];
    var n := |names| - 1;
    assert ids[..n] == m.tables[|c.tables|..];
    assert ids[n] == d.tables[|m.tables|];
  }

  /** The database has a table of every name. */
  predicate AllPresent(names: seq<string>, schema: Schema) {
    forall i :: 0 <= i < |names| ==> names[i] in schema.tables
  }

  /** Every name is present exactly when every name but the last is, and the last is. */
  lemma AllPresentLast(names: seq<string>, schema: Schema)
    requires names != []
    ensures AllPresent(names, schema) <==> AllPresent(names[..|names| - 1], schema) && names[|names| - 1] in schema.tables
  {
    assert forall i :: 0 <= i < |names| - 1 ==> names[..|names| - 1][i] == names[i];
  }

  /** The table loop's outcome over all the names, from its outcome over all but the last. */
  lemma AddTablesLast(c: Catalog, names: seq<string>, schema: Schema, now: string)
    requires names != []
    ensures var o := AddTables(c, names[..|names| - 1], schema, now);
            AddTables(c, names, schema, now).Done? <==> o.Done? && names[|names| - 1] in schema.tables
  {
    var o := AddTables(c, names[..|names| - 1], schema, now);
    if o.Done? {
      AddTableKeeps(o.cat, names[|names| - 1], schema, now);
    }
  }

  /** Once the table loop has raised, the names after the one that raised are never visited. */
  lemma {:induction false} AddTablesStopsAtFailure(c: Catalog, names: seq<string>, i: nat, schema: Schema, now: string)
    requires i <= |names| && AddTables(c, names[..i], schema, now).Failed?
    decreases |names| - i
    ensures AddTables(c, names, schema, now) == AddTables(c, names[..i], schema, now)
  {
    if i < |names| {
      assert names[..i + 1][..i] == names[..i];
      AddTablesStopsAtFailure(c, names, i + 1, schema, now);
    } else {
      assert names[..i] == names;
    }
  }

  /** The table loop runs to the end exactly when the database has every table it visits. */
  lemma {:induction false} AddTablesDone(c: Catalog, names: seq<string>, schema: Schema, now: string)
    decreases |names|
    ensures AddTables(c, names, schema, now).Done? <==> AllPresent(names, schema)
  {
    if names != [] {
      AddTablesDone(c, names[..|names| - 1], schema, now);
      AddTablesLast(c, names, schema, now);
      AllPresentLast(names, schema);
    }
  }

  /** The table loop only appends, leaves the transaction flag alone, and sends no BEGIN or COMMIT, whether it finishes or raises. */
  lemma {:induction false} AddTablesKeeps(c: Catalog, names: seq<string>, schema: Schema, now: string)
    decreases |names|
    ensures var o := AddTables(c, names, schema, now);
            && Extends(c, o.cat) && o.cat.inTransaction == c.inTransaction
            && NoBrackets(o.cat.issued[|c.issued|..])
  {
    if names != [] {
      var n := |names| - 1;
      AddTablesKeeps(c, names[..n], schema, now);
      var o := AddTables(c, names[..n], schema, now);
      if o.Done? {
        var m := o.cat;
        AddTableKeeps(m, names[n], schema, now);
        var d := AddTable(m, names[n], schema, now).cat;
        ExtendsTrans(c, m, d);
        SliceSplit(c.issued, m.issued, d.issued);
        NoBracketsConcat(m.issued[|c.issued|..], d.issued[|m.issued|..]);
      }
    }
  }

  /** What the loop added over all names but the last, followed by what the last table added, is what it added over all names. */
  lemma AddedOneMore(c: Catalog, m: Catalog, d: Catalog, names: seq<string>, schema: Schema, now: string)
    requires names != []
    requires TablesAdded(c, m, names[..|names| - 1], now)
    requires ColumnsAdded(c, m, Placements(m.tables[|c.tables|..], names[..|names| - 1], schema), now)
    requires TablesAdded(m, d, [names[|names| - 1]], now)
    requires ColumnsAdded(m, d, PlaceColumns(d.tables[|m.tables|], ColumnsOf(schema, names[|names| - 1])), now)
    ensures TablesAdded(c, d, names, now)
    ensures ColumnsAdded(c, d, Placements(d.tables[|c.tables|..], names, schema), now)
  {
    var n := |names| - 1;
    TablesAddedCompose(c, m, d, names[..n], [names[n]], now);
    assert names[..n] + [names[n]] == names;
    ColumnsAddedCompose(c, m, d, Placements(m.tables[|c.tables|..], names[..n], schema),
                        PlaceColumns(d.tables[|m.tables|], ColumnsOf(schema, names[n])), now);
    PlacementsLast(c, m, d, names, schema);
  }

  /**
   * A table loop that finishes adds every table visited, in order, each with a
   * fresh id and its exist and name rows, and then every column of each, with
   * that table's id.
   */
  lemma {:induction false} AddTablesAdds(c: Catalog, names: seq<string>, schema: Schema, now: string)
    decreases |names|
    ensures var o := AddTables(c, names, schema, now);
            o.Done? ==>
              && TablesAdded(c, o.cat, names, now)
              && ColumnsAdded(c, o.cat, Placements(o.cat.tables[|c.tables|..], names, schema), now)
  {
    if names == [] {
      NothingAdded(c, now);
    } else {
      var n := |names| - 1;
      AddTablesAdds(c, names[..n], schema, now);
      var o := AddTables(c, names[..n], schema, now);
      if o.Done? && names[n] in schema.tables {
        var m := o.cat;
        AddTableAdds(m, names[n], schema, now);
        AddedOneMore(c, m, AddTable(m, names[n], schema, now).cat, names, schema, now);
      }
    }
  }

  // ------------------------------------------------------------- the call

  /** normalize raises exactly when some table it visits is missing from the database. */
  lemma NormalizeDone(c: Catalog, selector: Selector, schema: Schema, now: string)
    ensures Normalize(c, selector, schema, now).Done? <==> AllPresent(SelectedNames(selector, schema), schema)
  {
    AddTablesDone(Prepare(c, selector), SelectedNames(selector, schema), schema, now);
  }

  /** What is added between two states is added between states with the same rows as them. */
  lemma AddedBetweenSame(c: Catalog, p: Catalog, a: Catalog, d: Catalog, names: seq<string>, schema: Schema, now: string)
    requires SameTables(c, p) && SameColumns(c, p) && SameTables(a, d) && SameColumns(a, d)
    requires TablesAdded(p, a, names, now)
    requires ColumnsAdded(p, a, Placements(a.tables[|p.tables|..], names, schema), now)
    ensures TablesAdded(c, d, names, now)
    ensures ColumnsAdded(c, d, Placements(d.tables[|c.tables|..], names, schema), now)
  {
  }

  /**
   * A normalize that returns adds every table visited, in order, with a fresh
   * id and its exist and name rows, and every column of each, with that
   * table's id, all at the one time now.
   */
  lemma NormalizeAdds(c: Catalog, selector: Selector, schema: Schema, now: string)
    ensures var o := Normalize(c, selector, schema, now);
            var names := SelectedNames(selector, schema);
            o.Done? ==>
              && TablesAdded(c, o.cat, names, now)
              && ColumnsAdded(c, o.cat, Placements(o.cat.tables[|c.tables|..], names, schema), now)
  {
    var p := Prepare(c, selector);
    var names := SelectedNames(selector, schema);
    AddTablesAdds(p, names, schema, now);
    var o := AddTables(p, names, schema, now);
    if o.Done? {
      AddedBetweenSame(c, p, o.cat, Normalize(c, selector, schema, now).cat, names, schema, now);
    }
  }

  /** Selecting one name is selecting the list of that one name (sqlite6nf.py:552-553). */
  lemma SelectOneTable(c: Catalog, name: string, schema: Schema, now: string)
    ensures Normalize(c, OneTable(name), schema, now) == Normalize(c, Tables([name]), schema, now)
  {
  }

  /**
   * What normalize sends: the opening statements, then a run of statements
   * with no BEGIN or COMMIT, then COMMIT exactly when it returns and was not
   * called inside a transaction.
   */
  lemma NormalizeSends(c: Catalog, selector: Selector, schema: Schema, now: string)
    ensures var o := Normalize(c, selector, schema, now);
            var head := c.issued + Opening(c, selector);
            var tail := if o.Done? && !c.inTransaction then 1 else 0;
            && head <= o.cat.issued && |o.cat.issued| >= |head| + tail
            && NoBrackets(o.cat.issued[|head|..|o.cat.issued| - tail])
            && (tail == 1 ==> o.cat.issued[|o.cat.issued| - 1] == Commit)
            && (o.Done? ==> o.cat.inTransaction == c.inTransaction)
            && (o.Failed? ==> o.cat.inTransaction)
  {
    var p := Prepare(c, selector);
    AddTablesKeeps(p, SelectedNames(selector, schema), schema, now);
    var a := AddTables(p, SelectedNames(selector, schema), schema, now).cat;
    var o := Normalize(c, selector, schema, now);
    if o.Done? && !c.inTransaction {
      assert o.cat.issued == a.issued + [Commit];
      assert o.cat.issued[|p.issued|..|o.cat.issued| - 1] == a.issued[|p.issued|..];
    }
  }

  /** The opening is BEGIN where needed, then the catalog tables, then no BEGIN or COMMIT. */
  lemma OpeningShape(c: Catalog, selector: Selector)
    ensures var opening := Opening(c, selector);
            var b := if c.inTransaction then 0 else 1;
            && |opening| >= b + 6
            && (b == 1 ==> opening[0] == Begin)
            && opening[b..b + 6] == CatalogTables
            && NoBrackets(opening[b..])
  {
    var opening := Opening(c, selector);
    var b := if c.inTransaction then 0 else 1;
    var rest: seq<Statement> := if selector.AllTables? then [ListTables] else [];
    assert opening[b..] == CatalogTables + rest;
    NoBracketsConcat(CatalogTables, rest);
  }

  /** A log made of an opening, a run with no BEGIN or COMMIT, and an optional COMMIT, seen after the log it started from. */
  lemma OpeningThenRun(old_: seq<Statement>, log: seq<Statement>, opening: seq<Statement>, b: nat, tail: nat)
    requires old_ + opening <= log && |log| >= |old_ + opening| + tail && tail <= 1
    requires b <= 1 && |opening| >= b + 6
    requires b == 1 ==> opening[0] == Begin
    requires NoBrackets(opening[b..])
    requires NoBrackets(log[|old_ + opening|..|log| - tail])
    requires tail == 1 ==> log[|log| - 1] == Commit
    ensures var s := log[|old_|..];
            && (forall k :: b <= k < |s| ==> !s[k].Begin?)
            && (forall k :: 0 <= k < |s| - tail ==> !s[k].Commit?)
            && s[..|opening|] == opening
  {
    var s := log[|old_|..];
    forall k | b <= k < |s|
      ensures !s[k].Begin?
    {
      if k < |opening| {
        assert s[k] == opening[k] == opening[b..][k - b];
      } else if k < |s| - tail {
        assert s[k] == log[|old_ + opening|..|log| - tail][k - |opening|];
      }
    }
    forall k | 0 <= k < |s| - tail
      ensures !s[k].Commit?
    {
      if b <= k < |opening| {
        assert s[k] == opening[b..][k - b];
      } else if k >= |opening| {
        assert s[k] == log[|old_ + opening|..|log| - tail][k - |opening|];
      }
    }
  }

  /** What NormalizeSends and OpeningShape say about an outcome o of a normalize started from a log and a transaction flag. */
  predicate SentAround(issued: seq<Statement>, inTransaction: bool, opening: seq<Statement>, o: Outcome) {
    var head := issued + opening;
    var tail := if o.Done? && !inTransaction then 1 else 0;
    var b := if inTransaction then 0 else 1;
    && head <= o.cat.issued && |o.cat.issued| >= |head| + tail
    && NoBrackets(o.cat.issued[|head|..|o.cat.issued| - tail])
    && (tail == 1 ==> o.cat.issued[|o.cat.issued| - 1] == Commit)
    && (o.Done? ==> o.cat.inTransaction == inTransaction)
    && (o.Failed? ==> o.cat.inTransaction)
    && |opening| >= b + 6
    && (b == 1 ==> opening[0] == Begin)
    && opening[b..b + 6] == CatalogTables
    && NoBrackets(opening[b..])
  }

  /** The BEGIN facts of NormalizeBegins, for any outcome sent around an opening. */
  lemma BeginsAround(issued: seq<Statement>, inTransaction: bool, opening: seq<Statement>, o: Outcome)
    requires SentAround(issued, inTransaction, opening, o)
    ensures issued <= o.cat.issued
    ensures var s := o.cat.issued[|issued|..];
            var b := if inTransaction then 0 else 1;
            && |s| >= b + 6 && s[b..b + 6] == CatalogTables
            && (s[0].Begin? <==> !inTransaction)
            && forall k :: 0 < k < |s| ==> !s[k].Begin?
  {
    var b := if inTransaction then 0 else 1;
    var tail := if o.Done? && !inTransaction then 1 else 0;
    OpeningThenRun(issued, o.cat.issued, opening, b, tail);
    var s := o.cat.issued[|issued|..];
    assert s[b..b + 6] == opening[b..b + 6];
  }

  /** The COMMIT facts of NormalizeCommits, for any outcome sent around an opening. */
  lemma CommitsAround(issued: seq<Statement>, inTransaction: bool, opening: seq<Statement>, o: Outcome)
    requires SentAround(issued, inTransaction, opening, o)
    ensures issued <= o.cat.issued
    ensures var s := o.cat.issued[|issued|..];
            && s != []
            && (o.Done? ==>
                  && o.cat.inTransaction == inTransaction
                  && (s[|s| - 1].Commit? <==> !inTransaction)
                  && forall k :: 0 <= k < |s| - 1 ==> !s[k].Commit?)
            && (o.Failed? ==> o.cat.inTransaction && NoCommit(s))
  {
    var b := if inTransaction then 0 else 1;
    var tail := if o.Done? && !inTransaction then 1 else 0;
    OpeningThenRun(issued, o.cat.issued, opening, b, tail);
  }

  /** Every normalize is sent around its opening. */
  lemma NormalizeSentAround(c: Catalog, selector: Selector, schema: Schema, now: string)
    ensures SentAround(c.issued, c.inTransaction, Opening(c, selector), Normalize(c, selector, schema, now))
  {
    NormalizeSends(c, selector, schema, now);
    OpeningShape(c, selector);
  }

  /**
   * normalize sends BEGIN first exactly when the connection was not already
   * in a transaction, never sends it elsewhere, and creates the six catalog
   * tables right after (sqlite6nf.py:540-548).
   */
  lemma NormalizeBegins(c: Catalog, selector: Selector, schema: Schema, now: string)
    ensures c.issued <= Normalize(c, selector, schema, now).cat.issued
    ensures var s := Normalize(c, selector, schema, now).cat.issued[|c.issued|..];
            var b := if c.inTransaction then 0 else 1;
            && |s| >= b + 6 && s[b..b + 6] == CatalogTables
            && (s[0].Begin? <==> !c.inTransaction)
            && forall k :: 0 < k < |s| ==> !s[k].Begin?
  {
    NormalizeSentAround(c, selector, schema, now);
    BeginsAround(c.issued, c.inTransaction, Opening(c, selector), Normalize(c, selector, schema, now));
  }

  /**
   * A normalize that returns leaves the transaction as it found it, sending
   * COMMIT last exactly when it sent BEGIN, and COMMIT nowhere else; one that
   * raises leaves the transaction open and sends no COMMIT (sqlite6nf.py:540-541, :578-579).
   */
  lemma NormalizeCommits(c: Catalog, selector: Selector, schema: Schema, now: string)
    ensures c.issued <= Normalize(c, selector, schema, now).cat.issued
    ensures var o := Normalize(c, selector, schema, now);
            var s := o.cat.issued[|c.issued|..];
            && s != []
            && (o.Done? ==>
                  && o.cat.inTransaction == c.inTransaction
                  && (s[|s| - 1].Commit? <==> !c.inTransaction)
                  && forall k :: 0 <= k < |s| - 1 ==> !s[k].Commit?)
            && (o.Failed? ==> o.cat.inTransaction && NoCommit(s))
  {
    NormalizeSentAround(c, selector, schema, now);
    CommitsAround(c.issued, c.inTransaction, Opening(c, selector), Normalize(c, selector, schema, now));
  }

  // ------------------------------------------------------------ the catalog's keys

  /** No value occurs twice. */
  predicate Distinct(xs: seq<int>) {
    forall i, j :: 0 <= i < j < |xs| ==> xs[i] != xs[j]
  }

  /** No two exist rows share their PRIMARY KEY (id, transaction). */
  predicate ExistKeysDistinct(rows: seq<ExistRow>) {
    forall i, j :: 0 <= i < j < |rows| ==> rows[i].id != rows[j].id || rows[i].transaction != rows[j].transaction
  }

  /** No two name rows share their PRIMARY KEY (id, transaction). */
  predicate NameKeysDistinct(rows: seq<NameRow>) {
    forall i, j :: 0 <= i < j < |rows| ==> rows[i].id != rows[j].id || rows[i].transaction != rows[j].transaction
  }

  /**
   * The constraints the catalog tables declare (sqlite6nf.py:93-145): every
   * PRIMARY KEY is unique and every FOREIGN KEY names an existing row.
   */
  predicate Valid(c: Catalog) {
    && Distinct(c.tables)
    && Distinct(ColumnIds(c.columns))
    && ExistKeysDistinct(c.tableExist) && NameKeysDistinct(c.tableNames)
    && ExistKeysDistinct(c.columnExist) && NameKeysDistinct(c.columnNames)
    && (forall i :: 0 <= i < |c.tableExist| ==> c.tableExist[i].id in c.tables)
    && (forall i :: 0 <= i < |c.tableNames| ==> c.tableNames[i].id in c.tables)
    && (forall i :: 0 <= i < |c.columns| ==> c.columns[i].tableId in c.tables)
    && (forall i :: 0 <= i < |c.columnExist| ==> c.columnExist[i].id in ColumnIds(c.columns))
    && (forall i :: 0 <= i < |c.columnNames| ==> c.columnNames[i].id in ColumnIds(c.columns))
  }

  /** Appending an id above every id keeps the ids distinct. */
  lemma DistinctAppend(xs: seq<int>, x: int)
    requires Distinct(xs) && forall i :: 0 <= i < |xs| ==> xs[i] < x
    ensures Distinct(xs + [x])
  {
  }

  /** Appending an exist row whose id is none of the rows' ids keeps the keys distinct. */
  lemma ExistKeysAppend(rows: seq<ExistRow>, row: ExistRow)
    requires ExistKeysDistinct(rows) && forall i :: 0 <= i < |rows| ==> rows[i].id != row.id
    ensures ExistKeysDistinct(rows + [row])
  {
  }

  /** Appending a name row whose id is none of the rows' ids keeps the keys distinct. */
  lemma NameKeysAppend(rows: seq<NameRow>, row: NameRow)
    requires NameKeysDistinct(rows) && forall i :: 0 <= i < |rows| ==> rows[i].id != row.id
    ensures NameKeysDistinct(rows + [row])
  {
  }

  /**
   * Registering a table keeps the catalog valid: the new id is above every id
   * in sqlite6nf_table, so neither it nor its (id, transaction) keys clash,
   * and INSERT OR ROLLBACK never rolls back.
   */
  lemma RegisterKeepsValid(c: Catalog, name: string, now: string)
    requires Valid(c)
    ensures Valid(Register(c, name, now))
  {
    var x := NextId(c.tables);
    var r := Register(c, name, now);
    DistinctAppend(c.tables, x);
    ExistKeysAppend(c.tableExist, ExistRow(x, now, 1));
    NameKeysAppend(c.tableNames, NameRow(x, now, name));
    assert forall i :: 0 <= i < |r.tableExist| ==> r.tableExist[i].id in r.tables by {
      forall i | 0 <= i < |r.tableExist|
        ensures r.tableExist[i].id in r.tables
      {
        if i < |c.tableExist| {
          assert r.tableExist[i] == c.tableExist[i];
        }
      }
    }
    assert forall i :: 0 <= i < |r.tableNames| ==> r.tableNames[i].id in r.tables by {
      forall i | 0 <= i < |r.tableNames|
        ensures r.tableNames[i].id in r.tables
      {
        if i < |c.tableNames| {
          assert r.tableNames[i] == c.tableNames[i];
        }
      }
    }
  }

  /** A column iteration for an existing table keeps the catalog valid, for the same reason. */
  lemma AddColumnKeepsValid(c: Catalog, tableId: int, tableName: string, column: ColumnInfo, now: string)
    requires Valid(c) && tableId in c.tables
    ensures Valid(AddColumn(c, tableId, tableName, column, now))
  {
    var ids := ColumnIds(c.columns);
    var x := NextId(ids);
    var d := AddColumn(c, tableId, tableName, column, now);
    assert ColumnIds(d.columns) == ids + [x];
    DistinctAppend(ids, x);
    ExistKeysAppend(c.columnExist, ExistRow(x, now, 1));
    NameKeysAppend(c.columnNames, NameRow(x, now, column.name));
    assert forall i :: 0 <= i < |d.columnExist| ==> d.columnExist[i].id in ColumnIds(d.columns) by {
      forall i | 0 <= i < |d.columnExist|
        ensures d.columnExist[i].id in ColumnIds(d.columns)
      {
        if i < |c.columnExist| {
          assert d.columnExist[i] == c.columnExist[i];
        }
      }
    }
    assert forall i :: 0 <= i < |d.columnNames| ==> d.columnNames[i].id in ColumnIds(d.columns) by {
      forall i | 0 <= i < |d.columnNames|
        ensures d.columnNames[i].id in ColumnIds(d.columns)
      {
        if i < |c.columnNames| {
          assert d.columnNames[i] == c.columnNames[i];
        }
      }
    }
  }

  /** The column loop for an existing table keeps the catalog valid. */
  lemma {:induction false} AddColumnsKeepsValid(c: Catalog, tableId: int, tableName: string, columns: seq<ColumnInfo>, now: string)
    requires Valid(c) && tableId in c.tables
    decreases |columns|
    ensures Valid(AddColumns(c, tableId, tableName, columns, now))
  {
    if columns != [] {
      var n := |columns| - 1;
      AddColumnsKeepsValid(c, tableId, tableName, columns[..n], now);
      AddColumnsKeepsTables(c, tableId, tableName, columns[..n], now);
      AddColumnKeepsValid(AddColumns(c, tableId, tableName, columns[..n], now), tableId, tableName, columns[n], now);
    }
  }

  /** A table iteration keeps the catalog valid, whether it finishes or raises. */
  lemma AddTableKeepsValid(c: Catalog, name: string, schema: Schema, now: string)
    requires Valid(c)
    ensures Valid(AddTable(c, name, schema, now).cat)
  {
    var r := Register(c, name, now);
    RegisterKeepsValid(c, name, now);
    if name in schema.tables {
      var id := r.tables[|r.tables| - 1];
      var r' := r.(issued := r.issued + DeleteTriggerStatements(id, name));
      AddColumnsKeepsValid(r', id, name, ColumnsOf(schema, name), now);
    }
  }

  /** The table loop keeps the catalog valid, whether it finishes or raises. */
  lemma {:induction false} AddTablesKeepsValid(c: Catalog, names: seq<string>, schema: Schema, now: string)
    requires Valid(c)
    decreases |names|
    ensures Valid(AddTables(c, names, schema, now).cat)
  {
    if names != [] {
      var n := |names| - 1;
      AddTablesKeepsValid(c, names[..n], schema, now);
      var o := AddTables(c, names[..n], schema, now);
      if o.Done? {
        AddTableKeepsValid(o.cat, names[n], schema, now);
      }
    }
  }

  /** normalize keeps the catalog valid, whether it returns or raises: none of its inserts violates a key. */
  lemma NormalizeKeepsValid(c: Catalog, selector: Selector, schema: Schema, now: string)
    requires Valid(c)
    ensures Valid(Normalize(c, selector, schema, now).cat)
  {
    AddTablesKeepsValid(Prepare(c, selector), SelectedNames(selector, schema), schema, now);
  }

  // ---------------------------------------------------- BEGIN and COMMIT text

  lemma BracketTextLengths()
    ensures |BeginTransaction| == 38 && |CommitTransaction| == 29
  {
  }

  lemma CatalogTextLong(catalog: CatalogDdl)
    ensures |CatalogText(catalog)| > 38
  {
  }

  lemma InsertTextsLong()
    ensures |InsertTable| > 38 && |InsertTableExist| > 38 && |InsertTableName| > 38
    ensures |InsertColumn| > 38 && |InsertColumnExist| > 38 && |InsertColumnName| > 38
  {
  }

  lemma SelectTextsLong()
    ensures |SelectUnnormalizedTables| > 38 && |SelectTableInfo| > 38
  {
  }

  lemma TableTextLong(ddl: TableDdl, tableId: int, tableName: string)
    ensures |Text(CreateForTable(ddl, tableId, tableName))| > 38
  {
    assert |TableTemplate(ddl)[0].text| > 38;
  }

  lemma ColumnTextLong(ddl: ColumnDdl, tableId: int, tableName: string, columnId: int, column: ColumnInfo)
    ensures |Text(CreateForColumn(ddl, tableId, tableName, columnId, column))| > 38
  {
    assert |ColumnTemplate(ddl)[0].text| > 38;
  }

  /** Of all the statements normalize sends, only BEGIN has the text of BEGIN, and only COMMIT that of COMMIT. */
  lemma BracketTexts(st: Statement)
    ensures Text(st) == BeginTransaction <==> st.Begin?
    ensures Text(st) == CommitTransaction <==> st.Commit?
  {
    BracketTextLengths();
    match st
    case Begin =>
    case Commit =>
    case CreateCatalog(catalog) => CatalogTextLong(catalog);
    case ListTables => SelectTextsLong();
    case ListColumns => SelectTextsLong();
    case CreateForTable(ddl, tableId, tableName) => TableTextLong(ddl, tableId, tableName);
    case CreateForColumn(ddl, tableId, tableName, columnId, column) => ColumnTextLong(ddl, tableId, tableName, columnId, column);
    case _ => InsertTextsLong();
  }

  // ------------------------------------------------- rows and statements agree

  /**
   * The log of a column loop: for each column, in order, its six statements,
   * formatted with the id its sqlite6nf_column row received.
   */
  predicate ColumnLog(log: seq<Statement>, tableId: int, tableName: string, ids: seq<int>, columns: seq<ColumnInfo>)
    requires |ids| == |columns|
  {
    && |log| == 6 * |columns|
    && forall k :: 0 <= k < |columns| ==> log[6 * k..6 * k + 6] == ColumnStatements(tableId, tableName, ids[k], columns[k])
  }

  /** One more column's statements extend the log by that column. */
  lemma ColumnLogAppend(log: seq<Statement>, tableId: int, tableName: string, ids: seq<int>, columns: seq<ColumnInfo>, id: int, column: ColumnInfo)
    requires |ids| == |columns| && ColumnLog(log, tableId, tableName, ids, columns)
    ensures ColumnLog(log + ColumnStatements(tableId, tableName, id, column), tableId, tableName, ids + [id], columns + [column])
  {
    var log' := log + ColumnStatements(tableId, tableName, id, column);
    forall k | 0 <= k < |columns| + 1
      ensures log'[6 * k..6 * k + 6] == ColumnStatements(tableId, tableName, (ids + [id])[k], (columns + [column])[k])
    {
      if k < |columns| {
        assert log'[6 * k..6 * k + 6] == log[6 * k..6 * k + 6];
      } else {
        assert log'[6 * k..6 * k + 6] == ColumnStatements(tableId, tableName, id, column);
      }
    }
  }

  /** One column iteration appends that column's row and statements. */
  lemma AddColumnAppends(c: Catalog, tableId: int, tableName: string, column: ColumnInfo, now: string)
    ensures var id := NextId(ColumnIds(c.columns));
            var d := AddColumn(c, tableId, tableName, column, now);
            && d.issued == c.issued + ColumnStatements(tableId, tableName, id, column)
            && d.columns == c.columns + [ColumnRow(id, tableId)]
  {
  }

  /** The log since ci, with one more column's statements and row appended. */
  lemma ColumnLogExtend(ci: seq<Statement>, mi: seq<Statement>, di: seq<Statement>,
                        cc: seq<ColumnRow>, mc: seq<ColumnRow>, dc: seq<ColumnRow>,
                        tableId: int, tableName: string, columns: seq<ColumnInfo>, id: int, column: ColumnInfo)
    requires ci <= mi && cc <= mc && |mc| == |cc| + |columns|
    requires ColumnLog(mi[|ci|..], tableId, tableName, ColumnIds(mc[|cc|..]), columns)
    requires di == mi + ColumnStatements(tableId, tableName, id, column)
    requires dc == mc + [ColumnRow(id, tableId)]
    ensures ci <= di && cc <= dc && |dc| == |cc| + |columns + [column]|
    ensures ColumnLog(di[|ci|..], tableId, tableName, ColumnIds(dc[|cc|..]), columns + [column])
  {
    assert di[|ci|..] == mi[|ci|..] + ColumnStatements(tableId, tableName, id, column);
    assert dc[|cc|..] == mc[|cc|..] + [ColumnRow(id, tableId)];
    ColumnIdsConcat(mc[|cc|..], [ColumnRow(id, tableId)]);
    ColumnLogAppend(mi[|ci|..], tableId, tableName, ColumnIds(mc[|cc|..]), columns, id, column);
  }

  /** Each column's value table and triggers are formatted with the id of that column's new row (sqlite6nf.py:569-577). */
  lemma {:induction false} AddColumnsSends(c: Catalog, tableId: int, tableName: string, columns: seq<ColumnInfo>, now: string)
    decreases |columns|
    ensures var d := AddColumns(c, tableId, tableName, columns, now);
            && c.issued <= d.issued && c.columns <= d.columns && |d.columns| == |c.columns| + |columns|
            && ColumnLog(d.issued[|c.issued|..], tableId, tableName, ColumnIds(d.columns[|c.columns|..]), columns)
  {
    if columns == [] {
      assert c.issued[|c.issued|..] == [];
      assert c.columns[|c.columns|..] == [];
    } else {
      var n := |columns| - 1;
      assert columns[..n] + [columns[n]] == columns;
      AddColumnsSends(c, tableId, tableName, columns[..n], now);
      var m := AddColumns(c, tableId, tableName, columns[..n], now);
      var id := NextId(ColumnIds(m.columns));
      AddColumnAppends(m, tableId, tableName, columns[n], now);
      var d := AddColumn(m, tableId, tableName, columns[n], now);
      assert d == AddColumns(c, tableId, tableName, columns, now);
      ColumnLogExtend(c.issued, m.issued, d.issued, c.columns, m.columns, d.columns, tableId, tableName, columns[..n], id, columns[n]);
    }
  }

  /** The log of a successful table iteration, from the log of its column loop. */
  lemma TableLogPieces(ci: seq<Statement>, ri: seq<Statement>, di: seq<Statement>, id: int, name: string)
    requires ri == ci + RegisterStatements(id, name) + DeleteTriggerStatements(id, name) && ri <= di
    ensures var s := di[|ci|..];
            && |s| >= 8 && s[..6] == RegisterStatements(id, name) && s[6..8] == DeleteTriggerStatements(id, name)
            && s[8..] == di[|ri|..]
  {
    var s := di[|ci|..];
    assert s[..8] == RegisterStatements(id, name) + DeleteTriggerStatements(id, name);
  }

  /**
   * A table iteration for a table the database has sends its six statements
   * up to the insert trigger and the delete trigger, formatted with the id of
   * the table's new row, the column query, and then the log of its columns
   * (sqlite6nf.py:557-577).
   */
  lemma AddTableSends(c: Catalog, name: string, schema: Schema, now: string)
    requires name in schema.tables
    ensures var d := AddTable(c, name, schema, now).cat;
            && c.issued <= d.issued && |c.tables| < |d.tables| && c.columns <= d.columns
            && |d.columns| == |c.columns| + |ColumnsOf(schema, name)|
            && var s := d.issued[|c.issued|..];
               var id := d.tables[|c.tables|];
               && |s| >= 8 && s[..6] == RegisterStatements(id, name) && s[6..8] == DeleteTriggerStatements(id, name)
               && ColumnLog(s[8..], id, name, ColumnIds(d.columns[|c.columns|..]), ColumnsOf(schema, name))
  {
    var id := NextId(c.tables);
    var r := Register(c, name, now);
    var r' := r.(issued := r.issued + DeleteTriggerStatements(id, name));
    var columns := ColumnsOf(schema, name);
    AddColumnsSends(r', id, name, columns, now);
    AddColumnsKeepsTables(r', id, name, columns, now);
    var d := AddColumns(r', id, name, columns, now);
    TableLogPieces(c.issued, r'.issued, d.issued, id, name);
  }

  /** A table iteration for a table the database lacks stops after the insert trigger, the statement that raises (sqlite6nf.py:564). */
  lemma AddTableFails(c: Catalog, name: string, schema: Schema, now: string)
    requires name !in schema.tables
    ensures var f := AddTable(c, name, schema, now).cat;
            && c.issued <= f.issued && |c.tables| < |f.tables|
            && f.issued[|c.issued|..] == RegisterStatements(f.tables[|c.tables|], name)
  {
    var r := Register(c, name, now);
    assert r.issued[|c.issued|..] == RegisterStatements(NextId(c.tables), name);
  }

  // ------------------------------------------------------ names in the SQL

  /** A per-table statement is sent as its template formatted with the table's arguments. */
  lemma TableText(ddl: TableDdl, tableId: int, tableName: string)
    ensures Text(CreateForTable(ddl, tableId, tableName)) == Format(TableTemplate(ddl), TableFormat(tableId, tableName))
  {
  }

  /**
   * Wherever a per-table template splices the table name, the statement's
   * text holds it double-quoted with its `"` doubled, and the scanner reads
   * that identifier back as the table name (sqlite6nf.py:559).
   */
  lemma TableNameReadsBack(ddl: TableDdl, tableId: int, tableName: string, i: nat)
    requires i < |TableTemplate(ddl)| && TableTemplate(ddl)[i] == Field("table_name")
    ensures var tpl := TableTemplate(ddl);
            var before := Format(tpl[..i], TableFormat(tableId, tableName));
            && |before| > 0
            && QuotedNameAt(Text(CreateForTable(ddl, tableId, tableName)), |before| - 1, tableName)
  {
    var tpl := TableTemplate(ddl);
    assert IsNameKey(tpl[i].key);
    SplicedNameReadsBack(tpl, TableFormat(tableId, tableName), i, tableName);
    TableText(ddl, tableId, tableName);
  }

  /** A per-column statement is sent as its template formatted with the column's arguments. */
  lemma ColumnText(ddl: ColumnDdl, tableId: int, tableName: string, columnId: int, column: ColumnInfo)
    ensures Text(CreateForColumn(ddl, tableId, tableName, columnId, column))
         == Format(ColumnTemplate(ddl), ColumnFormat(tableId, tableName, columnId, column.name, column.dtype))
  {
  }

  /**
   * Wherever a per-column template splices the table or the column name, the
   * statement's text holds that name double-quoted with its `"` doubled, and
   * the scanner reads it back (sqlite6nf.py:559, :571).
   */
  lemma ColumnNamesReadBack(ddl: ColumnDdl, tableId: int, tableName: string, columnId: int, column: ColumnInfo, i: nat, name: string)
    requires i < |ColumnTemplate(ddl)|
    requires || (ColumnTemplate(ddl)[i] == Field("table_name") && name == tableName)
             || (ColumnTemplate(ddl)[i] == Field("column_name") && name == column.name)
    ensures var tpl := ColumnTemplate(ddl);
            var before := Format(tpl[..i], ColumnFormat(tableId, tableName, columnId, column.name, column.dtype));
            && |before| > 0
            && QuotedNameAt(Text(CreateForColumn(ddl, tableId, tableName, columnId, column)), |before| - 1, name)
  {
    var tpl := ColumnTemplate(ddl);
    var args := ColumnFormat(tableId, tableName, columnId, column.name, column.dtype);
    assert IsNameKey(tpl[i].key);
    SplicedNameReadsBack(tpl, args, i, name);
    ColumnText(ddl, tableId, tableName, columnId, column);
  }
}
