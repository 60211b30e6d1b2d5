// Connection.normalize (sqlite6nf.py:534-581) as the source runs it: a
// connection object whose catalog rows, transaction flag and statement log
// change one execute call at a time, inside a loop over the tables and a loop
// over each table's columns. Its result is proved to be the Catalogs model.

module Connections {
  import opened Catalogs

  /** A connection to a database holding the sqlite6nf catalog (sqlite6nf.py:508). */
  class Connection {
    var inTransaction: bool
    var tables: seq<int>
    var tableExist: seq<ExistRow>
    var tableNames: seq<NameRow>
    var columns: seq<ColumnRow>
    var columnExist: seq<ExistRow>
    var columnNames: seq<NameRow>
    var issued: seq<Statement>

    /** The connection's state as a value. */
    function State(): Catalog
      reads this
    {
      Catalog(inTransaction, tables, tableExist, tableNames, columns, columnExist, columnNames, issued)
    }

    constructor(c: Catalog)
      ensures State() == c
    {
      inTransaction := c.inTransaction;
      tables := c.tables;
      tableExist := c.tableExist;
      tableNames := c.tableNames;
      columns := c.columns;
      columnExist := c.columnExist;
      columnNames := c.columnNames;
      issued := c.issued;
    }

    /** cursor.execute of a statement that changes no catalog row: BEGIN opens the transaction and COMMIT closes it. */
    method Execute(st: Statement)
      requires !st.InsertTableRow? && !st.InsertTableExistRow? && !st.InsertTableNameRow?
      requires !st.InsertColumnRow? && !st.InsertColumnExistRow? && !st.InsertColumnNameRow?
      modifies this
      ensures State() == old(State()).(
                inTransaction := if st.Begin? then true else if st.Commit? then false else old(inTransaction),
                issued := old(issued) + [st])
    {
      if st.Begin? {
        inTransaction := true;
      } else if st.Commit? {
        inTransaction := false;
      }
      issued := issued + [st];
    }

    /** The insert into sqlite6nf_table with a NULL id, returning the id SQLite assigns (sqlite6nf.py:217-222, :557). */
    method InsertTable() returns (id: int)
      modifies this
      ensures id == NextId(old(tables))
      ensures State() == old(State()).(tables := old(tables) + [id], issued := old(issued) + [InsertTableRow])
    {
      id := NextId(tables);
      tables := tables + [id];
      issued := issued + [InsertTableRow];
    }

    /** The insert into sqlite6nf_table_exist (sqlite6nf.py:224-228, :560). */
    method InsertTableExist(id: int, now: string)
      modifies this
      ensures State() == old(State()).(tableExist := old(tableExist) + [ExistRow(id, now, 1)], issued := old(issued) + [InsertTableExistRow])
    {
      tableExist := tableExist + [ExistRow(id, now, 1)];
      issued := issued + [InsertTableExistRow];
    }

    /** The insert into sqlite6nf_table_name (sqlite6nf.py:230-234, :561). */
    method InsertTableName(id: int, now: string, name: string)
      modifies this
      ensures State() == old(State()).(tableNames := old(tableNames) + [NameRow(id, now, name)], issued := old(issued) + [InsertTableNameRow])
    {
      tableNames := tableNames + [NameRow(id, now, name)];
      issued := issued + [InsertTableNameRow];
    }

    /** The insert into sqlite6nf_column with a NULL id, returning the id SQLite assigns (sqlite6nf.py:236-241, :569). */
    method InsertColumn(tableId: int) returns (id: int)
      modifies this
      ensures id == NextId(ColumnIds(old(columns)))
      ensures State() == old(State()).(columns := old(columns) + [ColumnRow(id, tableId)], issued := old(issued) + [InsertColumnRow])
    {
      id := NextId(ColumnIds(columns));
      columns := columns + [ColumnRow(id, tableId)];
      issued := issued + [InsertColumnRow];
    }

    /** The insert into sqlite6nf_column_exist (sqlite6nf.py:243-247, :573). */
    method InsertColumnExist(id: int, now: string)
      modifies this
      ensures State() == old(State()).(columnExist := old(columnExist) + [ExistRow(id, now, 1)], issued := old(issued) + [InsertColumnExistRow])
    {
      columnExist := columnExist + [ExistRow(id, now, 1)];
      issued := issued + [InsertColumnExistRow];
    }

    /** The insert into sqlite6nf_column_name (sqlite6nf.py:249-253, :574). */
    method InsertColumnName(id: int, now: string, name: string)
      modifies this
      ensures State() == old(State()).(columnNames := old(columnNames) + [NameRow(id, now, name)], issued := old(issued) + [InsertColumnNameRow])
    {
      columnNames := columnNames + [NameRow(id, now, name)];
      issued := issued + [InsertColumnNameRow];
    }

    /** One pass of the column loop (sqlite6nf.py:568-577). */
    method NormalizeColumn(tableId: int, tableName: string, column: ColumnInfo, now: string)
      modifies this
      ensures State() == AddColumn(old(State()), tableId, tableName, column, now)
    {
      var columnId := InsertColumn(tableId);
      InsertColumnExist(columnId, now);
      InsertColumnName(columnId, now, column.name);
      Execute(CreateForColumn(ValueTable, tableId, tableName, columnId, column));
      Execute(CreateForColumn(ValueInsertTrigger, tableId, tableName, columnId, column));
      Execute(CreateForColumn(ValueUpdateTrigger, tableId, tableName, columnId, column));
    }

    /** The start of a pass of the table loop: the table's rows, its instance tables and its insert trigger (sqlite6nf.py:557-564). */
    method RegisterTable(name: string, now: string) returns (tableId: int)
      modifies this
      ensures tableId == NextId(old(tables))
      ensures State() == Register(old(State()), name, now)
    {
      tableId := InsertTable();
      InsertTableExist(tableId, now);
      InsertTableName(tableId, now, name);
      Execute(CreateForTable(InstanceTable, tableId, name));
      Execute(CreateForTable(InstanceExistTable, tableId, name));
      Execute(CreateForTable(InsertTrigger, tableId, name));
    }

    /** The column loop of one table (sqlite6nf.py:568-577). */
    method NormalizeColumns(tableId: int, tableName: string, tableColumns: seq<ColumnInfo>, now: string)
      modifies this
      ensures State() == AddColumns(old(State()), tableId, tableName, tableColumns, now)
    {
      ghost var start := State();
      var j := 0;
      while j < |tableColumns|
        invariant 0 <= j <= |tableColumns|
        invariant State() == AddColumns(start, tableId, tableName, tableColumns[..j], now)
      {
        NormalizeColumn(tableId, tableName, tableColumns[j], now);
        assert tableColumns[..j + 1][..j] == tableColumns[..j];
        j := j + 1;
      }
      assert tableColumns[..j] == tableColumns;
    }

    /**
     * One pass of the table loop (sqlite6nf.py:557-577). It returns false where
     * creating the insert trigger raises because the database has no such table.
     */
    method NormalizeTable(name: string, schema: Schema, now: string) returns (ok: bool)
      modifies this
      ensures var o := AddTable(old(State()), name, schema, now);
              ok == o.Done? && State() == o.cat
    {
      ghost var c := State();
      var tableId := RegisterTable(name, now);
      ghost var r := State();
      if name !in schema.tables {
        return false;
      }
      Execute(CreateForTable(DeleteTrigger, tableId, name));
      Execute(ListColumns);
      assert State() == r.(issued := r.issued + DeleteTriggerStatements(tableId, name));
      NormalizeColumns(tableId, name, ColumnsOf(schema, name), now);
      return true;
    }

    /** The six CREATE TABLE IF NOT EXISTS statements of the catalog (sqlite6nf.py:543-548). */
    method CreateCatalogTables()
      modifies this
      ensures State() == old(State()).(issued := old(issued) + CatalogTables)
    {
      ghost var c := State();
      Execute(CreateCatalog(TableCatalog));
      Execute(CreateCatalog(TableExistCatalog));
      Execute(CreateCatalog(TableNameCatalog));
      Execute(CreateCatalog(ColumnCatalog));
      Execute(CreateCatalog(ColumnExistCatalog));
      Execute(CreateCatalog(ColumnNameCatalog));
      assert issued == c.issued + CatalogTables;
    }

    /** The statements before the table loop, and the names it visits (sqlite6nf.py:540-553). */
    method Open(selector: Selector, schema: Schema) returns (names: seq<string>)
      modifies this
      ensures names == SelectedNames(selector, schema)
      ensures State() == Prepare(old(State()), selector)
    {
      if !inTransaction {
        Execute(Begin);
      }
      CreateCatalogTables();
      if selector.AllTables? {
        Execute(ListTables);
        names := schema.unnormalized;
      } else if selector.OneTable? {
        names := [selector.name];
      } else {
        names := selector.names;
      }
    }

    /** The table loop (sqlite6nf.py:557-577): it stops at the first table that raises. */
    method NormalizeTables(names: seq<string>, schema: Schema, now: string) returns (ok: bool)
      modifies this
      ensures var o := AddTables(old(State()), names, schema, now);
              ok == o.Done? && State() == o.cat
    {
      ghost var start := State();
      var i := 0;
      while i < |names|
        invariant 0 <= i <= |names|
        invariant AddTables(start, names[..i], schema, now) == Done(State())
      {
        ok := NormalizeTable(names[i], schema, now);
        assert names[..i + 1][..i] == names[..i];
        if !ok {
          AddTablesStopsAtFailure(start, names, i + 1, schema, now);
          return false;
        }
        i := i + 1;
      }
      assert names[..i] == names;
      return true;
    }

    /**
     * Connection.normalize(tables) (sqlite6nf.py:534-581), with now standing
     * for the value of datetime.now(). It returns false where the source raises.
     */
    method Normalize(selector: Selector, schema: Schema, now: string) returns (ok: bool)
      modifies this
      ensures var o := Catalogs.Normalize(old(State()), selector, schema, now);
              ok == o.Done? && State() == o.cat
      ensures Valid(old(State())) ==> Valid(State())
    {
      ghost var c := State();
      if Valid(c) {
        NormalizeKeepsValid(c, selector, schema, now);
      }
      var wasInTransaction := inTransaction;
      var names := Open(selector, schema);
      ok := NormalizeTables(names, schema, now);
      if ok && !wasInTransaction {
        Execute(Commit);
      }
    }
  }
}
