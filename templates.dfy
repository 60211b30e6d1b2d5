// The SQL text Connection.normalize (sqlite6nf.py:534-581) sends to SQLite:
// the fixed statements, and the templates it fills in with str.format for
// each table and column. A template is modelled as what str.format parses a
// format string into, literal text and named replacement fields, so that the
// statements normalize issues are exactly the text the source produces.

module Templates {
  import opened Wrappers
  import opened Scanner

  // ------------------------------------------------------------ decimal ids

  predicate IsDigit(c: char) {
    '0' <= c <= '9'
  }

  /** The decimal digits of n, most significant first. */
  function Digits(n: nat): (t: string)
    decreases n
    ensures |t| >= 1
    ensures forall i :: 0 <= i < |t| ==> IsDigit(t[i])
  {
    var last := [('0' as int + n % 10) as char];
    if n < 10 then last else Digits(n / 10) + last
  }

  /** The number a run of decimal digits stands for. */
  function DigitsValue(t: string): nat
    requires forall i :: 0 <= i < |t| ==> IsDigit(t[i])
    decreases |t|
  {
    if t == [] then 0
    else
      assert IsDigit(t[|t| - 1]);
      DigitsValue(t[..|t| - 1]) * 10 + (t[|t| - 1] as int - '0' as int)
  }

  /** Reading the digits back gives the number. */
  lemma {:induction false} DigitsValueOfDigits(n: nat)
    decreases n
    ensures DigitsValue(Digits(n)) == n
  {
    var t := Digits(n);
    if n >= 10 {
      DigitsValueOfDigits(n / 10);
      assert t[..|t| - 1] == Digits(n / 10);
    }
  }

  /** How str.format prints an id (sqlite6nf.py:559, :571): a minus sign when negative, then the digits. */
  function IntText(n: int): (t: string)
    ensures |t| >= 1
    ensures forall i :: 0 <= i < |t| ==> IsDigit(t[i]) || (i == 0 && t[i] == '-')
  {
    if n < 0 then "-" + Digits(-n) else Digits(n)
  }

  /** Distinct ids print differently. */
  lemma IntTextInjective(a: int, b: int)
    ensures IntText(a) == IntText(b) ==> a == b
  {
    assert IntText(a)[0] == '-' <==> a < 0;
    assert IntText(b)[0] == '-' <==> b < 0;
    if IntText(a) == IntText(b) {
      if a < 0 {
        assert Digits(-a) == IntText(a)[1..];
        assert Digits(-b) == IntText(b)[1..];
        DigitsValueOfDigits(-a);
        DigitsValueOfDigits(-b);
      } else {
        DigitsValueOfDigits(a);
        DigitsValueOfDigits(b);
      }
    }
  }

  // --------------------------------------------------------------- str.format

  /** A piece of a format string: literal text, or a `{key}` replacement field. */
  datatype Segment = Lit(text: string) | Field(key: string)

  type Template = seq<Segment>

  /** Every field of the template has an argument among keys (otherwise str.format raises KeyError). */
  predicate Fills(tpl: Template, keys: set<string>) {
    forall i :: 0 <= i < |tpl| && tpl[i].Field? ==> tpl[i].key in keys
  }

  /** str.format with named fields: literal text as is, each field replaced by its argument. */
  function Format(tpl: Template, args: map<string, string>): (s: string)
    requires Fills(tpl, args.Keys)
    ensures tpl != [] && tpl[0].Lit? ==> |s| >= |tpl[0].text|
  {
    if tpl == [] then []
    else (if tpl[0].Lit? then tpl[0].text else args[tpl[0].key]) + Format(tpl[1..], args)
  }

  /** Formatting distributes over cutting the template in two. */
  lemma {:induction false} FormatSplit(tpl: Template, args: map<string, string>, i: nat)
    requires Fills(tpl, args.Keys) && i <= |tpl|
    decreases i
    ensures Format(tpl, args) == Format(tpl[..i], args) + Format(tpl[i..], args)
  {
    if i == 0 {
      assert tpl[..0] == [] && tpl[0..] == tpl;
    } else {
      FormatSplit(tpl[1..], args, i - 1);
      assert tpl[1..][..i - 1] == tpl[..i][1..];
      assert tpl[1..][i - 1..] == tpl[i..];
    }
  }

  /** A field of the template between a literal ending in `"` and a literal that starts with a single `"`. */
  predicate QuotedField(tpl: Template, i: nat) {
    && 0 < i < |tpl| - 1 && tpl[i].Field?
    && tpl[i - 1].Lit? && |tpl[i - 1].text| > 0 && tpl[i - 1].text[|tpl[i - 1].text| - 1] == '"'
    && tpl[i + 1].Lit? && |tpl[i + 1].text| > 1 && tpl[i + 1].text[0] == '"' && tpl[i + 1].text[1] != '"'
  }

  /** The fields normalize fills with a name, doubling its `"` first (sqlite6nf.py:559, :571). */
  predicate IsNameKey(key: string) {
    key == "table_name" || key == "column_name"
  }

  /** Every name field of the template is spliced between double quotes. */
  predicate NamesQuoted(tpl: Template) {
    forall i :: 0 <= i < |tpl| && tpl[i].Field? && IsNameKey(tpl[i].key) ==> QuotedField(tpl, i)
  }

  /** At q the text holds a double-quoted identifier (the scanner's own reading) whose logical name is name. */
  predicate QuotedNameAt(s: string, q: nat, name: string) {
    var e := q + |Escape(name, '"')| + 2;
    && e <= |s| && s[q] == '"'
    && IdentifierEnd(s, q) == Some(e)
    && Escaped(s[q + 1..e - 1], '"')
    && Unescape(s[q + 1..e - 1], '"') == name
  }

  /** A quoted identifier at q whose body is the doubled name reads back as that name. */
  lemma QuotedNameFrom(s: string, q: nat, name: string)
    requires q < |s| && s[q] == '"'
    requires q + |Escape(name, '"')| + 2 <= |s|
    requires QuoteEnd(s, '"', q + 1) == q + |Escape(name, '"')| + 2
    requires s[q + 1..q + 1 + |Escape(name, '"')|] == Escape(name, '"')
    ensures QuotedNameAt(s, q, name)
  {
    UnescapeEscape(name, '"');
    IdentifierEndQuoted(s, q);
  }

  /** A name doubled and spliced between two `"` scans back as that name, when no `"` follows. */
  lemma QuotedNameAtSplice(pre: string, name: string, rest: string)
    requires rest == [] || rest[0] != '"'
    ensures QuotedNameAt(pre + ['"'] + Escape(name, '"') + ['"'] + rest, |pre|, name)
  {
    var t := Escape(name, '"');
    var s := pre + ['"'] + t + ['"'] + rest;
    var q := |pre|;
    assert s[q] == '"' && QuoteEnd(s, '"', q + 1) == q + |t| + 2 && s[q + 1..q + 1 + |t|] == t by {
      QuotedRoundTrip(pre, name, rest, '"');
    }
    QuotedNameFrom(s, q, name);
  }

  /** The text around a quoted field: what comes before it ends with `"`, what follows starts with a single `"`. */
  lemma FormatAroundField(tpl: Template, args: map<string, string>, i: nat)
    requires Fills(tpl, args.Keys) && QuotedField(tpl, i)
    ensures var before := Format(tpl[..i], args);
            |before| > 0 && before[|before| - 1] == '"'
    ensures var after := tpl[i + 1].text + Format(tpl[i + 2..], args);
            |after| > 1 && after[0] == '"' && after[1] != '"'
    ensures Format(tpl, args)
            == Format(tpl[..i], args) + args[tpl[i].key] + (tpl[i + 1].text + Format(tpl[i + 2..], args))
  {
    FormatSplit(tpl, args, i);
    FormatSplit(tpl[..i], args, i - 1);
    assert tpl[..i][..i - 1] == tpl[..i - 1];
    assert tpl[..i][i - 1..] == [tpl[i - 1]];
    assert Format(tpl[..i], args) == Format(tpl[..i - 1], args) + tpl[i - 1].text;
    assert tpl[i..][1..] == tpl[i + 1..];
    assert tpl[i + 1..][1..] == tpl[i + 2..];
  }

  /**
   * The guarantee normalize relies on when it splices a user's name into
   * SQL: a name field between double quotes, filled with the name with its
   * `"` doubled, scans back as one quoted identifier whose logical name is
   * exactly the original, whatever characters the name contains.
   */
  lemma SplicedNameReadsBack(tpl: Template, args: map<string, string>, i: nat, name: string)
    requires Fills(tpl, args.Keys) && QuotedField(tpl, i)
    requires args[tpl[i].key] == Escape(name, '"')
    ensures |Format(tpl[..i], args)| > 0
    ensures QuotedNameAt(Format(tpl, args), |Format(tpl[..i], args)| - 1, name)
  {
    FormatAroundField(tpl, args, i);
    QuotedNameBetween(Format(tpl, args), Format(tpl[..i], args), args[tpl[i].key],
                      tpl[i + 1].text + Format(tpl[i + 2..], args), name);
  }

  /** The same, for plain text s: before ends with `"`, after starts with a single `"`. */
  lemma QuotedNameBetween(s: string, before: string, spliced: string, after: string, name: string)
    requires s == before + spliced + after && spliced == Escape(name, '"')
    requires |before| > 0 && before[|before| - 1] == '"'
    requires |after| > 1 && after[0] == '"' && after[1] != '"'
    ensures QuotedNameAt(s, |before| - 1, name)
  {
    var pre := before[..|before| - 1];
    var rest := after[1..];
    assert before == pre + ['"'];
    assert after == ['"'] + rest;
    assert before + Escape(name, '"') + after == pre + ['"'] + Escape(name, '"') + ['"'] + rest;
    QuotedNameAtSplice(pre, name, rest);
  }

  // -------------------------------------------------------- fixed statements

  /** sqlite6nf.py:85 */
  const BeginTransaction: string :=
      "\n"
      + "    BEGIN IMMEDIATE TRANSACTION;\n"
      + "    "

  /** sqlite6nf.py:89 */
  const CommitTransaction: string :=
      "\n"
      + "    COMMIT TRANSACTION;\n"
      + "    "

  /** sqlite6nf.py:93 */
  const CreateTableCatalog: string :=
      "\n"
      + "    CREATE TABLE IF NOT EXISTS \"sqlite6nf_table\" (\n"
      + "        \"id\" INTEGER PRIMARY KEY\n"
      + "        );\n"
      + "    "

  /** sqlite6nf.py:99 */
  const CreateTableExistCatalog: string :=
      "\n"
      + "    CREATE TABLE IF NOT EXISTS \"sqlite6nf_table_exist\" (\n"
      + "        \"id\" INTEGER NOT NULL,\n"
      + "        \"transaction\" TEXT NOT NULL,\n"
      + "        \"exist\" INTEGER NOT NULL,\n"
      + "        PRIMARY KEY (\"id\", \"transaction\"),\n"
      + "        FOREIGN KEY (\"id\") REFERENCES \"sqlite6nf_table\"(\"id\")\n"
      + "        );\n"
      + "    "

  /** sqlite6nf.py:109 */
  const CreateTableNameCatalog: string :=
      "\n"
      + "    CREATE TABLE IF NOT EXISTS \"sqlite6nf_table_name\" (\n"
      + "        \"id\" INTEGER NOT NULL,\n"
      + "        \"transaction\" TEXT NOT NULL,\n"
      + "        \"name\" INTEGER NOT NULL,\n"
      + "        PRIMARY KEY (\"id\", \"transaction\"),\n"
      + "        FOREIGN KEY (\"id\") REFERENCES \"sqlite6nf_table\"(\"id\")\n"
      + "        );\n"
      + "    "

  /** sqlite6nf.py:119 */
  const CreateColumnCatalog: string :=
      "\n"
      + "    CREATE TABLE IF NOT EXISTS \"sqlite6nf_column\" (\n"
      + "        \"id\" INTEGER PRIMARY KEY,\n"
      + "        \"table_id\" INTEGER NOT NULL,\n"
      + "        FOREIGN KEY (\"table_id\") REFERENCES \"sqlite6nf_table\"(\"id\")\n"
      + "        );\n"
      + "    "

  /** sqlite6nf.py:127 */
  const CreateColumnExistCatalog: string :=
      "\n"
      + "    CREATE TABLE IF NOT EXISTS \"sqlite6nf_column_exist\" (\n"
      + "        \"id\" INTEGER NOT NULL,\n"
      + "        \"transaction\" TEXT NOT NULL,\n"
      + "        \"exist\" INTEGER NOT NULL,\n"
      + "        PRIMARY KEY (\"id\", \"transaction\"),\n"
      + "        FOREIGN KEY (\"id\") REFERENCES \"sqlite6nf_column\"(\"id\")\n"
      + "        );\n"
      + "    "

  /** sqlite6nf.py:137 */
  const CreateColumnNameCatalog: string :=
      "\n"
      + "    CREATE TABLE IF NOT EXISTS \"sqlite6nf_column_name\" (\n"
      + "        \"id\" INTEGER NOT NULL,\n"
      + "        \"transaction\" TEXT NOT NULL,\n"
      + "        \"name\" INTEGER NOT NULL,\n"
      + "        PRIMARY KEY (\"id\", \"transaction\"),\n"
      + "        FOREIGN KEY (\"id\") REFERENCES \"sqlite6nf_column\"(\"id\")\n"
      + "        );\n"
      + "    "

  /** sqlite6nf.py:217 */
  const InsertTable: string :=
      "\n"
      + "    INSERT OR ROLLBACK INTO \"sqlite6nf_table\"\n"
      + "    (\"id\")\n"
      + "    VALUES (NULL)\n"
      + "    RETURNING *;\n"
      + "    "

  /** sqlite6nf.py:224 */
  const InsertTableExist: string :=
      "\n"
      + "    INSERT OR ROLLBACK INTO \"sqlite6nf_table_exist\"\n"
      + "    (\"id\", \"transaction\", \"exist\")\n"
      + "    VALUES (:id, :transaction, :exist);\n"
      + "    "

  /** sqlite6nf.py:230 */
  const InsertTableName: string :=
      "\n"
      + "    INSERT OR ROLLBACK INTO \"sqlite6nf_table_name\"\n"
      + "    (\"id\", \"transaction\", \"name\")\n"
      + "    VALUES (:id, :transaction, :name);\n"
      + "    "

  /** sqlite6nf.py:236 */
  const InsertColumn: string :=
      "\n"
      + "    INSERT OR ROLLBACK INTO \"sqlite6nf_column\"\n"
      + "    (\"id\", \"table_id\")\n"
      + "    VALUES (NULL, :table_id)\n"
      + "    RETURNING *;\n"
      + "    "

  /** sqlite6nf.py:243 */
  const InsertColumnExist: string :=
      "\n"
      + "    INSERT OR ROLLBACK INTO \"sqlite6nf_column_exist\"\n"
      + "    (\"id\", \"transaction\", \"exist\")\n"
      + "    VALUES (:id, :transaction, :exist);\n"
      + "    "

  /** sqlite6nf.py:249 */
  const InsertColumnName: string :=
      "\n"
      + "    INSERT OR ROLLBACK INTO \"sqlite6nf_column_name\"\n"
      + "    (\"id\", \"transaction\", \"name\")\n"
      + "    VALUES (:id, :transaction, :name);\n"
      + "    "

  /** sqlite6nf.py:274 */
  const SelectUnnormalizedTables: string :=
      "\n"
      + "    SELECT \"sqlite_schema\".*\n"
      + "    FROM \"sqlite_schema\" AS \"sqlite_schema\"\n"
      + "    LEFT OUTER JOIN (\n"
      + "        SELECT \"sqlite6nf_table_name\".\"id\", \"sqlite6nf_table_name\".\"name\", max(\"sqlite6nf_table_name\", \"transaction\")\n"
      + "        FROM \"sqlite6nf_table_name\"\n"
      + "        GROUP BY \"sqlite6nf_table_name\".\"id\"\n"
      + "        ) AS \"sqlite6nf_table_name\"\n"
      + "    ON \"sqlite6nf_table_name\".\"name\" = \"sqlite_schema\".\"name\"\n"
      + "    WHERE \"sqlite_schema\".\"type\" = 'table'\n"
      + "    AND NOT lower(\"sqlite_schema\".\"name\") GLOB 'sqlite6nf_*'\n"
      + "    AND \"sqlite6nf_table_name\".\"name\" IS NULL;\n"
      + "    "

  /** sqlite6nf.py:288 */
  const SelectTableInfo: string :=
      "\n"
      + "    SELECT \"pragma_table_info\".*\n"
      + "    FROM \"sqlite_schema\" AS \"sqlite_schema\"\n"
      + "    LEFT JOIN pragma_table_info(\"sqlite_schema\".\"name\") AS \"pragma_table_info\"\n"
      + "    WHERE \"sqlite_schema\".\"type\" = 'table'\n"
      + "    AND NOT lower(\"sqlite_schema\".\"name\") GLOB 'sqlite6nf_*'\n"
      + "    AND \"sqlite_schema\".\"name\" = :name;\n"
      + "    "

  // ------------------------------------------------- templates formatted per table and column

  /** sqlite6nf.py:147-151: the instance table that mirrors the table's row ids. */
  const CreateInstance: Template :=
    [ Lit("\n"
          + "    CREATE TABLE IF NOT EXISTS \"sqlite6nf_")
    , Field("table_id")
    , Lit("\" (\n"
          + "        \"id\" INT PRIMARY KEY\n"
          + "        );\n"
          + "    ")
    ]

  /** sqlite6nf.py:153-161: the existence history of the table's rows. */
  const CreateInstanceExist: Template :=
    [ Lit("\n"
          + "    CREATE TABLE IF NOT EXISTS \"sqlite6nf_")
    , Field("table_id")
    , Lit("_exist\" (\n"
          + "        \"id\" INTEGER NOT NULL,\n"
          + "        \"transaction\" TEXT NOT NULL,\n"
          + "        \"exist\" INTEGER NOT NULL,\n"
          + "        PRIMARY KEY (\"id\", \"transaction\"),\n"
          + "        FOREIGN KEY (\"id\") REFERENCES \"sqlite6nf_")
    , Field("table_id")
    , Lit("\"(\"id\")\n"
          + "        );\n"
          + "    ")
    ]

  /** sqlite6nf.py:163-171: the value history of one column. */
  const CreateInstanceValue: Template :=
    [ Lit("\n"
          + "    CREATE TABLE IF NOT EXISTS \"sqlite6nf_")
    , Field("table_id")
    , Lit("_")
    , Field("column_id")
    , Lit("\" (\n"
          + "        \"id\" INTEGER NOT NULL,\n"
          + "        \"transaction\" TEXT NOT NULL,\n"
          + "        \"value\" ")
    , Field("dtype")
    , Lit(",\n"
          + "        PRIMARY KEY (\"id\", \"transaction\"),\n"
          + "        FOREIGN KEY (\"id\") REFERENCES \"sqlite6nf_")
    , Field("table_id")
    , Lit("\"(\"id\")\n"
          + "        );\n"
          + "    ")
    ]

  /** sqlite6nf.py:173-185: records a new row of the table. */
  const CreateInsertTrigger: Template :=
    [ Lit("\n"
          + "    CREATE TRIGGER IF NOT EXISTS \"sqlite6nf_trigger_insert_")
    , Field("table_id")
    , Lit("\"\n"
          + "    AFTER INSERT ON \"")
    , Field("table_name")
    , Lit("\"\n"
          + "    FOR EACH ROW BEGIN\n"
          + "        INSERT INTO \"sqlite6nf_")
    , Field("table_id")
    , Lit("\"\n"
          + "        (\"id\")\n"
          + "        VALUES (\"NEW\".\"rowid\");\n"
          + "\n"
          + "        INSERT INTO \"sqlite6nf_")
    , Field("table_id")
    , Lit("_exist\"\n"
          + "        (\"id\", \"transaction\", \"exist\")\n"
          + "        VALUES (\"NEW\".\"rowid\", strftime('%Y-%m-%d %H:%M:%f', 'now'), 1);\n"
          + "    END;\n"
          + "    ")
    ]

  /** sqlite6nf.py:187-195: records the deletion of a row. */
  const CreateDeleteTrigger: Template :=
    [ Lit("\n"
          + "    CREATE TRIGGER IF NOT EXISTS \"sqlite6nf_trigger_delete_")
    , Field("table_id")
    , Lit("\"\n"
          + "    AFTER DELETE ON \"")
    , Field("table_name")
    , Lit("\"\n"
          + "    FOR EACH ROW BEGIN\n"
          + "        INSERT INTO \"sqlite6nf_")
    , Field("table_id")
    , Lit("_exist\"\n"
          + "        (\"id\", \"transaction\", \"exist\")\n"
          + "        VALUES (\"OLD\".\"rowid\", strftime('%Y-%m-%d %H:%M:%f', 'now'), 0);\n"
          + "    END;\n"
          + "    ")
    ]

  /** sqlite6nf.py:197-205: records the column value of a new row. */
  const CreateValueInsertTrigger: Template :=
    [ Lit("\n"
          + "    CREATE TRIGGER IF NOT EXISTS \"sqlite6nf_trigger_insert_")
    , Field("table_id")
    , Lit("_")
    , Field("column_id")
    , Lit("\"\n"
          + "    AFTER INSERT ON \"")
    , Field("table_name")
    , Lit("\"\n"
          + "    FOR EACH ROW BEGIN\n"
          + "        INSERT INTO \"sqlite6nf_")
    , Field("table_id")
    , Lit("_")
    , Field("column_id")
    , Lit("\"\n"
          + "        (\"id\", \"transaction\", \"value\")\n"
          + "        VALUES (\"NEW\".\"rowid\", strftime('%Y-%m-%d %H:%M:%f', 'now'), \"NEW\".\"")
    , Field("column_name")
    , Lit("\");\n"
          + "    END;\n"
          + "    ")
    ]

  /** sqlite6nf.py:207-215: records a changed column value. */
  const CreateValueUpdateTrigger: Template :=
    [ Lit("\n"
          + "    CREATE TRIGGER IF NOT EXISTS \"sqlite6nf_trigger_update_")
    , Field("table_id")
    , Lit("_")
    , Field("column_id")
    , Lit("\"\n"
          + "    AFTER UPDATE OF \"")
    , Field("column_name")
    , Lit("\" ON \"")
    , Field("table_name")
    , Lit("\"\n"
          + "    FOR EACH ROW BEGIN\n"
          + "        INSERT INTO \"sqlite6nf_")
    , Field("table_id")
    , Lit("_")
    , Field("column_id")
    , Lit("\"\n"
          + "        (\"id\", \"transaction\", \"value\")\n"
          + "        VALUES (\"NEW\".\"rowid\", strftime('%Y-%m-%d %H:%M:%f', 'now'), \"NEW\".\"")
    , Field("column_name")
    , Lit("\");\n"
          + "    END;\n"
          + "    ")
    ]

  // ------------------------------------------------------ template properties

  /** The keys of table_format (sqlite6nf.py:559). */
  const TableKeys: set<string> := {"table_id", "table_name"}

  /** The keys of column_format (sqlite6nf.py:571-572). */
  const ColumnKeys: set<string> := {"table_id", "table_name", "column_id", "column_name", "dtype"}

  /** The instance-table templates take only table_format's keys and splice no name. */
  lemma InstanceTemplatesWellFormed()
    ensures Fills(CreateInstance, TableKeys) && NamesQuoted(CreateInstance)
    ensures Fills(CreateInstanceExist, TableKeys) && NamesQuoted(CreateInstanceExist)
  {
  }

  /** The value-table template takes only column_format's keys and splices no name (the type goes in as is). */
  lemma ValueTableTemplateWellFormed()
    ensures Fills(CreateInstanceValue, ColumnKeys) && NamesQuoted(CreateInstanceValue)
  {
  }

  /** The row-insert trigger template takes only table_format's keys and quotes the table name. */
  lemma InsertTriggerTemplateWellFormed()
    ensures Fills(CreateInsertTrigger, TableKeys) && NamesQuoted(CreateInsertTrigger)
  {
    forall i | 0 <= i < |CreateInsertTrigger| && CreateInsertTrigger[i].Field? && IsNameKey(CreateInsertTrigger[i].key)
      ensures QuotedField(CreateInsertTrigger, i)
    {
      assert i == 3;
    }
  }

  /** The row-delete trigger template takes only table_format's keys and quotes the table name. */
  lemma DeleteTriggerTemplateWellFormed()
    ensures Fills(CreateDeleteTrigger, TableKeys) && NamesQuoted(CreateDeleteTrigger)
  {
    forall i | 0 <= i < |CreateDeleteTrigger| && CreateDeleteTrigger[i].Field? && IsNameKey(CreateDeleteTrigger[i].key)
      ensures QuotedField(CreateDeleteTrigger, i)
    {
      assert i == 3;
    }
  }

  /** The value-insert trigger template takes only column_format's keys and quotes both names. */
  lemma ValueInsertTriggerTemplateWellFormed()
    ensures Fills(CreateValueInsertTrigger, ColumnKeys) && NamesQuoted(CreateValueInsertTrigger)
  {
    forall i | 0 <= i < |CreateValueInsertTrigger| && CreateValueInsertTrigger[i].Field? && IsNameKey(CreateValueInsertTrigger[i].key)
      ensures QuotedField(CreateValueInsertTrigger, i)
    {
      assert i == 5 || i == 11;
    }
  }

  /** The value-update trigger template takes only column_format's keys and quotes all three names. */
  lemma ValueUpdateTriggerTemplateWellFormed()
    ensures Fills(CreateValueUpdateTrigger, ColumnKeys) && NamesQuoted(CreateValueUpdateTrigger)
  {
    forall i | 0 <= i < |CreateValueUpdateTrigger| && CreateValueUpdateTrigger[i].Field? && IsNameKey(CreateValueUpdateTrigger[i].key)
      ensures QuotedField(CreateValueUpdateTrigger, i)
    {
      assert i == 5 || i == 7 || i == 13;
    }
  }

  // -------------------------------------------------------------- arguments

  /** table_format (sqlite6nf.py:559): the id, and the name with its `"` doubled. */
  function TableFormat(tableId: int, tableName: string): (args: map<string, string>)
    ensures args.Keys == TableKeys
    ensures args["table_name"] == Escape(tableName, '"')
  {
    map["table_id" := IntText(tableId), "table_name" := Escape(tableName, '"')]
  }

  /** column_format (sqlite6nf.py:571-572): table_format plus the column's id, escaped name and declared type. */
  function ColumnFormat(tableId: int, tableName: string, columnId: int, columnName: string, dtype: string): (args: map<string, string>)
    ensures args.Keys == ColumnKeys
    ensures args["table_name"] == Escape(tableName, '"') && args["column_name"] == Escape(columnName, '"')
  {
    TableFormat(tableId, tableName)["column_id" := IntText(columnId)]["column_name" := Escape(columnName, '"')]["dtype" := dtype]
  }
}
