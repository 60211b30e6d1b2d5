# sqlite6nf in Dafny

sqlite6nf keeps the history of an SQLite database in sixth normal form. It
does this in two parts, and this project models both.

- **The scanner and classifier (`sqlite6nf.py`, lines 298-428).** These
  regular expressions find comments, the four quoting styles of identifiers,
  bare identifiers and `schema . table` object references. From those they
  classify the structural statements of a script (CREATE/ALTER/DROP TABLE,
  CREATE/DROP VIEW, ATTACH/DETACH DATABASE) and the FROM/JOIN references of
  a query.
- **`Connection.normalize` (lines 534-581).** It creates the six catalog
  tables. Then, for every selected table and every column of it, it
  registers fresh ids and the exist and name rows. It also creates the
  instance and value tables and the triggers, from the SQL templates at
  lines 85-295. It opens and commits a transaction only when none was
  already open.

The project has these modules:

- `Wrappers`: the `Option` type.
- `Scanner`: the lexical units as recursive functions over `string`. Each
  scanner returns where its unit ends: line and block comments, quoted
  identifiers with doubled-delimiter escapes, bracketed identifiers, bare
  words, space units and the `IGNORE` unit.
- `Patterns`: the pieces the statement patterns are built from, and a
  backtracking matcher with Python's order of trial. A lazy `*?` tries the
  rest first. A `(?:…)?` tries its group first. An alternation tries its
  branches in order.
- `Classifier`: the seven statement patterns and the FROM/JOIN pattern.
  - The `finditer` scans of `_PATTERN_SIMULATE` and `_PATTERN_SUBSTITUTE`
    are modelled as the lists of statements and references they report.
  - The DETACH pattern is modelled both as written and as intended.
- `Readings`: what each statement pattern reads, stated directly on the
  lexical units: TEMP or TEMPORARY, the noun, IF [NOT] EXISTS, and the
  object with its optional `schema .` prefix. Each reading is proved equal
  to the matcher's result, and a statement is reported at an anchor exactly
  when its lead keyword and its reading are there.
- `Opacity`: the proof that the scans only ever try a pattern at the end of
  a whole `IGNORE` unit. It follows that nothing inside a comment or quoted
  identifier is classified. This holds of the matcher of `Patterns`, which
  ends each comment and each quoted identifier inside a pattern at its first
  end; see Findings.
- `Backtracking`: the comment and quote ends Python's re may take when it
  backtracks, a text on which the source reads a statement inside a comment,
  and a text on which it reads one inside an unclosed quote.
- `Templates`: `str.format` over parsed templates. It also holds the SQL
  texts and templates normalize sends, and the proof that a name spliced
  with its `"` doubled reads back as that name.
- `Catalogs`: normalize as a function of a `Catalog` value. The value holds
  the transaction flag, the rows of the six catalog tables and the log of
  statements sent. The module proves what one call adds, what it sends and
  which constraints it keeps.
- `Affinity`: what SQLite stores in the `name` column of the two name
  tables, which the source declares INTEGER: a name that reads as a number
  is stored as that number. The rest of the model keeps the bound string;
  see Findings.
- `Connections`: the class `Connection`. Its sequence fields are updated
  statement by statement, in the source's two nested loops, and its
  `Normalize` method is proved equal to `Catalogs.Normalize`.

## Model

| member | source | states |
|---|---|---|
| Scanner.LineEnd | sqlite6nf.py:298-302 | the body of a `--` comment ends just past a newline, or at the end of the text |
| Scanner.LineEndFirstNewline | sqlite6nf.py:298-302 | that newline is the first one after the start; with no newline the comment runs to the end of the text |
| Scanner.LineCommentEnd | sqlite6nf.py:298-302 | a `--` comment covers its two dashes and ends after a newline or at the end of the text |
| Scanner.BlockEnd | sqlite6nf.py:303-307 | the body of a `/*` comment ends just after a `*/`, or at `$` |
| Scanner.BlockEndFirstClose | sqlite6nf.py:303-307 | that `*/` is the first one; without one the comment runs to `$` |
| Scanner.BlockCommentEnd | sqlite6nf.py:303-307 | a `/*` comment covers its opener and ends after `*/` or at `$` |
| Scanner.QuoteEnd | sqlite6nf.py:314-333 | a quoted identifier ends just after a delimiter not followed by another, or at `$` (the end of the text, or before a final newline) |
| Scanner.QuoteEndEscaped | sqlite6nf.py:314-333 | everything the quote scanner steps over is a well-formed body (every delimiter doubled); it stops at the first undoubled delimiter, or the text ends unclosed |
| Scanner.Escape | sqlite6nf.py:559 | doubling the delimiters of a name gives a well-formed quoted body at least as long as the name |
| Scanner.Unescape | sqlite6nf.py:559 | every well-formed quoted body is the escaping of exactly the name Unescape gives |
| Scanner.UnescapeEscape | sqlite6nf.py:559 | unescaping an escaped name gives the name back |
| Scanner.QuoteEndAfterEscaped | sqlite6nf.py:319-323 | a well-formed body followed by a delimiter that is not doubled is scanned up to and including that delimiter |
| Scanner.QuotedRoundTrip | sqlite6nf.py:319-323 | a name with its `"` doubled, spliced between two `"`, scans back as one identifier ending at the closing quote, with the name as its body |
| Scanner.PairRun | sqlite6nf.py:314-318 | the greedy run of doubled delimiters `(?:'{2})*` stops where no doubled delimiter follows |
| Scanner.CloseAfterAsWritten | sqlite6nf.py:314-318 | the closing part as written matches only where a non-delimiter character stands first |
| Scanner.QuoteEndAsWritten | sqlite6nf.py:314-333 | the quoted body as written, when it matches, ends after its start and within the text |
| Scanner.EmptyQuoteSwallowsText | sqlite6nf.py:314-318 | as written, `'';x` is one quoted span running over the `;`; the corrected scanner closes the empty literal at once |
| Scanner.EscapedQuoteOnlyUnrecognised | sqlite6nf.py:319-323 | as written, `""""` (the identifier `"`) is not recognised; the corrected scanner reads all four characters |
| Scanner.BracketEnd | sqlite6nf.py:324-328 | a bracketed identifier ends just after a `]`, or at `$` |
| Scanner.BracketEndFirstClose | sqlite6nf.py:324-328 | that `]` is the first one: brackets have no escape |
| Scanner.IdentRunEnd | sqlite6nf.py:334-338 | a run of identifier characters ends at a non-identifier character or the end of the text |
| Scanner.IdentRunAll | sqlite6nf.py:334-338 | every character of the run is `[0-9A-Z_a-z]` |
| Scanner.BareEnd | sqlite6nf.py:334-338 | a bare identifier starts exactly where a letter or `_` stands with no identifier character before it |
| Scanner.BareEndExactly | sqlite6nf.py:334-338 | BareEnd finds exactly the whole words: a letter or `_` first, then identifier characters, with none just before or after |
| Scanner.IdentifierEnd | sqlite6nf.py:339-343 | an identifier starts exactly at a quote, a `[` or the start of a bare word |
| Scanner.SpaceEnd | sqlite6nf.py:311-313 | a space unit starts exactly at a whitespace character or a comment opener |
| Scanner.SkipSpaces | sqlite6nf.py:311-313 | skipping space units stops where no space unit starts |
| Scanner.SpaceUnitEndsWord | sqlite6nf.py:311-313 | a space unit with at least two characters after it ends on a non-identifier character |
| Scanner.SkipSpacesKeepsWordBoundary | sqlite6nf.py:311-313 | skipping space units keeps a word boundary before the position reached |
| Scanner.IgnoreEnd | sqlite6nf.py:350-355 | an IGNORE unit always advances; outside spaces, comments and quotes it is one character |
| Patterns.Match | sqlite6nf.py:359-417 | a match of a statement pattern ends inside the text, after where it started |
| Patterns.MatchCaptures | sqlite6nf.py:346-349 | every `schema` or `table` group a match sets holds one whole identifier inside the match |
| Patterns.MatchEndsWithCapture | sqlite6nf.py:346-349 | a pattern ending with an identifier group ends exactly where that identifier does |
| Patterns.SolidNotAtSpace | sqlite6nf.py:359-366 | a pattern opening with a keyword or identifier never matches where a space unit starts |
| Patterns.LazySpacesSkip | sqlite6nf.py:359-366 | a lazy run of spaces before a keyword or identifier is the same as skipping every space unit |
| Classifier.CreateTail | sqlite6nf.py:359-366 | the CREATE TABLE or VIEW pattern after CREATE ends within the text |
| Classifier.AlterTail | sqlite6nf.py:368-372 | the ALTER TABLE pattern after ALTER ends within the text |
| Classifier.DropTail | sqlite6nf.py:374-379 | the DROP TABLE or VIEW pattern after DROP ends within the text |
| Classifier.AttachTail | sqlite6nf.py:397-402 | the ATTACH DATABASE pattern after ATTACH ends within the text |
| Classifier.DetachTail | sqlite6nf.py:405-410 | the intended DETACH pattern after DETACH ends within the text |
| Classifier.DetachTailAsWritten | sqlite6nf.py:405-410 | the DETACH pattern as written, after DETACH, ends within the text |
| Classifier.LeadAt | sqlite6nf.py:356-360 | a statement's first keyword is found exactly at an anchor (start of text or after `;`), after the space units there |
| Classifier.CreateAt | sqlite6nf.py:359-366 | a CREATE TABLE or VIEW statement found at p is of that kind, starts at p and ends within the text |
| Classifier.AlterAt | sqlite6nf.py:368-372 | an ALTER TABLE statement found at p starts at p and ends within the text |
| Classifier.DropAt | sqlite6nf.py:374-379 | a DROP TABLE or VIEW statement found at p is of that kind, starts at p and ends within the text |
| Classifier.AttachAt | sqlite6nf.py:397-402 | an ATTACH DATABASE statement found at p starts at p and ends within the text |
| Classifier.DetachAt | sqlite6nf.py:405-410 | a DETACH statement found at p (intended pattern) starts at p and ends within the text |
| Classifier.DetachAsWritten | sqlite6nf.py:405-410 | a DETACH statement found at p by the pattern as written starts at p and ends within the text |
| Classifier.StatementAt | sqlite6nf.py:419-424 | the structural alternatives, tried in order, report a statement starting at p and ending within the text |
| Classifier.StatementAtAnchored | sqlite6nf.py:356-358 | every statement starts at the start of the text or right after a `;`, and its keyword follows the spaces there |
| Classifier.CreateTailShape | sqlite6nf.py:359-366 | a CREATE match names a table, with an optional schema, as whole identifiers inside the match, and ends with the table name |
| Classifier.AlterTailShape | sqlite6nf.py:368-372 | an ALTER match names its table as whole identifiers and ends with the table name |
| Classifier.DropTailShape | sqlite6nf.py:374-379 | a DROP match names its table as whole identifiers and ends with the table name |
| Classifier.DetachTailShape | sqlite6nf.py:405-410 | a DETACH match names its schema as one whole identifier that ends the match |
| Classifier.DetachDatabaseMisread | sqlite6nf.py:405-410 | as written, on `DETACH DATABASE name` the word DATABASE itself is taken as the schema name |
| Classifier.DetachDatabaseRead | sqlite6nf.py:405-410 | the intended pattern takes the name after DATABASE as the schema and ends the match with it |
| Classifier.ScanStatements | sqlite6nf.py:419-424 | the statements `finditer` reports lie inside the text, in order and without overlap |
| Classifier.ScannedStatementsMatch | sqlite6nf.py:419-424 | each reported statement is exactly what the statement patterns match at its start |
| Classifier.ReferenceAt | sqlite6nf.py:413-417 | a FROM/JOIN reference found at p starts at p and ends within the text |
| Classifier.ReferenceAtParts | sqlite6nf.py:413-417 | a reference is a whole FROM or JOIN word, then spaces, comments or `(`, then an object; the match ends with the table name, and both names are whole identifiers |
| Classifier.ScanReferences | sqlite6nf.py:425-428 | the references `finditer` reports lie inside the text, in order and without overlap |
| Classifier.ScannedReferencesMatch | sqlite6nf.py:425-428 | each reported reference is exactly what the FROM/JOIN pattern matches at its start |
| Readings.ObjectAt | sqlite6nf.py:346-349 | an object is read exactly where an identifier starts; its table is a whole identifier; without a schema the table is the identifier at the start; with one, the schema is that identifier, followed by spaces, a `.`, spaces and the table |
| Readings.MatchObject | sqlite6nf.py:346-349 | the object pattern sets `schema` and `table` exactly as ObjectAt reads them and ends with the table, or fails exactly when ObjectAt does |
| Readings.MatchSpacedWords | sqlite6nf.py:359-366 | a chain of `{space}+?(?i:kw)` pieces matches exactly when each word follows at least one space unit after the previous one, and continues after the last |
| Readings.MatchGuardedObject | sqlite6nf.py:359-366 | an optional IF [NOT] EXISTS before the object is taken when its words and an object after them are there, and skipped otherwise |
| Readings.MatchTempGroup | sqlite6nf.py:361 | the TEMP group tries TEMP and then TEMPORARY, each after spaces, and sets `temporary` when it is taken |
| Readings.CreateTailReads | sqlite6nf.py:359-366 | after CREATE the pattern reads TEMP, TEMPORARY or neither (temporary exactly for the first two), the noun, an optional IF NOT EXISTS and the object, and gives on every input the tail the matcher gives |
| Readings.AlterTailReads | sqlite6nf.py:368-372 | after ALTER the pattern reads TABLE after spaces, then the object, as the matcher does on every input |
| Readings.DropTailReads | sqlite6nf.py:374-379 | after DROP the pattern reads the noun after spaces, an optional IF EXISTS and the object, as the matcher does on every input |
| Readings.AttachTailReads | sqlite6nf.py:397-402 | after ATTACH the pattern reads DATABASE after spaces and one more space unit, and names nothing, as the matcher does on every input |
| Readings.DetachTailReads | sqlite6nf.py:405-410 | after DETACH the intended pattern reads an optional DATABASE and then the schema name, as the matcher does on every input |
| Readings.CreateAtReads | sqlite6nf.py:359-366 | at an anchor with CREATE after its spaces, the pattern reports the CREATE reading after the keyword, with the kind asked for |
| Readings.AlterAtReads | sqlite6nf.py:368-372 | at an anchor with ALTER after its spaces, the pattern reports the ALTER reading after the keyword |
| Readings.DropAtReads | sqlite6nf.py:374-379 | at an anchor with DROP after its spaces, the pattern reports the DROP reading after the keyword, with the kind asked for |
| Readings.AttachAtReads | sqlite6nf.py:397-402 | at an anchor with ATTACH after its spaces, the pattern reports the ATTACH reading after the keyword |
| Readings.DetachAtReads | sqlite6nf.py:405-410 | at an anchor with DETACH after its spaces, the intended pattern reports the DETACH reading after the keyword |
| Readings.CreateReadTemporary | sqlite6nf.py:361 | a CREATE reading is temporary exactly when the word after CREATE is TEMP or TEMPORARY; otherwise that word is the noun |
| Readings.CreateReadsExclusive | sqlite6nf.py:359-388 | at one place the CREATE TABLE reading and the CREATE VIEW reading never both succeed |
| Readings.LeadsClash | sqlite6nf.py:356-360 | two lead keywords that differ in a letter never both open a statement at the same anchor |
| Readings.CreateFound | sqlite6nf.py:419-424 | CREATE at an anchor followed by a CREATE TABLE or CREATE VIEW reading is the statement the scan reports there, with that keyword and tail |
| Readings.AlterFound | sqlite6nf.py:419-424 | ALTER at an anchor followed by an ALTER reading is the statement the scan reports there |
| Readings.DropFound | sqlite6nf.py:419-424 | DROP at an anchor followed by a DROP TABLE or DROP VIEW reading is the statement the scan reports there |
| Readings.AttachFound | sqlite6nf.py:419-424 | ATTACH at an anchor followed by an ATTACH reading is the statement the scan reports there |
| Readings.DetachFound | sqlite6nf.py:419-424 | DETACH at an anchor followed by a DETACH reading is the statement the scan reports there |
| Readings.ChosenAlternative | sqlite6nf.py:419-424 | a reported statement is what the alternative of its kind matches at its start |
| Readings.CreateStatementTail | sqlite6nf.py:419-424 | a reported CREATE TABLE or VIEW starts at its anchor, has CREATE after the spaces there, and its tail is the CREATE tail of its noun, which CreateTailReads shows is the reading |
| Readings.AlterStatementTail | sqlite6nf.py:419-424 | a reported ALTER TABLE has ALTER after the spaces at its anchor, and its tail is the ALTER tail |
| Readings.DropStatementTail | sqlite6nf.py:419-424 | a reported DROP TABLE or VIEW has DROP after the spaces at its anchor, and its tail is the DROP tail of its noun |
| Readings.AttachStatementTail | sqlite6nf.py:419-424 | a reported ATTACH DATABASE has ATTACH after the spaces at its anchor, and its tail is the ATTACH tail |
| Readings.DetachStatementTail | sqlite6nf.py:419-424 | a reported DETACH has DETACH after the spaces at its anchor, and its tail is the DETACH tail |
| Backtracking.FirstEndAsWritten | sqlite6nf.py:298-313 | the end the model gives a space unit, its first end, is one of the ends re may give it |
| Backtracking.SkipSpacesAsWritten | sqlite6nf.py:311-313 | every run of space units the model skips is a `{space}*?` run re may take, unit by unit |
| Backtracking.HiddenDropMatchesAsWritten | sqlite6nf.py:374-379 | on a line comment followed by a block comment holding `DROP TABLE t`, re may end the line comment inside the block comment and match DROP TABLE t at 0; the model ends the comments at their first ends and reports no statement |
| Backtracking.QuoteEndAsWrittenIsAnEnd | sqlite6nf.py:314-333 | the first end of a quoted body as written is one of the ends re may give the quote when it backtracks |
| Backtracking.QuotedSchemaMatchesAsWritten | sqlite6nf.py:346-349 | on `DROP TABLE "a" x".b; DROP TABLE t`, the quote `"a"` closes at 14 with no `.` after it, so re extends the quoted schema to `"a" x"` and matches DROP TABLE with table b up to the `;`; resuming there it reports DROP TABLE t, which lies inside the quote the IGNORE chain leaves unclosed from 16; the model reports DROP TABLE "a" alone |
| Backtracking.StatementAtNone | sqlite6nf.py:356-358 | no statement is found off an anchor, or where the spaces run to the end of the text |
| Opacity.ChainPositionIsOutside | sqlite6nf.py:350-355 | an end of a whole number of IGNORE units from the start never lies strictly inside a unit of that chain |
| Opacity.MatchOnChain | sqlite6nf.py:359-417 | a pattern match ends, and every group it sets starts and ends, at an end of whole IGNORE units from where the match started; this holds with each comment and quoted identifier ending at its first end, as intended (the source as written differs, see Findings) |
| Opacity.StatementAtOnChain | sqlite6nf.py:419-424 | a statement's keyword, names and end are all ends of whole IGNORE units from its start; this holds with each comment and quoted identifier ending at its first end, as intended (the source as written differs, see Findings) |
| Opacity.ScanOnChain | sqlite6nf.py:419-424 | every statement the scan reports starts on the IGNORE chain from the start of the text; this holds with each comment and quoted identifier ending at its first end, as intended (the source as written differs, see Findings) |
| Opacity.StatementsOutsideUnits | sqlite6nf.py:419-424 | no reported statement starts, has its keyword or ends inside a comment or quoted identifier; this holds with each comment and quoted identifier ending at its first end, as intended (the source as written differs, see Findings) |
| Opacity.StatementNamesOutsideUnits | sqlite6nf.py:419-424 | no table or schema name a statement reports starts inside a comment or quoted identifier; this holds with each comment and quoted identifier ending at its first end, as intended (the source as written differs, see Findings) |
| Opacity.StatementsFollowSeparator | sqlite6nf.py:356-358 | a statement not at the start of the text follows a `;` that is itself a whole unit of the chain, not part of a comment or quote; this holds with each comment and quoted identifier ending at its first end, as intended (the source as written differs, see Findings) |
| Opacity.ReferenceAtOnChain | sqlite6nf.py:413-417 | a reference's table name and end are ends of whole IGNORE units from its keyword; this holds with each comment and quoted identifier ending at its first end, as intended (the source as written differs, see Findings) |
| Opacity.ReferencesOnChain | sqlite6nf.py:425-428 | every reference the scan reports, and its table name, lies on the IGNORE chain from the start; this holds with each comment and quoted identifier ending at its first end, as intended (the source as written differs, see Findings) |
| Opacity.ReferencesOutsideUnits | sqlite6nf.py:425-428 | no reported FROM/JOIN keyword or table name lies inside a comment or quoted identifier; this holds with each comment and quoted identifier ending at its first end, as intended (the source as written differs, see Findings) |
| Templates.Digits | sqlite6nf.py:559 | an id prints as one or more decimal digits |
| Templates.DigitsValueOfDigits | sqlite6nf.py:559 | reading the printed digits back gives the number |
| Templates.IntText | sqlite6nf.py:559 | an id prints as digits, with a minus sign first only when negative |
| Templates.IntTextInjective | sqlite6nf.py:559 | distinct ids print differently |
| Templates.FormatSplit | sqlite6nf.py:562 | formatting a template cut in two gives the two formatted halves, joined |
| Templates.QuotedNameAtSplice | sqlite6nf.py:559 | a name with its `"` doubled between two `"` is read back by the identifier scanner as that name |
| Templates.SplicedNameReadsBack | sqlite6nf.py:559 | wherever a template puts a name field between quotes, the formatted text holds the quoted name there and it reads back |
| Templates.InstanceTemplatesWellFormed | sqlite6nf.py:147-161 | the instance and instance-exist templates use only table_format keys and quote every name |
| Templates.ValueTableTemplateWellFormed | sqlite6nf.py:163-171 | the value-table template uses only column_format keys and quotes every name |
| Templates.InsertTriggerTemplateWellFormed | sqlite6nf.py:173-185 | the insert trigger uses only table_format keys and quotes every name |
| Templates.DeleteTriggerTemplateWellFormed | sqlite6nf.py:187-195 | the delete trigger uses only table_format keys and quotes every name |
| Templates.ValueInsertTriggerTemplateWellFormed | sqlite6nf.py:197-205 | the value insert trigger uses only column_format keys and quotes every name |
| Templates.ValueUpdateTriggerTemplateWellFormed | sqlite6nf.py:207-215 | the value update trigger uses only column_format keys and quotes every name |
| Templates.TableFormat | sqlite6nf.py:559 | table_format has exactly the keys the table templates use, and holds the name with its `"` doubled |
| Templates.ColumnFormat | sqlite6nf.py:571-572 | column_format has exactly the keys the column templates use, and holds both names with their `"` doubled |
| Affinity.TrimStart | sqlite6nf.py:113 | the text left after the leading white space SQLite skips before a number: a suffix whose first character is not white space, everything before it being white space |
| Affinity.TrimEnd | sqlite6nf.py:113 | the text left after the trailing white space: a prefix whose last character is not white space, everything after it being white space |
| Affinity.StoredName | sqlite6nf.py:113 | what the INTEGER `name` column stores for a bound name: text exactly when the trimmed name is neither an integer nor a real literal, and then the name unchanged; an integer only for an integer literal, within the 64-bit range |
| Affinity.DigitNamesStoredAsValue | sqlite6nf.py:113 | a name made of digits whose number fits in 64 bits is stored as that number |
| Affinity.SignedNameStoredAsValue | sqlite6nf.py:113 | a minus sign then digits is stored as the negative number, when it fits in 64 bits |
| Affinity.IntegerNamesStoredAsValue | sqlite6nf.py:113 | a name that is the decimal text of a 64-bit integer is stored as that integer, so it alone reads back as written |
| Affinity.NotNumeric | sqlite6nf.py:113 | a text starting with a letter or `_` is neither an integer nor a real literal |
| Affinity.WordNamesKept | sqlite6nf.py:113 | a name starting with a letter or `_`, as every bare SQL identifier does, is stored as that text |
| Affinity.ZerosPrefixValue | sqlite6nf.py:113 | leading zeros do not change the number a run of digits stands for |
| Affinity.LeadingZeroNamesCollide | sqlite6nf.py:113 | a name and the same name with leading zeros are distinct but stored as the same integer, so the catalog cannot tell them apart |
| Affinity.ZeroZeroSevenCollides | sqlite6nf.py:113 | the table names `007` and `7` are both stored as the integer 7 |
| Catalogs.TableTemplate | sqlite6nf.py:562-565 | every per-table template can be filled from table_format and quotes every name |
| Catalogs.ColumnTemplate | sqlite6nf.py:575-577 | every per-column template can be filled from column_format and quotes every name |
| Catalogs.NextId | sqlite6nf.py:557 | the id of a row inserted with a NULL key is larger than every id in the table, is 1 in an empty table, and is otherwise one more than an id present |
| Catalogs.AddColumnAdds | sqlite6nf.py:568-577 | one column iteration adds one fresh column id linked to the table, with one exist row and one name row |
| Catalogs.ColumnsAddedCompose | sqlite6nf.py:568-577 | columns added in two stretches are the columns added in one, in order |
| Catalogs.AddColumnKeeps | sqlite6nf.py:568-577 | a column iteration only appends, keeps the table rows and the transaction flag, and sends six statements, none BEGIN or COMMIT |
| Catalogs.AddColumnsKeepsTables | sqlite6nf.py:568-577 | the column loop only appends, keeps the table rows and the transaction flag, and sends six statements per column, none BEGIN or COMMIT |
| Catalogs.AddColumnsAddsColumns | sqlite6nf.py:568-577 | the column loop adds every introspected column in order, each with a fresh id linked to its table and its exist and name rows |
| Catalogs.RegisterAdds | sqlite6nf.py:557-564 | registering a table adds one fresh table id with its exist and name rows, no column, and six statements without BEGIN or COMMIT |
| Catalogs.TablesAddedCompose | sqlite6nf.py:556-577 | tables added in two stretches are the tables added in one, in order |
| Catalogs.AddTableKeeps | sqlite6nf.py:557-577 | a table iteration succeeds exactly when the database has the table, only appends, and sends no BEGIN or COMMIT |
| Catalogs.RegisterWithDeleteTrigger | sqlite6nf.py:557-566 | the part of a table iteration before its columns adds the table and no column |
| Catalogs.AddTableAdds | sqlite6nf.py:557-577 | a successful table iteration adds the table and then its columns, linked to the table's new id |
| Catalogs.AddTablesStopsAtFailure | sqlite6nf.py:556-577 | once a table raises, the tables after it are not visited |
| Catalogs.AddTablesDone | sqlite6nf.py:556-577 | the table loop runs to the end exactly when the database has every table it visits |
| Catalogs.AddTablesKeeps | sqlite6nf.py:556-577 | the table loop only appends and sends no BEGIN or COMMIT, whether it finishes or raises |
| Catalogs.AddTablesAdds | sqlite6nf.py:556-577 | a finished table loop adds every table visited, in order, with fresh ids and one exist and one name row each, then each table's columns linked to it |
| Catalogs.NormalizeDone | sqlite6nf.py:534-581 | normalize raises exactly when some table it visits is missing from the database |
| Catalogs.NormalizeAdds | sqlite6nf.py:552-577 | a normalize that returns adds every selected table and every one of its columns, with fresh ids and exist and name rows all stamped with the one time taken |
| Catalogs.SelectOneTable | sqlite6nf.py:552-553 | a single table name is treated as the list of that one name |
| Catalogs.NormalizeSends | sqlite6nf.py:540-579 | normalize sends its opening statements, then no BEGIN or COMMIT, then COMMIT exactly when it returns and was not in a transaction |
| Catalogs.OpeningShape | sqlite6nf.py:540-551 | the opening is BEGIN when not in a transaction, then the six catalog tables, then no BEGIN or COMMIT |
| Catalogs.NormalizeBegins | sqlite6nf.py:540-548 | BEGIN is sent first exactly when no transaction was open, never elsewhere, and the six catalog tables come right after |
| Catalogs.NormalizeCommits | sqlite6nf.py:578-579 | a returning normalize leaves the transaction as it found it, with COMMIT last exactly when it sent BEGIN; one that raises leaves it open and sends no COMMIT |
| Catalogs.RegisterKeepsValid | sqlite6nf.py:557-561 | registering a table keeps every primary key unique and every foreign key pointing at an existing row |
| Catalogs.AddColumnKeepsValid | sqlite6nf.py:569-574 | a column iteration keeps the catalog's keys valid |
| Catalogs.AddColumnsKeepsValid | sqlite6nf.py:568-577 | the column loop keeps the catalog's keys valid |
| Catalogs.AddTableKeepsValid | sqlite6nf.py:557-577 | a table iteration keeps the catalog's keys valid, whether it finishes or raises |
| Catalogs.AddTablesKeepsValid | sqlite6nf.py:556-577 | the table loop keeps the catalog's keys valid |
| Catalogs.NormalizeKeepsValid | sqlite6nf.py:93-145 | normalize never breaks a PRIMARY KEY or FOREIGN KEY the catalog tables declare, so no INSERT OR ROLLBACK conflicts |
| Catalogs.BracketTexts | sqlite6nf.py:85-91 | a statement's text is the BEGIN text exactly when it is BEGIN, and the COMMIT text exactly when it is COMMIT |
| Catalogs.AddColumnsSends | sqlite6nf.py:568-577 | each column's value table and triggers are formatted with the id of that column's new row |
| Catalogs.AddTableSends | sqlite6nf.py:557-577 | a table iteration sends its registration and delete trigger with the table's new id, the column query, then its columns' statements |
| Catalogs.AddTableFails | sqlite6nf.py:564 | for a missing table the iteration stops after the insert trigger, the statement that raises |
| Catalogs.TableNameReadsBack | sqlite6nf.py:559 | wherever a per-table statement names its table, the text holds it quoted and it reads back as the table name |
| Catalogs.ColumnNamesReadBack | sqlite6nf.py:571-572 | wherever a per-column statement names its table or column, the text holds it quoted and it reads back as that name |
| Connections.Connection.constructor | sqlite6nf.py:508 | a connection starts in the given state |
| Connections.Connection.Execute | sqlite6nf.py:541-542 | executing a statement logs it; BEGIN opens the transaction, COMMIT closes it, and nothing else changes |
| Connections.Connection.InsertTable | sqlite6nf.py:557 | the insert into sqlite6nf_table gets the next id and appends its row |
| Connections.Connection.InsertTableExist | sqlite6nf.py:560 | appends the table's exist row (exist 1, at the call's time) |
| Connections.Connection.InsertTableName | sqlite6nf.py:561 | appends the table's name row at the call's time |
| Connections.Connection.InsertColumn | sqlite6nf.py:569 | the insert into sqlite6nf_column gets the next column id and links it to the table |
| Connections.Connection.InsertColumnExist | sqlite6nf.py:573 | appends the column's exist row |
| Connections.Connection.InsertColumnName | sqlite6nf.py:574 | appends the column's name row |
| Connections.Connection.NormalizeColumn | sqlite6nf.py:568-577 | one column iteration leaves the connection in the state Catalogs.AddColumn gives |
| Connections.Connection.RegisterTable | sqlite6nf.py:557-564 | the start of a table iteration returns the table's new id and leaves the state Catalogs.Register gives |
| Connections.Connection.NormalizeColumns | sqlite6nf.py:568-577 | the column loop leaves the state Catalogs.AddColumns gives |
| Connections.Connection.NormalizeTable | sqlite6nf.py:557-577 | one table iteration reports success exactly when Catalogs.AddTable does, and leaves its state |
| Connections.Connection.CreateCatalogTables | sqlite6nf.py:543-548 | sends the six CREATE TABLE IF NOT EXISTS statements and changes nothing else |
| Connections.Connection.Open | sqlite6nf.py:540-553 | sends BEGIN when needed, the catalog tables and, for None, the listing query, and returns the names to visit |
| Connections.Connection.NormalizeTables | sqlite6nf.py:556-577 | the table loop reports success exactly when Catalogs.AddTables does, and leaves its state |
| Connections.Connection.Normalize | sqlite6nf.py:534-581 | normalize returns exactly when Catalogs.Normalize finishes, leaves that state, and keeps a valid catalog valid |

## Left out

- `Cursor.execute`, `executemany` and `executescript`, `Connection.cursor` and `connect` (sqlite6nf.py:431-468, 509-514, 584-595) are left out. They hand their arguments on to the sqlite3 library.
- The bodies of `simulate` and `substitute` (sqlite6nf.py:470-505, 516-532) are left out: every branch is `pass`. The scans they would drive are modelled (`Classifier.ScanStatements`, `Classifier.ScanReferences`).
- The two queries whose rows normalize reads (sqlite6nf.py:274-295) run inside SQLite. Their results are the input `Schema`: the names the table query returns, in its order, and each table's `(name, type)` column rows. `Schema.tables` holds the names whose insert trigger succeeds when the table loop visits them, including tables normalize itself creates, such as `sqlite6nf_1`.
- SQL is modelled as a statement value (which template, which arguments). `Catalogs.Text` gives the exact text sent; the SQL semantics of those texts is not modelled.
- The triggers normalize creates, and the `strftime('now')` timestamps they record, run inside SQLite and are not modelled.
- `datetime.now()` (sqlite6nf.py:554) is the parameter `now`: one value for the whole call, kept as a string.
- Catalogs.NameRow: the name rows that Catalogs.NormalizeAdds, Connections.Connection.InsertTableName and Connections.Connection.InsertColumnName add keep the bound string, as a TEXT column would. The INTEGER affinity of the declared `name` columns (sqlite6nf.py:113, :141) is not modelled there; `Affinity` models it apart, and the fifth row of Findings shows what it loses.
- Affinity.StoredName: a real literal, or an integer literal outside the 64-bit range, is marked `Real` with its text. The floating-point value SQLite stores, and its conversion back to an integer when that value is integral (`1e3` is stored as 1000), are not modelled. Hexadecimal literals are not numeric under affinity and stay text, as modelled.
- Catalogs.NextId: does not model SQLite's fallback to a random unused rowid once the largest id reaches 2^63-1.
- Failures other than creating a trigger on a table the database lacks (sqlite6nf.py:564) are left out: lock errors on BEGIN, I/O errors, disk full. On that failure the model keeps what the earlier statements did, and the transaction stays open. Rolling back is left to the caller, as in the source.
- INSERT OR ROLLBACK conflicts are not modelled as a failure path. `Catalogs.NormalizeKeepsValid` shows they cannot happen on a catalog whose keys are valid.
- Foreign keys are checked only as the `Valid` invariant. Whether SQLite enforces them depends on `PRAGMA foreign_keys`, which is not modelled.
- The INSERT templates at sqlite6nf.py:255-272 are never used by normalize and are not modelled.
- Patterns.Match: within a statement pattern, a comment or quoted identifier keeps its first (shortest) end. Python's re may backtrack into such a body when a later piece fails; for comments this is the third row of Findings and for a quoted schema the fourth, both modelled as written in `Backtracking` on one text each. The general as-written matcher, with every end re may take for every comment and quote, is not modelled. Keywords, space runs, optional groups and alternations do backtrack as in re. The IGNORE chain of the scans itself never backtracks, because `$` always ends it.
- Classifier.CreateAt, Classifier.AlterAt, Classifier.DropAt, Classifier.AttachAt, Classifier.DetachAt, Classifier.StatementAt: their own ensures give only the kind, the start and where the statement ends. What they read is stated by the `Readings` lemmas: `…AtReads`, `…Found` and `…StatementTail`, with `…TailReads`.
- Classifier.CreateTail, Classifier.AlterTail, Classifier.DropTail, Classifier.AttachTail, Classifier.DetachTail: their own ensures only bound where the match ends. What the match names is stated by the matching `…TailShape` lemmas and, word by word, by the `Readings.…TailReads` lemmas.
- Unicode: `\s` is the set of characters `str.isspace()` accepts, and `(?i)` folds ASCII letters plus the characters Python folds onto them in the keywords: `ı` and `İ` onto `i`, `ſ` onto `s`. The Kelvin sign folds onto `k`, which no keyword contains.

## Findings

| source | as written | input that shows it | evidently intended | confidence | as-written member | corrected member |
|---|---|---|---|---|---|---|
| sqlite6nf.py:408 | `(:{space}+?(?i:DATABASE))?` opens a capturing group whose first character is a literal `:` | `DETACH DATABASE aux`: no `:` follows DETACH, so the optional group is skipped and the word `DATABASE` is taken as the schema name | a non-capturing `(?:{space}+?(?i:DATABASE))?`, under which the schema is `aux` | not executed; high | Classifier.DetachDatabaseMisread | Classifier.DetachDatabaseRead |
| sqlite6nf.py:314-333 | the quoted body `(?s:.*?)[^'](?:'{2})*` needs a non-delimiter character just before the closing run | `'';x`: the empty literal does not close on its second quote, and the span runs on over `;x`. Also `""""` (the identifier `"`) is not recognised at all | a body made of non-delimiter characters and doubled delimiters in any mix, closing at the first undoubled delimiter | not executed; medium | Scanner.EmptyQuoteSwallowsText | Scanner.QuoteEndEscaped |
| sqlite6nf.py:298-307 | comment bodies are lazy `(?s:.*?)`, so when the rest of a statement pattern or of the FROM/JOIN pattern fails re backtracks into them and may end a comment at any later newline or `*/` | `-- x` newline `/*` newline `DROP TABLE t */`: to make DROP fit, re ends the line comment at the newline inside the block comment and reports DROP TABLE t, which is commented out | a comment ends at its first newline or `*/`, so nothing inside one is classified | not executed; high | Backtracking.HiddenDropMatchesAsWritten | Opacity.StatementsOutsideUnits |
| sqlite6nf.py:346-349 | the optional schema group of `_PATTERN_OBJECT` is a quoted identifier with a lazy body, then `{space}*?\.`; when no `.` follows the first closing quote, re backtracks into the body and tries every later closing quote | `DROP TABLE "a" x".b; DROP TABLE t`: re reads the schema `"a" x"` and table b, ends the match at the `;`, and then reports DROP TABLE t, which lies inside the unclosed quote `".b; DROP TABLE t` | a quoted identifier ends at its first closing quote, so nothing inside one is classified | not executed; high | Backtracking.QuotedSchemaMatchesAsWritten | Opacity.StatementsOutsideUnits |

| sqlite6nf.py:113 | both name tables declare `"name" INTEGER NOT NULL` (also at sqlite6nf.py:141), so the column has INTEGER affinity and a bound name that reads as a number is stored as that number | the table name `007` is stored as the integer 7, the same as the table name `7`; the name read back is `7` | a TEXT column, under which every name is stored as the string bound | not executed; medium | Affinity.ZeroZeroSevenCollides | Catalogs.NormalizeAdds |
In every row the rest of the model uses the corrected form.

- **DETACH.** `Classifier.DetachAt` and `Classifier.DetachTail` use the intended pattern. `Classifier.DetachAsWritten` and `Classifier.DetachTailAsWritten` keep the pattern as written.
- **Quoted identifiers.** `Scanner.QuoteEnd` is the corrected scanner. `Scanner.QuoteEndAsWritten` and `Scanner.EscapedQuoteOnlyUnrecognised` keep the pattern as written.
- **Comments.** `Scanner.SpaceEnd` ends each comment at its first end, and `Opacity` proves that nothing inside a comment is classified. `Backtracking.SpaceUnitEndAsWritten` keeps every end re may take.
- **Name columns.** `Affinity.StoredName` models the INTEGER column as declared, and `Affinity.LeadingZeroNamesCollide` shows the collision for every padded number. The catalog rows of `Catalogs` keep the bound name, as the intended TEXT column does. `Affinity.WordNamesKept` shows the two agree on every name that starts with a letter or `_`.
- **Quoted schema.** `Scanner.IdentifierEnd` ends each quoted identifier at its first end, and `Opacity` proves that nothing inside one is classified. `Backtracking.QuoteUnitEndAsWritten` keeps every end re may give a quote.
