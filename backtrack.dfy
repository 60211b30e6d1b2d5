/**
 * Backtracking into comment and quote bodies, as the statement patterns are
 * written.
 *
 * A comment is `--(?s:.*?)(?:\n|$)` or `/\*(?s:.*?)(?:\*\/|$)`
 * (sqlite6nf.py:298-307), and a quoted identifier is a quote, a lazy
 * `(?s:.*?)[^"](?:"{2})*` and a lone quote or `$` (sqlite6nf.py:314-333).
 * re first ends each body at the first place it can. But when the rest of a
 * statement pattern then fails, re backtracks into that body and tries every
 * later end in turn. A `{space}*?` run in front of a statement keyword can
 * thus end inside a block comment, and the keyword written in the comment is
 * read as a statement; a quoted schema can grow past its closing quote until
 * a `.` follows, and the match then ends inside what the IGNORE chain steps
 * over as one unclosed quote. The rest of the model ends every comment and
 * every quote at its first end, which is what the patterns evidently intend
 * (comments and quotes are opaque, as Opacity proves of that matcher); this
 * module keeps the ends re may take and exhibits two texts on which the two
 * differ.
 */
module Backtracking {
  import opened Wrappers
  import opened Scanner
  import opened Patterns
  import opened Classifier
  import opened Readings

  /**
   * e is an end re may give one `{space}` unit at p (sqlite6nf.py:298-313):
   * past a white space character; for a line comment, past any later
   * newline or at `$`; for a block comment, past any later star-slash or
   * at `$`.
   */
  predicate SpaceUnitEndAsWritten(s: string, p: nat, e: nat) {
    && p < e <= |s|
    && (|| (IsSpace(s[p]) && e == p + 1)
        || (LineCommentAt(s, p) && ((p + 2 < e && s[e - 1] == '\n') || (p + 2 <= e && AtEnd(s, e))))
        || (BlockCommentAt(s, p) && ((p + 4 <= e && CloseAt(s, e - 2)) || (p + 2 <= e && AtEnd(s, e)))))
  }

  /** Where a run of units from p that ends at each of ends in turn stops. */
  function RunEnd(p: nat, ends: seq<nat>): (k: nat)
    ensures ends == [] ==> k == p
    ensures ends != [] ==> k == ends[|ends| - 1]
  {
    if ends == [] then p else ends[|ends| - 1]
  }

  /** `{space}*?` from p as re may take it: units one after another, the first ending at ends[0], the next at ends[1], and so on. */
  predicate SpaceRunAsWritten(s: string, p: nat, ends: seq<nat>)
    decreases |ends|
  {
    ends == [] || (SpaceUnitEndAsWritten(s, p, ends[0]) && SpaceRunAsWritten(s, ends[0], ends[1..]))
  }

  /** The end the model gives a space unit, its first end, is one of the ends re may give it. */
  lemma FirstEndAsWritten(s: string, p: nat)
    requires p <= |s| && SpaceEnd(s, p).Some?
    ensures SpaceUnitEndAsWritten(s, p, SpaceEnd(s, p).value)
  {
    if LineCommentAt(s, p) && !IsSpace(s[p]) {
      assert SpaceEnd(s, p).value == LineEnd(s, p + 2);
    }
  }

  /** Every run of space units the model skips is a run re may take, unit by unit. */
  lemma {:induction false} SkipSpacesAsWritten(s: string, p: nat)
    requires p <= |s|
    decreases |s| - p
    ensures exists ends :: SpaceRunAsWritten(s, p, ends) && RunEnd(p, ends) == SkipSpaces(s, p)
  {
    match SpaceEnd(s, p)
    case None =>
      assert SpaceRunAsWritten(s, p, []) && RunEnd(p, []) == SkipSpaces(s, p);
    case Some(q) =>
      FirstEndAsWritten(s, p);
      SkipSpacesAsWritten(s, q);
      var rest :| SpaceRunAsWritten(s, q, rest) && RunEnd(q, rest) == SkipSpaces(s, q);
      var ends := [q] + rest;
      assert ends[1..] == rest;
      assert SpaceRunAsWritten(s, p, ends) && RunEnd(p, ends) == SkipSpaces(s, p);
  }

  /**
   * One way `_PATTERN_QUERY_DROP_TABLE` (sqlite6nf.py:374-379) matches at
   * the anchor p under re: a `{space}*?` run as re may take it, DROP, and
   * then the DROP reading, whose first-end choices re may take as well.
   * When it holds, re reports a statement at p.
   */
  predicate DropTableMatchAsWritten(s: string, p: nat, ends: seq<nat>, t: Tail) {
    && p <= |s| && Anchored(s, p) && SpaceRunAsWritten(s, p, ends)
    && KeywordAt(s, RunEnd(p, ends), "DROP")
    && DropRead(s, RunEnd(p, ends) + 4, "TABLE") == Some(t)
  }

  /** The text of the counterexample: a line comment, then a block comment holding a DROP TABLE. */
  const HiddenDrop: string := "-- x\n/*\nDROP TABLE t */"

  /**
   * On HiddenDrop re may end the line comment at the newline inside the
   * block comment; DROP TABLE t then matches at 0 and the source reports
   * it. In the model the line comment ends at its first newline, the block
   * comment after it runs to the end, and no statement is reported.
   */
  lemma HiddenDropMatchesAsWritten()
    ensures DropTableMatchAsWritten(HiddenDrop, 0, [8], Tail(false, Object(ObjectRef(None, Span(19, 20))), 20))
    ensures SpaceEnd(HiddenDrop, 0) == Some(5) && SpaceEnd(HiddenDrop, 5) == Some(23)
    ensures Statements(HiddenDrop) == []
  {
    HiddenDropPath();
    HiddenDropUnits();
    HiddenDropScan();
  }

  /** The path re may take on HiddenDrop: the line comment up to the second newline, then DROP and its reading. */
  lemma HiddenDropPath()
    ensures DropTableMatchAsWritten(HiddenDrop, 0, [8], Tail(false, Object(ObjectRef(None, Span(19, 20))), 20))
  {
    var s := HiddenDrop;
    assert s[7] == '\n';
    assert SpaceUnitEndAsWritten(s, 0, 8);
    assert SpaceRunAsWritten(s, 0, [8]);
    assert KeywordAt(s, 8, "DROP");
    HiddenDropRead();
  }

  /** The DROP reading after the hidden DROP: TABLE, no IF EXISTS, the table t. */
  lemma HiddenDropRead()
    ensures DropRead(HiddenDrop, 12, "TABLE") == Some(Tail(false, Object(ObjectRef(None, Span(19, 20))), 20))
  {
    HiddenTableWord();
    HiddenNoGuard();
    HiddenTable();
    assert GuardedObject(HiddenDrop, 18, IfExists) == Some(ObjectRef(None, Span(19, 20)));
  }

  /** TABLE follows DROP after one space. */
  lemma HiddenTableWord()
    ensures SpacedWord(HiddenDrop, 12, "TABLE") == Some(18)
  {
    var s := HiddenDrop;
    assert SpaceEnd(s, 12) == Some(13);
    assert SpaceEnd(s, 13).None?;
    assert KeywordAt(s, 13, "TABLE");
  }

  /** No IF follows TABLE, and the table name t comes after one space. */
  lemma HiddenNoGuard()
    ensures SpaceEnd(HiddenDrop, 18) == Some(19) && SkipSpaces(HiddenDrop, 18) == 19
    ensures SpacedWords(HiddenDrop, 18, IfExists).None?
  {
    var s := HiddenDrop;
    assert SpaceEnd(s, 18) == Some(19);
    assert SpaceEnd(s, 19).None?;
    assert !KeywordChar(s[19], "IF"[0]);
    assert SpacedWord(s, 18, "IF").None?;
  }

  /** The object at 19 is the bare name t, with no schema: no `.` follows it. */
  lemma HiddenTable()
    ensures ObjectAt(HiddenDrop, 19) == Some(ObjectRef(None, Span(19, 20)))
  {
    var s := HiddenDrop;
    BareEndExactly(s, 19, 20);
    assert IdentifierEnd(s, 19) == Some(20);
    assert SpaceEnd(s, 20) == Some(21) && SpaceEnd(s, 21).None?;
    assert SkipSpaces(s, 20) == 21;
  }

  /** The first ends of the two comments of HiddenDrop: the block comment runs to the end. */
  lemma HiddenDropUnits()
    ensures SpaceEnd(HiddenDrop, 0) == Some(5) && SpaceEnd(HiddenDrop, 5) == Some(23)
    ensures SkipSpaces(HiddenDrop, 0) == 23
  {
    HiddenLineComment();
    HiddenBlockComment();
    assert SpaceEnd(HiddenDrop, 23).None?;
  }

  /** The line comment of HiddenDrop ends at its first newline. */
  lemma HiddenLineComment()
    ensures LineEnd(HiddenDrop, 2) == 5
  {
    var s := HiddenDrop;
    assert s[2] != '\n' && s[3] != '\n' && s[4] == '\n';
  }

  /** The block comment of HiddenDrop ends after the star-slash at 21, the end of the text. */
  lemma HiddenBlockComment()
    ensures BlockEnd(HiddenDrop, 7) == 23
  {
    var s := HiddenDrop;
    assert CloseAt(s, 21);
    assert BlockEnd(s, 21) == 23;
    assert BlockEnd(s, 18) == 23;
    assert BlockEnd(s, 14) == 23;
    assert BlockEnd(s, 10) == 23;
  }

  /** The model's scan of HiddenDrop: no anchor with a keyword, so no statement. */
  lemma HiddenDropScan()
    ensures Statements(HiddenDrop) == []
  {
    var s := HiddenDrop;
    HiddenDropUnits();
    StatementAtNone(s, 0);
    StatementAtNone(s, 5);
    StatementAtNone(s, 23);
    assert ScanStatements(s, 23) == [];
    assert ScanStatements(s, 5) == [];
  }

  /** No statement is found at p when the spaces there run to the end, or p is no anchor. */
  lemma StatementAtNone(s: string, p: nat)
    requires p <= |s| && (SkipSpaces(s, p) == |s| || !Anchored(s, p))
    ensures StatementAt(s, p).None?
  {
    if StatementAt(s, p).Some? {
      StatementAtAnchored(s, p);
    }
  }

  // ------------------------------------------------------------ quoted schema

  /**
   * e is an end re may give the quoted identifier opening at p
   * (sqlite6nf.py:314-333) when its lazy `(?s:.*?)` stops at q: `[^"]` at q,
   * the greedy run of doubled quotes after it, then a lone quote or `$`.
   * Fewer doubled quotes never close, so each q gives at most one end.
   */
  predicate QuoteUnitEndAsWritten(s: string, p: nat, q: nat, e: nat) {
    p < q < |s| && IsQuote(s[p]) && CloseAfterAsWritten(s, s[p], q) == Some(e)
  }

  /** The first end of a quoted body as written, from q on, is one of the ends re may give the quote at p. */
  lemma {:induction false} QuoteEndAsWrittenIsAnEnd(s: string, p: nat, q: nat)
    requires p < q <= |s| && IsQuote(s[p]) && QuoteEndAsWritten(s, s[p], q).Some?
    decreases |s| - q
    ensures exists r :: q <= r && QuoteUnitEndAsWritten(s, p, r, QuoteEndAsWritten(s, s[p], q).value)
  {
    match CloseAfterAsWritten(s, s[p], q)
    case Some(e) =>
      assert QuoteUnitEndAsWritten(s, p, q, e);
    case None =>
      QuoteEndAsWrittenIsAnEnd(s, p, q + 1);
  }

  /**
   * One way `_PATTERN_QUERY_DROP_TABLE` (sqlite6nf.py:374-379) matches at
   * the anchor p under re with its schema group taken: DROP and TABLE as the
   * model reads them, no IF EXISTS, then a quoted schema that re ends at e
   * after stopping its lazy body at q, `{space}*?\.{space}*?` and the table
   * identifier, which ends the match with the tail t.
   */
  predicate DropSchemaMatchAsWritten(s: string, p: nat, q: nat, e: nat, t: Tail) {
    && p <= |s| && Anchored(s, p) && KeywordAt(s, SkipSpaces(s, p), "DROP")
    && SpacedWord(s, SkipSpaces(s, p) + 4, "TABLE").Some?
    && var n := SpacedWord(s, SkipSpaces(s, p) + 4, "TABLE").value;
       && SpacedWords(s, n, IfExists).None?
       && var o := SkipSpaces(s, n);
          && QuoteUnitEndAsWritten(s, o, q, e)
          && var d := SkipSpaces(s, e);
             && d < |s| && s[d] == '.'
             && var y := SkipSpaces(s, d + 1);
                && IdentifierEnd(s, y).Some?
                && t == Tail(false, Object(ObjectRef(Some(Span(o, e)), Span(y, IdentifierEnd(s, y).value))), IdentifierEnd(s, y).value)
  }

  /** The text of the second counterexample: a quoted table, a stray word, and an unclosed quote over a DROP TABLE. */
  const QuotedDrop: string := "DROP TABLE \"a\" x" + "\".b; DROP TABLE t"

  /**
   * On QuotedDrop re first closes the quote at 14, finds no `.` after it,
   * and extends the quoted schema to `"a" x"` (0..17); `.b` follows, so the
   * match is DROP TABLE with schema `"a" x"` and table b, ending at 19. re
   * resumes at 19 and reports DROP TABLE t at 20. In the model the quote
   * closes at 14, DROP TABLE "a" is the only statement, and the quote opened
   * at 16 runs to the end, over the second DROP.
   */
  lemma QuotedSchemaMatchesAsWritten()
    ensures CloseAfterAsWritten(QuotedDrop, '"', 12) == Some(14) && SkipSpaces(QuotedDrop, 14) == 15 && QuotedDrop[15] != '.'
    ensures CloseAfterAsWritten(QuotedDrop, '"', 13).None? && CloseAfterAsWritten(QuotedDrop, '"', 14).None?
    ensures DropSchemaMatchAsWritten(QuotedDrop, 0, 15, 17, Tail(false, Object(ObjectRef(Some(Span(11, 17)), Span(18, 19))), 19))
    ensures ScanStatements(QuotedDrop, 19) == [Statement(DropTable, 20, 21, Tail(false, Object(ObjectRef(None, Span(32, 33))), 33))]
    ensures Statements(QuotedDrop) == [Statement(DropTable, 0, 0, Tail(false, Object(ObjectRef(None, Span(11, 14))), 14))]
    ensures IgnoreEnd(QuotedDrop, 16) == |QuotedDrop|
  {
    QuotedFirstEnd();
    QuotedSchemaPath();
    QuotedResume();
    QuotedScan();
  }

  /** The first end re gives the quote at 11, and the two stops of the lazy body that give none. */
  lemma QuotedFirstEnd()
    ensures CloseAfterAsWritten(QuotedDrop, '"', 12) == Some(14) && SkipSpaces(QuotedDrop, 14) == 15 && QuotedDrop[15] != '.'
    ensures CloseAfterAsWritten(QuotedDrop, '"', 13).None? && CloseAfterAsWritten(QuotedDrop, '"', 14).None?
  {
    var s := QuotedDrop;
    assert PairRun(s, '"', 13) == 13;
    assert PairRun(s, '"', 15) == 15;
    assert SpaceEnd(s, 14) == Some(15) && SpaceEnd(s, 15).None?;
  }

  /** The first DROP opens at the start of QuotedDrop. */
  lemma QuotedLead()
    ensures LeadAt(QuotedDrop, 0, "DROP") == Some(0)
  {
    QuotedDropTable();
  }

  /** DROP at the start of QuotedDrop, with TABLE after it. */
  lemma QuotedDropTable()
    ensures SkipSpaces(QuotedDrop, 0) == 0 && KeywordAt(QuotedDrop, 0, "DROP") && LeadAt(QuotedDrop, 0, "DROP") == Some(0)
    ensures SpacedWord(QuotedDrop, 4, "TABLE") == Some(10)
  {
    var s := QuotedDrop;
    assert SpaceEnd(s, 0).None?;
    assert SpaceEnd(s, 4) == Some(5) && SpaceEnd(s, 5).None?;
    assert KeywordAt(s, 5, "TABLE");
  }

  /** No IF follows TABLE; the quote at 11 comes after one space. */
  lemma QuotedNoGuard()
    ensures SpacedWords(QuotedDrop, 10, IfExists).None? && SkipSpaces(QuotedDrop, 10) == 11
  {
    var s := QuotedDrop;
    assert SpaceEnd(s, 10) == Some(11) && SpaceEnd(s, 11).None?;
    assert !KeywordChar(s[11], "IF"[0]);
    assert SpacedWord(s, 10, "IF").None?;
  }

  /** The path re takes on QuotedDrop: the quote extended to 17, then `.b`. */
  lemma QuotedSchemaPath()
    ensures DropSchemaMatchAsWritten(QuotedDrop, 0, 15, 17, Tail(false, Object(ObjectRef(Some(Span(11, 17)), Span(18, 19))), 19))
  {
    QuotedDropTable();
    QuotedNoGuard();
    QuotedSchemaEnd();
    QuotedDotTable();
  }

  /** With its lazy body stopped at 15, the quote at 11 closes on the quote at 16. */
  lemma QuotedSchemaEnd()
    ensures QuoteUnitEndAsWritten(QuotedDrop, 11, 15, 17)
  {
    var s := QuotedDrop;
    assert PairRun(s, '"', 16) == 16;
  }

  /** Right after the extended quote: `.`, then the bare table name b. */
  lemma QuotedDotTable()
    ensures SkipSpaces(QuotedDrop, 17) == 17 && QuotedDrop[17] == '.'
    ensures SkipSpaces(QuotedDrop, 18) == 18 && IdentifierEnd(QuotedDrop, 18) == Some(19)
  {
    var s := QuotedDrop;
    assert SpaceEnd(s, 17).None? && SpaceEnd(s, 18).None?;
    BareEndExactly(s, 18, 19);
  }

  /** Where a DROP TABLE reads at the anchor p, the scan reports it and resumes at its end. */
  lemma ScanReportsDropTable(s: string, p: nat, k: nat, t: Tail)
    requires p <= |s| && LeadAt(s, p, "DROP") == Some(k) && DropRead(s, k + 4, "TABLE") == Some(t)
    ensures ScanStatements(s, p) == [Statement(DropTable, p, k, t)] + ScanStatements(s, t.end)
  {
    DropFound(s, p, DropTable, k, t);
  }

  /** A DROP TABLE reading with no IF EXISTS is the object right after the spaces that follow TABLE. */
  lemma DropReadUnguarded(s: string, c: nat, n: nat, o: ObjectRef)
    requires c <= |s| && SpacedWord(s, c, "TABLE") == Some(n) && SpacedWords(s, n, IfExists).None?
    requires ObjectAt(s, SkipSpaces(s, n)) == Some(o)
    ensures DropRead(s, c, "TABLE") == Some(Tail(false, Object(o), o.table.end))
  {
  }

  /** The model's object at 11: the quote closes at 14 and no `.` follows it. */
  lemma QuotedFirstObject()
    ensures ObjectAt(QuotedDrop, 11) == Some(ObjectRef(None, Span(11, 14)))
  {
    QuotedFirstClose();
    QuotedFirstEnd();
  }

  /** The model closes the quote at 11 on the quote at 13. */
  lemma QuotedFirstClose()
    ensures IdentifierEnd(QuotedDrop, 11) == Some(14)
  {
    var s := QuotedDrop;
    assert QuoteEnd(s, '"', 13) == 14;
    assert QuoteEnd(s, '"', 12) == 14;
  }

  /** The model's DROP TABLE reading after the first DROP. */
  lemma QuotedFirstRead()
    ensures DropRead(QuotedDrop, 4, "TABLE") == Some(Tail(false, Object(ObjectRef(None, Span(11, 14))), 14))
  {
    QuotedDropTable();
    QuotedNoGuard();
    QuotedFirstObject();
    DropReadUnguarded(QuotedDrop, 4, 10, ObjectRef(None, Span(11, 14)));
  }

  /** DROP after the anchor at 20, with TABLE after it. */
  lemma QuotedSecondDropTable()
    ensures LeadAt(QuotedDrop, 20, "DROP") == Some(21)
    ensures SpacedWord(QuotedDrop, 25, "TABLE") == Some(31)
  {
    var s := QuotedDrop;
    assert Anchored(s, 20);
    assert SpaceEnd(s, 20) == Some(21) && SpaceEnd(s, 21).None?;
    assert SkipSpaces(s, 20) == 21 && KeywordAt(s, 21, "DROP");
    assert SpaceEnd(s, 25) == Some(26) && SpaceEnd(s, 26).None?;
    assert KeywordAt(s, 26, "TABLE");
  }

  /** No IF follows the second TABLE; the name t comes after one space and ends the text. */
  lemma QuotedSecondObject()
    ensures SpacedWords(QuotedDrop, 31, IfExists).None? && SkipSpaces(QuotedDrop, 31) == 32
    ensures ObjectAt(QuotedDrop, 32) == Some(ObjectRef(None, Span(32, 33)))
  {
    var s := QuotedDrop;
    assert SpaceEnd(s, 31) == Some(32) && SpaceEnd(s, 32).None?;
    assert !KeywordChar(s[32], "IF"[0]);
    assert SpacedWord(s, 31, "IF").None?;
    BareEndExactly(s, 32, 33);
    assert IdentifierEnd(s, 32) == Some(33);
  }

  /** The model's DROP TABLE reading after the second DROP. */
  lemma QuotedSecondRead()
    ensures DropRead(QuotedDrop, 25, "TABLE") == Some(Tail(false, Object(ObjectRef(None, Span(32, 33))), 33))
  {
    QuotedSecondDropTable();
    QuotedSecondObject();
    DropReadUnguarded(QuotedDrop, 25, 31, ObjectRef(None, Span(32, 33)));
  }

  /** Where no statement matches, the scan steps over one IGNORE unit, or stops at `$`. */
  lemma ScanSkips(s: string, p: nat)
    requires p <= |s| && StatementAt(s, p).None?
    ensures AtEnd(s, p) ==> ScanStatements(s, p) == []
    ensures !AtEnd(s, p) ==> ScanStatements(s, p) == ScanStatements(s, IgnoreEnd(s, p))
  {
  }

  /** Nothing is found at the end of QuotedDrop. */
  lemma QuotedEnd()
    ensures ScanStatements(QuotedDrop, |QuotedDrop|) == []
  {
    StatementAtNone(QuotedDrop, 33);
    ScanSkips(QuotedDrop, 33);
  }

  /** Off an anchor and before `$`, the scan steps over one IGNORE unit. */
  lemma ScanSkipsOffAnchor(s: string, p: nat)
    requires 0 < p && p + 1 < |s| && s[p - 1] != ';'
    ensures ScanStatements(s, p) == ScanStatements(s, IgnoreEnd(s, p))
  {
    StatementAtNone(s, p);
  }

  /** The single IGNORE units the model's chain takes at 14, 15 and 19: a space, x and the `;`. */
  lemma QuotedSingleUnits()
    ensures IgnoreEnd(QuotedDrop, 14) == 15 && IgnoreEnd(QuotedDrop, 15) == 16 && IgnoreEnd(QuotedDrop, 19) == 20
  {
    var s := QuotedDrop;
    assert SpaceEnd(s, 14) == Some(15);
    assert SpaceEnd(s, 15).None? && !IsQuote(s[15]);
    assert SpaceEnd(s, 19).None? && !IsQuote(s[19]);
  }

  /** re resumes at 19, steps over the `;` and reports the second DROP TABLE. */
  lemma QuotedResume()
    ensures ScanStatements(QuotedDrop, 19) == [Statement(DropTable, 20, 21, Tail(false, Object(ObjectRef(None, Span(32, 33))), 33))]
  {
    var s := QuotedDrop;
    QuotedSecondDropTable();
    QuotedSecondRead();
    ScanReportsDropTable(s, 20, 21, Tail(false, Object(ObjectRef(None, Span(32, 33))), 33));
    QuotedEnd();
    QuotedSingleUnits();
    ScanSkipsOffAnchor(s, 19);
  }

  /** The quote the model opens at 16 is never closed: it runs to the end of the text. */
  lemma QuotedTail()
    ensures IgnoreEnd(QuotedDrop, 16) == |QuotedDrop|
  {
    var s := QuotedDrop;
    QuotedTailEnd();
    assert QuoteEnd(s, '"', 21) == 33;
    assert QuoteEnd(s, '"', 18) == 33;
    assert QuoteEnd(s, '"', 17) == 33;
  }

  /** No quote follows 24 in QuotedDrop: a quote body from there runs to the end. */
  lemma QuotedTailEnd()
    ensures QuoteEnd(QuotedDrop, '"', 24) == |QuotedDrop|
  {
    var s := QuotedDrop;
    assert QuoteEnd(s, '"', 33) == 33;
    assert QuoteEnd(s, '"', 30) == 33;
    assert QuoteEnd(s, '"', 27) == 33;
  }

  /**
   * Three positions off an anchor, each IGNORE unit leading to the next, the
   * last to a position from which nothing is found: nothing is found from
   * the first either.
   */
  lemma ScanFindsNothing(s: string, p: nat, q: nat, r: nat, e: nat)
    requires 0 < p < q < r && r + 1 < |s| && s[p - 1] != ';' && s[q - 1] != ';' && s[r - 1] != ';'
    requires IgnoreEnd(s, p) == q && IgnoreEnd(s, q) == r && IgnoreEnd(s, r) == e && ScanStatements(s, e) == []
    ensures ScanStatements(s, p) == []
  {
    ScanSkipsOffAnchor(s, r);
    ScanSkipsOffAnchor(s, q);
    ScanSkipsOffAnchor(s, p);
  }

  /** After the first statement the model's chain steps over a space, x and the unclosed quote. */
  lemma QuotedRest()
    ensures ScanStatements(QuotedDrop, 14) == []
  {
    QuotedSingleUnits();
    QuotedTail();
    QuotedEnd();
    ScanFindsNothing(QuotedDrop, 14, 15, 16, 33);
  }

  /** The model's scan of QuotedDrop: DROP TABLE "a", then the chain steps over the unclosed quote. */
  lemma QuotedScan()
    ensures Statements(QuotedDrop) == [Statement(DropTable, 0, 0, Tail(false, Object(ObjectRef(None, Span(11, 14))), 14))]
    ensures IgnoreEnd(QuotedDrop, 16) == |QuotedDrop|
  {
    QuotedLead();
    QuotedFirstRead();
    ScanReportsDropTable(QuotedDrop, 0, 0, Tail(false, Object(ObjectRef(None, Span(11, 14))), 14));
    QuotedRest();
    QuotedTail();
  }
}
