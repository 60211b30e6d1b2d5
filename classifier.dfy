/**
 * The statement classifier of sqlite6nf.py (lines 346-428): the structural
 * statement patterns, anchored at the start of the text or just after a `;`,
 * the FROM/JOIN reference pattern, and the two scans `_PATTERN_SIMULATE` and
 * `_PATTERN_SUBSTITUTE` that re.finditer runs over a whole text.
 *
 * Each pattern is written as the sequence of pieces it is built from and
 * matched with the backtracking matcher of Patterns. Both scans are
 * `IGNORE*?` followed by the alternatives: re tries the alternatives at each
 * position of the chain of IGNORE units that starts at the search position,
 * and after a match resumes the chain at its end. The model follows that
 * chain (ScanStatements, ScanReferences).
 */
module Classifier {
  import opened Wrappers
  import opened Scanner
  import opened Patterns

  // ---------------------------------------------------------------- patterns

  /** `(?:{space}+?(?P<temporary>(?i:TEMP|TEMPORARY)))?` */
  const TempGroup: Piece := Optional([Space, LazySpaces(false), Either([Word("TEMP")], [Word("TEMPORARY")]), Temporary])

  /** `(?:{space}+?(?i:IF){space}+?(?i:NOT){space}+?(?i:EXISTS))?` */
  const IfNotExistsGroup: Piece :=
    Optional([Space, LazySpaces(false), Word("IF"), Space, LazySpaces(false), Word("NOT"), Space, LazySpaces(false), Word("EXISTS")])

  /** `(?:{space}+?(?i:IF){space}+?(?i:EXISTS))?` */
  const IfExistsGroup: Piece := Optional([Space, LazySpaces(false), Word("IF"), Space, LazySpaces(false), Word("EXISTS")])

  /** The optional `schema {space}*? . {space}*?` prefix of `_PATTERN_OBJECT` (sqlite6nf.py:346-349). */
  const SchemaGroup: Piece := Optional([Identifier(SchemaSlot), LazySpaces(false), Dot, LazySpaces(false)])

  /** After CREATE in `_PATTERN_QUERY_CREATE_TABLE` (noun TABLE, sqlite6nf.py:359-366) and `_CREATE_VIEW` (noun VIEW, 381-388). */
  function CreatePattern(noun: string): seq<Piece> {
    [TempGroup, Space, LazySpaces(false), Word(noun), IfNotExistsGroup, LazySpaces(false), SchemaGroup, Identifier(TableSlot)]
  }

  /** After ALTER in `_PATTERN_QUERY_ALTER_TABLE` (sqlite6nf.py:368-372). */
  const AlterPattern: seq<Piece> := [Space, LazySpaces(false), Word("TABLE"), LazySpaces(false), SchemaGroup, Identifier(TableSlot)]

  /** After DROP in `_PATTERN_QUERY_DROP_TABLE` (noun TABLE, sqlite6nf.py:374-379) and `_DROP_VIEW` (noun VIEW, 390-395). */
  function DropPattern(noun: string): seq<Piece> {
    [Space, LazySpaces(false), Word(noun), IfExistsGroup, LazySpaces(false), SchemaGroup, Identifier(TableSlot)]
  }

  /** After ATTACH in `_PATTERN_QUERY_ATTACH_DATABASE` (sqlite6nf.py:397-402); the schema name is not part of it. */
  const AttachPattern: seq<Piece> := [Space, LazySpaces(false), Word("DATABASE"), Space, LazySpaces(false)]

  /** After DETACH in `_PATTERN_QUERY_DETACH_DATABASE` as evidently intended: `(?:{space}+?(?i:DATABASE))?`. */
  const DetachPattern: seq<Piece> := [Optional([Space, LazySpaces(false), Word("DATABASE")]), LazySpaces(false), Identifier(SchemaSlot)]

  /** After DETACH as sqlite6nf.py:405-410 writes it: the group opens with `(:` and so demands a literal `:`. */
  const DetachPatternAsWritten: seq<Piece> :=
    [Optional([Colon, Space, LazySpaces(false), Word("DATABASE")]), LazySpaces(false), Identifier(SchemaSlot)]

  /** After FROM or JOIN in `_PATTERN_QUERY_SELECT_FROM` (sqlite6nf.py:413-417). */
  const ReferencePattern: seq<Piece> := [LazySpaces(true), SchemaGroup, Identifier(TableSlot)]

  // -------------------------------------------------------------- statements

  /** `schema` is absent or the identifier before the `.`; `table` is the identifier after it. */
  datatype ObjectRef = ObjectRef(schema: Option<Span>, table: Span)

  datatype Kind = CreateTable | AlterTable | DropTable | CreateView | DropView | AttachDatabase | DetachDatabase

  datatype Target = NoTarget | Object(ref: ObjectRef) | Schema(name: Span)

  /** What a statement pattern matches after its first keyword: TEMP/TEMPORARY or not, what it names, where it ends. */
  datatype Tail = Tail(temporary: bool, target: Target, end: nat)

  /**
   * One structural statement: the anchor it matched at, where its first
   * keyword stands, and the rest of the match.
   */
  datatype Statement = Statement(kind: Kind, start: nat, keyword: nat, tail: Tail)

  /** `_PATTERN_QUERY_OPEN` (sqlite6nf.py:356-358): the start of the text or just after a `;`. */
  predicate Anchored(s: string, p: nat) {
    p == 0 || (p <= |s| && s[p - 1] == ';')
  }

  /** The object a CREATE, ALTER or DROP pattern names, from its groups. */
  function ObjectTail(m: Option<Matched>): Option<Tail> {
    if m.Some? && m.value.caps.table.Some? then
      Some(Tail(m.value.caps.temporary, Object(ObjectRef(m.value.caps.schema, m.value.caps.table.value)), m.value.end))
    else None
  }

  function CreateTail(s: string, c: nat, noun: string): (r: Option<Tail>)
    requires c <= |s|
    ensures r.Some? ==> c <= r.value.end <= |s|
  {
    ObjectTail(Match(s, c, CreatePattern(noun), NoCaptures))
  }

  function AlterTail(s: string, c: nat): (r: Option<Tail>)
    requires c <= |s|
    ensures r.Some? ==> c <= r.value.end <= |s|
  {
    ObjectTail(Match(s, c, AlterPattern, NoCaptures))
  }

  function DropTail(s: string, c: nat, noun: string): (r: Option<Tail>)
    requires c <= |s|
    ensures r.Some? ==> c <= r.value.end <= |s|
  {
    ObjectTail(Match(s, c, DropPattern(noun), NoCaptures))
  }

  function AttachTail(s: string, c: nat): (r: Option<Tail>)
    requires c <= |s|
    ensures r.Some? ==> c <= r.value.end <= |s|
  {
    match Match(s, c, AttachPattern, NoCaptures)
    case None => None
    case Some(m) => Some(Tail(false, NoTarget, m.end))
  }

  /** The schema a DETACH pattern names, from its group. */
  function SchemaTail(m: Option<Matched>): Option<Tail> {
    if m.Some? && m.value.caps.schema.Some? then Some(Tail(false, Schema(m.value.caps.schema.value), m.value.end))
    else None
  }

  function DetachTail(s: string, c: nat): (r: Option<Tail>)
    requires c <= |s|
    ensures r.Some? ==> c <= r.value.end <= |s|
  {
    SchemaTail(Match(s, c, DetachPattern, NoCaptures))
  }

  function DetachTailAsWritten(s: string, c: nat): (r: Option<Tail>)
    requires c <= |s|
    ensures r.Some? ==> c <= r.value.end <= |s|
  {
    SchemaTail(Match(s, c, DetachPatternAsWritten, NoCaptures))
  }

  /**
   * `{space}*?(?i:kw)` when the statement opens at p: where the first keyword
   * stands. A keyword letter never starts a space unit, so the lazy `*?`
   * stops exactly where the space units run out.
   */
  function LeadAt(s: string, p: nat, kw: string): (r: Option<nat>)
    requires p <= |s|
    ensures r.Some? <==> Anchored(s, p) && KeywordAt(s, SkipSpaces(s, p), kw)
    ensures r.Some? ==> r.value == SkipSpaces(s, p) && p <= r.value && r.value + |kw| <= |s|
  {
    var k := SkipSpaces(s, p);
    if Anchored(s, p) && KeywordAt(s, k, kw) then Some(k) else None
  }

  /** A statement of the given kind from its lead keyword position k and its tail. */
  function Assemble(kind: Kind, p: nat, k: nat, tail: Option<Tail>): (r: Option<Statement>)
    ensures r.Some? <==> tail.Some?
    ensures r.Some? ==> r.value == Statement(kind, p, k, tail.value)
  {
    match tail
    case None => None
    case Some(t) => Some(Statement(kind, p, k, t))
  }

  /** `_PATTERN_QUERY_CREATE_TABLE` (noun TABLE) or `_CREATE_VIEW` (noun VIEW) anchored at p. */
  function CreateAt(s: string, p: nat, kind: Kind, noun: string): (r: Option<Statement>)
    requires p <= |s|
    ensures r.Some? ==> r.value.kind == kind && r.value.start == p < r.value.tail.end <= |s|
  {
    match LeadAt(s, p, "CREATE")
    case None => None
    case Some(k) => Assemble(kind, p, k, CreateTail(s, k + 6, noun))
  }

  /** `_PATTERN_QUERY_ALTER_TABLE` anchored at p. */
  function AlterAt(s: string, p: nat): (r: Option<Statement>)
    requires p <= |s|
    ensures r.Some? ==> r.value.kind == AlterTable && r.value.start == p < r.value.tail.end <= |s|
  {
    match LeadAt(s, p, "ALTER")
    case None => None
    case Some(k) => Assemble(AlterTable, p, k, AlterTail(s, k + 5))
  }

  /** `_PATTERN_QUERY_DROP_TABLE` (noun TABLE) or `_DROP_VIEW` (noun VIEW) anchored at p. */
  function DropAt(s: string, p: nat, kind: Kind, noun: string): (r: Option<Statement>)
    requires p <= |s|
    ensures r.Some? ==> r.value.kind == kind && r.value.start == p < r.value.tail.end <= |s|
  {
    match LeadAt(s, p, "DROP")
    case None => None
    case Some(k) => Assemble(kind, p, k, DropTail(s, k + 4, noun))
  }

  /** `_PATTERN_QUERY_ATTACH_DATABASE` anchored at p. */
  function AttachAt(s: string, p: nat): (r: Option<Statement>)
    requires p <= |s|
    ensures r.Some? ==> r.value.kind == AttachDatabase && r.value.start == p < r.value.tail.end <= |s|
  {
    match LeadAt(s, p, "ATTACH")
    case None => None
    case Some(k) => Assemble(AttachDatabase, p, k, AttachTail(s, k + 6))
  }

  /** `_PATTERN_QUERY_DETACH_DATABASE` as evidently intended, anchored at p. */
  function DetachAt(s: string, p: nat): (r: Option<Statement>)
    requires p <= |s|
    ensures r.Some? ==> r.value.kind == DetachDatabase && r.value.start == p < r.value.tail.end <= |s|
  {
    match LeadAt(s, p, "DETACH")
    case None => None
    case Some(k) => Assemble(DetachDatabase, p, k, DetachTail(s, k + 6))
  }

  /** `_PATTERN_QUERY_DETACH_DATABASE` as sqlite6nf.py:405-410 writes it, anchored at p. */
  function DetachAsWritten(s: string, p: nat): (r: Option<Statement>)
    requires p <= |s|
    ensures r.Some? ==> r.value.kind == DetachDatabase && r.value.start == p < r.value.tail.end <= |s|
  {
    match LeadAt(s, p, "DETACH")
    case None => None
    case Some(k) => Assemble(DetachDatabase, p, k, DetachTailAsWritten(s, k + 6))
  }

  /** A CREATE statement is the lead keyword CREATE at an anchor, followed by a CREATE tail. */
  lemma CreateAtParts(s: string, p: nat, kind: Kind, noun: string)
    requires p <= |s| && CreateAt(s, p, kind, noun).Some?
    ensures LeadAt(s, p, "CREATE").Some? && CreateAt(s, p, kind, noun).value.keyword == LeadAt(s, p, "CREATE").value
    ensures CreateTail(s, LeadAt(s, p, "CREATE").value + 6, noun).Some? && CreateAt(s, p, kind, noun).value.tail == CreateTail(s, LeadAt(s, p, "CREATE").value + 6, noun).value
  {
  }

  /** An ALTER statement is the lead keyword ALTER at an anchor, followed by an ALTER tail. */
  lemma AlterAtParts(s: string, p: nat)
    requires p <= |s| && AlterAt(s, p).Some?
    ensures LeadAt(s, p, "ALTER").Some? && AlterAt(s, p).value.keyword == LeadAt(s, p, "ALTER").value
    ensures AlterTail(s, LeadAt(s, p, "ALTER").value + 5).Some? && AlterAt(s, p).value.tail == AlterTail(s, LeadAt(s, p, "ALTER").value + 5).value
  {
  }

  /** A DROP statement is the lead keyword DROP at an anchor, followed by a DROP tail. */
  lemma DropAtParts(s: string, p: nat, kind: Kind, noun: string)
    requires p <= |s| && DropAt(s, p, kind, noun).Some?
    ensures LeadAt(s, p, "DROP").Some? && DropAt(s, p, kind, noun).value.keyword == LeadAt(s, p, "DROP").value
    ensures DropTail(s, LeadAt(s, p, "DROP").value + 4, noun).Some? && DropAt(s, p, kind, noun).value.tail == DropTail(s, LeadAt(s, p, "DROP").value + 4, noun).value
  {
  }

  /** An ATTACH statement is the lead keyword ATTACH at an anchor, followed by an ATTACH tail. */
  lemma AttachAtParts(s: string, p: nat)
    requires p <= |s| && AttachAt(s, p).Some?
    ensures LeadAt(s, p, "ATTACH").Some? && AttachAt(s, p).value.keyword == LeadAt(s, p, "ATTACH").value
    ensures AttachTail(s, LeadAt(s, p, "ATTACH").value + 6).Some? && AttachAt(s, p).value.tail == AttachTail(s, LeadAt(s, p, "ATTACH").value + 6).value
  {
  }

  /** A DETACH statement is the lead keyword DETACH at an anchor, followed by a DETACH tail. */
  lemma DetachAtParts(s: string, p: nat)
    requires p <= |s| && DetachAt(s, p).Some?
    ensures LeadAt(s, p, "DETACH").Some? && DetachAt(s, p).value.keyword == LeadAt(s, p, "DETACH").value
    ensures DetachTail(s, LeadAt(s, p, "DETACH").value + 6).Some? && DetachAt(s, p).value.tail == DetachTail(s, LeadAt(s, p, "DETACH").value + 6).value
  {
  }

  /**
   * `_PATTERN_SIMULATE` (sqlite6nf.py:419-424): the structural alternatives
   * tried in order at one position.
   */
  function StatementAt(s: string, p: nat): (r: Option<Statement>)
    requires p <= |s|
    ensures r.Some? ==> r.value.start == p < r.value.tail.end <= |s|
  {
    OrElse(CreateAt(s, p, CreateTable, "TABLE"),
    OrElse(AlterAt(s, p),
    OrElse(DropAt(s, p, DropTable, "TABLE"),
    OrElse(CreateAt(s, p, CreateView, "VIEW"),
    OrElse(DropAt(s, p, DropView, "VIEW"),
    OrElse(AttachAt(s, p), DetachAt(s, p)))))))
  }

  /** Every statement starts at an anchor and its first keyword, four letters or more, follows the spaces after it. */
  lemma StatementAtAnchored(s: string, p: nat)
    requires p <= |s| && StatementAt(s, p).Some?
    ensures Anchored(s, p)
    ensures StatementAt(s, p).value.keyword == SkipSpaces(s, p) && StatementAt(s, p).value.keyword + 4 <= |s|
  {
    if CreateAt(s, p, CreateTable, "TABLE").Some? {
      CreateAtParts(s, p, CreateTable, "TABLE");
    } else if AlterAt(s, p).Some? {
      AlterAtParts(s, p);
    } else if DropAt(s, p, DropTable, "TABLE").Some? {
      DropAtParts(s, p, DropTable, "TABLE");
    } else if CreateAt(s, p, CreateView, "VIEW").Some? {
      CreateAtParts(s, p, CreateView, "VIEW");
    } else if DropAt(s, p, DropView, "VIEW").Some? {
      DropAtParts(s, p, DropView, "VIEW");
    } else if AttachAt(s, p).Some? {
      AttachAtParts(s, p);
    } else {
      DetachAtParts(s, p);
    }
  }

  /** The target a tail of the given kind names: whole identifiers between c and the end of the match. */
  predicate TailShape(s: string, c: nat, kind: Kind, t: Tail) {
    && c <= t.end <= |s|
    && match t.target
       case NoTarget => kind == AttachDatabase
       case Object(o) =>
         && kind != AttachDatabase && kind != DetachDatabase
         && t.end == o.table.end && IdentifierSpan(s, o.table) && c <= o.table.start
         && (o.schema.Some? ==> IdentifierSpan(s, o.schema.value) && c <= o.schema.value.start && o.schema.value.end <= t.end)
       case Schema(sp) => kind == DetachDatabase && t.end == sp.end && IdentifierSpan(s, sp) && c <= sp.start
  }

  lemma CreateTailShape(s: string, c: nat, kind: Kind, noun: string)
    requires c <= |s| && (kind == CreateTable || kind == CreateView) && CreateTail(s, c, noun).Some?
    ensures TailShape(s, c, kind, CreateTail(s, c, noun).value)
  {
    MatchCaptures(s, c, CreatePattern(noun), NoCaptures);
    MatchEndsWithCapture(s, c, CreatePattern(noun), NoCaptures, TableSlot);
  }

  lemma AlterTailShape(s: string, c: nat)
    requires c <= |s| && AlterTail(s, c).Some?
    ensures TailShape(s, c, AlterTable, AlterTail(s, c).value)
  {
    MatchCaptures(s, c, AlterPattern, NoCaptures);
    MatchEndsWithCapture(s, c, AlterPattern, NoCaptures, TableSlot);
  }

  lemma DropTailShape(s: string, c: nat, kind: Kind, noun: string)
    requires c <= |s| && (kind == DropTable || kind == DropView) && DropTail(s, c, noun).Some?
    ensures TailShape(s, c, kind, DropTail(s, c, noun).value)
  {
    MatchCaptures(s, c, DropPattern(noun), NoCaptures);
    MatchEndsWithCapture(s, c, DropPattern(noun), NoCaptures, TableSlot);
  }

  lemma AttachTailShape(s: string, c: nat)
    requires c <= |s| && AttachTail(s, c).Some?
    ensures TailShape(s, c, AttachDatabase, AttachTail(s, c).value)
  {
  }

  lemma DetachTailShape(s: string, c: nat)
    requires c <= |s| && DetachTail(s, c).Some?
    ensures TailShape(s, c, DetachDatabase, DetachTail(s, c).value)
  {
    MatchCaptures(s, c, DetachPattern, NoCaptures);
    MatchEndsWithCapture(s, c, DetachPattern, NoCaptures, SchemaSlot);
  }

  // ------------------------------------------------------------ DETACH as written

  /**
   * `DETACH DATABASE name`, as written: no `:` follows DETACH (c is the
   * position after it), so the word DATABASE itself is taken as the schema
   * name.
   */
  lemma DetachDatabaseMisread(s: string, c: nat)
    requires c < |s| && IsSpace(s[c]) && KeywordAt(s, SkipSpaces(s, c), "DATABASE")
    ensures DetachTailAsWritten(s, c).Some? && DetachTailAsWritten(s, c).value.target.Schema?
    ensures DetachTailAsWritten(s, c).value.target.name.start == SkipSpaces(s, c)
  {
    var rest := [LazySpaces(false), Identifier(SchemaSlot)];
    assert DetachPatternAsWritten[1..] == rest;
    assert Match(s, c, DetachPatternAsWritten[0].group + rest, NoCaptures).None?;
    MatchOptional(s, c, DetachPatternAsWritten, NoCaptures);
    LazySpacesSkip(s, c, rest, NoCaptures);
    KeywordAfterSpaceIsIdentifier(s, c);
    MatchLastIdentifier(s, SkipSpaces(s, c), SchemaSlot, NoCaptures);
  }

  /** A keyword after a whitespace character and more spaces is a whole bare identifier. */
  lemma KeywordAfterSpaceIsIdentifier(s: string, c: nat)
    requires c < |s| && IsSpace(s[c]) && KeywordAt(s, SkipSpaces(s, c), "DATABASE")
    ensures IdentifierEnd(s, SkipSpaces(s, c)).Some?
  {
    var k := SkipSpaces(s, c);
    assert k == SkipSpaces(s, c + 1);
    SkipSpacesKeepsWordBoundary(s, c + 1);
    assert KeywordChar(s[k + 0], "DATABASE"[0]);
  }

  /** DATABASE at k, spaces and a name at x: the name is the schema group, and ends the match. */
  lemma DatabaseThenName(s: string, k: nat, x: nat)
    requires KeywordAt(s, k, "DATABASE") && x == SkipSpaces(s, k + 8) && IdentifierEnd(s, x).Some?
    ensures Match(s, k, [Word("DATABASE"), LazySpaces(false), Identifier(SchemaSlot)], NoCaptures)
      == Some(Matched(NoCaptures.Put(SchemaSlot, Span(x, IdentifierEnd(s, x).value)), IdentifierEnd(s, x).value))
  {
    var ps := [Word("DATABASE"), LazySpaces(false), Identifier(SchemaSlot)];
    assert ps[1..] == [LazySpaces(false), Identifier(SchemaSlot)] && ps[1..][1..] == [Identifier(SchemaSlot)];
    MatchWord(s, k, ps, NoCaptures);
    LazySpacesSkip(s, k + 8, ps[1..], NoCaptures);
    MatchLastIdentifier(s, x, SchemaSlot, NoCaptures);
  }

  /**
   * The intended pattern, on `DETACH DATABASE name` (c is the position after
   * DETACH, k where DATABASE stands, x where the name starts), takes the
   * name as the schema and ends the match with it.
   */
  lemma DetachDatabaseRead(s: string, c: nat, k: nat, x: nat)
    requires c <= |s| && SpaceEnd(s, c).Some? && k == SkipSpaces(s, SpaceEnd(s, c).value) && KeywordAt(s, k, "DATABASE")
    requires x == SkipSpaces(s, k + 8) && IdentifierEnd(s, x).Some?
    ensures DetachTail(s, c) == Some(Tail(false, Schema(Span(x, IdentifierEnd(s, x).value)), IdentifierEnd(s, x).value))
  {
    var whole := [Space, LazySpaces(false), Word("DATABASE"), LazySpaces(false), Identifier(SchemaSlot)];
    assert DetachPattern[0].group + DetachPattern[1..] == whole;
    assert whole[1..][1..] == [Word("DATABASE"), LazySpaces(false), Identifier(SchemaSlot)];
    DatabaseThenName(s, k, x);
    LazySpacesSkip(s, SpaceEnd(s, c).value, whole[1..], NoCaptures);
    MatchSpace(s, c, whole, NoCaptures);
    MatchOptional(s, c, DetachPattern, NoCaptures);
  }

  /**
   * re.finditer(_PATTERN_SIMULATE, s) from p: walk the IGNORE chain; where a
   * statement matches, report it and resume at its end; stop at `$`.
   */
  function ScanStatements(s: string, p: nat): (r: seq<Statement>)
    requires p <= |s|
    decreases |s| - p
    ensures forall i :: 0 <= i < |r| ==> p <= r[i].start < r[i].tail.end <= |s|
    ensures forall i :: 0 <= i < |r| - 1 ==> r[i].tail.end <= r[i + 1].start
  {
    match StatementAt(s, p)
    case Some(st) => [st] + ScanStatements(s, st.tail.end)
    case None => if AtEnd(s, p) then [] else ScanStatements(s, IgnoreEnd(s, p))
  }

  function Statements(s: string): seq<Statement> {
    ScanStatements(s, 0)
  }

  /** Each statement the scan reports is what the statement patterns match at its start. */
  lemma {:induction false} ScannedStatementsMatch(s: string, p: nat)
    requires p <= |s|
    decreases |s| - p
    ensures forall st | st in ScanStatements(s, p) :: StatementAt(s, st.start) == Some(st)
  {
    var r := ScanStatements(s, p);
    match StatementAt(s, p)
    case Some(st0) =>
      ScannedStatementsMatch(s, st0.tail.end);
      assert r == [st0] + ScanStatements(s, st0.tail.end);
    case None =>
      if !AtEnd(s, p) {
        ScannedStatementsMatch(s, IgnoreEnd(s, p));
      }
  }

  // -------------------------------------------------------------- references

  /** A FROM or JOIN keyword at `start`, the object reference it names, and where the match ends. */
  datatype Reference = Reference(start: nat, obj: ObjectRef, end: nat)

  /** `_PATTERN_QUERY_SELECT_FROM` (sqlite6nf.py:413-417) at p. */
  function ReferenceAt(s: string, p: nat): (r: Option<Reference>)
    requires p <= |s|
    ensures r.Some? ==> r.value.start == p < r.value.end <= |s|
  {
    if (p == 0 || !IsIdentChar(s[p - 1])) && (KeywordAt(s, p, "FROM") || KeywordAt(s, p, "JOIN")) then
      var m := Match(s, p + 4, ReferencePattern, NoCaptures);
      if m.Some? && m.value.caps.table.Some? then
        Some(Reference(p, ObjectRef(m.value.caps.schema, m.value.caps.table.value), m.value.end))
      else None
    else None
  }

  /**
   * A reference is a whole FROM or JOIN word (no identifier character just
   * before it), then the object after spaces and opening parentheses; the
   * match ends with the table name, and both names are whole identifiers.
   */
  lemma ReferenceAtParts(s: string, p: nat)
    requires p <= |s| && ReferenceAt(s, p).Some?
    ensures p == 0 || !IsIdentChar(s[p - 1])
    ensures KeywordAt(s, p, "FROM") || KeywordAt(s, p, "JOIN")
    ensures Match(s, p + 4, ReferencePattern, NoCaptures).Some?
    ensures var rf := ReferenceAt(s, p).value;
      && IdentifierSpan(s, rf.obj.table) && p + 4 <= rf.obj.table.start && rf.obj.table.end == rf.end
      && (rf.obj.schema.Some? ==> IdentifierSpan(s, rf.obj.schema.value) && p + 4 <= rf.obj.schema.value.start)
  {
    MatchCaptures(s, p + 4, ReferencePattern, NoCaptures);
    MatchEndsWithCapture(s, p + 4, ReferencePattern, NoCaptures, TableSlot);
  }

  /** The reference at p is the FROM/JOIN keyword and the groups of the match after it. */
  lemma ReferenceAtMatch(s: string, p: nat)
    requires p <= |s| && ReferenceAt(s, p).Some?
    ensures KeywordAt(s, p, "FROM") || KeywordAt(s, p, "JOIN")
    ensures var m := Match(s, p + 4, ReferencePattern, NoCaptures);
      && m.Some? && m.value.caps.table.Some?
      && ReferenceAt(s, p).value.obj == ObjectRef(m.value.caps.schema, m.value.caps.table.value)
      && ReferenceAt(s, p).value.end == m.value.end
  {
  }

  /** re.finditer(_PATTERN_SUBSTITUTE, s) from p. */
  function ScanReferences(s: string, p: nat): (r: seq<Reference>)
    requires p <= |s|
    decreases |s| - p
    ensures forall i :: 0 <= i < |r| ==> p <= r[i].start < r[i].end <= |s|
    ensures forall i :: 0 <= i < |r| - 1 ==> r[i].end <= r[i + 1].start
  {
    match ReferenceAt(s, p)
    case Some(rf) => [rf] + ScanReferences(s, rf.end)
    case None => if AtEnd(s, p) then [] else ScanReferences(s, IgnoreEnd(s, p))
  }

  function References(s: string): seq<Reference> {
    ScanReferences(s, 0)
  }

  /** Each reference the scan reports is what the FROM/JOIN pattern matches at its start. */
  lemma {:induction false} ScannedReferencesMatch(s: string, p: nat)
    requires p <= |s|
    decreases |s| - p
    ensures forall rf | rf in ScanReferences(s, p) :: ReferenceAt(s, rf.start) == Some(rf)
  {
    var r := ScanReferences(s, p);
    match ReferenceAt(s, p)
    case Some(rf0) =>
      ScannedReferencesMatch(s, rf0.end);
      assert r == [rf0] + ScanReferences(s, rf0.end);
    case None =>
      if !AtEnd(s, p) {
        ScannedReferencesMatch(s, IgnoreEnd(s, p));
      }
  }
}
