/**
 * Why comments and quoted identifiers are opaque to the classifier.
 *
 * re.finditer with `IGNORE*?` in front of the alternatives only ever tries
 * the alternatives at the ends of whole IGNORE units. Reaches(s, p, q) says
 * that q is such an end, on the chain of units that starts at p. Every
 * statement and every FROM/JOIN reference the scans report, and every
 * keyword and name inside them, lies on the chain from 0; and no unit of the
 * chain (a comment, a quoted span, a bracketed span) has a chain position
 * strictly inside it. So text inside a comment or a quoted identifier is
 * never classified, and the `;` before a statement is a real separator.
 *
 * All of this holds of the matcher of Patterns, which ends every comment
 * and quoted identifier inside a pattern at its first end: the patterns'
 * evident intent. Python's re may instead backtrack into a comment or quote
 * body when the rest of a statement pattern fails; Backtracking exhibits a
 * text on which it then reads a statement written inside a comment, and one
 * on which it reads a statement inside an unclosed quote.
 */
module Opacity {
  import opened Wrappers
  import opened Scanner
  import opened Patterns
  import opened Classifier

  /** q is the end of a whole number of IGNORE units from p. */
  ghost predicate Reaches(s: string, p: nat, q: nat)
    decreases |s| - p
  {
    p == q || (p < q && p < |s| && Reaches(s, IgnoreEnd(s, p), q))
  }

  /** q lies strictly inside one IGNORE unit of the chain from the start of the text. */
  ghost predicate InsideUnit(s: string, q: nat) {
    exists c: nat :: Reaches(s, 0, c) && c < |s| && c < q < IgnoreEnd(s, c)
  }

  lemma {:induction false} ReachesTrans(s: string, p: nat, q: nat, r: nat)
    requires Reaches(s, p, q) && Reaches(s, q, r)
    ensures Reaches(s, p, r)
    decreases |s| - p
  {
    if p != q {
      ReachesTrans(s, IgnoreEnd(s, p), q, r);
    }
  }

  /** Two positions on one chain: the unit that starts at the earlier one does not jump over the later one. */
  lemma {:induction false} NoUnitSkips(s: string, p: nat, c: nat, q: nat)
    requires Reaches(s, p, c) && Reaches(s, p, q) && c < q
    ensures c < |s| && IgnoreEnd(s, c) <= q
    decreases |s| - p
  {
    if p == c {
      assert Reaches(s, IgnoreEnd(s, p), q);
    } else {
      NoUnitSkips(s, IgnoreEnd(s, p), c, q);
    }
  }

  /** The last unit of a chain that gets from p to q > p. */
  lemma {:induction false} LastUnit(s: string, p: nat, q: nat) returns (c: nat)
    requires Reaches(s, p, q) && p < q
    ensures Reaches(s, p, c) && c < q && c < |s| && IgnoreEnd(s, c) == q
    decreases |s| - p
  {
    var n := IgnoreEnd(s, p);
    if n == q {
      c := p;
    } else {
      c := LastUnit(s, n, q);
    }
  }

  /** A position on the chain from the start of the text is never inside one of its units. */
  lemma {:induction false} ChainPositionIsOutside(s: string, q: nat)
    requires Reaches(s, 0, q)
    ensures !InsideUnit(s, q)
  {
    forall c: nat | Reaches(s, 0, c) && c < |s| && c < q
      ensures IgnoreEnd(s, c) <= q
    {
      NoUnitSkips(s, 0, c, q);
    }
  }

  // ------------------------------------------------------- single units

  /** A character no IGNORE unit treats specially: it is a unit of its own. */
  predicate Plain(c: char) {
    !IsSpace(c) && c != '-' && c != '/' && !IsQuote(c) && c != '['
  }

  lemma {:induction false} PlainRun(s: string, p: nat, e: nat)
    requires p <= e <= |s|
    requires forall j :: p <= j < e ==> Plain(s[j])
    ensures Reaches(s, p, e)
    decreases e - p
  {
    if p < e {
      assert IgnoreEnd(s, p) == p + 1;
      PlainRun(s, p + 1, e);
    }
  }

  lemma {:induction false} ReachesKeyword(s: string, p: nat, kw: string)
    requires KeywordAt(s, p, kw)
    ensures Reaches(s, p, p + |kw|)
  {
    forall j | p <= j < p + |kw|
      ensures Plain(s[j])
    {
      assert KeywordChar(s[p + (j - p)], kw[j - p]);
    }
    PlainRun(s, p, p + |kw|);
  }

  lemma {:induction false} ReachesSkipSpaces(s: string, p: nat)
    requires p <= |s|
    ensures Reaches(s, p, SkipSpaces(s, p))
    decreases |s| - p
  {
    match SpaceEnd(s, p)
    case None =>
    case Some(q) =>
      ReachesSkipSpaces(s, q);
  }

  lemma {:induction false} ReachesIdentifier(s: string, p: nat)
    requires p <= |s| && IdentifierEnd(s, p).Some?
    ensures Reaches(s, p, IdentifierEnd(s, p).value)
  {
    var e := IdentifierEnd(s, p).value;
    if IsQuote(s[p]) || s[p] == '[' {
      assert IgnoreEnd(s, p) == e;
    } else {
      BareEndExactly(s, p, e);
      PlainRun(s, p, e);
    }
  }

  lemma {:induction false} ReachesLead(s: string, p: nat, k: nat, kw: string)
    requires p <= |s| && k == SkipSpaces(s, p) && KeywordAt(s, k, kw)
    ensures Reaches(s, p, k) && Reaches(s, p, k + |kw|)
  {
    ReachesSkipSpaces(s, p);
    ReachesKeyword(s, k, kw);
    ReachesTrans(s, p, k, k + |kw|);
  }

  // ------------------------------------------------------------ the matcher

  /** A group left as it was, or set to a span whose both ends lie on the chain from c. */
  ghost predicate SpanOnChain(s: string, c: nat, before: Option<Span>, after: Option<Span>) {
    after == before || (after.Some? && Reaches(s, c, after.value.start) && Reaches(s, c, after.value.end))
  }

  /** m, a match of some pattern from c with groups caps to begin with, ends on the chain from c, and so do the groups it set. */
  ghost predicate MatchedOnChain(s: string, c: nat, caps: Captures, m: Matched) {
    && Reaches(s, c, m.end)
    && SpanOnChain(s, c, caps.schema, m.caps.schema)
    && SpanOnChain(s, c, caps.table, m.caps.table)
  }

  lemma {:induction false} MatchedOnChainFrom(s: string, c: nat, d: nat, caps: Captures, m: Matched)
    requires Reaches(s, c, d) && MatchedOnChain(s, d, caps, m)
    ensures MatchedOnChain(s, c, caps, m)
  {
    ReachesTrans(s, c, d, m.end);
    if m.caps.schema != caps.schema {
      ReachesTrans(s, c, d, m.caps.schema.value.start);
      ReachesTrans(s, c, d, m.caps.schema.value.end);
    }
    if m.caps.table != caps.table {
      ReachesTrans(s, c, d, m.caps.table.value.start);
      ReachesTrans(s, c, d, m.caps.table.value.end);
    }
  }

  /** An identifier group set at c to an identifier that ends on the chain from c. */
  lemma {:induction false} PutOnChain(s: string, c: nat, e: nat, slot: Slot, caps: Captures, m: Matched)
    requires Reaches(s, c, e) && MatchedOnChain(s, c, caps.Put(slot, Span(c, e)), m)
    ensures MatchedOnChain(s, c, caps, m)
  {
  }

  /**
   * Whatever a pattern matches from c ends on the chain of IGNORE units from
   * c, and every identifier group it sets starts and ends on that chain.
   */
  lemma {:induction false} MatchOnChain(s: string, c: nat, ps: seq<Piece>, caps: Captures)
    requires c <= |s| && Match(s, c, ps, caps).Some?
    ensures MatchedOnChain(s, c, caps, Match(s, c, ps, caps).value)
    decreases Size(ps), |s| - c, 1
  {
    if ps != [] {
      match ps[0]
      case Identifier(_) => MatchOnChainIdentifier(s, c, ps, caps);
      case LazySpaces(_) => MatchOnChainBranch(s, c, ps, caps);
      case Optional(_) => MatchOnChainBranch(s, c, ps, caps);
      case Either(_, _) => MatchOnChainBranch(s, c, ps, caps);
      case _ => MatchOnChainStep(s, c, ps, caps);
    }
  }

  /** MatchOnChain for the pieces that match one fixed thing: a keyword, a character, a space unit, the end of a group. */
  lemma {:induction false} MatchOnChainStep(s: string, c: nat, ps: seq<Piece>, caps: Captures)
    requires c <= |s| && Match(s, c, ps, caps).Some? && ps != []
    requires ps[0].Word? || ps[0].Dot? || ps[0].Colon? || ps[0].Space? || ps[0].Temporary?
    ensures MatchedOnChain(s, c, caps, Match(s, c, ps, caps).value)
    decreases Size(ps), |s| - c, 0
  {
    var rest := ps[1..];
    assert Size(ps) == Weight(ps[0]) + Size(rest);
    if ps[0].Temporary? {
      MatchOnChain(s, c, rest, caps.(temporary := true));
    } else {
      var d := NextStep(s, c, ps[0]);
      MatchOnChain(s, d, rest, caps);
      MatchedOnChainFrom(s, c, d, caps, Match(s, c, ps, caps).value);
    }
  }

  /** Where a keyword, a character or a space unit that matched at c ends: the chain gets there from c. */
  lemma NextStep(s: string, c: nat, piece: Piece) returns (d: nat)
    requires c <= |s| && (piece.Word? || piece.Dot? || piece.Colon? || piece.Space?)
    requires match piece
      case Word(kw) => KeywordAt(s, c, kw)
      case Dot => c < |s| && s[c] == '.'
      case Colon => c < |s| && s[c] == ':'
      case _ => SpaceEnd(s, c).Some?
    ensures Reaches(s, c, d)
    ensures d == match piece
      case Word(kw) => c + |kw|
      case Space => SpaceEnd(s, c).value
      case _ => c + 1
  {
    if piece.Word? {
      ReachesKeyword(s, c, piece.kw);
      d := c + |piece.kw|;
    } else if piece.Space? {
      d := SpaceEnd(s, c).value;
      assert IgnoreEnd(s, c) == d;
    } else {
      d := c + 1;
      assert IgnoreEnd(s, c) == d;
    }
  }

  /** MatchOnChain for an identifier group. */
  lemma {:induction false} MatchOnChainIdentifier(s: string, c: nat, ps: seq<Piece>, caps: Captures)
    requires c <= |s| && Match(s, c, ps, caps).Some? && ps != [] && ps[0].Identifier?
    ensures MatchedOnChain(s, c, caps, Match(s, c, ps, caps).value)
    decreases Size(ps), |s| - c, 0
  {
    var rest := ps[1..];
    var m := Match(s, c, ps, caps).value;
    assert Size(ps) == Weight(ps[0]) + Size(rest);
    var e := IdentifierEnd(s, c).value;
    var inner := caps.Put(ps[0].slot, Span(c, e));
    MatchOnChain(s, e, rest, inner);
    ReachesIdentifier(s, c);
    MatchedOnChainFrom(s, c, e, inner, m);
    PutOnChain(s, c, e, ps[0].slot, caps, m);
  }

  /** MatchOnChain for the pieces that try more than one way on. */
  lemma {:induction false} MatchOnChainBranch(s: string, c: nat, ps: seq<Piece>, caps: Captures)
    requires c <= |s| && Match(s, c, ps, caps).Some?
    requires ps != [] && (ps[0].LazySpaces? || ps[0].Optional? || ps[0].Either?)
    ensures MatchedOnChain(s, c, caps, Match(s, c, ps, caps).value)
    decreases Size(ps), |s| - c, 0
  {
    var rest := ps[1..];
    var m := Match(s, c, ps, caps).value;
    assert Size(ps) == Weight(ps[0]) + Size(rest);
    match ps[0]
    case LazySpaces(paren) =>
      if Match(s, c, rest, caps).Some? {
        MatchOnChain(s, c, rest, caps);
      } else if SpaceEnd(s, c).Some? && Match(s, SpaceEnd(s, c).value, ps, caps).Some? {
        MatchOnChain(s, SpaceEnd(s, c).value, ps, caps);
        assert IgnoreEnd(s, c) == SpaceEnd(s, c).value;
        MatchedOnChainFrom(s, c, SpaceEnd(s, c).value, caps, m);
      } else {
        MatchOnChain(s, c + 1, ps, caps);
        assert IgnoreEnd(s, c) == c + 1;
        MatchedOnChainFrom(s, c, c + 1, caps, m);
      }
    case Optional(g) =>
      SizeAppend(g, rest);
      if Match(s, c, g + rest, caps).Some? {
        MatchOnChain(s, c, g + rest, caps);
      } else {
        MatchOnChain(s, c, rest, caps);
      }
    case Either(a, b) =>
      SizeAppend(a, rest);
      SizeAppend(b, rest);
      if Match(s, c, a + rest, caps).Some? {
        MatchOnChain(s, c, a + rest, caps);
      } else {
        MatchOnChain(s, c, b + rest, caps);
      }
  }

  // ------------------------------------------------------------- statements

  /** The names a statement's target holds start on the chain from c. */
  ghost predicate TargetOnChain(s: string, c: nat, target: Target) {
    match target
    case NoTarget => true
    case Object(o) => Reaches(s, c, o.table.start) && (o.schema.Some? ==> Reaches(s, c, o.schema.value.start))
    case Schema(sp) => Reaches(s, c, sp.start)
  }

  ghost predicate TailOnChain(s: string, c: nat, t: Tail) {
    Reaches(s, c, t.end) && TargetOnChain(s, c, t.target)
  }

  /** The first keyword, the names and the end of a statement lie on the chain from its start. */
  ghost predicate StatementOnChain(s: string, st: Statement) {
    Reaches(s, st.start, st.keyword) && TailOnChain(s, st.start, st.tail)
  }

  lemma {:induction false} TailOnChainFrom(s: string, a: nat, c: nat, t: Tail)
    requires Reaches(s, a, c) && TailOnChain(s, c, t)
    ensures TailOnChain(s, a, t)
  {
    ReachesTrans(s, a, c, t.end);
    match t.target
    case NoTarget =>
    case Object(o) =>
      ReachesTrans(s, a, c, o.table.start);
      if o.schema.Some? {
        ReachesTrans(s, a, c, o.schema.value.start);
      }
    case Schema(sp) =>
      ReachesTrans(s, a, c, sp.start);
  }

  lemma {:induction false} ObjectTailOnChain(s: string, c: nat, m: Option<Matched>)
    requires m.Some? && MatchedOnChain(s, c, NoCaptures, m.value) && ObjectTail(m).Some?
    ensures TailOnChain(s, c, ObjectTail(m).value)
  {
  }

  lemma {:induction false} SchemaTailOnChain(s: string, c: nat, m: Option<Matched>)
    requires m.Some? && MatchedOnChain(s, c, NoCaptures, m.value) && SchemaTail(m).Some?
    ensures TailOnChain(s, c, SchemaTail(m).value)
  {
  }

  lemma {:induction false} CreateTailOnChain(s: string, c: nat, noun: string)
    requires c <= |s| && CreateTail(s, c, noun).Some?
    ensures TailOnChain(s, c, CreateTail(s, c, noun).value)
  {
    MatchOnChain(s, c, CreatePattern(noun), NoCaptures);
    ObjectTailOnChain(s, c, Match(s, c, CreatePattern(noun), NoCaptures));
  }

  lemma {:induction false} AlterTailOnChain(s: string, c: nat)
    requires c <= |s| && AlterTail(s, c).Some?
    ensures TailOnChain(s, c, AlterTail(s, c).value)
  {
    MatchOnChain(s, c, AlterPattern, NoCaptures);
    ObjectTailOnChain(s, c, Match(s, c, AlterPattern, NoCaptures));
  }

  lemma {:induction false} DropTailOnChain(s: string, c: nat, noun: string)
    requires c <= |s| && DropTail(s, c, noun).Some?
    ensures TailOnChain(s, c, DropTail(s, c, noun).value)
  {
    MatchOnChain(s, c, DropPattern(noun), NoCaptures);
    ObjectTailOnChain(s, c, Match(s, c, DropPattern(noun), NoCaptures));
  }

  lemma {:induction false} AttachTailOnChain(s: string, c: nat)
    requires c <= |s| && AttachTail(s, c).Some?
    ensures TailOnChain(s, c, AttachTail(s, c).value)
  {
    MatchOnChain(s, c, AttachPattern, NoCaptures);
  }

  lemma {:induction false} DetachTailOnChain(s: string, c: nat)
    requires c <= |s| && DetachTail(s, c).Some?
    ensures TailOnChain(s, c, DetachTail(s, c).value)
  {
    MatchOnChain(s, c, DetachPattern, NoCaptures);
    SchemaTailOnChain(s, c, Match(s, c, DetachPattern, NoCaptures));
  }

  /** A statement whose first keyword kw follows the spaces at its start, and whose tail lies on the chain after kw, lies on the chain. */
  lemma {:induction false} LeadAndTailOnChain(s: string, kw: string, st: Statement)
    requires st.start <= |s| && st.keyword == SkipSpaces(s, st.start) && KeywordAt(s, st.keyword, kw)
    requires TailOnChain(s, st.keyword + |kw|, st.tail)
    ensures StatementOnChain(s, st)
  {
    ReachesLead(s, st.start, st.keyword, kw);
    TailOnChainFrom(s, st.start, st.keyword + |kw|, st.tail);
  }

  lemma {:induction false} CreateOnChain(s: string, p: nat, kind: Kind, noun: string)
    requires p <= |s| && CreateAt(s, p, kind, noun).Some?
    ensures StatementOnChain(s, CreateAt(s, p, kind, noun).value)
  {
    CreateAtParts(s, p, kind, noun);
    CreateTailOnChain(s, LeadAt(s, p, "CREATE").value + 6, noun);
    LeadAndTailOnChain(s, "CREATE", CreateAt(s, p, kind, noun).value);
  }

  lemma {:induction false} AlterOnChain(s: string, p: nat)
    requires p <= |s| && AlterAt(s, p).Some?
    ensures StatementOnChain(s, AlterAt(s, p).value)
  {
    AlterAtParts(s, p);
    AlterTailOnChain(s, LeadAt(s, p, "ALTER").value + 5);
    LeadAndTailOnChain(s, "ALTER", AlterAt(s, p).value);
  }

  lemma {:induction false} DropOnChain(s: string, p: nat, kind: Kind, noun: string)
    requires p <= |s| && DropAt(s, p, kind, noun).Some?
    ensures StatementOnChain(s, DropAt(s, p, kind, noun).value)
  {
    DropAtParts(s, p, kind, noun);
    DropTailOnChain(s, LeadAt(s, p, "DROP").value + 4, noun);
    LeadAndTailOnChain(s, "DROP", DropAt(s, p, kind, noun).value);
  }

  lemma {:induction false} AttachOnChain(s: string, p: nat)
    requires p <= |s| && AttachAt(s, p).Some?
    ensures StatementOnChain(s, AttachAt(s, p).value)
  {
    AttachAtParts(s, p);
    AttachTailOnChain(s, LeadAt(s, p, "ATTACH").value + 6);
    LeadAndTailOnChain(s, "ATTACH", AttachAt(s, p).value);
  }

  lemma {:induction false} DetachOnChain(s: string, p: nat)
    requires p <= |s| && DetachAt(s, p).Some?
    ensures StatementOnChain(s, DetachAt(s, p).value)
  {
    DetachAtParts(s, p);
    DetachTailOnChain(s, LeadAt(s, p, "DETACH").value + 6);
    LeadAndTailOnChain(s, "DETACH", DetachAt(s, p).value);
  }

  lemma {:induction false} StatementAtOnChain(s: string, p: nat)
    requires p <= |s| && StatementAt(s, p).Some?
    ensures StatementOnChain(s, StatementAt(s, p).value)
  {
    if CreateAt(s, p, CreateTable, "TABLE").Some? {
      CreateOnChain(s, p, CreateTable, "TABLE");
    } else if AlterAt(s, p).Some? {
      AlterOnChain(s, p);
    } else if DropAt(s, p, DropTable, "TABLE").Some? {
      DropOnChain(s, p, DropTable, "TABLE");
    } else if CreateAt(s, p, CreateView, "VIEW").Some? {
      CreateOnChain(s, p, CreateView, "VIEW");
    } else if DropAt(s, p, DropView, "VIEW").Some? {
      DropOnChain(s, p, DropView, "VIEW");
    } else if AttachAt(s, p).Some? {
      AttachOnChain(s, p);
    } else {
      DetachOnChain(s, p);
    }
  }

  // ------------------------------------------------------------ the scans

  lemma {:induction false} ScanOnChain(s: string, p: nat)
    requires p <= |s|
    ensures forall st | st in ScanStatements(s, p) ::
      Reaches(s, p, st.start) && StatementOnChain(s, st)
    decreases |s| - p
  {
    var r := ScanStatements(s, p);
    match StatementAt(s, p)
    case Some(st0) =>
      StatementAtOnChain(s, p);
      ScanOnChain(s, st0.tail.end);
      forall st | st in r
        ensures Reaches(s, p, st.start) && StatementOnChain(s, st)
      {
        if st != st0 {
          assert st in ScanStatements(s, st0.tail.end);
          ReachesTrans(s, p, st0.tail.end, st.start);
        }
      }
    case None =>
      if !AtEnd(s, p) {
        ScanOnChain(s, IgnoreEnd(s, p));
        forall st | st in r
          ensures Reaches(s, p, st.start) && StatementOnChain(s, st)
        {
          ReachesTrans(s, p, IgnoreEnd(s, p), st.start);
        }
      }
  }

  /**
   * Comments and quoted identifiers are opaque to `_PATTERN_SIMULATE`: no
   * statement found in s starts, has its first keyword, or ends strictly
   * inside a comment, a quoted or bracketed span, or any other unit the scan
   * steps over.
   */
  lemma {:induction false} StatementsOutsideUnits(s: string, st: Statement)
    requires st in Statements(s)
    ensures !InsideUnit(s, st.start) && !InsideUnit(s, st.keyword) && !InsideUnit(s, st.tail.end)
  {
    ScanOnChain(s, 0);
    ReachesTrans(s, 0, st.start, st.keyword);
    ReachesTrans(s, 0, st.start, st.tail.end);
    ChainPositionIsOutside(s, st.start);
    ChainPositionIsOutside(s, st.keyword);
    ChainPositionIsOutside(s, st.tail.end);
  }

  /**
   * Nor does any name a statement found in s gives start inside such a
   * unit: the table and its schema, or the schema DETACH names.
   */
  lemma {:induction false} StatementNamesOutsideUnits(s: string, st: Statement)
    requires st in Statements(s)
    ensures match st.tail.target
      case NoTarget => true
      case Object(o) => !InsideUnit(s, o.table.start) && (o.schema.Some? ==> !InsideUnit(s, o.schema.value.start))
      case Schema(sp) => !InsideUnit(s, sp.start)
  {
    ScanOnChain(s, 0);
    match st.tail.target
    case NoTarget =>
    case Object(o) =>
      ReachesTrans(s, 0, st.start, o.table.start);
      ChainPositionIsOutside(s, o.table.start);
      if o.schema.Some? {
        ReachesTrans(s, 0, st.start, o.schema.value.start);
        ChainPositionIsOutside(s, o.schema.value.start);
      }
    case Schema(sp) =>
      ReachesTrans(s, 0, st.start, sp.start);
      ChainPositionIsOutside(s, sp.start);
  }

  /** The only unit that can end just after a `;` with two more characters to come is the `;` itself. */
  lemma {:induction false} UnitBeforeSemicolon(s: string, c: nat, q: nat)
    requires c < |s| && IgnoreEnd(s, c) == q && q + 1 < |s| && s[q - 1] == ';'
    ensures c == q - 1
  {
  }

  /**
   * A statement found after the start of the text follows a `;` that is
   * itself a unit of the scan: a separator, not a character inside a
   * comment or a quoted identifier.
   */
  lemma {:induction false} StatementsFollowSeparator(s: string, st: Statement)
    requires st in Statements(s) && st.start > 0
    ensures s[st.start - 1] == ';'
    ensures Reaches(s, 0, st.start - 1) && IgnoreEnd(s, st.start - 1) == st.start
  {
    ScanOnChain(s, 0);
    ScannedStatementsMatch(s, 0);
    StatementAtAnchored(s, st.start);
    var c := LastUnit(s, 0, st.start);
    UnitBeforeSemicolon(s, c, st.start);
  }

  // ----------------------------------------------------------- references

  lemma {:induction false} ReachesFromOrJoin(s: string, p: nat)
    requires KeywordAt(s, p, "FROM") || KeywordAt(s, p, "JOIN")
    ensures Reaches(s, p, p + 4)
  {
    if KeywordAt(s, p, "FROM") {
      ReachesKeyword(s, p, "FROM");
    } else {
      ReachesKeyword(s, p, "JOIN");
    }
  }

  lemma {:induction false} ReferenceAtOnChain(s: string, p: nat)
    requires p <= |s| && ReferenceAt(s, p).Some?
    ensures Reaches(s, p, ReferenceAt(s, p).value.obj.table.start)
    ensures Reaches(s, p, ReferenceAt(s, p).value.end)
  {
    ReferenceAtMatch(s, p);
    ReachesFromOrJoin(s, p);
    MatchOnChain(s, p + 4, ReferencePattern, NoCaptures);
    ReachesTrans(s, p, p + 4, ReferenceAt(s, p).value.obj.table.start);
    ReachesTrans(s, p, p + 4, ReferenceAt(s, p).value.end);
  }

  lemma {:induction false} ReferencesOnChain(s: string, p: nat)
    requires p <= |s|
    ensures forall rf | rf in ScanReferences(s, p) ::
      Reaches(s, p, rf.start) && Reaches(s, p, rf.obj.table.start)
    decreases |s| - p
  {
    var r := ScanReferences(s, p);
    match ReferenceAt(s, p)
    case Some(rf0) =>
      ReferenceAtOnChain(s, p);
      ReferencesOnChain(s, rf0.end);
      forall rf | rf in r
        ensures Reaches(s, p, rf.start) && Reaches(s, p, rf.obj.table.start)
      {
        if rf != rf0 {
          assert rf in ScanReferences(s, rf0.end);
          ReachesTrans(s, p, rf0.end, rf.start);
          ReachesTrans(s, p, rf0.end, rf.obj.table.start);
        }
      }
    case None =>
      if !AtEnd(s, p) {
        ReferencesOnChain(s, IgnoreEnd(s, p));
        forall rf | rf in r
          ensures Reaches(s, p, rf.start) && Reaches(s, p, rf.obj.table.start)
        {
          ReachesTrans(s, p, IgnoreEnd(s, p), rf.start);
          ReachesTrans(s, p, IgnoreEnd(s, p), rf.obj.table.start);
        }
      }
  }

  /**
   * Comments and quoted identifiers are opaque to `_PATTERN_SUBSTITUTE`: a
   * FROM or JOIN reference is never found, and never names a table, inside
   * one of the units the scan steps over.
   */
  lemma {:induction false} ReferencesOutsideUnits(s: string, rf: Reference)
    requires rf in References(s)
    ensures !InsideUnit(s, rf.start) && !InsideUnit(s, rf.obj.table.start)
  {
    ReferencesOnChain(s, 0);
    ChainPositionIsOutside(s, rf.start);
    ChainPositionIsOutside(s, rf.obj.table.start);
  }
}
