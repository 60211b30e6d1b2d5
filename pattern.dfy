/**
 * The regular-expression pieces the statement patterns of sqlite6nf.py are
 * built from (lines 346-417), and a backtracking matcher for them that
 * follows Python's re: a lazy `*?` first tries the rest of the pattern and
 * only then one more unit, a greedy `(?:…)?` first tries its group, an
 * alternation tries its branches in order, and a failure anywhere later
 * backtracks into all of these.
 *
 * Keywords, space units and identifiers are matched by the scanner; a
 * capture group keeps the span its identifier matched on the path that
 * succeeds.
 */
module Patterns {
  import opened Wrappers
  import opened Scanner

  function OrElse<T>(a: Option<T>, b: Option<T>): Option<T> {
    if a.Some? then a else b
  }

  /**
   * `(?i:…)` on one upper-case letter k: the letter in either case, or one of
   * the characters Python's re also folds onto i and s: dotless i and dotted
   * capital I (whose simple lower case is i), and long s.
   */
  predicate KeywordChar(c: char, k: char) {
    && 'A' <= k <= 'Z'
    && (|| c == k
        || c as int == k as int + 32
        || (k == 'I' && (c == '\U{131}' || c == '\U{130}'))
        || (k == 'S' && c == '\U{17F}'))
  }

  /** `(?i:kw)` matches at p. */
  predicate KeywordAt(s: string, p: nat, kw: string) {
    p + |kw| <= |s| && forall i :: 0 <= i < |kw| ==> KeywordChar(s[p + i], kw[i])
  }

  datatype Span = Span(start: nat, end: nat)

  /** The named groups the classifier reads: `schema` and `table` of `_PATTERN_OBJECT`. */
  datatype Slot = SchemaSlot | TableSlot

  datatype Piece =
    | Word(kw: string)                           // `(?i:kw)`
    | Dot                                        // `\.`
    | Colon                                      // a literal `:`
    | Space                                      // one `_PATTERN_SPACE` unit
    | LazySpaces(paren: bool)                    // `{space}*?`, or `(?:{space}|\()*?` when paren
    | Identifier(slot: Slot)                     // `_PATTERN_IDENTIFIER`, captured into slot
    | Optional(group: seq<Piece>)                // `(?:group)?`
    | Either(left: seq<Piece>, right: seq<Piece>) // `(?:left|right)`
    | Temporary                                  // closes the `temporary` group

  /** What the groups hold after a match: whether `temporary` took part, and the identifier spans. */
  datatype Captures = Captures(temporary: bool, schema: Option<Span>, table: Option<Span>) {
    function Get(slot: Slot): Option<Span> {
      match slot
      case SchemaSlot => schema
      case TableSlot => table
    }

    function Put(slot: Slot, sp: Span): Captures {
      match slot
      case SchemaSlot => this.(schema := Some(sp))
      case TableSlot => this.(table := Some(sp))
    }
  }

  /** sp is one whole identifier of any of the five styles. */
  predicate IdentifierSpan(s: string, sp: Span) {
    sp.start <= |s| && IdentifierEnd(s, sp.start) == Some(sp.end)
  }

  const NoCaptures := Captures(false, None, None)

  datatype Matched = Matched(caps: Captures, end: nat)

  /** Piece counts, nested groups included: what the matcher uses up. */
  function Size(ps: seq<Piece>): nat
    decreases ps
  {
    if ps == [] then 0 else Weight(ps[0]) + Size(ps[1..])
  }

  function Weight(p: Piece): nat
    decreases p
  {
    match p
    case Optional(g) => 1 + Size(g)
    case Either(a, b) => 1 + Size(a) + Size(b)
    case _ => 1
  }

  lemma {:induction false} SizeAppend(a: seq<Piece>, b: seq<Piece>)
    ensures Size(a + b) == Size(a) + Size(b)
    decreases a
  {
    if a != [] {
      assert (a + b)[0] == a[0] && (a + b)[1..] == a[1..] + b;
      SizeAppend(a[1..], b);
    } else {
      assert a + b == b;
    }
  }

  /**
   * The first match of ps at c, with the groups caps already holds: the end
   * of the match and the groups as the successful path leaves them.
   */
  function Match(s: string, c: nat, ps: seq<Piece>, caps: Captures): (r: Option<Matched>)
    requires c <= |s|
    decreases Size(ps), |s| - c
    ensures r.Some? ==> c <= r.value.end <= |s|
  {
    if ps == [] then Some(Matched(caps, c))
    else
      var rest := ps[1..];
      assert Size(ps) == Weight(ps[0]) + Size(rest);
      match ps[0]
      case Word(kw) =>
        if KeywordAt(s, c, kw) then Match(s, c + |kw|, rest, caps) else None
      case Dot =>
        if c < |s| && s[c] == '.' then Match(s, c + 1, rest, caps) else None
      case Colon =>
        if c < |s| && s[c] == ':' then Match(s, c + 1, rest, caps) else None
      case Space =>
        (match SpaceEnd(s, c)
         case None => None
         case Some(q) => Match(s, q, rest, caps))
      case LazySpaces(paren) =>
        var more := match SpaceEnd(s, c)
          case None => None
          case Some(q) => Match(s, q, ps, caps);
        var open := if paren && c < |s| && s[c] == '(' then Match(s, c + 1, ps, caps) else None;
        OrElse(Match(s, c, rest, caps), OrElse(more, open))
      case Identifier(slot) =>
        (match IdentifierEnd(s, c)
         case None => None
         case Some(e) => Match(s, e, rest, caps.Put(slot, Span(c, e))))
      case Optional(g) =>
        SizeAppend(g, rest);
        OrElse(Match(s, c, g + rest, caps), Match(s, c, rest, caps))
      case Either(a, b) =>
        SizeAppend(a, rest);
        SizeAppend(b, rest);
        OrElse(Match(s, c, a + rest, caps), Match(s, c, b + rest, caps))
      case Temporary =>
        Match(s, c, rest, caps.(temporary := true))
  }

  // ------------------------------------------------------ what a match holds

  /** A group left as it was, or set to one whole identifier between c and e. */
  predicate CapturedIn(s: string, c: nat, e: nat, before: Option<Span>, after: Option<Span>) {
    after == before || (after.Some? && IdentifierSpan(s, after.value) && c <= after.value.start && after.value.end <= e)
  }

  /** Every group a match sets holds a whole identifier inside the match. */
  lemma {:induction false} MatchCaptures(s: string, c: nat, ps: seq<Piece>, caps: Captures)
    requires c <= |s| && Match(s, c, ps, caps).Some?
    ensures var m := Match(s, c, ps, caps).value;
      CapturedIn(s, c, m.end, caps.schema, m.caps.schema) && CapturedIn(s, c, m.end, caps.table, m.caps.table)
    decreases Size(ps), |s| - c, 1
  {
    if ps != [] {
      var rest := ps[1..];
      assert Size(ps) == Weight(ps[0]) + Size(rest);
      match ps[0]
      case Word(kw) => MatchCaptures(s, c + |kw|, rest, caps);
      case Dot => MatchCaptures(s, c + 1, rest, caps);
      case Colon => MatchCaptures(s, c + 1, rest, caps);
      case Space => MatchCaptures(s, SpaceEnd(s, c).value, rest, caps);
      case Identifier(slot) =>
        var e := IdentifierEnd(s, c).value;
        MatchCaptures(s, e, rest, caps.Put(slot, Span(c, e)));
      case Temporary => MatchCaptures(s, c, rest, caps.(temporary := true));
      case _ => MatchCapturesBranch(s, c, ps, caps);
    }
  }

  /** MatchCaptures for the pieces that try more than one way on. */
  lemma {:induction false} MatchCapturesBranch(s: string, c: nat, ps: seq<Piece>, caps: Captures)
    requires c <= |s| && Match(s, c, ps, caps).Some?
    requires ps != [] && (ps[0].LazySpaces? || ps[0].Optional? || ps[0].Either?)
    ensures var m := Match(s, c, ps, caps).value;
      CapturedIn(s, c, m.end, caps.schema, m.caps.schema) && CapturedIn(s, c, m.end, caps.table, m.caps.table)
    decreases Size(ps), |s| - c, 0
  {
    var rest := ps[1..];
    assert Size(ps) == Weight(ps[0]) + Size(rest);
    match ps[0]
    case LazySpaces(paren) =>
      if Match(s, c, rest, caps).Some? {
        MatchCaptures(s, c, rest, caps);
      } else if SpaceEnd(s, c).Some? && Match(s, SpaceEnd(s, c).value, ps, caps).Some? {
        MatchCaptures(s, SpaceEnd(s, c).value, ps, caps);
      } else {
        MatchCaptures(s, c + 1, ps, caps);
      }
    case Optional(g) =>
      SizeAppend(g, rest);
      if Match(s, c, g + rest, caps).Some? {
        MatchCaptures(s, c, g + rest, caps);
      } else {
        MatchCaptures(s, c, rest, caps);
      }
    case Either(a, b) =>
      SizeAppend(a, rest);
      SizeAppend(b, rest);
      if Match(s, c, a + rest, caps).Some? {
        MatchCaptures(s, c, a + rest, caps);
      } else {
        MatchCaptures(s, c, b + rest, caps);
      }
  }

  /** A pattern that ends with an identifier group ends where that identifier ends. */
  lemma {:induction false} MatchEndsWithCapture(s: string, c: nat, ps: seq<Piece>, caps: Captures, slot: Slot)
    requires c <= |s| && ps != [] && ps[|ps| - 1] == Identifier(slot) && Match(s, c, ps, caps).Some?
    ensures var m := Match(s, c, ps, caps).value;
      m.caps.Get(slot).Some? && m.caps.Get(slot).value.end == m.end
    decreases Size(ps), |s| - c, 1
  {
    var rest := ps[1..];
    assert Size(ps) == Weight(ps[0]) + Size(rest);
    if rest == [] {
      assert ps[0] == Identifier(slot);
    } else {
      assert rest[|rest| - 1] == Identifier(slot);
      match ps[0]
      case Word(kw) => MatchEndsWithCapture(s, c + |kw|, rest, caps, slot);
      case Dot => MatchEndsWithCapture(s, c + 1, rest, caps, slot);
      case Colon => MatchEndsWithCapture(s, c + 1, rest, caps, slot);
      case Space => MatchEndsWithCapture(s, SpaceEnd(s, c).value, rest, caps, slot);
      case Identifier(sl) =>
        var e := IdentifierEnd(s, c).value;
        MatchEndsWithCapture(s, e, rest, caps.Put(sl, Span(c, e)), slot);
      case Temporary => MatchEndsWithCapture(s, c, rest, caps.(temporary := true), slot);
      case _ => MatchEndsWithCaptureBranch(s, c, ps, caps, slot);
    }
  }

  /** MatchEndsWithCapture for the pieces that try more than one way on. */
  lemma {:induction false} MatchEndsWithCaptureBranch(s: string, c: nat, ps: seq<Piece>, caps: Captures, slot: Slot)
    requires c <= |s| && |ps| >= 2 && ps[|ps| - 1] == Identifier(slot) && Match(s, c, ps, caps).Some?
    requires ps[0].LazySpaces? || ps[0].Optional? || ps[0].Either?
    ensures var m := Match(s, c, ps, caps).value;
      m.caps.Get(slot).Some? && m.caps.Get(slot).value.end == m.end
    decreases Size(ps), |s| - c, 0
  {
    var rest := ps[1..];
    assert Size(ps) == Weight(ps[0]) + Size(rest);
    assert rest[|rest| - 1] == Identifier(slot);
    match ps[0]
    case LazySpaces(paren) =>
      if Match(s, c, rest, caps).Some? {
        MatchEndsWithCapture(s, c, rest, caps, slot);
      } else if SpaceEnd(s, c).Some? && Match(s, SpaceEnd(s, c).value, ps, caps).Some? {
        MatchEndsWithCapture(s, SpaceEnd(s, c).value, ps, caps, slot);
      } else {
        MatchEndsWithCapture(s, c + 1, ps, caps, slot);
      }
    case Optional(g) =>
      SizeAppend(g, rest);
      assert (g + rest)[|g + rest| - 1] == Identifier(slot);
      if Match(s, c, g + rest, caps).Some? {
        MatchEndsWithCapture(s, c, g + rest, caps, slot);
      } else {
        MatchEndsWithCapture(s, c, rest, caps, slot);
      }
    case Either(a, b) =>
      SizeAppend(a, rest);
      SizeAppend(b, rest);
      assert (a + rest)[|a + rest| - 1] == Identifier(slot);
      assert (b + rest)[|b + rest| - 1] == Identifier(slot);
      if Match(s, c, a + rest, caps).Some? {
        MatchEndsWithCapture(s, c, a + rest, caps, slot);
      } else {
        MatchEndsWithCapture(s, c, b + rest, caps, slot);
      }
  }

  // ------------------------------------------------------------ single steps

  lemma MatchOptional(s: string, c: nat, ps: seq<Piece>, caps: Captures)
    requires c <= |s| && ps != [] && ps[0].Optional?
    ensures Match(s, c, ps, caps) == OrElse(Match(s, c, ps[0].group + ps[1..], caps), Match(s, c, ps[1..], caps))
  {
  }

  lemma MatchSpace(s: string, c: nat, ps: seq<Piece>, caps: Captures)
    requires c <= |s| && ps != [] && ps[0] == Space && SpaceEnd(s, c).Some?
    ensures Match(s, c, ps, caps) == Match(s, SpaceEnd(s, c).value, ps[1..], caps)
  {
  }

  lemma MatchWord(s: string, c: nat, ps: seq<Piece>, caps: Captures)
    requires c <= |s| && ps != [] && ps[0].Word? && KeywordAt(s, c, ps[0].kw)
    ensures Match(s, c, ps, caps) == Match(s, c + |ps[0].kw|, ps[1..], caps)
  {
  }

  lemma MatchLastIdentifier(s: string, c: nat, slot: Slot, caps: Captures)
    requires c <= |s| && IdentifierEnd(s, c).Some?
    ensures Match(s, c, [Identifier(slot)], caps) == Some(Matched(caps.Put(slot, Span(c, IdentifierEnd(s, c).value)), IdentifierEnd(s, c).value))
  {
    assert [Identifier(slot)][1..] == [];
  }

  // ------------------------------------------------------------ lazy spaces

  /** A piece that cannot match where a space unit starts: an identifier, a keyword, or `.`. */
  predicate Solid(p: Piece) {
    p.Identifier? || p.Dot? || (p.Word? && p.kw != [] && 'A' <= p.kw[0] <= 'Z')
  }

  /**
   * ps cannot begin to match where a space unit starts: every way into it,
   * through optional groups and alternations, opens with a solid piece.
   */
  predicate Firm(ps: seq<Piece>)
    decreases Size(ps)
  {
    && ps != []
    && var rest := ps[1..];
       assert Size(ps) == Weight(ps[0]) + Size(rest);
       match ps[0]
       case Optional(g) =>
         SizeAppend(g, rest);
         Firm(g + rest) && Firm(rest)
       case Either(a, b) =>
         SizeAppend(a, rest);
         SizeAppend(b, rest);
         Firm(a + rest) && Firm(b + rest)
       case _ => Solid(ps[0])
  }

  /** Where a space unit starts, a pattern that opens with a solid piece does not match. */
  lemma SolidNotAtSpace(s: string, c: nat, ps: seq<Piece>, caps: Captures)
    requires c <= |s| && SpaceEnd(s, c).Some? && ps != [] && Solid(ps[0])
    ensures Match(s, c, ps, caps).None?
  {
    if ps[0].Word? {
      assert KeywordAt(s, c, ps[0].kw) ==> KeywordChar(s[c + 0], ps[0].kw[0]);
    }
  }

  /** Where a space unit starts, a firm pattern does not match. */
  lemma {:induction false} FirmNotAtSpace(s: string, c: nat, ps: seq<Piece>, caps: Captures)
    requires c <= |s| && SpaceEnd(s, c).Some? && Firm(ps)
    ensures Match(s, c, ps, caps).None?
    decreases Size(ps)
  {
    var rest := ps[1..];
    assert Size(ps) == Weight(ps[0]) + Size(rest);
    match ps[0]
    case Optional(g) =>
      SizeAppend(g, rest);
      FirmNotAtSpace(s, c, g + rest, caps);
      FirmNotAtSpace(s, c, rest, caps);
    case Either(a, b) =>
      SizeAppend(a, rest);
      SizeAppend(b, rest);
      FirmNotAtSpace(s, c, a + rest, caps);
      FirmNotAtSpace(s, c, b + rest, caps);
    case _ =>
      SolidNotAtSpace(s, c, ps, caps);
  }

  /**
   * `{space}*?` before a firm pattern stops exactly where the space units
   * run out: trying the rest first at every unit boundary is the same as
   * skipping all of them.
   */
  lemma {:induction false} LazySpacesSkip(s: string, c: nat, ps: seq<Piece>, caps: Captures)
    requires c <= |s| && |ps| >= 2 && ps[0] == LazySpaces(false) && Firm(ps[1..])
    ensures Match(s, c, ps, caps) == Match(s, SkipSpaces(s, c), ps[1..], caps)
    decreases |s| - c
  {
    match SpaceEnd(s, c)
    case None =>
    case Some(q) =>
      FirmNotAtSpace(s, c, ps[1..], caps);
      LazySpacesSkip(s, q, ps, caps);
  }
}
