/**
 * The lexical units of SQL text that sqlite6nf.py recognises with its regular
 * expressions: comments, the four identifier quoting styles, bare identifiers,
 * "space" (white space or a comment) and the IGNORE unit that steps over one
 * opaque piece of text. Every scanner takes the whole text `s` and a start
 * position and answers with the position just past the unit, so a unit is
 * the span [start, end).
 */
module Scanner {
  import opened Wrappers

  /** Python's `$` without MULTILINE: the end of the text, or just before a final newline. */
  predicate AtEnd(s: string, p: nat) {
    p == |s| || (p + 1 == |s| && s[p] == '\n')
  }

  /** `[A-Z_a-z]` */
  predicate IsIdentStart(c: char) {
    'A' <= c <= 'Z' || 'a' <= c <= 'z' || c == '_'
  }

  /** `[0-9A-Z_a-z]` */
  predicate IsIdentChar(c: char) {
    IsIdentStart(c) || '0' <= c <= '9'
  }

  /** `\s` in a str pattern: exactly the characters for which str.isspace() holds. */
  predicate IsSpace(c: char) {
    || '\U{9}' <= c <= '\U{D}'
    || '\U{1C}' <= c <= '\U{20}'
    || c == '\U{85}' || c == '\U{A0}' || c == '\U{1680}'
    || '\U{2000}' <= c <= '\U{200A}'
    || c == '\U{2028}' || c == '\U{2029}' || c == '\U{202F}' || c == '\U{205F}' || c == '\U{3000}'
  }

  /** The three delimiters that escape themselves by doubling: `'`, `"` and the grave accent. */
  predicate IsQuote(c: char) {
    c == '\'' || c == '"' || c == '`'
  }

  // ---------------------------------------------------------------- comments

  predicate LineCommentAt(s: string, p: nat) {
    p + 1 < |s| && s[p] == '-' && s[p + 1] == '-'
  }

  predicate BlockCommentAt(s: string, p: nat) {
    p + 1 < |s| && s[p] == '/' && s[p + 1] == '*'
  }

  // A block comment's closing star-slash starts at j.
  predicate CloseAt(s: string, j: nat) {
    j + 1 < |s| && s[j] == '*' && s[j + 1] == '/'
  }

  /** `(?s:.*?)(?:\n|$)` matched from k: just past the first newline, or the end of the text. */
  function LineEnd(s: string, k: nat): (e: nat)
    requires k <= |s|
    decreases |s| - k
    ensures k <= e <= |s|
    ensures (k < e && s[e - 1] == '\n') || e == |s|
  {
    if k == |s| then k
    else if s[k] == '\n' then k + 1
    else LineEnd(s, k + 1)
  }

  /** The newline LineEnd stops after is the first one; without one it runs to the end. */
  lemma {:induction false} LineEndFirstNewline(s: string, k: nat)
    requires k <= |s|
    decreases |s| - k
    ensures var e := LineEnd(s, k);
            && (forall j :: k <= j < e - 1 ==> s[j] != '\n')
            && ((k < e && s[e - 1] == '\n') || (e == |s| && forall j :: k <= j < e ==> s[j] != '\n'))
  {
    if k < |s| && s[k] != '\n' {
      LineEndFirstNewline(s, k + 1);
    }
  }

  /** `--(?s:.*?)(?:\n|$)` (sqlite6nf.py:298-302) matched at p. */
  function LineCommentEnd(s: string, p: nat): (e: nat)
    requires LineCommentAt(s, p)
    ensures p + 2 <= e <= |s|
    ensures (p + 2 < e && s[e - 1] == '\n') || e == |s|
  {
    LineEnd(s, p + 2)
  }

  // `(?s:.*?)(?:\*/|$)` matched from k: just past the first star-slash, or at `$`.
  function BlockEnd(s: string, k: nat): (e: nat)
    requires k <= |s|
    decreases |s| - k
    ensures k <= e <= |s|
    ensures (k + 2 <= e && CloseAt(s, e - 2)) || AtEnd(s, e)
  {
    if CloseAt(s, k) then k + 2
    else if AtEnd(s, k) then k
    else BlockEnd(s, k + 1)
  }

  // The star-slash BlockEnd stops after is the first one; without one it stops at `$`.
  lemma {:induction false} BlockEndFirstClose(s: string, k: nat)
    requires k <= |s|
    decreases |s| - k
    ensures var e := BlockEnd(s, k);
            || (k + 2 <= e && CloseAt(s, e - 2) && forall j :: k <= j < e - 2 ==> !CloseAt(s, j))
            || (AtEnd(s, e) && forall j :: k <= j < e ==> !CloseAt(s, j))
  {
    if !CloseAt(s, k) && !AtEnd(s, k) {
      BlockEndFirstClose(s, k + 1);
    }
  }

  // `/\*(?s:.*?)(?:\*/|$)` (sqlite6nf.py:303-307) matched at p.
  function BlockCommentEnd(s: string, p: nat): (e: nat)
    requires BlockCommentAt(s, p)
    ensures p + 2 <= e <= |s|
    ensures (p + 4 <= e && CloseAt(s, e - 2)) || AtEnd(s, e)
  {
    BlockEnd(s, p + 2)
  }

  // ------------------------------------------------------ quoted identifiers

  /**
   * A quoted body read left to right: every character is either not the
   * delimiter, or the first of a doubled delimiter.
   */
  predicate Escaped(t: string, d: char)
    decreases |t|
  {
    || t == []
    || (t[0] != d && Escaped(t[1..], d))
    || (|t| >= 2 && t[0] == d && t[1] == d && Escaped(t[2..], d))
  }

  /**
   * The body of a quoted identifier from k: past the first delimiter that is
   * not doubled, or at `$` when the quote is never closed. At each position
   * the closing delimiter is tried before `$`, as the pattern orders them.
   */
  function QuoteEnd(s: string, d: char, k: nat): (e: nat)
    requires k <= |s|
    decreases |s| - k
    ensures k <= e <= |s|
    ensures (k < e && s[e - 1] == d && (e == |s| || s[e] != d)) || AtEnd(s, e)
  {
    if k < |s| && s[k] == d && !(k + 1 < |s| && s[k + 1] == d) then k + 1
    else if AtEnd(s, k) then k
    else if s[k] == d then QuoteEnd(s, d, k + 2)
    else QuoteEnd(s, d, k + 1)
  }

  /** s[k..e] is a well-formed quoted body, read in place: Escaped without taking slices. */
  predicate EscapedIn(s: string, k: nat, e: nat, d: char)
    requires k <= e <= |s|
    decreases e - k
  {
    || k == e
    || (s[k] != d && EscapedIn(s, k + 1, e, d))
    || (k + 1 < e && s[k] == d && s[k + 1] == d && EscapedIn(s, k + 2, e, d))
  }

  /**
   * What QuoteEnd steps over is a well-formed quoted body: every delimiter in
   * it is doubled. It stops at the first delimiter that is not, or at the
   * first `$` when there is none.
   */
  lemma {:induction false} QuoteEndEscaped(s: string, d: char, k: nat)
    requires k <= |s| && IsQuote(d)
    decreases |s| - k
    ensures var e := QuoteEnd(s, d, k);
            || (k < e && s[e - 1] == d && EscapedIn(s, k, e - 1, d) && (e == |s| || s[e] != d))
            || (AtEnd(s, e) && EscapedIn(s, k, e, d) && forall j :: k <= j < e ==> !AtEnd(s, j))
  {
    if k < |s| && s[k] == d && !(k + 1 < |s| && s[k + 1] == d) {
    } else if AtEnd(s, k) {
    } else if s[k] == d {
      QuoteEndEscaped(s, d, k + 2);
    } else {
      QuoteEndEscaped(s, d, k + 1);
    }
  }

  /** What sqlite6nf.py:559 and :571 do to a name before splicing it between delimiters. */
  function Escape(name: string, d: char): (t: string)
    decreases |name|
    ensures Escaped(t, d)
    ensures |t| >= |name|
  {
    if name == [] then []
    else
      var rest := Escape(name[1..], d);
      if name[0] == d then
        assert ([d, d] + rest)[2..] == rest;
        [d, d] + rest
      else
        assert ([name[0]] + rest)[1..] == rest;
        [name[0]] + rest
  }

  /** The logical identifier a quoted body stands for: each doubled delimiter read as one. */
  function Unescape(t: string, d: char): (name: string)
    requires Escaped(t, d)
    decreases |t|
    ensures Escape(name, d) == t
  {
    if t == [] then []
    else if t[0] != d then
      var rest := Unescape(t[1..], d);
      assert ([t[0]] + rest)[1..] == rest;
      [t[0]] + rest
    else
      var rest := Unescape(t[2..], d);
      assert ([d] + rest)[1..] == rest;
      [d] + rest
  }

  /** Escaping then unescaping gives the name back. */
  lemma {:induction false} UnescapeEscape(name: string, d: char)
    ensures Unescape(Escape(name, d), d) == name
    decreases |name|
  {
    if name != [] {
      UnescapeEscape(name[1..], d);
      var rest := Escape(name[1..], d);
      if name[0] == d {
        assert ([d, d] + rest)[2..] == rest;
      } else {
        assert ([name[0]] + rest)[1..] == rest;
      }
    }
  }

  /** The quote scanner stops exactly after a well-formed quoted body and its closing delimiter. */
  lemma {:induction false} QuoteEndAfterEscaped(s: string, d: char, k: nat, t: string)
    requires Escaped(t, d) && k + |t| < |s|
    requires forall i :: 0 <= i < |t| ==> s[k + i] == t[i]
    requires s[k + |t|] == d
    requires k + |t| + 1 == |s| || s[k + |t| + 1] != d
    ensures QuoteEnd(s, d, k) == k + |t| + 1
    decreases |t|
  {
    if t != [] {
      assert s[k] == t[0] by {
        assert s[k + 0] == t[0];
      }
      if t[0] != d {
        forall i | 0 <= i < |t| - 1
          ensures s[k + 1 + i] == t[1..][i]
        {
          assert s[k + (1 + i)] == t[1 + i];
        }
        QuoteEndAfterEscaped(s, d, k + 1, t[1..]);
      } else {
        assert s[k + 1] == d by {
          assert s[k + 1] == t[1];
        }
        forall i | 0 <= i < |t| - 2
          ensures s[k + 2 + i] == t[2..][i]
        {
          assert s[k + (2 + i)] == t[2 + i];
        }
        QuoteEndAfterEscaped(s, d, k + 2, t[2..]);
      }
    }
  }

  /**
   * The round trip that sqlite6nf.py:559 and :571 rely on: a name whose
   * delimiters are doubled, spliced between two delimiters, scans back as one
   * quoted identifier ending at the closing delimiter, whose logical value is
   * the name, whatever the name contains.
   */
  lemma QuotedRoundTrip(pre: string, name: string, rest: string, d: char)
    requires rest == [] || rest[0] != d
    ensures var s := pre + [d] + Escape(name, d) + [d] + rest;
            var e := |pre| + 1 + |Escape(name, d)|;
            && s[|pre|] == d
            && QuoteEnd(s, d, |pre| + 1) == e + 1
            && s[|pre| + 1..e] == Escape(name, d)
            && Unescape(s[|pre| + 1..e], d) == name
  {
    var t := Escape(name, d);
    var s := pre + [d] + t + [d] + rest;
    var k := |pre| + 1;
    assert s[k..k + |t|] == t;
    forall i | 0 <= i < |t|
      ensures s[k + i] == t[i]
    {
      assert s[k..k + |t|][i] == t[i];
    }
    assert s[k + |t|] == d;
    assert k + |t| + 1 == |s| || s[k + |t| + 1] == rest[0];
    QuoteEndAfterEscaped(s, d, k, t);
    UnescapeEscape(name, d);
  }

  // ------------------------------------- quoted identifiers, as sqlite6nf.py writes them

  /** `(?:'{2})*` matched greedily from r: the end of the run of doubled delimiters. */
  function PairRun(s: string, d: char, r: nat): (e: nat)
    requires r <= |s|
    decreases |s| - r
    ensures r <= e <= |s|
    ensures !(e + 1 < |s| && s[e] == d && s[e + 1] == d)
  {
    if r + 1 < |s| && s[r] == d && s[r + 1] == d then PairRun(s, d, r + 2) else r
  }

  /** `[^'](?:'{2})*(?:'(?!')|$)` tried with its `[^']` at q. */
  function CloseAfterAsWritten(s: string, d: char, q: nat): (r: Option<nat>)
    requires q < |s|
    ensures r.Some? ==> q < r.value <= |s| && s[q] != d
  {
    if s[q] == d then None
    else
      var r := PairRun(s, d, q + 1);
      if r < |s| && s[r] == d then Some(r + 1)
      else if AtEnd(s, r) then Some(r)
      else None
  }

  /**
   * The body `(?s:.*?)[^'](?:'{2})*(?:'(?!')|$)` of the quoted identifier
   * patterns of sqlite6nf.py:314-333 matched from q: the lazy prefix grows one
   * character at a time until the rest matches. None when it never does.
   */
  function QuoteEndAsWritten(s: string, d: char, q: nat): (r: Option<nat>)
    requires q <= |s|
    decreases |s| - q
    ensures r.Some? ==> q < r.value <= |s|
  {
    if q == |s| then None
    else match CloseAfterAsWritten(s, d, q)
      case Some(e) => Some(e)
      case None => QuoteEndAsWritten(s, d, q + 1)
  }

  /**
   * The empty literal `''` followed by `;x`: as written, the pattern cannot
   * close on the second quote (it needs a non-quote character first), so the
   * span runs on over the `;`; the corrected scanner closes right there.
   */
  lemma EmptyQuoteSwallowsText()
    ensures QuoteEndAsWritten("'';x", '\'', 1) == Some(4)
    ensures QuoteEnd("'';x", '\'', 1) == 2
  {
    var s := "'';x";
    assert s[1] == '\'' && s[2] == ';' && s[3] == 'x';
    assert PairRun(s, '\'', 3) == 3;
    assert CloseAfterAsWritten(s, '\'', 2) == None;
    assert PairRun(s, '\'', 4) == 4;
    assert CloseAfterAsWritten(s, '\'', 3) == Some(4);
    assert CloseAfterAsWritten(s, '\'', 1) == None;
  }

  /** As written, an identifier made only of escaped delimiters is not recognised at all. */
  lemma EscapedQuoteOnlyUnrecognised()
    ensures QuoteEndAsWritten("\"\"\"\"", '"', 1) == None
    ensures QuoteEnd("\"\"\"\"", '"', 1) == 4
  {
    var s := "\"\"\"\"";
    assert CloseAfterAsWritten(s, '"', 1) == None;
    assert CloseAfterAsWritten(s, '"', 2) == None;
    assert CloseAfterAsWritten(s, '"', 3) == None;
  }

  // ------------------------------------------------ other identifier styles

  /** `\[(?s:.*?)(?:]|$)` (sqlite6nf.py:324-328) body from k: past the first `]`, no escape. */
  function BracketEnd(s: string, k: nat): (e: nat)
    requires k <= |s|
    decreases |s| - k
    ensures k <= e <= |s|
    ensures (k < e && s[e - 1] == ']') || AtEnd(s, e)
  {
    if k < |s| && s[k] == ']' then k + 1
    else if AtEnd(s, k) then k
    else BracketEnd(s, k + 1)
  }

  /** A bracketed identifier has no escape: it ends at the first `]`, or at `$` without one. */
  lemma {:induction false} BracketEndFirstClose(s: string, k: nat)
    requires k <= |s|
    decreases |s| - k
    ensures var e := BracketEnd(s, k);
            || (k < e && s[e - 1] == ']' && forall j :: k <= j < e - 1 ==> s[j] != ']')
            || (AtEnd(s, e) && forall j :: k <= j < e ==> s[j] != ']')
  {
    if !(k < |s| && s[k] == ']') && !AtEnd(s, k) {
      BracketEndFirstClose(s, k + 1);
    }
  }

  /** The end of the run of identifier characters from k. */
  function IdentRunEnd(s: string, k: nat): (e: nat)
    requires k <= |s|
    decreases |s| - k
    ensures k <= e <= |s|
    ensures e == |s| || !IsIdentChar(s[e])
  {
    if k < |s| && IsIdentChar(s[k]) then IdentRunEnd(s, k + 1) else k
  }

  /** Every character of the run is an identifier character. */
  lemma {:induction false} IdentRunAll(s: string, k: nat)
    requires k <= |s|
    decreases |s| - k
    ensures forall j :: k <= j < IdentRunEnd(s, k) ==> IsIdentChar(s[j])
  {
    if k < |s| && IsIdentChar(s[k]) {
      IdentRunAll(s, k + 1);
    }
  }

  /** [p, e) is a whole word: a letter or `_` first, identifier characters, none on either side. */
  predicate BareIdentifier(s: string, p: nat, e: nat) {
    && p < e <= |s|
    && IsIdentStart(s[p])
    && (p == 0 || !IsIdentChar(s[p - 1]))
    && (forall j :: p <= j < e ==> IsIdentChar(s[j]))
    && (e == |s| || !IsIdentChar(s[e]))
  }

  /** `(?<![0-9A-Z_a-z])[A-Z_a-z][0-9A-Z_a-z]*?(?![0-9A-Z_a-z])` (sqlite6nf.py:334-338) at p. */
  function BareEnd(s: string, p: nat): (r: Option<nat>)
    requires p <= |s|
    ensures r.Some? <==> p < |s| && IsIdentStart(s[p]) && (p == 0 || !IsIdentChar(s[p - 1]))
    ensures r.Some? ==> p < r.value <= |s|
  {
    if p < |s| && IsIdentStart(s[p]) && (p == 0 || !IsIdentChar(s[p - 1])) then
      Some(IdentRunEnd(s, p + 1))
    else None
  }

  /** A whole word is exactly what BareEnd finds: no partial-word match, no other end. */
  lemma BareEndExactly(s: string, p: nat, e: nat)
    requires p <= |s|
    ensures BareEnd(s, p) == Some(e) <==> BareIdentifier(s, p, e)
  {
    if p < |s| {
      IdentRunAll(s, p + 1);
    }
    if BareIdentifier(s, p, e) {
      var f := IdentRunEnd(s, p + 1);
      assert f == e;
    }
  }

  /** `identifier` (sqlite6nf.py:339-343): one of the four quoted styles or a bare word, at p. */
  function IdentifierEnd(s: string, p: nat): (r: Option<nat>)
    requires p <= |s|
    ensures r.Some? ==> p < r.value <= |s|
    ensures r.None? <==> !(p < |s| && (IsQuote(s[p]) || s[p] == '[')) && BareEnd(s, p).None?
  {
    if p < |s| && IsQuote(s[p]) then Some(QuoteEnd(s, s[p], p + 1))
    else if p < |s| && s[p] == '[' then Some(BracketEnd(s, p + 1))
    else BareEnd(s, p)
  }

  /** An identifier that opens with a quote ends where its quoted body does. */
  lemma IdentifierEndQuoted(s: string, p: nat)
    requires p < |s| && IsQuote(s[p])
    ensures IdentifierEnd(s, p) == Some(QuoteEnd(s, s[p], p + 1))
  {
  }

  // ------------------------------------------------------- space and ignore

  // `\s` or a comment (sqlite6nf.py:311-313): one white space character or one comment at p.
  function SpaceEnd(s: string, p: nat): (r: Option<nat>)
    requires p <= |s|
    ensures r.Some? ==> p < r.value <= |s|
    ensures r.None? <==> !(p < |s| && (IsSpace(s[p]) || LineCommentAt(s, p) || BlockCommentAt(s, p)))
  {
    if p < |s| && IsSpace(s[p]) then Some(p + 1)
    else if LineCommentAt(s, p) then Some(LineCommentEnd(s, p))
    else if BlockCommentAt(s, p) then Some(BlockCommentEnd(s, p))
    else None
  }

  /** Space units from p, as many as follow one another. */
  function SkipSpaces(s: string, p: nat): (e: nat)
    requires p <= |s|
    decreases |s| - p
    ensures p <= e <= |s|
    ensures SpaceEnd(s, e).None?
  {
    match SpaceEnd(s, p)
    case None => p
    case Some(q) => SkipSpaces(s, q)
  }

  /** A space unit with at least two characters after it ends on a non-identifier character. */
  lemma SpaceUnitEndsWord(s: string, p: nat)
    requires p <= |s| && SpaceEnd(s, p).Some? && SpaceEnd(s, p).value + 1 < |s|
    ensures !IsIdentChar(s[SpaceEnd(s, p).value - 1])
  {
  }

  /**
   * Skipping space units keeps a word boundary: what precedes the position
   * reached is not an identifier character, when it was not before p.
   */
  lemma {:induction false} SkipSpacesKeepsWordBoundary(s: string, p: nat)
    requires p <= |s| && (p == 0 || !IsIdentChar(s[p - 1]))
    requires SkipSpaces(s, p) + 1 < |s|
    ensures SkipSpaces(s, p) == 0 || !IsIdentChar(s[SkipSpaces(s, p) - 1])
    decreases |s| - p
  {
    match SpaceEnd(s, p)
    case None =>
    case Some(q) =>
      SpaceUnitEndsWord(s, p);
      SkipSpacesKeepsWordBoundary(s, q);
  }

  /** A comment or a quoted identifier starts at p: text the classifier must step over whole. */
  predicate OpaqueAt(s: string, p: nat) {
    p < |s| && (LineCommentAt(s, p) || BlockCommentAt(s, p) || IsQuote(s[p]) || s[p] == '[')
  }

  /**
   * `_PATTERN_IGNORE` (sqlite6nf.py:350-355) at p < |s|: a space unit, a
   * quoted span of any of the four styles, or else any one character.
   */
  function IgnoreEnd(s: string, p: nat): (e: nat)
    requires p < |s|
    ensures p < e <= |s|
    ensures !OpaqueAt(s, p) && !IsSpace(s[p]) ==> e == p + 1
  {
    match SpaceEnd(s, p)
    case Some(q) => q
    case None =>
      if IsQuote(s[p]) then QuoteEnd(s, s[p], p + 1)
      else if s[p] == '[' then BracketEnd(s, p + 1)
      else p + 1
  }
}
