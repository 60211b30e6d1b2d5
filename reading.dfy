/**
 * What each structural statement pattern of sqlite6nf.py (lines 359-410)
 * reads, stated directly on the lexical units of Scanner instead of through
 * the backtracking matcher: which words must stand where, which optional
 * parts are taken when they are there and skipped when they are not, and
 * which names end up in the `schema` and `table` groups.
 *
 * Each reading is proved equal to the matcher's result on every input
 * (CreateTailReads and its siblings). At an anchor, a statement that reads
 * is the one the scan reports (CreateFound and its siblings), and every
 * statement the scan reports is its lead keyword followed by the tail of
 * its kind (CreateStatementTail and its siblings), which is its reading.
 */
module Readings {
  import opened Wrappers
  import opened Scanner
  import opened Patterns
  import opened Classifier

  // ------------------------------------------------------------ readings

  /** `{space}+?(?i:kw)` from c: one space unit, the units that follow it, then kw; where kw ends. */
  function SpacedWord(s: string, c: nat, kw: string): (r: Option<nat>)
    requires c <= |s|
    ensures r.Some? ==> c < r.value <= |s|
  {
    match SpaceEnd(s, c)
    case None => None
    case Some(q) =>
      var k := SkipSpaces(s, q);
      if KeywordAt(s, k, kw) then Some(k + |kw|) else None
  }

  /** The words of kws one after another, each after at least one space unit. */
  function SpacedWords(s: string, c: nat, kws: seq<string>): (r: Option<nat>)
    requires c <= |s|
    decreases |kws|
    ensures r.Some? ==> c <= r.value <= |s|
  {
    if kws == [] then Some(c)
    else match SpacedWord(s, c, kws[0])
      case None => None
      case Some(e) => SpacedWords(s, e, kws[1..])
  }

  /**
   * `_PATTERN_OBJECT` (sqlite6nf.py:346-349) read from x: an identifier,
   * which is the table unless spaces, a `.`, spaces and a second identifier
   * follow it; then it is the schema and the second one the table.
   */
  function ObjectAt(s: string, x: nat): (r: Option<ObjectRef>)
    requires x <= |s|
    ensures r.Some? <==> IdentifierEnd(s, x).Some?
    ensures r.Some? ==> IdentifierSpan(s, r.value.table) && x <= r.value.table.start
    ensures r.Some? && r.value.schema.None? ==> r.value.table.start == x
    ensures r.Some? && r.value.schema.Some? ==>
      var sc := r.value.schema.value;
      && sc.start == x && IdentifierSpan(s, sc)
      && var d := SkipSpaces(s, sc.end);
         d < |s| && s[d] == '.' && r.value.table.start == SkipSpaces(s, d + 1)
  {
    match IdentifierEnd(s, x)
    case None => None
    case Some(e) =>
      var d := SkipSpaces(s, e);
      if d < |s| && s[d] == '.' && IdentifierEnd(s, SkipSpaces(s, d + 1)).Some? then
        var y := SkipSpaces(s, d + 1);
        Some(ObjectRef(Some(Span(x, e)), Span(y, IdentifierEnd(s, y).value)))
      else Some(ObjectRef(None, Span(x, e)))
  }

  /**
   * The object after position n, with an optional guard (IF NOT EXISTS, IF
   * EXISTS) before it: read after the guard when the guard is there and an
   * object follows it, else read right after n.
   */
  function GuardedObject(s: string, n: nat, guard: seq<string>): Option<ObjectRef>
    requires n <= |s|
  {
    var guarded := match SpacedWords(s, n, guard)
      case None => None
      case Some(g) => ObjectAt(s, SkipSpaces(s, g));
    OrElse(guarded, ObjectAt(s, SkipSpaces(s, n)))
  }

  /** `{space}+?noun`, the optional guard, then the object. */
  function NounObject(s: string, c: nat, noun: string, guard: seq<string>): Option<ObjectRef>
    requires c <= |s|
  {
    match SpacedWord(s, c, noun)
    case None => None
    case Some(n) => GuardedObject(s, n, guard)
  }

  /** The tail of a statement that names the object o. */
  function AsTail(temporary: bool, o: Option<ObjectRef>): (r: Option<Tail>)
    ensures r.Some? <==> o.Some?
    ensures r.Some? ==> r.value.temporary == temporary && r.value.target == Object(o.value) && r.value.end == o.value.table.end
  {
    match o
    case None => None
    case Some(x) => Some(Tail(temporary, Object(x), x.table.end))
  }

  const IfNotExists: seq<string> := ["IF", "NOT", "EXISTS"]
  const IfExists: seq<string> := ["IF", "EXISTS"]

  /** After `CREATE` and the word TEMP or TEMPORARY: the noun and the object. */
  function TempObject(s: string, c: nat, temp: string, noun: string): Option<ObjectRef>
    requires c <= |s|
  {
    match SpacedWord(s, c, temp)
    case None => None
    case Some(t) => NounObject(s, t, noun, IfNotExists)
  }

  /**
   * After CREATE (sqlite6nf.py:359-366, 381-388): `TEMP`, else `TEMPORARY`,
   * else nothing, then the noun, an optional IF NOT EXISTS and the object.
   * The statement is temporary when it was read through one of the first two.
   */
  function CreateRead(s: string, c: nat, noun: string): Option<Tail>
    requires c <= |s|
  {
    OrElse(AsTail(true, TempObject(s, c, "TEMP", noun)),
    OrElse(AsTail(true, TempObject(s, c, "TEMPORARY", noun)),
           AsTail(false, NounObject(s, c, noun, IfNotExists))))
  }

  /** After ALTER (sqlite6nf.py:368-372): TABLE, then the object. */
  function AlterRead(s: string, c: nat): Option<Tail>
    requires c <= |s|
  {
    AsTail(false, NounObject(s, c, "TABLE", []))
  }

  /** After DROP (sqlite6nf.py:374-379, 390-395): the noun, an optional IF EXISTS, then the object. */
  function DropRead(s: string, c: nat, noun: string): Option<Tail>
    requires c <= |s|
  {
    AsTail(false, NounObject(s, c, noun, IfExists))
  }

  /** After ATTACH (sqlite6nf.py:397-402): DATABASE and exactly one more space unit; no name. */
  function AttachRead(s: string, c: nat): Option<Tail>
    requires c <= |s|
  {
    match SpacedWord(s, c, "DATABASE")
    case None => None
    case Some(e) =>
      match SpaceEnd(s, e)
      case None => None
      case Some(q) => Some(Tail(false, NoTarget, q))
  }

  /** The identifier at x, as the schema a DETACH names. */
  function SchemaNamed(s: string, x: nat): Option<Tail>
    requires x <= |s|
  {
    match IdentifierEnd(s, x)
    case None => None
    case Some(e) => Some(Tail(false, Schema(Span(x, e)), e))
  }

  /**
   * After DETACH, as evidently intended (sqlite6nf.py:405-410): an optional
   * DATABASE, then the schema name; when nothing follows DATABASE that can
   * be a name, DATABASE itself is read as the name.
   */
  function DetachRead(s: string, c: nat): Option<Tail>
    requires c <= |s|
  {
    var afterDatabase := match SpacedWord(s, c, "DATABASE")
      case None => None
      case Some(e) => SchemaNamed(s, SkipSpaces(s, e));
    OrElse(afterDatabase, SchemaNamed(s, SkipSpaces(s, c)))
  }

  // ----------------------------------------------- the matcher, piece by piece

  /** `{space}+?(?i:kw)` as pieces. */
  function SpacedPieces(kws: seq<string>): seq<Piece>
    decreases |kws|
  {
    if kws == [] then [] else [Space, LazySpaces(false), Word(kws[0])] + SpacedPieces(kws[1..])
  }

  predicate UpperWord(kw: string) {
    kw != [] && 'A' <= kw[0] <= 'Z'
  }

  /** The match through `{space}+?(?i:kw)` continues with rest where SpacedWord says kw ends. */
  lemma MatchSpacedWord(s: string, c: nat, kw: string, rest: seq<Piece>, caps: Captures)
    requires c <= |s| && UpperWord(kw)
    ensures Match(s, c, [Space, LazySpaces(false), Word(kw)] + rest, caps)
         == if SpacedWord(s, c, kw).Some? then Match(s, SpacedWord(s, c, kw).value, rest, caps) else None
  {
    var ps := [Space, LazySpaces(false), Word(kw)] + rest;
    assert ps[1..] == [LazySpaces(false), Word(kw)] + rest;
    assert ps[1..][1..] == [Word(kw)] + rest;
    assert ([Word(kw)] + rest)[1..] == rest;
    match SpaceEnd(s, c)
    case None =>
    case Some(q) =>
      LazySpacesSkip(s, q, ps[1..], caps);
  }

  lemma {:induction false} MatchSpacedWords(s: string, c: nat, kws: seq<string>, rest: seq<Piece>, caps: Captures)
    requires c <= |s| && forall i :: 0 <= i < |kws| ==> UpperWord(kws[i])
    ensures Match(s, c, SpacedPieces(kws) + rest, caps)
         == if SpacedWords(s, c, kws).Some? then Match(s, SpacedWords(s, c, kws).value, rest, caps) else None
    decreases |kws|
  {
    if kws == [] {
      assert SpacedPieces(kws) + rest == rest;
    } else {
      var tail := SpacedPieces(kws[1..]) + rest;
      assert SpacedPieces(kws) + rest == [Space, LazySpaces(false), Word(kws[0])] + tail;
      MatchSpacedWord(s, c, kws[0], tail, caps);
      if SpacedWord(s, c, kws[0]).Some? {
        MatchSpacedWords(s, SpacedWord(s, c, kws[0]).value, kws[1..], rest, caps);
      }
    }
  }

  /** The match of a pattern that ends with the object, from the groups caps (no schema yet) and the object read. */
  function Placed(caps: Captures, o: Option<ObjectRef>): Option<Matched> {
    match o
    case None => None
    case Some(x) => Some(Matched(caps.(schema := x.schema, table := Some(x.table)), x.table.end))
  }

  const ObjectPieces: seq<Piece> := [SchemaGroup, Identifier(TableSlot)]

  lemma ObjectPiecesFirm()
    ensures Firm(ObjectPieces)
  {
    var rest := [Identifier(TableSlot)];
    assert ObjectPieces[1..] == rest;
    assert Firm(rest);
    assert SchemaGroup.group + rest == [Identifier(SchemaSlot), LazySpaces(false), Dot, LazySpaces(false), Identifier(TableSlot)];
    assert Firm(SchemaGroup.group + rest);
  }

  /** `_PATTERN_OBJECT` at x matches exactly what ObjectAt reads there. */
  lemma MatchObject(s: string, x: nat, caps: Captures)
    requires x <= |s| && caps.schema.None?
    ensures Match(s, x, ObjectPieces, caps) == Placed(caps, ObjectAt(s, x))
  {
    var rest := [Identifier(TableSlot)];
    var whole := [Identifier(SchemaSlot), LazySpaces(false), Dot, LazySpaces(false), Identifier(TableSlot)];
    assert ObjectPieces[1..] == rest;
    assert SchemaGroup.group + rest == whole;
    MatchOptional(s, x, ObjectPieces, caps);
    assert Match(s, x, ObjectPieces, caps) == OrElse(Match(s, x, whole, caps), Match(s, x, rest, caps));
    match IdentifierEnd(s, x)
    case None =>
      assert Match(s, x, whole, caps) == None;
      assert Match(s, x, rest, caps) == None;
    case Some(e) =>
      var inner := caps.Put(SchemaSlot, Span(x, e));
      MatchLastIdentifier(s, x, TableSlot, caps);
      assert Match(s, x, whole, caps) == Match(s, e, whole[1..], inner);
      var afterName := [Dot, LazySpaces(false), Identifier(TableSlot)];
      assert whole[1..][1..] == afterName;
      assert Firm(afterName);
      LazySpacesSkip(s, e, whole[1..], inner);
      var d := SkipSpaces(s, e);
      assert Match(s, x, whole, caps) == Match(s, d, afterName, inner);
      if d < |s| && s[d] == '.' {
        var last := [LazySpaces(false), Identifier(TableSlot)];
        assert afterName[1..] == last && last[1..] == rest;
        assert Match(s, d, afterName, inner) == Match(s, d + 1, last, inner);
        assert Firm(rest);
        LazySpacesSkip(s, d + 1, last, inner);
        var y := SkipSpaces(s, d + 1);
        if IdentifierEnd(s, y).Some? {
          MatchLastIdentifier(s, y, TableSlot, inner);
        } else {
          assert Match(s, y, rest, inner) == None;
        }
      } else {
        assert Match(s, d, afterName, inner) == None;
      }
  }

  /** `{space}*?` then the object, from n. */
  lemma MatchLazyObject(s: string, n: nat, caps: Captures)
    requires n <= |s| && caps.schema.None?
    ensures Match(s, n, [LazySpaces(false)] + ObjectPieces, caps) == Placed(caps, ObjectAt(s, SkipSpaces(s, n)))
  {
    ObjectPiecesFirm();
    assert ([LazySpaces(false)] + ObjectPieces)[1..] == ObjectPieces;
    LazySpacesSkip(s, n, [LazySpaces(false)] + ObjectPieces, caps);
    MatchObject(s, SkipSpaces(s, n), caps);
  }

  /** The optional guard, `{space}*?`, then the object, from n. */
  lemma MatchGuardedObject(s: string, n: nat, guard: seq<string>, caps: Captures)
    requires n <= |s| && caps.schema.None? && forall i :: 0 <= i < |guard| ==> UpperWord(guard[i])
    ensures Match(s, n, [Optional(SpacedPieces(guard)), LazySpaces(false)] + ObjectPieces, caps)
         == Placed(caps, GuardedObject(s, n, guard))
  {
    var after := [LazySpaces(false)] + ObjectPieces;
    var ps := [Optional(SpacedPieces(guard))] + after;
    assert [Optional(SpacedPieces(guard)), LazySpaces(false)] + ObjectPieces == ps;
    assert ps[1..] == after;
    MatchSpacedWords(s, n, guard, after, caps);
    MatchLazyObject(s, n, caps);
    if SpacedWords(s, n, guard).Some? {
      MatchLazyObject(s, SpacedWords(s, n, guard).value, caps);
    }
  }

  /** `{space}+?noun`, the guard and the object, from c. */
  lemma MatchNounObject(s: string, c: nat, noun: string, guard: seq<string>, caps: Captures)
    requires c <= |s| && caps.schema.None? && UpperWord(noun) && forall i :: 0 <= i < |guard| ==> UpperWord(guard[i])
    ensures Match(s, c, [Space, LazySpaces(false), Word(noun), Optional(SpacedPieces(guard)), LazySpaces(false)] + ObjectPieces, caps)
         == Placed(caps, NounObject(s, c, noun, guard))
  {
    var after := [Optional(SpacedPieces(guard)), LazySpaces(false)] + ObjectPieces;
    assert [Space, LazySpaces(false), Word(noun), Optional(SpacedPieces(guard)), LazySpaces(false)] + ObjectPieces
        == [Space, LazySpaces(false), Word(noun)] + after;
    MatchSpacedWord(s, c, noun, after, caps);
    if SpacedWord(s, c, noun).Some? {
      MatchGuardedObject(s, SpacedWord(s, c, noun).value, guard, caps);
    }
  }

  lemma IfNotExistsPieces()
    ensures IfNotExistsGroup == Optional(SpacedPieces(IfNotExists))
    ensures forall i :: 0 <= i < |IfNotExists| ==> UpperWord(IfNotExists[i])
  {
    assert SpacedPieces(["EXISTS"]) == [Space, LazySpaces(false), Word("EXISTS")];
    assert SpacedPieces(["NOT", "EXISTS"]) == [Space, LazySpaces(false), Word("NOT")] + SpacedPieces(["EXISTS"]);
  }

  lemma IfExistsPieces()
    ensures IfExistsGroup == Optional(SpacedPieces(IfExists))
    ensures forall i :: 0 <= i < |IfExists| ==> UpperWord(IfExists[i])
  {
    assert SpacedPieces(["EXISTS"]) == [Space, LazySpaces(false), Word("EXISTS")];
  }

  /** The object tail of a placed object is the object as a tail. */
  lemma PlacedTail(caps: Captures, o: Option<ObjectRef>)
    ensures ObjectTail(Placed(caps, o)) == AsTail(caps.temporary, o)
  {
  }

  // ------------------------------------------------- readings equal the matcher

  /** The ALTER tail is the ALTER reading, on every input. */
  lemma AlterTailReads(s: string, c: nat)
    requires c <= |s|
    ensures AlterTail(s, c) == AlterRead(s, c)
  {
    assert AlterPattern == [Space, LazySpaces(false), Word("TABLE"), LazySpaces(false)] + ObjectPieces;
    var ps := [Space, LazySpaces(false), Word("TABLE")] + ([LazySpaces(false)] + ObjectPieces);
    assert AlterPattern == ps;
    MatchSpacedWord(s, c, "TABLE", [LazySpaces(false)] + ObjectPieces, NoCaptures);
    if SpacedWord(s, c, "TABLE").Some? {
      var n := SpacedWord(s, c, "TABLE").value;
      MatchLazyObject(s, n, NoCaptures);
      assert GuardedObject(s, n, []) == ObjectAt(s, SkipSpaces(s, n));
    }
    PlacedTail(NoCaptures, NounObject(s, c, "TABLE", []));
  }

  /** The DROP tail is the DROP reading, on every input. */
  lemma DropTailReads(s: string, c: nat, noun: string)
    requires c <= |s| && UpperWord(noun)
    ensures DropTail(s, c, noun) == DropRead(s, c, noun)
  {
    IfExistsPieces();
    assert DropPattern(noun) == [Space, LazySpaces(false), Word(noun), Optional(SpacedPieces(IfExists)), LazySpaces(false)] + ObjectPieces;
    MatchNounObject(s, c, noun, IfExists, NoCaptures);
    PlacedTail(NoCaptures, NounObject(s, c, noun, IfExists));
  }

  /** `(?i:w)` then `Temporary`: the rest continues after w, marked temporary. */
  lemma MatchTempWord(s: string, k: nat, w: string, rest: seq<Piece>, caps: Captures)
    requires k <= |s|
    ensures Match(s, k, [Word(w), Temporary] + rest, caps)
         == if KeywordAt(s, k, w) then Match(s, k + |w|, rest, caps.(temporary := true)) else None
  {
    var ps := [Word(w), Temporary] + rest;
    assert ps[1..] == [Temporary] + rest;
    assert ([Temporary] + rest)[1..] == rest;
  }

  const TempEither: Piece := Either([Word("TEMP")], [Word("TEMPORARY")])

  lemma TempEitherFirm(rest: seq<Piece>)
    ensures Firm([TempEither, Temporary] + rest)
  {
    var ps := [TempEither, Temporary] + rest;
    assert ps[1..] == [Temporary] + rest;
    assert [Word("TEMP")] + ps[1..] == [Word("TEMP"), Temporary] + rest;
    assert [Word("TEMPORARY")] + ps[1..] == [Word("TEMPORARY"), Temporary] + rest;
    assert Firm([Word("TEMP")] + ps[1..]);
    assert Firm([Word("TEMPORARY")] + ps[1..]);
  }

  /** The alternation TEMP|TEMPORARY at k, then the rest. */
  lemma MatchTempEither(s: string, k: nat, rest: seq<Piece>, caps: Captures)
    requires k <= |s|
    ensures Match(s, k, [TempEither, Temporary] + rest, caps)
         == OrElse(if KeywordAt(s, k, "TEMP") then Match(s, k + 4, rest, caps.(temporary := true)) else None,
                   if KeywordAt(s, k, "TEMPORARY") then Match(s, k + 9, rest, caps.(temporary := true)) else None)
  {
    var ps := [TempEither, Temporary] + rest;
    assert ps[1..] == [Temporary] + rest;
    assert [Word("TEMP")] + ps[1..] == [Word("TEMP"), Temporary] + rest;
    assert [Word("TEMPORARY")] + ps[1..] == [Word("TEMPORARY"), Temporary] + rest;
    MatchTempWord(s, k, "TEMP", rest, caps);
    MatchTempWord(s, k, "TEMPORARY", rest, caps);
  }

  /** The TEMP|TEMPORARY group in front of rest: each word tried in turn, and the group marks the match temporary. */
  lemma MatchTempGroup(s: string, c: nat, rest: seq<Piece>, caps: Captures)
    requires c <= |s|
    ensures Match(s, c, TempGroup.group + rest, caps)
         == OrElse(if SpacedWord(s, c, "TEMP").Some? then Match(s, SpacedWord(s, c, "TEMP").value, rest, caps.(temporary := true)) else None,
                   if SpacedWord(s, c, "TEMPORARY").Some? then Match(s, SpacedWord(s, c, "TEMPORARY").value, rest, caps.(temporary := true)) else None)
  {
    var afterLazy := [TempEither, Temporary] + rest;
    var afterSpace := [LazySpaces(false)] + afterLazy;
    assert TempGroup.group + rest == [Space] + afterSpace;
    assert ([Space] + afterSpace)[1..] == afterSpace && afterSpace[1..] == afterLazy;
    match SpaceEnd(s, c)
    case None =>
    case Some(q) =>
      TempEitherFirm(rest);
      LazySpacesSkip(s, q, afterSpace, caps);
      MatchTempEither(s, SkipSpaces(s, q), rest, caps);
  }

  /** The CREATE tail is the CREATE reading, on every input. */
  lemma CreateTailReads(s: string, c: nat, noun: string)
    requires c <= |s| && UpperWord(noun)
    ensures CreateTail(s, c, noun) == CreateRead(s, c, noun)
  {
    IfNotExistsPieces();
    var rest := [Space, LazySpaces(false), Word(noun), Optional(SpacedPieces(IfNotExists)), LazySpaces(false)] + ObjectPieces;
    assert CreatePattern(noun) == [TempGroup] + rest;
    assert ([TempGroup] + rest)[1..] == rest;
    MatchTempGroup(s, c, rest, NoCaptures);
    var temp := NoCaptures.(temporary := true);
    MatchNounObject(s, c, noun, IfNotExists, NoCaptures);
    if SpacedWord(s, c, "TEMP").Some? {
      MatchNounObject(s, SpacedWord(s, c, "TEMP").value, noun, IfNotExists, temp);
    }
    if SpacedWord(s, c, "TEMPORARY").Some? {
      MatchNounObject(s, SpacedWord(s, c, "TEMPORARY").value, noun, IfNotExists, temp);
    }
    PlacedTail(temp, TempObject(s, c, "TEMP", noun));
    PlacedTail(temp, TempObject(s, c, "TEMPORARY", noun));
    PlacedTail(NoCaptures, NounObject(s, c, noun, IfNotExists));
  }

  /** The ATTACH tail is the ATTACH reading, on every input. */
  lemma AttachTailReads(s: string, c: nat)
    requires c <= |s|
    ensures AttachTail(s, c) == AttachRead(s, c)
  {
    var rest := [Space, LazySpaces(false)];
    assert AttachPattern == [Space, LazySpaces(false), Word("DATABASE")] + rest;
    assert rest[1..] == [LazySpaces(false)] && rest[1..][1..] == [];
    MatchSpacedWord(s, c, "DATABASE", rest, NoCaptures);
    if SpacedWord(s, c, "DATABASE").Some? {
      var e := SpacedWord(s, c, "DATABASE").value;
      if SpaceEnd(s, e).Some? {
        var q := SpaceEnd(s, e).value;
        assert Match(s, q, [], NoCaptures) == Some(Matched(NoCaptures, q));
        assert Match(s, q, rest[1..], NoCaptures) == Some(Matched(NoCaptures, q));
        assert Match(s, e, rest, NoCaptures) == Some(Matched(NoCaptures, q));
      }
    }
  }

  /** The DETACH tail, as intended, is the DETACH reading, on every input. */
  lemma DetachTailReads(s: string, c: nat)
    requires c <= |s|
    ensures DetachTail(s, c) == DetachRead(s, c)
  {
    var name := [LazySpaces(false), Identifier(SchemaSlot)];
    assert DetachPattern[1..] == name && name[1..] == [Identifier(SchemaSlot)] && name[1..][1..] == [];
    MatchOptional(s, c, DetachPattern, NoCaptures);
    assert DetachPattern[0].group + name == [Space, LazySpaces(false), Word("DATABASE")] + name;
    MatchSpacedWord(s, c, "DATABASE", name, NoCaptures);
    LazySpacesSkip(s, c, name, NoCaptures);
    if SpacedWord(s, c, "DATABASE").Some? {
      LazySpacesSkip(s, SpacedWord(s, c, "DATABASE").value, name, NoCaptures);
    }
  }

  // -------------------------------------------------------------- statements

  /** The noun a CREATE or DROP statement of the given kind names. */
  function Noun(kind: Kind): (w: string)
    ensures UpperWord(w)
  {
    if kind == CreateView || kind == DropView then "VIEW" else "TABLE"
  }

  /** `_PATTERN_QUERY_CREATE_TABLE` / `_CREATE_VIEW` with CREATE at k after the spaces at the anchor p: the CREATE reading. */
  lemma CreateAtReads(s: string, p: nat, kind: Kind, noun: string, k: nat)
    requires p <= |s| && UpperWord(noun) && LeadAt(s, p, "CREATE") == Some(k)
    ensures CreateAt(s, p, kind, noun) == Assemble(kind, p, k, CreateRead(s, k + 6, noun))
  {
    assert CreateAt(s, p, kind, noun) == Assemble(kind, p, k, CreateTail(s, k + 6, noun));
    CreateTailReads(s, k + 6, noun);
  }

  /** `_PATTERN_QUERY_ALTER_TABLE` with ALTER at k after the spaces at the anchor p: the ALTER reading. */
  lemma AlterAtReads(s: string, p: nat, k: nat)
    requires p <= |s| && LeadAt(s, p, "ALTER") == Some(k)
    ensures AlterAt(s, p) == Assemble(AlterTable, p, k, AlterRead(s, k + 5))
  {
    assert AlterAt(s, p) == Assemble(AlterTable, p, k, AlterTail(s, k + 5));
    AlterTailReads(s, k + 5);
  }

  /** `_PATTERN_QUERY_DROP_TABLE` / `_DROP_VIEW` with DROP at k after the spaces at the anchor p: the DROP reading. */
  lemma DropAtReads(s: string, p: nat, kind: Kind, noun: string, k: nat)
    requires p <= |s| && UpperWord(noun) && LeadAt(s, p, "DROP") == Some(k)
    ensures DropAt(s, p, kind, noun) == Assemble(kind, p, k, DropRead(s, k + 4, noun))
  {
    assert DropAt(s, p, kind, noun) == Assemble(kind, p, k, DropTail(s, k + 4, noun));
    DropTailReads(s, k + 4, noun);
  }

  /** `_PATTERN_QUERY_ATTACH_DATABASE` with ATTACH at k after the spaces at the anchor p: the ATTACH reading. */
  lemma AttachAtReads(s: string, p: nat, k: nat)
    requires p <= |s| && LeadAt(s, p, "ATTACH") == Some(k)
    ensures AttachAt(s, p) == Assemble(AttachDatabase, p, k, AttachRead(s, k + 6))
  {
    assert AttachAt(s, p) == Assemble(AttachDatabase, p, k, AttachTail(s, k + 6));
    AttachTailReads(s, k + 6);
  }

  /** `_PATTERN_QUERY_DETACH_DATABASE`, as intended, with DETACH at k after the spaces at the anchor p: the DETACH reading. */
  lemma DetachAtReads(s: string, p: nat, k: nat)
    requires p <= |s| && LeadAt(s, p, "DETACH") == Some(k)
    ensures DetachAt(s, p) == Assemble(DetachDatabase, p, k, DetachRead(s, k + 6))
  {
    assert DetachAt(s, p) == Assemble(DetachDatabase, p, k, DetachTail(s, k + 6));
    DetachTailReads(s, k + 6);
  }

  // ------------------------------------------------------------ exclusivity

  /** No character matches two different keyword letters. */
  lemma KeywordCharsClash(c: char, x: char, y: char)
    requires x != y
    ensures !(KeywordChar(c, x) && KeywordChar(c, y))
  {
  }

  /** Two keywords that differ at some letter cannot stand at the same place. */
  lemma KeywordsClash(s: string, k: nat, a: string, b: string, i: nat)
    requires i < |a| && i < |b| && a[i] != b[i]
    ensures !(KeywordAt(s, k, a) && KeywordAt(s, k, b))
  {
    if k + i < |s| {
      KeywordCharsClash(s[k + i], a[i], b[i]);
    }
  }

  /** Two spaced words that differ at some letter cannot both be read from c. */
  lemma SpacedWordsClash(s: string, c: nat, a: string, b: string, i: nat)
    requires c <= |s| && i < |a| && i < |b| && a[i] != b[i]
    ensures !(SpacedWord(s, c, a).Some? && SpacedWord(s, c, b).Some?)
  {
    if SpaceEnd(s, c).Some? {
      KeywordsClash(s, SkipSpaces(s, SpaceEnd(s, c).value), a, b, i);
    }
  }

  /** Inside TEMPORARY, after its first four letters, no space unit starts. */
  lemma NoSpaceInsideTemporary(s: string, c: nat)
    requires c <= |s| && SpacedWord(s, c, "TEMPORARY").Some?
    ensures SpacedWord(s, c, "TEMP").Some? && SpaceEnd(s, SpacedWord(s, c, "TEMP").value).None?
  {
    var w := SkipSpaces(s, SpaceEnd(s, c).value);
    assert KeywordChar(s[w + 4], "TEMPORARY"[4]);
    forall i | 0 <= i < 4
      ensures KeywordChar(s[w + i], "TEMP"[i])
    {
      assert KeywordChar(s[w + i], "TEMPORARY"[i]);
    }
  }

  /** The noun read after CREATE: TABLE and VIEW never both. */
  lemma CreateReadsExclusive(s: string, c: nat)
    requires c <= |s|
    ensures !(CreateRead(s, c, "TABLE").Some? && CreateRead(s, c, "VIEW").Some?)
  {
    // the word right after CREATE is one of TEMP, TEMPORARY or the noun
    SpacedWordsClash(s, c, "TABLE", "VIEW", 0);
    SpacedWordsClash(s, c, "TABLE", "TEMP", 1);
    SpacedWordsClash(s, c, "TABLE", "TEMPORARY", 1);
    SpacedWordsClash(s, c, "VIEW", "TEMP", 0);
    SpacedWordsClash(s, c, "VIEW", "TEMPORARY", 0);
    if SpacedWord(s, c, "TEMPORARY").Some? {
      NoSpaceInsideTemporary(s, c);
      SpacedWordsClash(s, SpacedWord(s, c, "TEMPORARY").value, "TABLE", "VIEW", 0);
    }
    if SpacedWord(s, c, "TEMP").Some? {
      SpacedWordsClash(s, SpacedWord(s, c, "TEMP").value, "TABLE", "VIEW", 0);
    }
  }

  /** Lead keywords that differ somewhere cannot both open a statement at p. */
  lemma LeadsClash(s: string, p: nat, a: string, b: string, i: nat)
    requires p <= |s| && i < |a| && i < |b| && a[i] != b[i]
    ensures !(LeadAt(s, p, a).Some? && LeadAt(s, p, b).Some?)
  {
    KeywordsClash(s, SkipSpaces(s, p), a, b, i);
  }

  // ---------------------------------------------------------- read ⇒ found

  /**
   * A CREATE TABLE or CREATE VIEW that reads at the anchor p, with CREATE at
   * k and tail t, is the statement the scan reports there, whatever the
   * order of the alternatives.
   */
  lemma CreateFound(s: string, p: nat, kind: Kind, k: nat, t: Tail)
    requires p <= |s| && (kind == CreateTable || kind == CreateView)
    requires LeadAt(s, p, "CREATE") == Some(k) && CreateRead(s, k + 6, Noun(kind)) == Some(t)
    ensures StatementAt(s, p) == Some(Statement(kind, p, k, t))
  {
    CreateAtReads(s, p, CreateTable, "TABLE", k);
    if kind == CreateView {
      CreateReadsExclusive(s, k + 6);
      CreateAtReads(s, p, CreateView, "VIEW", k);
      LeadsClash(s, p, "CREATE", "ALTER", 0);
      LeadsClash(s, p, "CREATE", "DROP", 0);
    }
  }

  /** An ALTER TABLE that reads at the anchor p, with ALTER at k and tail t, is the statement the scan reports there. */
  lemma AlterFound(s: string, p: nat, k: nat, t: Tail)
    requires p <= |s| && LeadAt(s, p, "ALTER") == Some(k) && AlterRead(s, k + 5) == Some(t)
    ensures StatementAt(s, p) == Some(Statement(AlterTable, p, k, t))
  {
    AlterAtReads(s, p, k);
    LeadsClash(s, p, "ALTER", "CREATE", 0);
  }

  /** A DROP TABLE or DROP VIEW that reads at the anchor p, with DROP at k and tail t, is the statement the scan reports there. */
  lemma DropFound(s: string, p: nat, kind: Kind, k: nat, t: Tail)
    requires p <= |s| && (kind == DropTable || kind == DropView)
    requires LeadAt(s, p, "DROP") == Some(k) && DropRead(s, k + 4, Noun(kind)) == Some(t)
    ensures StatementAt(s, p) == Some(Statement(kind, p, k, t))
  {
    LeadsClash(s, p, "DROP", "CREATE", 0);
    LeadsClash(s, p, "DROP", "ALTER", 0);
    if kind == DropTable {
      DropAtReads(s, p, DropTable, "TABLE", k);
    } else {
      DropViewAt(s, p, k, t);
    }
  }

  /** DROP VIEW is tried after DROP TABLE, which cannot read where DROP VIEW does. */
  lemma DropViewAt(s: string, p: nat, k: nat, t: Tail)
    requires p <= |s| && LeadAt(s, p, "DROP") == Some(k) && DropRead(s, k + 4, "VIEW") == Some(t)
    ensures DropAt(s, p, DropTable, "TABLE").None? && DropAt(s, p, DropView, "VIEW") == Some(Statement(DropView, p, k, t))
  {
    SpacedWordsClash(s, k + 4, "TABLE", "VIEW", 0);
    DropAtReads(s, p, DropTable, "TABLE", k);
    DropAtReads(s, p, DropView, "VIEW", k);
  }

  /** An ATTACH DATABASE that reads at the anchor p, with ATTACH at k and tail t, is the statement the scan reports there. */
  lemma AttachFound(s: string, p: nat, k: nat, t: Tail)
    requires p <= |s| && LeadAt(s, p, "ATTACH") == Some(k) && AttachRead(s, k + 6) == Some(t)
    ensures StatementAt(s, p) == Some(Statement(AttachDatabase, p, k, t))
  {
    AttachAtReads(s, p, k);
    LeadsClash(s, p, "ATTACH", "CREATE", 0);
    LeadsClash(s, p, "ATTACH", "ALTER", 1);
    LeadsClash(s, p, "ATTACH", "DROP", 0);
  }

  /** A DETACH that reads at the anchor p, with DETACH at k and tail t, is the statement the scan reports there. */
  lemma DetachFound(s: string, p: nat, k: nat, t: Tail)
    requires p <= |s| && LeadAt(s, p, "DETACH") == Some(k) && DetachRead(s, k + 6) == Some(t)
    ensures StatementAt(s, p) == Some(Statement(DetachDatabase, p, k, t))
  {
    DetachAtReads(s, p, k);
    LeadsClash(s, p, "DETACH", "CREATE", 0);
    LeadsClash(s, p, "DETACH", "ALTER", 0);
    LeadsClash(s, p, "DETACH", "DROP", 1);
    LeadsClash(s, p, "DETACH", "ATTACH", 0);
  }

  // ---------------------------------------------------------- found ⇒ read

  /** The statement the scan reports at p comes from the alternative of its kind. */
  lemma ChosenAlternative(s: string, p: nat, st: Statement)
    requires p <= |s| && StatementAt(s, p) == Some(st)
    ensures st.kind == CreateTable ==> CreateAt(s, p, CreateTable, "TABLE") == Some(st)
    ensures st.kind == AlterTable ==> AlterAt(s, p) == Some(st)
    ensures st.kind == DropTable ==> DropAt(s, p, DropTable, "TABLE") == Some(st)
    ensures st.kind == CreateView ==> CreateAt(s, p, CreateView, "VIEW") == Some(st)
    ensures st.kind == DropView ==> DropAt(s, p, DropView, "VIEW") == Some(st)
    ensures st.kind == AttachDatabase ==> AttachAt(s, p) == Some(st)
    ensures st.kind == DetachDatabase ==> DetachAt(s, p) == Some(st)
  {
  }

  /**
   * A CREATE TABLE or CREATE VIEW the scan reports at p is CREATE after the
   * spaces at the anchor p, followed by the CREATE tail of its noun; by
   * CreateTailReads that tail is the CREATE reading.
   */
  lemma CreateStatementTail(s: string, p: nat, st: Statement)
    requires p <= |s| && StatementAt(s, p) == Some(st) && (st.kind == CreateTable || st.kind == CreateView)
    ensures st.start == p && LeadAt(s, p, "CREATE") == Some(st.keyword)
    ensures st.keyword + 6 <= |s| && CreateTail(s, st.keyword + 6, Noun(st.kind)) == Some(st.tail)
  {
    ChosenAlternative(s, p, st);
    if st.kind == CreateTable {
      CreateAtParts(s, p, CreateTable, "TABLE");
    } else {
      CreateAtParts(s, p, CreateView, "VIEW");
    }
  }

  /**
   * An ALTER TABLE the scan reports at p is ALTER after the spaces at the
   * anchor p, followed by an ALTER tail; by AlterTailReads that tail is the
   * ALTER reading.
   */
  lemma AlterStatementTail(s: string, p: nat, st: Statement)
    requires p <= |s| && StatementAt(s, p) == Some(st) && st.kind == AlterTable
    ensures st.start == p && LeadAt(s, p, "ALTER") == Some(st.keyword)
    ensures st.keyword + 5 <= |s| && AlterTail(s, st.keyword + 5) == Some(st.tail)
  {
    ChosenAlternative(s, p, st);
    AlterAtParts(s, p);
  }

  /**
   * A DROP TABLE or DROP VIEW the scan reports at p is DROP after the
   * spaces at the anchor p, followed by the DROP tail of its noun; by
   * DropTailReads that tail is the DROP reading.
   */
  lemma DropStatementTail(s: string, p: nat, st: Statement)
    requires p <= |s| && StatementAt(s, p) == Some(st) && (st.kind == DropTable || st.kind == DropView)
    ensures st.start == p && LeadAt(s, p, "DROP") == Some(st.keyword)
    ensures st.keyword + 4 <= |s| && DropTail(s, st.keyword + 4, Noun(st.kind)) == Some(st.tail)
  {
    ChosenAlternative(s, p, st);
    if st.kind == DropTable {
      DropAtParts(s, p, DropTable, "TABLE");
    } else {
      DropAtParts(s, p, DropView, "VIEW");
    }
  }

  /**
   * An ATTACH DATABASE the scan reports at p is ATTACH after the spaces at
   * the anchor p, followed by an ATTACH tail; by AttachTailReads that tail
   * is the ATTACH reading.
   */
  lemma AttachStatementTail(s: string, p: nat, st: Statement)
    requires p <= |s| && StatementAt(s, p) == Some(st) && st.kind == AttachDatabase
    ensures st.start == p && LeadAt(s, p, "ATTACH") == Some(st.keyword)
    ensures st.keyword + 6 <= |s| && AttachTail(s, st.keyword + 6) == Some(st.tail)
  {
    ChosenAlternative(s, p, st);
    AttachAtParts(s, p);
  }

  /**
   * A DETACH the scan reports at p is DETACH after the spaces at the anchor
   * p, followed by a DETACH tail; by DetachTailReads that tail is the
   * DETACH reading.
   */
  lemma DetachStatementTail(s: string, p: nat, st: Statement)
    requires p <= |s| && StatementAt(s, p) == Some(st) && st.kind == DetachDatabase
    ensures st.start == p && LeadAt(s, p, "DETACH") == Some(st.keyword)
    ensures st.keyword + 6 <= |s| && DetachTail(s, st.keyword + 6) == Some(st.tail)
  {
    ChosenAlternative(s, p, st);
    DetachAtParts(s, p);
  }

  // -------------------------------------------------------- what CREATE reads

  /**
   * A CREATE statement is temporary exactly when the word after CREATE and
   * its spaces is TEMP (TEMPORARY begins with it); otherwise that word is
   * the noun.
   */
  lemma CreateReadTemporary(s: string, c: nat, noun: string)
    requires c <= |s| && (noun == "TABLE" || noun == "VIEW") && CreateRead(s, c, noun).Some?
    ensures SpaceEnd(s, c).Some?
    ensures var w := SkipSpaces(s, SpaceEnd(s, c).value);
      && (CreateRead(s, c, noun).value.temporary <==> KeywordAt(s, w, "TEMP"))
      && (!CreateRead(s, c, noun).value.temporary ==> KeywordAt(s, w, noun))
  {
    var w := SkipSpaces(s, SpaceEnd(s, c).value);
    if SpacedWord(s, c, "TEMPORARY").Some? {
      NoSpaceInsideTemporary(s, c);
    }
    if !CreateRead(s, c, noun).value.temporary {
      KeywordsClash(s, w, noun, "TEMP", if noun == "TABLE" then 1 else 0);
    }
  }
}
