// What SQLite stores in the "name" column of sqlite6nf_table_name and
// sqlite6nf_column_name (sqlite6nf.py:109-117, :137-145). Both tables declare
// that column INTEGER, which gives it INTEGER affinity: a bound text that
// reads as a number is stored as that number, and only other texts are kept
// as text. The rest of the model keeps the bound string in its name rows,
// the evidently intended TEXT column; this module models the column as
// declared and shows what the declaration loses.

module Affinity {
  import opened Templates

  /** A stored "name" cell: an integer, a number SQLite keeps as REAL (its value is not modelled), or text. */
  datatype Stored = Integer(value: int) | Real(literal: string) | Text(text: string)

  const MinInt64: int := -0x8000_0000_0000_0000
  const MaxInt64: int := 0x7FFF_FFFF_FFFF_FFFF

  /** The white space SQLite allows around a numeric text: space, tab, newline, vertical tab, form feed, carriage return. */
  predicate IsSqlSpace(c: char) {
    c == ' ' || '\t' <= c <= '\r'
  }

  /** t without its leading white space. */
  function TrimStart(t: string): (r: string)
    decreases |t|
    ensures |r| <= |t| && r == t[|t| - |r|..]
    ensures r == [] || !IsSqlSpace(r[0])
    ensures forall i :: 0 <= i < |t| - |r| ==> IsSqlSpace(t[i])
  {
    if t != [] && IsSqlSpace(t[0]) then TrimStart(t[1..]) else t
  }

  /** t without its trailing white space. */
  function TrimEnd(t: string): (r: string)
    decreases |t|
    ensures |r| <= |t| && r == t[..|r|]
    ensures r == [] || !IsSqlSpace(r[|r| - 1])
    ensures forall i :: |r| <= i < |t| ==> IsSqlSpace(t[i])
  {
    if t != [] && IsSqlSpace(t[|t| - 1]) then TrimEnd(t[..|t| - 1]) else t
  }

  function Trimmed(t: string): string {
    TrimEnd(TrimStart(t))
  }

  /** t without a leading `+` or `-`. */
  function Unsigned(t: string): string {
    if |t| > 0 && (t[0] == '+' || t[0] == '-') then t[1..] else t
  }

  predicate AllDigits(t: string) {
    forall i :: 0 <= i < |t| ==> IsDigit(t[i])
  }

  /** An optional sign, then one or more decimal digits. */
  predicate IntegerLiteral(t: string) {
    |Unsigned(t)| >= 1 && AllDigits(Unsigned(t))
  }

  function IntegerValue(t: string): int
    requires IntegerLiteral(t)
  {
    var v: int := DigitsValue(Unsigned(t));
    if t[0] == '-' then -v else v
  }

  /** Digits with at most one `.` among them, and at least one digit. */
  predicate Mantissa(m: string) {
    && (forall i :: 0 <= i < |m| ==> IsDigit(m[i]) || m[i] == '.')
    && (forall i, j :: 0 <= i < j < |m| && m[i] == '.' ==> m[j] != '.')
    && (exists i :: 0 <= i < |m| && IsDigit(m[i]))
  }

  /** `e` or `E`, then an integer literal. */
  predicate Exponent(x: string) {
    |x| >= 2 && (x[0] == 'e' || x[0] == 'E') && IntegerLiteral(x[1..])
  }

  /** An optional sign, a mantissa, and an optional exponent: `1.5`, `.5`, `1e3`. */
  predicate RealLiteral(t: string) {
    var u := Unsigned(t);
    exists k :: 0 <= k <= |u| && Mantissa(u[..k]) && (k == |u| || Exponent(u[k..]))
  }

  /**
   * What an INTEGER-affinity column stores for a bound text: the integer,
   * when the text between its white space is an integer literal that fits
   * in 64 bits; a REAL when it is another numeric literal; else the text.
   */
  function StoredName(name: string): (v: Stored)
    ensures v.Text? <==> !IntegerLiteral(Trimmed(name)) && !RealLiteral(Trimmed(name))
    ensures v.Integer? ==> IntegerLiteral(Trimmed(name)) && MinInt64 <= v.value <= MaxInt64
    ensures v.Text? ==> v.text == name
  {
    var t := Trimmed(name);
    if IntegerLiteral(t) && MinInt64 <= IntegerValue(t) <= MaxInt64 then Integer(IntegerValue(t))
    else if IntegerLiteral(t) || RealLiteral(t) then Real(name)
    else Text(name)
  }

  /** A text that starts with no white space and ends with a digit trims to itself. */
  lemma TrimmedDigitEnd(t: string)
    requires |t| >= 1 && !IsSqlSpace(t[0]) && IsDigit(t[|t| - 1])
    ensures Trimmed(t) == t
  {
    assert TrimStart(t) == t;
  }

  /** The text str() gives an id in the 64-bit range is stored as that id: it reads back unchanged. */
  lemma IntegerNamesStoredAsValue(n: int)
    requires MinInt64 <= n <= MaxInt64
    ensures StoredName(IntText(n)) == Integer(n)
  {
    if n < 0 {
      var t := "-" + Digits(-n);
      assert t[1..] == Digits(-n);
      DigitsValueOfDigits(-n);
      SignedNameStoredAsValue(t);
    } else {
      DigitsValueOfDigits(n);
      DigitNamesStoredAsValue(Digits(n));
    }
  }

  /** A minus sign then a run of digits whose negated number fits in 64 bits is stored as that negative number. */
  lemma SignedNameStoredAsValue(t: string)
    requires |t| >= 2 && t[0] == '-' && AllDigits(t[1..]) && DigitsValue(t[1..]) <= -MinInt64
    ensures StoredName(t) == Integer(-(DigitsValue(t[1..]) as int))
  {
    assert IsDigit(t[1..][|t| - 2]);
    TrimmedDigitEnd(t);
    assert Unsigned(t) == t[1..];
    assert IntegerLiteral(t);
    assert IntegerValue(t) == -(DigitsValue(t[1..]) as int);
  }

  /** A text that starts with a letter or `_` is neither an integer nor a real literal. */
  lemma NotNumeric(t: string)
    requires |t| >= 1 && Scanner.IsIdentStart(t[0])
    ensures !IntegerLiteral(t) && !RealLiteral(t)
  {
    assert Unsigned(t) == t;
    assert !IsDigit(t[0]);
    forall k | 0 <= k <= |t|
      ensures !Mantissa(t[..k])
    {
      if k >= 1 {
        assert t[..k][0] == t[0];
      }
    }
  }

  /** A name that starts with a letter or `_`, as every bare SQL identifier does, is kept as text. */
  lemma WordNamesKept(name: string)
    requires |name| >= 1 && Scanner.IsIdentStart(name[0])
    ensures StoredName(name) == Text(name)
  {
    var t := Trimmed(name);
    assert TrimStart(name) == name;
    assert |t| >= 1 && t[0] == name[0];
    NotNumeric(t);
  }

  /** z zeros. */
  function Zeros(z: nat): (t: string)
    ensures |t| == z && forall i :: 0 <= i < z ==> t[i] == '0'
  {
    if z == 0 then [] else Zeros(z - 1) + "0"
  }

  lemma {:induction false} ZerosValue(z: nat)
    ensures DigitsValue(Zeros(z)) == 0
  {
    if z > 0 {
      assert Zeros(z)[..z - 1] == Zeros(z - 1);
      ZerosValue(z - 1);
    }
  }

  /** Leading zeros do not change the number a run of digits stands for. */
  lemma {:induction false} ZerosPrefixValue(z: nat, t: string)
    requires AllDigits(t)
    decreases |t|
    ensures AllDigits(Zeros(z) + t) && DigitsValue(Zeros(z) + t) == DigitsValue(t)
  {
    var s := Zeros(z) + t;
    if t == [] {
      assert s == Zeros(z);
      ZerosValue(z);
    } else {
      assert s[..|s| - 1] == Zeros(z) + t[..|t| - 1];
      ZerosPrefixValue(z, t[..|t| - 1]);
    }
  }

  /** A run of digits whose number fits in 64 bits is stored as that number. */
  lemma DigitNamesStoredAsValue(t: string)
    requires |t| >= 1 && AllDigits(t) && DigitsValue(t) <= MaxInt64
    ensures StoredName(t) == Integer(DigitsValue(t))
  {
    TrimmedDigitEnd(t);
    assert Unsigned(t) == t;
    assert IntegerLiteral(t);
    assert IntegerValue(t) == DigitsValue(t);
  }

  /**
   * As declared, a name and the same name with leading zeros are distinct
   * table names stored as the same integer: the catalog cannot tell them
   * apart, and what it reads back for the padded one is the unpadded text.
   */
  lemma LeadingZeroNamesCollide(z: nat, n: nat)
    requires z >= 1 && n <= MaxInt64
    ensures Zeros(z) + IntText(n) != IntText(n)
    ensures StoredName(Zeros(z) + IntText(n)) == Integer(n) == StoredName(IntText(n))
  {
    var t := Zeros(z) + IntText(n);
    assert |t| != |IntText(n)|;
    ZerosPrefixValue(z, Digits(n));
    DigitsValueOfDigits(n);
    DigitNamesStoredAsValue(t);
    IntegerNamesStoredAsValue(n);
  }

  /** The table name `007` is stored as the integer 7, like the table name `7`. */
  lemma ZeroZeroSevenCollides()
    ensures StoredName("00" + "7") == Integer(7) == StoredName("7")
  {
    assert Zeros(2) == "00";
    assert IntText(7) == "7";
    LeadingZeroNamesCollide(2, 7);
  }
}
