/** Comparing two container resource limits (ContainerWorker.dimensions_differ,
    ansible/module_utils/kolla_container_worker.py). */
module Dimensions {
  import opened Common
  import opened Decimal

  /** A limit as requested in a playbook or as reported by the engine. */
  datatype Limit = Null | Num(n: int) | Text(s: string)

  datatype Problem = NoLongerSupported | EmptyText | UnsupportedUnit(unit: char) | NotANumber

  function Lower(c: char): char {
    if 'A' <= c <= 'Z' then c + 32 as char else c
  }

  function UnitSize(c: char): Option<int> {
    match c
    case 'b' => Some(1)
    case 'k' => Some(1024)
    case 'm' => Some(1024 * 1024)
    case 'g' => Some(1024 * 1024 * 1024)
    case _ => None
  }

  function Str(v: Limit): string
    requires !v.Null?
  {
    match v
    case Num(n) => PrintInt(n)
    case Text(s) => s
  }

  function LastChar(s: string): char
    requires s != ""
  {
    Lower(s[|s| - 1])
  }

  /** A limit in the text form in which it is compared: a number of bytes if it carries a unit. */
  function Normal(s: string): Result<string, Problem>
    requires s != ""
  {
    var unit := LastChar(s);
    if IsDigit(unit) then Ok(s)
    else if UnitSize(unit).None? then Err(UnsupportedUnit(unit))
    else if !IsInteger(s[..|s| - 1]) then Err(NotANumber)
    else Ok(PrintInt(ParseInt(s[..|s| - 1]) * UnitSize(unit).value))
  }

  /** Whether the limits differ, or why they cannot be compared. */
  function Differ(a: Limit, b: Limit): Result<bool, Problem> {
    if a.Null? || b.Null? then Err(NoLongerSupported)
    else if Str(a) == "" || Str(b) == "" then Err(EmptyText)
    else if Normal(Str(a)).Err? then Err(Normal(Str(a)).error)
    else if Normal(Str(b)).Err? then Err(Normal(Str(b)).error)
    else Ok(Normal(Str(a)).value != Normal(Str(b)).value)
  }

  method DimensionsDiffer(a: Limit, b: Limit) returns (r: Result<bool, Problem>)
    ensures r == Differ(a, b)
  {
    if a.Null? || b.Null? {
      return Err(NoLongerSupported);
    }
    var a', b' := Str(a), Str(b);
    if a' == "" || b' == "" {
      return Err(EmptyText);
    }
    var aLastChar, bLastChar := LastChar(a'), LastChar(b');
    if !IsDigit(aLastChar) {
      var size := UnitSize(aLastChar);
      if size.None? {
        return Err(UnsupportedUnit(aLastChar));
      }
      if !IsInteger(a'[..|a'| - 1]) {
        return Err(NotANumber);
      }
      a' := PrintInt(ParseInt(a'[..|a'| - 1]) * size.value);
    }
    if !IsDigit(bLastChar) {
      var size := UnitSize(bLastChar);
      if size.None? {
        return Err(UnsupportedUnit(bLastChar));
      }
      if !IsInteger(b'[..|b'| - 1]) {
        return Err(NotANumber);
      }
      b' := PrintInt(ParseInt(b'[..|b'| - 1]) * size.value);
    }
    return Ok(a' != b');
  }

  // ----- What the comparison decides -----

  /** A decimal with or without a unit. */
  predicate IsAmount(v: Limit) {
    v.Num? || (v.Text? && v.s != "" &&
               if IsDigit(LastChar(v.s)) then IsInteger(v.s)
               else UnitSize(LastChar(v.s)).Some? && IsInteger(v.s[..|v.s| - 1]))
  }

  function Bytes(v: Limit): int
    requires IsAmount(v)
  {
    match v
    case Num(n) => n
    case Text(s) =>
      if IsDigit(LastChar(s)) then ParseInt(s) else ParseInt(s[..|s| - 1]) * UnitSize(LastChar(s)).value
  }

  /** An amount that is compared by its value: a number, a text with a unit, or a unitless text without leading
      zeros or a plus sign. */
  predicate ComparedByValue(v: Limit)
    requires IsAmount(v)
  {
    v.Text? && IsDigit(LastChar(v.s)) ==> IsCanonical(v.s)
  }

  lemma StrIsNotEmpty(v: Limit)
    requires IsAmount(v)
    ensures Str(v) != "" && Normal(Str(v)).Ok?
    ensures ComparedByValue(v) ==> Normal(Str(v)).value == PrintInt(Bytes(v))
    ensures !ComparedByValue(v) ==> Normal(Str(v)).value == v.s != PrintInt(Bytes(v))
  {
    match v
    case Num(n) =>
      ParsePrintInt(n);
      LastIsDigit(PrintInt(n));
    case Text(s) =>
      if IsDigit(LastChar(s)) {
        PrintParseInt(s);
      }
  }

  lemma LastIsDigit(s: string)
    requires IsInteger(s)
    ensures IsDigit(LastChar(s))
  {
    var digits := if IsSign(s[0]) then s[1..] else s;
    assert s[|s| - 1] == digits[|digits| - 1];
  }

  /** On amounts the comparison never fails, and finds no difference exactly when the two have the same value and
      both are compared by value, or both are the very same text. */
  lemma DecidesEqualValue(a: Limit, b: Limit)
    requires IsAmount(a) && IsAmount(b)
    ensures Differ(a, b).Ok?
    ensures !Differ(a, b).value <==> Bytes(a) == Bytes(b) && ((ComparedByValue(a) && ComparedByValue(b)) || a == b)
  {
    StrIsNotEmpty(a);
    StrIsNotEmpty(b);
    PrintIntInjective(Bytes(a), Bytes(b));
    if !ComparedByValue(a) && ComparedByValue(b) {
      NotPrinted(a.s, Bytes(b));
    }
    if ComparedByValue(a) && !ComparedByValue(b) {
      NotPrinted(b.s, Bytes(a));
    }
  }

  lemma NotPrinted(s: string, n: int)
    requires IsInteger(s) && !IsCanonical(s)
    ensures s != PrintInt(n)
  {
    ParsePrintInt(n);
  }

  /** "Not differing" is an equivalence on all amounts, leading zeros or not. */
  lemma SameIsAnEquivalence(a: Limit, b: Limit, c: Limit)
    requires IsAmount(a) && IsAmount(b) && IsAmount(c)
    ensures Differ(a, a) == Ok(false)
    ensures Differ(a, b) == Differ(b, a)
    ensures Differ(a, b) == Ok(false) && Differ(b, c) == Ok(false) ==> Differ(a, c) == Ok(false)
  {
    DecidesEqualValue(a, a);
    DecidesEqualValue(a, b);
    DecidesEqualValue(b, a);
    DecidesEqualValue(b, c);
    DecidesEqualValue(a, c);
  }

  /** A unitless text with a leading zero never agrees with the number it denotes. */
  lemma LeadingZeroDiffers()
    ensures IsAmount(Text("010")) && Bytes(Text("010")) == 10
    ensures Differ(Text("010"), Num(10)) == Ok(true)
    ensures Differ(Text("010b"), Num(10)) == Ok(false)
  {
    assert ParseNat("010") == 10 by {
      assert "010"[..2] == "01" && "01"[..1] == "0";
    }
    assert "010b"[..3] == "010";
    DecidesEqualValue(Text("010"), Num(10));
    DecidesEqualValue(Text("010b"), Num(10));
  }

  /** The units are bytes and binary multiples of them, in either case. */
  lemma UnitsMean(n: int, unit: char)
    ensures unit in "bB" ==> Differ(Text(PrintInt(n) + [unit]), Num(n)) == Ok(false)
    ensures unit in "kK" ==> Differ(Text(PrintInt(n) + [unit]), Num(n * 1024)) == Ok(false)
    ensures unit in "mM" ==> Differ(Text(PrintInt(n) + [unit]), Num(n * 1048576)) == Ok(false)
    ensures unit in "gG" ==> Differ(Text(PrintInt(n) + [unit]), Num(n * 1073741824)) == Ok(false)
  {
    hide Differ, PrintInt, UnitSize;
    UnitSizes();
    if unit in "bBkKmMgG" {
      SizeMeans(n, unit, UnitSize(Lower(unit)).value);
    }
  }

  lemma UnitSizes()
    ensures UnitSize('b') == Some(1) && UnitSize('k') == Some(1024)
    ensures UnitSize('m') == Some(1048576) && UnitSize('g') == Some(1073741824)
  {
  }

  lemma SizeMeans(n: int, unit: char, size: int)
    requires UnitSize(Lower(unit)) == Some(size)
    ensures Differ(Text(PrintInt(n) + [unit]), Num(n * size)) == Ok(false)
  {
    hide Differ, PrintInt, UnitSize, ParseInt;
    var s := PrintInt(n) + [unit];
    assert s[..|s| - 1] == PrintInt(n) && LastChar(s) == Lower(unit);
    ParsePrintInt(n);
    DigitsAreNoUnits(Lower(unit));
    DecidesEqualValue(Text(s), Num(n * size));
  }

  lemma DigitsAreNoUnits(c: char)
    ensures IsDigit(c) ==> UnitSize(c).None?
  {
  }

  /** With any other letter the comparison ends in an error. */
  lemma OtherUnitsFail(n: int, unit: char, v: Limit)
    requires !IsDigit(unit) && unit !in "bBkKmMgG" && !v.Null? && Str(v) != ""
    ensures Differ(Text(PrintInt(n) + [unit]), v) == Err(UnsupportedUnit(Lower(unit)))
  {
    hide PrintInt;
    var s := PrintInt(n) + [unit];
    assert LastChar(s) == Lower(unit);
  }
}
