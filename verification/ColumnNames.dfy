/**
  colIndex of internal/parser/xlsx.go:211-227: the column letters of a cell
  reference are a bijective base-26 numeral.  Go's 64-bit int wraps around, and
  so does the model.
  */
module ColumnNames {
  import opened Strings

  const TWO_63: int := 0x8000_0000_0000_0000
  const TWO_64: int := 0x1_0000_0000_0000_0000

  /** The 64-bit two's complement number that x wraps around to. */
  function Int64(x: int): int { (x + TWO_63) % TWO_64 - TWO_63 }

  /** The reference without its trailing digits. */
  function Letters(ref: string): string {
    if ref != [] && IsDigit(ref[|ref| - 1]) then Letters(ref[..|ref| - 1]) else ref
  }

  predicate IsName(s: string) {
    forall i :: 0 <= i < |s| ==> IsUpper(s[i])
  }

  function Digit(c: char): int { c as int - 'A' as int + 1 }

  /** The number a name stands for, A being 1, with no bound on its size. */
  function Value(name: string): int {
    if name == [] then 0 else Value(name[..|name| - 1]) * 26 + Digit(name[|name| - 1])
  }

  /** The name of a positive number; the inverse of Value. */
  function Name(n: nat): string {
    if n == 0 then [] else Name((n - 1) / 26) + [('A' as int + (n - 1) % 26) as char]
  }

  /** The name of a zero-based column, as a spreadsheet prints it. */
  function ColumnName(column: nat): string { Name(column + 1) }

  function ColIndexOf(ref: string): int {
    var letters := Letters(ref);
    if letters == [] || !IsName(letters) then -1 else Int64(Value(letters) - 1)
  }

  /** Wrapping after every step gives the same as wrapping once at the end. */
  lemma WrapsThrough(x: int, y: int)
    ensures Int64(Int64(x) * 26 + y) == Int64(x * 26 + y)
    ensures Int64(Int64(x) - 1) == Int64(x - 1)
  {
    var k := (x + TWO_63) / TWO_64;
    assert Int64(x) == x - k * TWO_64;
    ShiftsAway(x * 26 + y, -26 * k);
    ShiftsAway(x - 1, -k);
  }

  lemma ShiftsAway(x: int, k: int)
    ensures Int64(x + k * TWO_64) == Int64(x)
  {
    var q, r := (x + TWO_63) / TWO_64, (x + TWO_63) % TWO_64;
    assert x + k * TWO_64 + TWO_63 == (q + k) * TWO_64 + r;
  }

  method ColIndex(ref: string) returns (index: int)
    ensures index == ColIndexOf(ref)
  {
    var letters := Letters(ref);
    if letters == "" {
      return -1;
    }
    var idx := 0;
    for i := 0 to |letters|
      invariant IsName(letters[..i])
      invariant idx == Int64(Value(letters[..i]))
    {
      var ch := letters[i];
      if ch < 'A' || ch > 'Z' {
        return -1;
      }
      assert letters[..i + 1][..i] == letters[..i];
      WrapsThrough(Value(letters[..i]), Digit(ch));
      idx := Int64(idx * 26 + Digit(ch));
    }
    assert letters[..|letters|] == letters;
    WrapsThrough(Value(letters), 0);
    index := Int64(idx - 1);
  }

  // ---------------------------------------------------------------------------
  // Names and numbers correspond one to one
  // ---------------------------------------------------------------------------

  lemma {:induction false} ValueOfName(n: nat)
    ensures IsName(Name(n)) && Value(Name(n)) == n && (n > 0 ==> Name(n) != [])
    decreases n
  {
    if n > 0 {
      ValueOfName((n - 1) / 26);
      var s := Name(n);
      assert s[..|s| - 1] == Name((n - 1) / 26);
    }
  }

  lemma {:induction false} NameOfValue(s: string)
    requires IsName(s)
    ensures Value(s) >= 0 && (s != [] ==> Value(s) >= 1) && Name(Value(s)) == s
    decreases |s|
  {
    if s != [] {
      var front, last := s[..|s| - 1], s[|s| - 1];
      NameOfValue(front);
      assert (Value(s) - 1) / 26 == Value(front) && (Value(s) - 1) % 26 == Digit(last) - 1;
      assert s == front + [last];
    }
  }

  lemma {:induction false} DigitsStripped(name: string, digits: string)
    requires IsName(name) && AllDigits(digits)
    ensures Letters(name + digits) == name
    decreases |digits|
  {
    if digits == [] {
      assert name + digits == name;
      assert name != [] ==> !IsDigit(name[|name| - 1]);
    } else {
      assert (name + digits)[..|name + digits| - 1] == name + digits[..|digits| - 1];
      DigitsStripped(name, digits[..|digits| - 1]);
    }
  }

  lemma ColIndexOfName(name: string, digits: string)
    requires IsName(name) && name != [] && AllDigits(digits)
    ensures ColIndexOf(name + digits) == Int64(Value(name) - 1)
  {
    DigitsStripped(name, digits);
  }

  /** Printing a column and a row number and reading them back wraps the column around once. */
  lemma ColIndexOfColumnName(column: nat, digits: string)
    requires AllDigits(digits)
    ensures ColIndexOf(ColumnName(column) + digits) == Int64(column)
    ensures ColIndexOf(ColumnName(column) + digits) == column <==> column < TWO_63
  {
    hide Int64, Value, Name, Letters, ColIndexOf;
    ValueOfName(column + 1);
    ColIndexOfName(ColumnName(column), digits);
    FitsIffSmall(column);
  }

  // ---------------------------------------------------------------------------
  // Shorter names first, then alphabetical: the order of the columns
  // ---------------------------------------------------------------------------

  ghost predicate Precedes(a: string, b: string) {
    |a| < |b| || (|a| == |b| && exists i :: 0 <= i < |a| && a[..i] == b[..i] && a[i] < b[i])
  }

  /** The value of the first name of a given length: 0, 1, 27, 703, ... */
  function Ones(length: nat): nat {
    if length == 0 then 0 else 26 * Ones(length - 1) + 1
  }

  lemma {:induction false} ValueRange(s: string)
    requires IsName(s)
    ensures Ones(|s|) <= Value(s) < Ones(|s| + 1)
    decreases |s|
  {
    if s != [] {
      ValueRange(s[..|s| - 1]);
      assert 1 <= Digit(s[|s| - 1]) <= 26;
    }
  }

  lemma {:induction false} OnesGrow(m: nat, n: nat)
    requires m <= n
    ensures Ones(m) <= Ones(n)
    decreases n
  {
    if m < n {
      OnesGrow(m, n - 1);
    }
  }

  lemma {:induction false} EarlierDifferenceDecides(a: string, b: string, i: nat)
    requires IsName(a) && IsName(b) && |a| == |b| && i < |a| && a[..i] == b[..i] && a[i] < b[i]
    ensures Value(a) < Value(b)
    decreases |a|
  {
    var n := |a| - 1;
    if i < n {
      assert a[..n][..i] == a[..i] && b[..n][..i] == b[..i];
      EarlierDifferenceDecides(a[..n], b[..n], i);
    }
  }

  lemma {:induction false} FirstDifference(a: string, b: string) returns (i: nat)
    requires |a| == |b| && a != b
    ensures i < |a| && a[..i] == b[..i] && a[i] != b[i]
    decreases |a|
  {
    i := 0;
    while i < |a| && a[i] == b[i]
      invariant i <= |a| && a[..i] == b[..i]
    {
      i := i + 1;
    }
    assert a[..|a|] == a && b[..|b|] == b;
  }

  lemma PrecedesIsLess(a: string, b: string)
    requires IsName(a) && IsName(b) && Precedes(a, b)
    ensures Value(a) < Value(b)
  {
    if |a| < |b| {
      ValueRange(a);
      ValueRange(b);
      OnesGrow(|a| + 1, |b|);
    } else {
      var i :| 0 <= i < |a| && a[..i] == b[..i] && a[i] < b[i];
      EarlierDifferenceDecides(a, b, i);
    }
  }

  lemma NameOrderIsColumnOrder(a: string, b: string)
    requires IsName(a) && IsName(b)
    ensures Precedes(a, b) <==> Value(a) < Value(b)
  {
    if Precedes(a, b) {
      PrecedesIsLess(a, b);
    } else if a != b {
      if |a| == |b| {
        var i := FirstDifference(a, b);
        assert a[i] < b[i] || b[i] < a[i];
      }
      assert Precedes(b, a);
      PrecedesIsLess(b, a);
    }
  }

  /** A name wraps around exactly when its number is out of range; thirteen letters never do, fifteen always. */
  lemma WrapsIffTooLong(name: string, digits: string)
    requires IsName(name) && name != [] && AllDigits(digits)
    ensures ColIndexOf(name + digits) == Value(name) - 1 <==> Value(name) <= TWO_63
    ensures |name| <= 13 ==> Value(name) < TWO_63
    ensures |name| >= 15 ==> Value(name) > TWO_63
  {
    hide *;
    ColIndexOfName(name, digits);
    NameOfValue(name);
    FitsIffSmall(Value(name) - 1);
    ValueRange(name);
    Ones14();
    if |name| <= 13 {
      OnesGrow(|name| + 1, 14);
    } else if |name| >= 15 {
      OnesGrow(15, |name|);
    }
  }

  lemma FitsIffSmall(x: nat)
    ensures Int64(x) == x <==> x < TWO_63
  {
  }

  lemma Ones14()
    ensures Ones(14) < TWO_63 < Ones(15)
  {
    assert Ones(4) == 18279;
    assert Ones(6) == 26 * (26 * Ones(4) + 1) + 1;
    assert Ones(8) == 26 * (26 * Ones(6) + 1) + 1;
    assert Ones(10) == 26 * (26 * Ones(8) + 1) + 1;
    assert Ones(12) == 26 * (26 * Ones(10) + 1) + 1;
  }
}
