/**
  The few functions of Go's strings and strconv packages that the parsers lean
  on, restricted to ASCII white space, letters and digits.
  */
module Strings {

  predicate IsSpace(c: char) {
    c == ' ' || c == '\t' || c == '\n' || c == '\r' || c == '\U{0B}' || c == '\U{0C}'
  }

  /** Tab to carriage return, and the blank. */
  lemma SpacesAre(c: char)
    ensures IsSpace(c) <==> 9 <= c as int <= 13 || c as int == 32
  {
  }

  predicate IsDigit(c: char) { '0' <= c <= '9' }

  predicate IsUpper(c: char) { 'A' <= c <= 'Z' }

  // ---------------------------------------------------------------------------
  // Character-wise transformations
  // ---------------------------------------------------------------------------

  function LowerChar(c: char): char {
    if IsUpper(c) then c + 32 as char else c
  }

  function ToLower(s: string): (t: string)
    ensures |t| == |s| && forall i :: 0 <= i < |s| ==> t[i] == LowerChar(s[i])
  {
    if s == [] then [] else [LowerChar(s[0])] + ToLower(s[1..])
  }

  /** ReplaceAll of one character by another. */
  function Replace(s: string, from: char, to: char): (t: string)
    ensures |t| == |s| && forall i :: 0 <= i < |s| ==> t[i] == if s[i] == from then to else s[i]
  {
    if s == [] then [] else [if s[0] == from then to else s[0]] + Replace(s[1..], from, to)
  }

  /** ReplaceAll of one character by nothing. */
  function Without(s: string, c: char): (t: string)
    ensures c !in t && |t| <= |s| && forall d :: d in t ==> d in s
    ensures c !in s ==> t == s
  {
    if s == [] then [] else (if s[0] == c then [] else [s[0]]) + Without(s[1..], c)
  }

  // ---------------------------------------------------------------------------
  // Trimming
  // ---------------------------------------------------------------------------

  function TrimLeft(s: string): string {
    if s != [] && IsSpace(s[0]) then TrimLeft(s[1..]) else s
  }

  function TrimRight(s: string): string {
    if s != [] && IsSpace(s[|s| - 1]) then TrimRight(s[..|s| - 1]) else s
  }

  function TrimSpace(s: string): string { TrimRight(TrimLeft(s)) }

  predicate Trimmed(s: string) {
    s == [] || (!IsSpace(s[0]) && !IsSpace(s[|s| - 1]))
  }

  lemma {:induction false} TrimLeftSplits(s: string)
    ensures exists n :: 0 <= n <= |s| && TrimLeft(s) == s[n..]
    ensures TrimLeft(s) == [] || !IsSpace(TrimLeft(s)[0])
  {
    if s != [] && IsSpace(s[0]) {
      TrimLeftSplits(s[1..]);
      var n :| 0 <= n <= |s[1..]| && TrimLeft(s[1..]) == s[1..][n..];
      assert s[1..][n..] == s[n + 1..];
    } else {
      assert s == s[0..];
    }
  }

  lemma {:induction false} TrimRightSplits(s: string)
    ensures exists n :: 0 <= n <= |s| && TrimRight(s) == s[..n]
    ensures TrimRight(s) == [] || !IsSpace(TrimRight(s)[|TrimRight(s)| - 1])
  {
    if s != [] && IsSpace(s[|s| - 1]) {
      TrimRightSplits(s[..|s| - 1]);
      var n :| 0 <= n <= |s| - 1 && TrimRight(s[..|s| - 1]) == s[..|s| - 1][..n];
      assert s[..|s| - 1][..n] == s[..n];
    } else {
      assert s == s[..|s|];
    }
  }

  lemma TrimSpaceTrims(s: string)
    ensures Trimmed(TrimSpace(s))
    ensures |TrimSpace(s)| <= |s| && forall c :: c in TrimSpace(s) ==> c in s
  {
    TrimLeftSplits(s);
    TrimRightSplits(TrimLeft(s));
  }

  /** Trimming leaves a trimmed string alone, so it is idempotent. */
  lemma TrimmedIsFixed(s: string)
    requires Trimmed(s)
    ensures TrimSpace(s) == s
  {
  }

  predicate AllSpace(s: string) { forall c :: c in s ==> IsSpace(c) }

  lemma {:induction false} TrimLeftUpTo(s: string, rest: string)
    requires rest != "" && !IsSpace(rest[0])
    ensures TrimLeft(s + rest) == TrimLeft(s) + rest
    decreases |s|
  {
    if s == "" {
      assert s + rest == rest;
    } else if IsSpace(s[0]) {
      assert (s + rest)[1..] == s[1..] + rest;
      TrimLeftUpTo(s[1..], rest);
    }
  }
  lemma {:induction false} TrimRightFrom(s: string, rest: string)
    requires s != "" && !IsSpace(s[|s| - 1])
    ensures TrimRight(s + rest) == s + TrimRight(rest)
    decreases |rest|
  {
    if rest == "" {
      assert s + rest == s;
    } else if IsSpace(rest[|rest| - 1]) {
      assert (s + rest)[..|s + rest| - 1] == s + rest[..|rest| - 1];
      TrimRightFrom(s, rest[..|rest| - 1]);
    }
  }
  lemma {:induction false} SpaceTrimsAway(s: string)
    requires AllSpace(s)
    ensures TrimLeft(s) == "" && TrimRight(s) == ""
    decreases |s|
  {
    if s != "" {
      assert s[0] in s && s[|s| - 1] in s;
      SpaceTrimsAway(s[1..]);
      SpaceTrimsAway(s[..|s| - 1]);
    }
  }
  lemma {:induction false} SpaceBefore(s: string, t: string)
    requires AllSpace(s)
    ensures TrimLeft(s + t) == TrimLeft(t)
    decreases |s|
  {
    if s == "" {
      assert s + t == t;
    } else {
      assert s[0] in s && (s + t)[1..] == s[1..] + t;
      SpaceBefore(s[1..], t);
    }
  }
  /** White space around a trimmed string, which may be empty, goes. */
  lemma PaddingTrimmed(left: string, text: string, right: string)
    requires AllSpace(left) && AllSpace(right) && Trimmed(text)
    ensures TrimSpace(left + (text + right)) == text
  {
    SpaceBefore(left, text + right);
    SpaceTrimsAway(right);
    if text == "" {
      assert text + right == right;
    } else {
      assert (text + right)[0] == text[0];
      assert TrimLeft(text + right) == text + right;
      TrimRightFrom(text, right);
      assert text + "" == text;
    }
  }

  lemma EmptyIffAllSpace(s: string)
    ensures TrimSpace(s) == "" <==> AllSpace(s)
  {
    if AllSpace(s) {
      SpaceTrimsAway(s);
    } else {
      var c :| c in s && !IsSpace(c);
      NonSpaceStays(s, c);
    }
  }

  lemma NonSpaceStays(s: string, c: char)
    requires c in s && !IsSpace(c)
    ensures TrimSpace(s) != ""
  {
    LeftKeeps(s, c);
    RightKeeps(TrimLeft(s), c);
  }

  lemma {:induction false} LeftKeeps(s: string, c: char)
    requires c in s && !IsSpace(c)
    ensures c in TrimLeft(s)
    decreases |s|
  {
    if IsSpace(s[0]) { LeftKeeps(s[1..], c); }
  }

  lemma {:induction false} RightKeeps(s: string, c: char)
    requires c in s && !IsSpace(c)
    ensures c in TrimRight(s)
    decreases |s|
  {
    if IsSpace(s[|s| - 1]) {
      assert s == s[..|s| - 1] + [s[|s| - 1]];
      RightKeeps(s[..|s| - 1], c);
    }
  }

  // ---------------------------------------------------------------------------
  // Searching
  // ---------------------------------------------------------------------------

  /** strings.Index of a character. */
  function IndexOf(s: string, c: char): (i: int)
    ensures -1 <= i < |s|
    ensures i == -1 <==> c !in s
    ensures i >= 0 ==> s[i] == c && c !in s[..i]
  {
    if s == "" then -1
    else if s[0] == c then 0
    else
      var i := IndexOf(s[1..], c);
      if i < 0 then -1 else
        assert s[..i + 1] == [s[0]] + s[1..][..i];
        i + 1
  }

  lemma {:induction false} FirstAt(s: string, c: char, rest: string)
    requires c !in s && rest != "" && rest[0] == c
    ensures IndexOf(s + rest, c) == |s|
    decreases |s|
  {
    if s == "" {
      assert s + rest == rest;
    } else {
      assert (s + rest)[1..] == s[1..] + rest;
      FirstAt(s[1..], c, rest);
    }
  }

  // ---------------------------------------------------------------------------
  // Decimal numbers
  // ---------------------------------------------------------------------------

  function DigitValue(c: char): nat
    requires IsDigit(c)
  {
    c as int - '0' as int
  }

  predicate AllDigits(s: string) { forall i :: 0 <= i < |s| ==> IsDigit(s[i]) }

  function DigitsValue(s: string): nat
    requires AllDigits(s)
  {
    if s == [] then 0 else DigitsValue(s[..|s| - 1]) * 10 + DigitValue(s[|s| - 1])
  }

  datatype Option<+T> = None | Some(value: T)

  /** strconv.Atoi without its range error: an optional sign, then digits only. */
  function Atoi(s: string): Option<int> {
    var digits := if s != [] && (s[0] == '+' || s[0] == '-') then s[1..] else s;
    if digits == [] || !AllDigits(digits) then None
    else Some(if s[0] == '-' then 0 - DigitsValue(digits) as int else DigitsValue(digits) as int)
  }

  function Itoa(n: nat): (s: string)
    ensures s != [] && AllDigits(s)
  {
    (if n < 10 then [] else Itoa(n / 10)) + [('0' as int + n % 10) as char]
  }

  lemma {:induction false} AtoiOfItoa(n: nat)
    ensures DigitsValue(Itoa(n)) == n && Atoi(Itoa(n)) == Some(n)
  {
    var s := Itoa(n);
    if n >= 10 {
      AtoiOfItoa(n / 10);
      assert s[..|s| - 1] == Itoa(n / 10);
    } else {
      assert s[..|s| - 1] == [];
    }
    assert IsDigit(s[0]);
  }
}
