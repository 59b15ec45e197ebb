/**
  What internal/parser/text.go makes of the lines people write: "Key: value", bare or
  with a list bullet, as a heading, and with emphasis around the key or the value.
  */
module TextLines {
  import opened Strings
  import opened TextParser
  import opened LlmsTxt

  predicate Blank(s: string) { forall c :: c in s ==> IsSpace(c) && c != '\n' }

  predicate NoiseChar(c: char) { c == '*' || c == '_' || (IsSpace(c) && c != '\n') }

  /** Emphasis marks and blanks. */
  predicate Noise(s: string) { forall c :: c in s ==> NoiseChar(c) }

  datatype Bullet = NoBullet | Dash | Star {
    function Text(): string {
      match this
      case NoBullet => ""
      case Dash => "- "
      case Star => "* "
    }
  }

  datatype Decorated = Decorated(
    indent: string, bullet: Bullet, hashes: nat, before: string, name: string, after: string,
    gap: string, value: string, trail: string)

  function Hashes(n: nat): string { if n == 0 then "" else "#" + Hashes(n - 1) }

  function Marks(d: Decorated): string { d.bullet.Text() + Hashes(d.hashes) }

  function Tail(d: Decorated): string { d.after + (":" + (d.gap + (d.value + d.trail))) }

  function LineText(d: Decorated): string { d.indent + (Marks(d) + (d.before + (d.name + Tail(d)))) }

  /** Words, digits and so on in any case; nothing the parser would take for decoration. */
  predicate NameShape(name: string) {
    && name != "" && Trimmed(name) && name[0] != '#' && !("- " <= name + " ")
    && forall c :: c in name ==> c != ':' && c != '*' && c != '_' && c != '\n'
  }

  predicate WellFormed(d: Decorated) {
    && Blank(d.indent) && Noise(d.before) && Noise(d.after) && Noise(d.gap) && Noise(d.trail)
    && NameShape(d.name) && ValueShape(d.value)
  }

  /** In lower case, with underscores for blanks. */
  function KeyFor(name: string): string { seq(|name|, i requires 0 <= i < |name| => NormalChar(name[i])) }

  lemma NormalLetters(n: nat)
    requires n < 26
    ensures NormalChar(('A' as int + n) as char) == ('a' as int + n) as char
    ensures NormalChar(('a' as int + n) as char) == ('a' as int + n) as char
    ensures NormalChar(' ') == '_'
  {
  }

  // ---------------------------------------------------------------------------
  // Trimming and stripping, piece by piece
  // ---------------------------------------------------------------------------

  lemma Regrouped(a: string, b: string, c: string)
    ensures a + (b + c) == (a + b) + c
  {
  }


  lemma BlankTrimsAway(s: string)
    requires Blank(s)
    ensures TrimLeft(s) == "" && TrimRight(s) == ""
  {
    SpaceTrimsAway(s);
  }


  lemma NoiseTrims(s: string)
    requires Noise(s)
    ensures Noise(TrimLeft(s)) && Noise(TrimRight(s))
  {
    TrimLeftSplits(s);
    TrimRightSplits(s);
    var m :| 0 <= m <= |s| && TrimLeft(s) == s[m..];
    var n :| 0 <= n <= |s| && TrimRight(s) == s[..n];
    assert forall c :: c in s[m..] ==> c in s;
    assert forall c :: c in s[..n] ==> c in s;
  }

  function Clean(s: string): string { Without(Without(s, '*'), '_') }

  lemma CleanConcat(s: string, t: string)
    ensures Clean(s + t) == Clean(s) + Clean(t)
  {
    WithoutConcat(s, t, '*');
    WithoutConcat(Without(s, '*'), Without(t, '*'), '_');
  }

  lemma CleanNoise(s: string)
    requires Noise(s)
    ensures Blank(Clean(s))
  {
    forall c | c in Clean(s)
      ensures IsSpace(c) && c != '\n'
    {
      assert c in Without(s, '*') && c in s;
      assert NoiseChar(c);
    }
  }

  lemma {:induction false} HashesTrimmed(n: nat, rest: string)
    requires rest != "" && rest[0] != '#'
    ensures TrimHashes(Hashes(n) + rest) == rest
    decreases n
  {
    if n == 0 {
      assert "" + rest == rest;
    } else {
      assert (Hashes(n) + rest)[1..] == Hashes(n - 1) + rest;
      HashesTrimmed(n - 1, rest);
    }
  }

  // ---------------------------------------------------------------------------
  // One line
  // ---------------------------------------------------------------------------

  /** What trimming leaves of a line: no indent, and blanks at the ends of its noise gone. */
  function Bare(d: Decorated): Decorated {
    d.(indent := "", before := if Marks(d) == "" then TrimLeft(d.before) else d.before, trail := TrimRight(d.trail))
  }

  lemma BareIsWellFormed(d: Decorated)
    requires WellFormed(d)
    ensures WellFormed(Bare(d)) && Marks(Bare(d)) == Marks(d)
    ensures Marks(d) == "" && Bare(d).before != "" ==> !IsSpace(Bare(d).before[0])
  {
    NoiseTrims(d.before);
    NoiseTrims(d.trail);
    TrimLeftSplits(d.before);
    hide Noise, NameShape, ValueShape, TrimLeft, TrimRight;
  }

  lemma MarksStartLine(d: Decorated)
    requires Marks(d) != ""
    ensures !IsSpace(Marks(d)[0])
  {
  }

  lemma LeftTrimmed(d: Decorated)
    requires WellFormed(d)
    ensures TrimLeft(LineText(d)) == Marks(d) + (Bare(d).before + (d.name + Tail(d)))
  {
    var t := d.name + Tail(d);
    BlankTrimsAway(d.indent);
    assert t[0] == d.name[0];
    hide Blank, Noise, ValueShape, Tail, Marks;
    if Marks(d) == "" {
      TrimLeftUpTo(d.indent + d.before, t);
      assert LineText(d) == d.indent + d.before + t;
      BlanksBefore(d.indent, d.before);
    } else {
      MarksStartLine(d);
      TrimLeftUpTo(d.indent, Marks(d) + (d.before + t));
    }
  }

  lemma BlanksBefore(s: string, t: string)
    requires Blank(s)
    ensures TrimLeft(s + t) == TrimLeft(t)
  {
    SpaceBefore(s, t);
  }


  lemma TrimmedAfterValue(head: string, value: string, trail: string)
    requires ValueShape(value)
    ensures TrimRight(head + value + trail) == head + value + TrimRight(trail)
  {
    assert (head + value)[|head + value| - 1] == value[|value| - 1];
    TrimRightFrom(head + value, trail);
  }

  function Head(d: Decorated): string { Marks(d) + (d.before + (d.name + (d.after + (":" + d.gap)))) }

  lemma LineSplits(d: Decorated)
    ensures Marks(d) + (d.before + (d.name + Tail(d))) == Head(d) + d.value + d.trail
  {
    hide Marks;
  }

  lemma LineTrimmed(d: Decorated)
    requires WellFormed(d)
    ensures TrimSpace(LineText(d)) == LineText(Bare(d))
  {
    LeftTrimmed(d);
    var left := d.(indent := "", before := Bare(d).before);
    LineSplits(left);
    LineSplits(Bare(d));
    TrimmedAfterValue(Head(left), d.value, d.trail);
    hide TrimLeft, TrimRight, Marks, Tail, Head;
    BareParts(d);
  }

  lemma BareParts(d: Decorated)
    ensures var left := d.(indent := "", before := Bare(d).before);
            && Marks(left) == Marks(d) == Marks(Bare(d)) && Tail(left) == Tail(d) && Head(left) == Head(Bare(d))
    ensures LineText(Bare(d)) == Marks(Bare(d)) + (Bare(d).before + (d.name + Tail(Bare(d))))
  {
    hide TrimLeft, TrimRight;
  }

  // ---------------------------------------------------------------------------
  // Bullets and hashes
  // ---------------------------------------------------------------------------

  lemma NoDashBefore(d: Decorated)
    requires WellFormed(d) && (d.before != "" ==> !IsSpace(d.before[0]))
    ensures TrimPrefix(d.before + (d.name + Tail(d)), "- ") == d.before + (d.name + Tail(d))
  {
    var v, named := d.before + (d.name + Tail(d)), d.name + " ";
    if d.before != "" {
      assert d.before[0] in d.before && NoiseChar(d.before[0]) && v[0] == d.before[0];
    } else {
      assert v == d.name + Tail(d);
      assert |d.name| > 1 ==> named[..2] == v[..2];
      assert |d.name| == 1 ==> named == [v[0], ' '];
    }
  }

  /** An asterisk and a blank in front of the name go as a bullet would. */
  lemma StarBefore(before: string, name: string, rest: string) returns (b: string)
    requires Noise(before) && NameShape(name)
    ensures Noise(b) && TrimPrefix(before + (name + rest), "* ") == b + (name + rest)
  {
    var v := before + (name + rest);
    b := before;
    if "* " <= v {
      assert v[0] == '*' && v[1] == ' ';
      assert name[0] in name;
      if |before| < 2 {
        assert v[|before|] == name[0];
      } else {
        b := before[2..];
        assert v[2..] == before[2..] + (name + rest);
        assert forall c :: c in b ==> c in before;
      }
    }
  }

  lemma HashFirst(n: nat, rest: string)
    requires n > 0
    ensures TrimPrefix(Hashes(n) + rest, "- ") == Hashes(n) + rest
    ensures TrimPrefix(Hashes(n) + rest, "* ") == Hashes(n) + rest
  {
    assert (Hashes(n) + rest)[0] == '#';
  }

  /** Behind a bullet, if any: perhaps one more star, then the hashes. */
  lemma HashesGo(hashes: nat, before: string, name: string, rest: string) returns (b: string)
    requires Noise(before) && NameShape(name)
    ensures Noise(b) && TrimHashes(TrimPrefix(Hashes(hashes) + (before + (name + rest)), "* ")) == b + (name + rest)
  {
    var v := before + (name + rest);
    if hashes > 0 {
      HashFirst(hashes, v);
      b := before;
    } else {
      assert Hashes(0) + v == v;
      b := StarBefore(before, name, rest);
    }
    StartsPlain(b, name, rest);
    hide Noise, NameShape, TrimPrefix;
    HashesTrimmed(hashes, b + (name + rest));
    HashesTrimmed(0, b + (name + rest));
    assert Hashes(0) + (b + (name + rest)) == b + (name + rest);
  }

  lemma StartsPlain(b: string, name: string, rest: string)
    requires Noise(b) && NameShape(name)
    ensures b + (name + rest) != "" && (b + (name + rest))[0] != '#'
  {
    if b != "" {
      assert b[0] in b && NoiseChar(b[0]);
    }
  }

  lemma HashesGoAfterStar(hashes: nat, before: string, name: string, rest: string)
    requires Noise(before) && NameShape(name)
    ensures TrimHashes(Hashes(hashes) + (before + (name + rest))) == before + (name + rest)
  {
    StartsPlain(before, name, rest);
    HashesTrimmed(hashes, before + (name + rest));
  }

  lemma DashGoes(v: string)
    ensures TrimPrefix("- " + v, "- ") == v
  {
  }

  lemma StarGoes(v: string)
    ensures TrimPrefix(TrimPrefix("* " + v, "- "), "* ") == v
  {
    assert ("* " + v)[0] == '*';
  }

  lemma LineIs(d: Decorated)
    requires d.indent == ""
    ensures LineText(d) == d.bullet.Text() + (Hashes(d.hashes) + (d.before + (d.name + Tail(d))))
  {
    Regrouped(d.bullet.Text(), Hashes(d.hashes), d.before + (d.name + Tail(d)));
  }

  lemma NoBulletStays(d: Decorated)
    requires WellFormed(d) && d.bullet.NoBullet? && (Marks(d) == "" && d.before != "" ==> !IsSpace(d.before[0]))
    ensures var v := Hashes(d.hashes) + (d.before + (d.name + Tail(d))); TrimPrefix(v, "- ") == v
  {
    if d.hashes > 0 {
      HashFirst(d.hashes, d.before + (d.name + Tail(d)));
    } else {
      NoDashBefore(d);
      hide TrimPrefix, WellFormed;
      assert "" + (d.before + (d.name + Tail(d))) == d.before + (d.name + Tail(d));
    }
  }

  lemma MarkersGo(d: Decorated) returns (b: string)
    requires WellFormed(d) && d.indent == ""
    requires Marks(d) == "" && d.before != "" ==> !IsSpace(d.before[0])
    ensures Noise(b)
    ensures TrimHashes(TrimPrefix(TrimPrefix(LineText(d), "- "), "* ")) == b + (d.name + Tail(d))
  {
    LineIs(d);
    if d.bullet.NoBullet? { NoBulletStays(d); }
    hide TrimPrefix, TrimHashes, Hashes, Tail, LineText, Noise, NameShape, ValueShape, Marks;
    var v := Hashes(d.hashes) + (d.before + (d.name + Tail(d)));
    match d.bullet {
      case Dash =>
        DashGoes(v);
        b := HashesGo(d.hashes, d.before, d.name, Tail(d));
      case Star =>
        StarGoes(v);
        HashesGoAfterStar(d.hashes, d.before, d.name, Tail(d));
        b := d.before;
      case NoBullet =>
        assert "" + v == v;
        b := HashesGo(d.hashes, d.before, d.name, Tail(d));
    }
  }

  // ---------------------------------------------------------------------------
  // What is left, and the fact on it
  // ---------------------------------------------------------------------------

  lemma PlainIsClean(s: string)
    requires '*' !in s && '_' !in s
    ensures Clean(s) == s
  {
  }

  lemma BareCleaned(b: string, d: Decorated)
    requires WellFormed(d)
    ensures Clean(b + (d.name + Tail(d)))
            == Clean(b) + (d.name + (Clean(d.after) + (":" + (Clean(d.gap) + (d.value + Clean(d.trail))))))
  {
    assert '*' !in d.value && '_' !in d.value by { assert forall c :: c in d.value ==> ValueChar(c); }
    PlainIsClean(d.name);
    PlainIsClean(":");
    PlainIsClean(d.value);
    hide Clean, WellFormed;
    CleanConcat(b, d.name + Tail(d));
    CleanConcat(d.name, Tail(d));
    CleanConcat(d.after, ":" + (d.gap + (d.value + d.trail)));
    CleanConcat(":", d.gap + (d.value + d.trail));
    CleanConcat(d.gap, d.value + d.trail);
    CleanConcat(d.value, d.trail);
  }

  lemma BlanksTrimmed(left: string, core: string, right: string)
    requires Blank(left) && Blank(right) && Trimmed(core) && core != ""
    ensures TrimSpace(left + (core + right)) == core
  {
    PaddingTrimmed(left, core, right);
  }


  lemma CoreIsTrimmed(name: string, middle: string, value: string)
    requires NameShape(name) && ValueShape(value)
    ensures var core := name + (middle + value); core != "" && Trimmed(core)
  {
    var core := name + (middle + value);
    assert core[0] == name[0] && core[|core| - 1] == value[|value| - 1];
  }

  lemma CleanedTrimmed(left: string, name: string, after: string, gap: string, value: string, right: string)
    requires NameShape(name) && ValueShape(value) && Blank(left) && Blank(right)
    ensures TrimSpace(left + (name + (after + (":" + (gap + (value + right))))))
            == name + (after + (":" + (gap + value)))
  {
    var core := name + (after + (":" + (gap + value)));
    Regrouped(":", gap, value);
    Regrouped(after, ":" + gap, value);
    CoreIsTrimmed(name, after + (":" + gap), value);
    hide NameShape, ValueShape, Blank, TrimSpace, Trimmed;
    BlanksTrimmed(left, core, right);
    MovedIn(name, after, gap, value, right);
  }

  lemma MovedIn(name: string, after: string, gap: string, value: string, right: string)
    ensures name + (after + (":" + (gap + value))) + right == name + (after + (":" + (gap + (value + right))))
  {
    Regrouped(gap, value, right);
    Regrouped(":", gap + value, right);
    Regrouped(after, ":" + (gap + value), right);
    Regrouped(name, after + (":" + (gap + value)), right);
  }

  lemma DecoratedStripped(d: Decorated) returns (after: string, gap: string)
    requires WellFormed(d)
    ensures Blank(after) && Blank(gap)
    ensures StripMarkdownNoise(LineText(d)) == d.name + (after + (":" + (gap + d.value)))
  {
    LineTrimmed(d);
    BareIsWellFormed(d);
    var e := Bare(d);
    assert e.indent == "" && e.name == d.name && e.value == d.value;
    hide Blank, Noise, Clean, NameShape, ValueShape, TrimSpace, TrimHashes, TrimPrefix, LineText, Marks, Tail, Bare;
    var b := MarkersGo(e);
    BareCleaned(b, e);
    CleanNoise(b);
    CleanNoise(e.after);
    CleanNoise(e.gap);
    CleanNoise(e.trail);
    after, gap := Clean(e.after), Clean(e.gap);
    CleanedTrimmed(Clean(b), d.name, after, gap, d.value, Clean(e.trail));
    StripIs(LineText(d));
  }

  lemma StripIs(line: string)
    ensures StripMarkdownNoise(line)
            == TrimSpace(Clean(TrimHashes(TrimPrefix(TrimPrefix(TrimSpace(line), "- "), "* "))))
  {
  }

  lemma KeyNormalized(name: string, after: string)
    requires NameShape(name) && Blank(after)
    ensures NormalizeKey(name + after) == KeyFor(name)
  {
    assert "" + (name + after) == name + after;
    BlanksTrimmed("", name, after);
    NormalizedChars(name + after);
  }

  lemma NoColonInKey(name: string, after: string)
    requires NameShape(name) && Blank(after)
    ensures ':' !in name + after
  {
    assert forall c :: c in after ==> IsSpace(c);
  }

  lemma ValueTrimmed(gap: string, value: string)
    requires Blank(gap) && ValueShape(value)
    ensures TrimSpace(gap + value) == value && value != ""
  {
    BlanksTrimmed(gap, value, "");
    assert gap + (value + "") == gap + value;
  }

  lemma SplitsAtColon(key: string, rest: string)
    requires ':' !in key
    ensures var bare := key + (":" + rest);
            IndexOf(bare, ':') == |key| && bare[..|key|] == key && bare[|key| + 1..] == rest
  {
    FirstAt(key, ':', ":" + rest);
  }

  lemma FactAtColon(key: string, rest: string)
    requires ':' !in key && NormalizeKey(key) != "" && TrimSpace(rest) != ""
    ensures FactIn(key + (":" + rest)) == Some((NormalizeKey(key), TrimSpace(rest)))
  {
    SplitsAtColon(key, rest);
    hide NormalizeKey, TrimSpace, IndexOf;
  }

  lemma SplitFact(name: string, after: string, gap: string, value: string)
    requires NameShape(name) && Blank(after) && Blank(gap) && ValueShape(value)
    ensures FactIn(name + (after + (":" + (gap + value)))) == Some((KeyFor(name), value))
  {
    assert KeyFor(name) != "";
    hide NameShape, ValueShape, Blank, NormalizeKey, TrimSpace, KeyFor, FactIn;
    KeyNormalized(name, after);
    ValueTrimmed(gap, value);
    NoColonInKey(name, after);
    FactAtColon(name + after, gap + value);
    Regrouped(name, after, ":" + (gap + value));
  }


  /** A decorated line gives its fact, whatever bullet, hashes, emphasis and blanks are around it. */
  lemma DecoratedFact(d: Decorated)
    requires WellFormed(d)
    ensures FactOf(LineText(d)) == Some((KeyFor(d.name), d.value))
  {
    hide StripMarkdownNoise, LineText, NameShape, ValueShape, Blank, FactIn;
    var after, gap := DecoratedStripped(d);
    SplitFact(d.name, after, gap, d.value);
  }

  /** A line without a colon gives none. */
  lemma NoColonNoFact(line: string)
    requires ':' !in line
    ensures FactOf(line) == None
  {
    StrippedShape(line);
  }

  // ---------------------------------------------------------------------------
  // A text of such lines
  // ---------------------------------------------------------------------------

  datatype Line = Fact(d: Decorated) | Prose(text: string) {
    function Text(): string {
      match this
      case Fact(d) => LineText(d)
      case Prose(text) => text
    }

    /** Prose is anything without a colon. */
    predicate Valid() {
      match this
      case Fact(d) => WellFormed(d)
      case Prose(text) => ':' !in text && '\n' !in text
    }
  }

  /** One line after another; the last one may lack its line end. */
  function TextOfLines(lines: seq<Line>, ended: bool): string {
    if lines == [] then ""
    else if |lines| == 1 && !ended then lines[0].Text()
    else lines[0].Text() + "\n" + TextOfLines(lines[1..], ended)
  }

  /** Each fact under its key, a later one replacing an earlier one. */
  function Meant(rec: Record, lines: seq<Line>): Record
    decreases |lines|
  {
    if lines == [] then rec else
      Meant(match lines[0] case Fact(d) => rec[KeyFor(d.name) := d.value] case Prose(_) => rec, lines[1..])
  }

  function WithoutReturn(d: Decorated): Decorated {
    if d.trail != "" && d.trail[|d.trail| - 1] == '\r' then d.(trail := d.trail[..|d.trail| - 1]) else d
  }

  /** A carriage return at the end is one more blank. */
  lemma LineEntered(rec: Record, line: Line)
    requires line.Valid()
    ensures Entered(rec, DropReturn(line.Text())) ==
            match line case Fact(d) => rec[KeyFor(d.name) := d.value] case Prose(_) => rec
  {
    hide FactOf;
    match line {
      case Fact(d) =>
        ReturnDropped(d);
        DecoratedFact(WithoutReturn(d));
      case Prose(text) =>
        NoColonNoFact(DropReturn(text));
    }
  }

  lemma LastCharacter(s: string, c: char)
    ensures DropReturn(s + [c]) == if c == '\r' then s else s + [c]
  {
    assert (s + [c])[..|s|] == s;
  }

  lemma TrailMoves(d: Decorated, trail: string, c: char)
    requires d.trail == trail + [c]
    ensures LineText(d) == LineText(d.(trail := trail)) + [c]
  {
    var short := d.(trail := trail);
    assert Head(d) == Head(short) && Marks(d) == Marks(short);
    LineSplits(d);
    LineSplits(short);
    hide Marks, Tail, Head;
    Regrouped(Head(d) + d.value, trail, [c]);
    Regrouped(d.indent, Head(d) + d.value + trail, [c]);
  }

  lemma LineEndsInValue(d: Decorated)
    requires d.trail == "" && ValueShape(d.value)
    ensures DropReturn(LineText(d)) == LineText(d)
  {
    var line := LineText(d);
    assert line[|line| - 1] == d.value[|d.value| - 1];
  }

  lemma ReturnDropped(d: Decorated)
    requires WellFormed(d)
    ensures DropReturn(LineText(d)) == LineText(WithoutReturn(d)) && WellFormed(WithoutReturn(d))
  {
    if d.trail == "" {
      LineEndsInValue(d);
    } else {
      var trail, c := d.trail[..|d.trail| - 1], d.trail[|d.trail| - 1];
      assert d.trail == trail + [c];
      assert Noise(trail) by { assert forall x :: x in trail ==> x in d.trail; }
      hide Noise, Blank, NameShape, ValueShape, LineText, DropReturn;
      TrailMoves(d, trail, c);
      LastCharacter(LineText(d.(trail := trail)), c);
    }
  }

  lemma HasNoLineEnd(line: Line)
    requires line.Valid()
    ensures '\n' !in line.Text()
  {
    if line.Fact? {
      var d := line.d;
      assert '\n' !in d.value by { assert forall c :: c in d.value ==> ValueChar(c); }
      assert forall s, c :: Noise(s) && c in s ==> NoiseChar(c);
      MarksHaveNoLineEnd(d);
    }
  }

  lemma MarksHaveNoLineEnd(d: Decorated)
    ensures '\n' !in Marks(d)
  {
    HashesOnly(d.hashes);
  }

  lemma {:induction false} HashesOnly(n: nat)
    ensures '\n' !in Hashes(n)
    decreases n
  {
    if n > 0 { HashesOnly(n - 1); }
  }

  lemma LastLine(line: string)
    requires '\n' !in line
    ensures Lines(line) == if line == "" then [] else [DropReturn(line)]
  {
  }

  lemma NothingEntered(rec: Record)
    ensures Entered(rec, DropReturn("")) == rec
  {
    BlankLineHasNoFact();
  }

  lemma {:induction false} LinesEntered(rec: Record, lines: seq<Line>, ended: bool)
    requires forall l :: l in lines ==> l.Valid()
    ensures EnterAll(rec, Lines(TextOfLines(lines, ended))) == Meant(rec, lines)
    decreases |lines|
  {
    hide Line.Valid, Line.Text, Lines, Entered, KeyFor;
    if lines == [] {
      LastLine("");
    } else {
      assert lines[0] in lines && forall l :: l in lines[1..] ==> l in lines;
      HasNoLineEnd(lines[0]);
      LineEntered(rec, lines[0]);
      var text := lines[0].Text();
      if |lines| == 1 && !ended {
        LastLine(text);
        if text == "" { NothingEntered(rec); }
      } else {
        LineTaken(text, TextOfLines(lines[1..], ended));
        LinesEntered(Entered(rec, DropReturn(text)), lines[1..], ended);
      }
    }
  }

  /** Facts in any decoration, prose between them: the text parses to the facts, later ones winning. */
  lemma TextParses(lines: seq<Line>, ended: bool)
    requires forall l :: l in lines ==> l.Valid()
    ensures Parsed(TextOfLines(lines, ended)) == Meant(map[], lines)
  {
    LinesEntered(map[], lines, ended);
  }
}
