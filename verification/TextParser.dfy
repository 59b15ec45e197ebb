/**
  internal/parser/text.go: "key: value" lines, stripped of Markdown decoration,
  one fact each.  White space, case and line ends are ASCII.
  */
module TextParser {
  import opened Strings

  type Record = map<string, string>

  function NormalizeKey(key: string): string {
    Replace(ToLower(TrimSpace(key)), ' ', '_')
  }

  function TrimPrefix(s: string, prefix: string): string {
    if prefix <= s then s[|prefix|..] else s
  }

  /** TrimLeft(s, "#") */
  function TrimHashes(s: string): string {
    if s != "" && s[0] == '#' then TrimHashes(s[1..]) else s
  }

  function StripMarkdownNoise(line: string): string {
    var bare := TrimHashes(TrimPrefix(TrimPrefix(TrimSpace(line), "- "), "* "));
    TrimSpace(Without(Without(bare, '*'), '_'))
  }

  /** The fact on a stripped line, if there is one. */
  function FactIn(bare: string): Option<(string, string)> {
    var i := IndexOf(bare, ':');
    if i < 0 then None else
      var key, value := NormalizeKey(bare[..i]), TrimSpace(bare[i + 1..]);
      if key == "" || value == "" then None else Some((key, value))
  }

  function FactOf(line: string): Option<(string, string)> { FactIn(StripMarkdownNoise(line)) }

  function Entered(rec: Record, line: string): Record {
    match FactOf(line)
    case None => rec
    case Some((key, value)) => rec[key := value]
  }

  function EnterAll(rec: Record, lines: seq<string>): Record
    decreases |lines|
  {
    if lines == [] then rec else EnterAll(Entered(rec, lines[0]), lines[1..])
  }

  /** bufio.ScanLines: one carriage return before a line end is dropped, and so is an empty last line. */
  function Lines(text: string): (lines: seq<string>) {
    if text == "" then [] else
      var i := IndexOf(text, '\n');
      if i < 0 then [DropReturn(text)] else [DropReturn(text[..i])] + Lines(text[i + 1..])
  }

  function DropReturn(line: string): string {
    if line != "" && line[|line| - 1] == '\r' then line[..|line| - 1] else line
  }

  function Parsed(text: string): Record { EnterAll(map[], Lines(text)) }

  method ParseText(text: string) returns (rec: Record)
    ensures rec == Parsed(text)
  {
    rec := map[];
    var lines := Lines(text);
    for n := 0 to |lines|
      invariant EnterAll(rec, lines[n..]) == Parsed(text)
    {
      assert lines[n..][1..] == lines[n + 1..];
      var line := StripMarkdownNoise(lines[n]);
      var idx := IndexOf(line, ':');
      if idx < 0 {
        continue;
      }
      var key := NormalizeKey(line[..idx]);
      var value := TrimSpace(line[idx + 1..]);
      if key == "" || value == "" {
        continue;
      }
      rec := rec[key := value];
    }
  }

  // ---------------------------------------------------------------------------
  // What no parsed fact can look like
  // ---------------------------------------------------------------------------

  predicate KeyChar(c: char) { c != ' ' && c != ':' && c != '*' && c != '\n' && !IsUpper(c) }

  predicate ValueChar(c: char) { c != '*' && c != '_' && c != '\n' }

  /** Keys come out without white space at the ends, blanks, capitals, colons, asterisks or line ends. */
  predicate KeyShape(key: string) {
    && key != "" && Trimmed(key)
    && forall c :: c in key ==> KeyChar(c)
  }

  predicate ValueShape(value: string) {
    && value != "" && Trimmed(value)
    && forall c :: c in value ==> ValueChar(c)
  }

  lemma {:induction false} TrimHashesShortens(s: string)
    ensures |TrimHashes(s)| <= |s| && forall c :: c in TrimHashes(s) ==> c in s
    ensures TrimHashes(s) == "" || TrimHashes(s)[0] != '#'
    ensures s != "" && s[0] == '#' ==> |TrimHashes(s)| < |s|
    decreases |s|
  {
    if s != "" && s[0] == '#' {
      TrimHashesShortens(s[1..]);
    }
  }

  lemma StrippedShape(line: string)
    ensures Trimmed(StripMarkdownNoise(line))
    ensures forall c :: c in StripMarkdownNoise(line) ==> c in line && c != '*' && c != '_'
  {
    var trimmed := TrimSpace(line);
    TrimSpaceTrims(line);
    var unlisted := TrimPrefix(TrimPrefix(trimmed, "- "), "* ");
    TrimHashesShortens(unlisted);
    var bare := TrimHashes(unlisted);
    TrimSpaceTrims(Without(Without(bare, '*'), '_'));
  }

  function NormalChar(c: char): char {
    if c == ' ' then '_' else LowerChar(c)
  }

  lemma NormalizedChars(key: string)
    ensures |NormalizeKey(key)| == |TrimSpace(key)|
    ensures forall i :: 0 <= i < |TrimSpace(key)| ==> NormalizeKey(key)[i] == NormalChar(TrimSpace(key)[i])
  {
  }

  lemma NormalizedIsTrimmed(key: string)
    ensures Trimmed(NormalizeKey(key))
  {
    TrimSpaceTrims(key);
    NormalizedChars(key);
    hide NormalizeKey, TrimSpace;
    assert forall c :: IsSpace(NormalChar(c)) ==> IsSpace(c);
  }

  lemma KeyOfShape(bare: string, i: nat)
    requires i < |bare| && ':' !in bare[..i] && NormalizeKey(bare[..i]) != ""
    requires forall c :: c in bare ==> ValueChar(c)
    ensures KeyShape(NormalizeKey(bare[..i]))
  {
    var trimmed, key := TrimSpace(bare[..i]), NormalizeKey(bare[..i]);
    TrimSpaceTrims(bare[..i]);
    NormalizedChars(bare[..i]);
    NormalizedIsTrimmed(bare[..i]);
    hide NormalizeKey, TrimSpace, Trimmed;
    forall c | c in key
      ensures KeyChar(c)
    {
      var k :| 0 <= k < |key| && key[k] == c;
      assert trimmed[k] in trimmed && trimmed[k] in bare[..i] && trimmed[k] in bare;
      assert ValueChar(trimmed[k]) && c == NormalChar(trimmed[k]);
    }
  }

  lemma ValueOfShape(bare: string, i: nat)
    requires i < |bare| && TrimSpace(bare[i + 1..]) != ""
    requires forall c :: c in bare ==> ValueChar(c)
    ensures ValueShape(TrimSpace(bare[i + 1..]))
  {
    var value := TrimSpace(bare[i + 1..]);
    TrimSpaceTrims(bare[i + 1..]);
    hide TrimSpace, Trimmed;
    forall c | c in value
      ensures ValueChar(c)
    {
      assert c in bare[i + 1..];
      assert c in bare;
    }
  }

  lemma FactShape(line: string)
    requires FactOf(line).Some? && '\n' !in line
    ensures KeyShape(FactOf(line).value.0) && ValueShape(FactOf(line).value.1)
  {
    StrippedShape(line);
    hide StripMarkdownNoise, NormalizeKey, TrimSpace, KeyShape, ValueShape;
    var bare := StripMarkdownNoise(line);
    var i := IndexOf(bare, ':');
    KeyOfShape(bare, i);
    ValueOfShape(bare, i);
  }

  lemma DroppedReturnShape(line: string)
    requires '\n' !in line
    ensures '\n' !in DropReturn(line)
  {
  }

  lemma {:induction false} LinesHaveNoLineEnds(text: string)
    ensures forall l :: l in Lines(text) ==> '\n' !in l
    decreases |text|
  {
    hide DropReturn;
    if text != "" {
      var i := IndexOf(text, '\n');
      if i < 0 {
        DroppedReturnShape(text);
      } else {
        DroppedReturnShape(text[..i]);
        LinesHaveNoLineEnds(text[i + 1..]);
        hide Lines;
        assert forall l :: l in [DropReturn(text[..i])] + Lines(text[i + 1..]) ==> '\n' !in l;
      }
    }
  }

  lemma {:induction false} EnteredFacts(rec: Record, lines: seq<string>, key: string)
    requires key in EnterAll(rec, lines)
    ensures var value := EnterAll(rec, lines)[key];
            || (key in rec && rec[key] == value)
            || exists l :: l in lines && FactOf(l) == Some((key, value))
    decreases |lines|
  {
    if lines != [] {
      var value := EnterAll(rec, lines)[key];
      EnteredFacts(Entered(rec, lines[0]), lines[1..], key);
      if l :| l in lines[1..] && FactOf(l) == Some((key, value)) {
        assert l in lines;
      } else {
        assert lines[0] in lines;
      }
    }
  }

  /** Every parsed record, from any text, has this shape throughout. */
  lemma ParsedShape(text: string)
    ensures forall key :: key in Parsed(text) ==> KeyShape(key) && ValueShape(Parsed(text)[key])
  {
    LinesHaveNoLineEnds(text);
    forall key | key in Parsed(text)
      ensures KeyShape(key) && ValueShape(Parsed(text)[key])
    {
      EnteredFacts(map[], Lines(text), key);
      var l :| l in Lines(text) && FactOf(l) == Some((key, Parsed(text)[key]));
      FactShape(l);
    }
  }
}
