/**
  The fact list of internal/llmstxt/render.go:26-39 and what the text parser
  makes of it.
  */
module LlmsTxt {
  import opened Strings
  import opened TextParser

  // ---------------------------------------------------------------------------
  // sort.Strings
  // ---------------------------------------------------------------------------

  predicate Leq(a: string, b: string) {
    a == "" || (b != "" && (a[0] < b[0] || (a[0] == b[0] && Leq(a[1..], b[1..]))))
  }

  predicate DiffersFirstAt(a: string, b: string, i: nat) {
    i < |a| && i < |b| && a[..i] == b[..i] && a[i] < b[i]
  }

  /** Byte by byte, and a prefix first. */
  lemma {:induction false} LeqIff(a: string, b: string)
    ensures Leq(a, b) <==> a <= b || exists i: nat :: DiffersFirstAt(a, b, i)
    decreases |a|
  {
    forall i: nat | DiffersFirstAt(a, b, i) && i > 0
      ensures a[0] == b[0]
    {
      assert a[..i][0] == b[..i][0];
    }
    if a != "" && b != "" && a[0] == b[0] {
      LeqIff(a[1..], b[1..]);
      assert a == [a[0]] + a[1..] && b == [b[0]] + b[1..];
      assert a <= b <==> a[1..] <= b[1..];
      if i: nat :| DiffersFirstAt(a[1..], b[1..], i) {
        assert a[..i + 1] == [a[0]] + a[1..][..i] && b[..i + 1] == [b[0]] + b[1..][..i];
        assert DiffersFirstAt(a, b, i + 1);
      }
      if i: nat :| DiffersFirstAt(a, b, i) {
        assert i > 0 && a[1..][..i - 1] == a[..i][1..] && b[1..][..i - 1] == b[..i][1..];
        assert DiffersFirstAt(a[1..], b[1..], i - 1);
      }
    } else if a != "" && b != "" && a[0] < b[0] {
      assert DiffersFirstAt(a, b, 0);
    }
  }

  ghost predicate Sorted(ks: seq<string>) {
    forall i, j :: 0 <= i < j < |ks| ==> Leq(ks[i], ks[j])
  }

  lemma {:induction false} LeqTotal(a: string, b: string)
    ensures Leq(a, b) || Leq(b, a)
    ensures Leq(a, b) && Leq(b, a) ==> a == b
    decreases |a|
  {
    if a != "" && b != "" && a[0] == b[0] {
      LeqTotal(a[1..], b[1..]);
      assert a == [a[0]] + a[1..] && b == [b[0]] + b[1..];
    }
  }

  lemma {:induction false} LeqTransitive(a: string, b: string, c: string)
    requires Leq(a, b) && Leq(b, c)
    ensures Leq(a, c)
    decreases |a|
  {
    if a != "" && a[0] == b[0] == c[0] {
      LeqTransitive(a[1..], b[1..], c[1..]);
    }
  }

  function Inserted(k: string, ks: seq<string>): seq<string> {
    if ks == [] || Leq(k, ks[0]) then [k] + ks else [ks[0]] + Inserted(k, ks[1..])
  }

  function SortStrings(ks: seq<string>): seq<string> {
    if ks == [] then [] else Inserted(ks[0], SortStrings(ks[1..]))
  }

  lemma {:induction false} InsertedIsSorted(k: string, ks: seq<string>)
    requires Sorted(ks)
    ensures Sorted(Inserted(k, ks)) && multiset(Inserted(k, ks)) == multiset{k} + multiset(ks)
    decreases |ks|
  {
    if ks == [] {
    } else if Leq(k, ks[0]) {
      forall j | 0 <= j < |ks|
        ensures Leq(k, ks[j])
      {
        if j > 0 { LeqTransitive(k, ks[0], ks[j]); }
      }
    } else {
      InsertedIsSorted(k, ks[1..]);
      LeqTotal(k, ks[0]);
      assert ks == [ks[0]] + ks[1..];
      var rest := Inserted(k, ks[1..]);
      forall j | 0 <= j < |rest|
        ensures Leq(ks[0], rest[j])
      {
        assert rest[j] in multiset(rest);
        assert rest[j] == k || rest[j] in ks[1..];
      }
    }
  }

  lemma {:induction false} SortStringsSorts(ks: seq<string>)
    ensures Sorted(SortStrings(ks)) && multiset(SortStrings(ks)) == multiset(ks)
    decreases |ks|
  {
    if ks != [] {
      SortStringsSorts(ks[1..]);
      InsertedIsSorted(ks[0], SortStrings(ks[1..]));
      assert ks == [ks[0]] + ks[1..];
    }
  }

  lemma TailCounts(a: seq<string>)
    requires a != []
    ensures multiset(a[1..]) == multiset(a) - multiset{a[0]}
  {
    assert a == [a[0]] + a[1..];
  }

  lemma SameLeast(a: seq<string>, b: seq<string>)
    requires Sorted(a) && Sorted(b) && multiset(a) == multiset(b) && a != []
    ensures b != [] && a[0] == b[0]
  {
    assert a[0] in multiset(b);
    assert b[0] in multiset(a);
    var i :| 0 <= i < |b| && b[i] == a[0];
    var j :| 0 <= j < |a| && a[j] == b[0];
    LeqTotal(a[0], b[0]);
  }

  /** There is one sorted arrangement only, so the map's iteration order does not show. */
  lemma {:induction false} SortedIsUnique(a: seq<string>, b: seq<string>)
    requires Sorted(a) && Sorted(b) && multiset(a) == multiset(b)
    ensures a == b
    decreases |a|
  {
    hide Leq;
    if a == [] {
      assert |multiset(b)| == 0;
    } else {
      SameLeast(a, b);
      TailCounts(a);
      TailCounts(b);
      SortedIsUnique(a[1..], b[1..]);
      assert a == [a[0]] + a[1..] && b == [b[0]] + b[1..];
    }
  }

  // ---------------------------------------------------------------------------
  // Rendering
  // ---------------------------------------------------------------------------

  function FactLine(key: string, value: string): string { "- " + key + ": " + value }

  function FactLines(props: Record, ks: seq<string>): string
    requires forall k :: k in ks ==> k in props
  {
    if ks == [] then "" else FactLine(ks[0], props[ks[0]]) + "\n" + FactLines(props, ks[1..])
  }

  ghost predicate IsSortedKeys(keys: set<string>, ks: seq<string>) {
    Sorted(ks) && multiset(ks) == multiset(keys)
  }

  lemma Arrangement(keys: set<string>) returns (ks: seq<string>)
    ensures multiset(ks) == multiset(keys)
    decreases |keys|
  {
    if keys == {} {
      ks := [];
    } else {
      var k :| k in keys;
      var rest := Arrangement(keys - {k});
      ks := [k] + rest;
      assert keys == (keys - {k}) + {k};
    }
  }

  lemma SortedKeysExist(keys: set<string>)
    ensures exists ks :: IsSortedKeys(keys, ks)
  {
    var ks := Arrangement(keys);
    SortStringsSorts(ks);
    assert IsSortedKeys(keys, SortStrings(ks));
  }

  ghost function SortedKeys(keys: set<string>): (ks: seq<string>)
    ensures IsSortedKeys(keys, ks)
    ensures forall k :: k in ks <==> k in keys
  {
    SortedKeysExist(keys);
    var ks :| IsSortedKeys(keys, ks);
    assert forall k :: k in ks <==> k in multiset(ks);
    ks
  }

  ghost function Rendered(props: Record): string {
    FactLines(props, SortedKeys(props.Keys)) + "\n"
  }

  /** for k := range props: the order is Go's choice. */
  method CollectKeys(props: Record) returns (keys: seq<string>)
    ensures multiset(keys) == multiset(props.Keys)
  {
    keys := [];
    var todo := props.Keys;
    while todo != {}
      invariant todo <= props.Keys && multiset(keys) + multiset(todo) == multiset(props.Keys)
      decreases todo
    {
      var k :| k in todo;
      keys := keys + [k];
      assert multiset(todo) == multiset(todo - {k}) + multiset{k};
      todo := todo - {k};
    }
  }

  method WriteFacts(props: Record, keys: seq<string>) returns (text: string)
    requires forall k :: k in keys ==> k in props
    ensures text == FactLines(props, keys)
  {
    hide FactLine;
    text := "";
    for n := 0 to |keys|
      invariant text + FactLines(props, keys[n..]) == FactLines(props, keys)
    {
      assert keys[n..][1..] == keys[n + 1..];
      var line := FactLine(keys[n], props[keys[n]]) + "\n";
      assert (text + line) + FactLines(props, keys[n + 1..]) == text + FactLines(props, keys[n..]);
      text := text + line;
    }
  }

  method RenderProperties(props: Record) returns (text: string)
    ensures text == Rendered(props)
  {
    hide Sorted, FactLines;
    var keys := CollectKeys(props);
    SortStringsSorts(keys);
    keys := SortStrings(keys);
    SortedIsUnique(keys, SortedKeys(props.Keys));
    text := WriteFacts(props, keys);
    text := text + "\n";
  }

  // ---------------------------------------------------------------------------
  // What the parser makes of one rendered fact
  // ---------------------------------------------------------------------------

  /** Keys that survive: no decoration to strip and nothing to normalise. */
  predicate GoodKey(key: string) {
    KeyShape(key) && '_' !in key && key[0] != '#'
  }

  lemma {:induction false} HashesBeforeColon(s: string, rest: string)
    requires rest != "" && rest[0] == ':'
    ensures TrimHashes(s + rest) == TrimHashes(s) + rest
    decreases |s|
  {
    if s == "" {
      assert s + rest == rest;
    } else if s[0] == '#' {
      assert (s + rest)[1..] == s[1..] + rest;
      HashesBeforeColon(s[1..], rest);
    }
  }

  lemma {:induction false} TrimLeftBeforeColon(s: string, rest: string)
    requires rest != "" && rest[0] == ':'
    ensures TrimLeft(s + rest) == TrimLeft(s) + rest
    decreases |s|
  {
    assert TrimLeft(rest) == rest;
    if s == "" {
      assert s + rest == rest;
    } else if IsSpace(s[0]) {
      assert (s + rest)[1..] == s[1..] + rest;
      TrimLeftBeforeColon(s[1..], rest);
    }
  }

  lemma {:induction false} WithoutConcat(s: string, t: string, c: char)
    ensures Without(s + t, c) == Without(s, c) + Without(t, c)
    decreases |s|
  {
    if s == "" {
      assert s + t == t;
    } else {
      assert (s + t)[1..] == s[1..] + t;
      WithoutConcat(s[1..], t, c);
      var head := if s[0] == c then [] else [s[0]];
      assert head + (Without(s[1..], c) + Without(t, c)) == (head + Without(s[1..], c)) + Without(t, c);
    }
  }

  /** What is left of a key once its line is stripped. */
  function StrippedKey(key: string): string { TrimLeft(Without(TrimHashes(key), '_')) }

  lemma RenderedLineTrimmed(key: string, value: string)
    requires ValueShape(value)
    ensures TrimSpace(FactLine(key, value)) == FactLine(key, value) && DropReturn(FactLine(key, value)) == FactLine(key, value)
  {
    var line := FactLine(key, value);
    assert line[0] == '-' && line[|line| - 1] == value[|value| - 1];
    TrimmedIsFixed(line);
  }

  lemma NoMarker(s: string)
    requires s != "" && s[0] != '*'
    ensures TrimPrefix(s, "* ") == s
  {
  }

  lemma MarkerStripped(key: string, value: string)
    requires KeyShape(key)
    ensures TrimPrefix(TrimPrefix(FactLine(key, value), "- "), "* ") == key + (": " + value)
  {
    var line := FactLine(key, value);
    assert line == "- " + (key + (": " + value));
    assert TrimPrefix(line, "- ") == key + (": " + value);
    assert key[0] in key && KeyChar(key[0]);
    NoMarker(key + (": " + value));
  }

  /** Stripping works on the key alone; the value is clean and keeps the end of the line in place. */
  lemma DecorationStripped(key: string, value: string)
    requires KeyShape(key) && ValueShape(value)
    ensures Without(Without(TrimHashes(key + (": " + value)), '*'), '_')
            == Without(TrimHashes(key), '_') + (": " + value)
  {
    var h, rest := TrimHashes(key), ": " + value;
    HashesBeforeColon(key, rest);
    TrimHashesShortens(key);
    KeyAndValueChars(key, value);
    hide TrimHashes, KeyShape, ValueShape;
    WithoutConcat(h, rest, '*');
    WithoutConcat(h, rest, '_');
  }

  lemma EndsTrimmed(s: string, value: string)
    requires ValueShape(value)
    ensures TrimSpace(s + (": " + value)) == TrimLeft(s) + (": " + value)
  {
    TrimLeftBeforeColon(s, ": " + value);
    var bare := TrimLeft(s) + (": " + value);
    assert bare[|bare| - 1] == value[|value| - 1];
  }

  lemma RenderedLineStripped(key: string, value: string)
    requires KeyShape(key) && ValueShape(value)
    ensures StripMarkdownNoise(FactLine(key, value)) == StrippedKey(key) + (": " + value)
  {
    RenderedLineTrimmed(key, value);
    MarkerStripped(key, value);
    hide FactLine, TrimPrefix, TrimHashes, TrimSpace, TrimLeft, KeyShape, ValueShape;
    DecorationStripped(key, value);
    EndsTrimmed(Without(TrimHashes(key), '_'), value);
  }

  lemma KeyAndValueChars(key: string, value: string)
    requires KeyShape(key) && ValueShape(value)
    ensures '*' !in key && ':' !in key && ' ' !in key && '\n' !in key
    ensures '*' !in ": " + value && '_' !in ": " + value && '\n' !in value
  {
    forall c | c in key
      ensures c != '*' && c != ':' && c != ' ' && c != '\n'
    {
      assert KeyChar(c);
    }
    forall c | c in ": " + value
      ensures c != '*' && c != '_' && c != '\n'
    {
      assert c == ':' || c == ' ' || ValueChar(c);
    }
    assert forall c :: c in value ==> c in ": " + value;
  }

  lemma StrippedKeyChars(key: string)
    requires KeyShape(key)
    ensures ':' !in StrippedKey(key) && ' ' !in StrippedKey(key) && '_' !in StrippedKey(key)
    ensures |StrippedKey(key)| <= |key| && (key[0] == '#' ==> |StrippedKey(key)| < |key|)
  {
    TrimHashesShortens(key);
    var w := Without(TrimHashes(key), '_');
    TrimLeftSplits(w);
    var n :| 0 <= n <= |w| && TrimLeft(w) == w[n..];
    assert forall c :: c in w[n..] ==> c in w;
    assert forall c :: c in key ==> KeyChar(c);
  }

  lemma BlankBeforeValue(value: string)
    requires ValueShape(value)
    ensures TrimSpace(" " + value) == value
  {
    assert (" " + value)[1..] == value;
    TrimmedIsFixed(value);
    assert TrimLeft(" " + value) == TrimLeft(value);
  }

  lemma SplitAtColon(key: string, value: string)
    requires ':' !in key && ValueShape(value)
    ensures FactIn(key + (": " + value)) ==
            if NormalizeKey(key) == "" then None else Some((NormalizeKey(key), value))
  {
    BlankBeforeValue(value);
    assert value != "";
    hide NormalizeKey, ValueShape, TrimSpace;
    var bare := key + (": " + value);
    FirstAt(key, ':', ": " + value);
    assert bare[..|key|] == key;
    assert bare[|key| + 1..] == " " + value;
  }

  lemma RenderedFact(key: string, value: string)
    requires KeyShape(key) && ValueShape(value)
    ensures FactOf(FactLine(key, value)) ==
            var k := NormalizeKey(StrippedKey(key)); if k == "" then None else Some((k, value))
  {
    hide StripMarkdownNoise, StrippedKey, NormalizeKey, KeyShape, ValueShape, FactIn, FactLine;
    RenderedLineStripped(key, value);
    StrippedKeyChars(key);
    SplitAtColon(StrippedKey(key), value);
  }

  lemma GoodKeyIsFixed(key: string)
    requires GoodKey(key)
    ensures NormalizeKey(StrippedKey(key)) == key
  {
    assert TrimHashes(key) == key && Without(key, '_') == key && TrimLeft(key) == key;
    TrimmedIsFixed(key);
    NormalizedChars(key);
    forall i | 0 <= i < |key|
      ensures NormalizeKey(key)[i] == key[i]
    {
      assert key[i] in key && KeyChar(key[i]);
    }
  }

  lemma ProducedKey(key: string)
    requires KeyShape(key)
    ensures var k := NormalizeKey(StrippedKey(key));
            && '_' !in k && |k| <= |key| && (key[0] == '#' ==> |k| < |key|)
  {
    StrippedKeyChars(key);
    var y, k := StrippedKey(key), NormalizeKey(StrippedKey(key));
    TrimSpaceTrims(y);
    NormalizedChars(y);
    hide NormalizeKey, StrippedKey, TrimSpace;
    forall i | 0 <= i < |k|
      ensures k[i] != '_'
    {
      assert TrimSpace(y)[i] in TrimSpace(y) && TrimSpace(y)[i] in y;
    }
  }

  // ---------------------------------------------------------------------------
  // The round trip
  // ---------------------------------------------------------------------------

  ghost predicate AllShaped(props: Record) {
    forall k :: k in props ==> KeyShape(k) && ValueShape(props[k])
  }

  lemma LineTaken(line: string, rest: string)
    requires '\n' !in line
    ensures Lines(line + "\n" + rest) == [DropReturn(line)] + Lines(rest)
  {
    var text, i := line + "\n" + rest, |line|;
    assert text == line + ("\n" + rest);
    FirstAt(line, '\n', "\n" + rest);
    assert text[..i] == line && text[i + 1..] == rest;
  }

  /** The lines of some rendered facts and of what follows them. */
  function LinesOf(props: Record, ks: seq<string>, tail: string): seq<string>
    requires forall k :: k in ks ==> k in props
  {
    if ks == [] then Lines(tail) else [FactLine(ks[0], props[ks[0]])] + LinesOf(props, ks[1..], tail)
  }

  lemma {:induction false} RenderedLines(props: Record, ks: seq<string>, tail: string)
    requires AllShaped(props) && forall k :: k in ks ==> k in props
    ensures Lines(FactLines(props, ks) + tail) == LinesOf(props, ks, tail)
    decreases |ks|
  {
    hide FactLine, DropReturn, KeyShape, ValueShape, Lines;
    if ks == [] {
      assert FactLines(props, ks) + tail == tail;
    } else {
      var line, rest := FactLine(ks[0], props[ks[0]]), FactLines(props, ks[1..]) + tail;
      assert FactLines(props, ks) + tail == line + "\n" + rest;
      RenderedLineHasNoLineEnd(ks[0], props[ks[0]]);
      RenderedLineTrimmed(ks[0], props[ks[0]]);
      LineTaken(line, rest);
      RenderedLines(props, ks[1..], tail);
    }
  }

  lemma RenderedLineHasNoLineEnd(key: string, value: string)
    requires KeyShape(key) && ValueShape(value)
    ensures '\n' !in FactLine(key, value)
  {
    KeyAndValueChars(key, value);
  }

  /** The text ends after the facts, or with one empty line. */
  predicate IsTail(tail: string) { tail == "" || tail == "\n" }

  lemma {:induction false} GoodFactsEntered(props: Record, ks: seq<string>, rec: Record, tail: string)
    requires (forall k :: k in ks ==> k in props) && IsTail(tail)
    requires forall k :: k in props ==> GoodKey(k) && ValueShape(props[k])
    ensures var all := EnterAll(rec, LinesOf(props, ks, tail));
            && (forall k :: k in all <==> k in rec || k in ks)
            && forall k :: k in all ==> if k in ks then all[k] == props[k] else all[k] == rec[k]
    decreases |ks|
  {
    hide FactOf, GoodKey, ValueShape, FactLine, Lines;
    var lines := LinesOf(props, ks, tail);
    if ks == [] {
      TailHasNoFacts(rec, tail);
    } else {
      GoodFact(ks[0], props[ks[0]]);
      assert lines[1..] == LinesOf(props, ks[1..], tail);
      GoodFactsEntered(props, ks[1..], rec[ks[0] := props[ks[0]]], tail);
      assert ks == [ks[0]] + ks[1..];
    }
  }

  lemma TailHasNoFacts(rec: Record, tail: string)
    requires IsTail(tail)
    ensures EnterAll(rec, Lines(tail)) == rec
    ensures forall line :: line in Lines(tail) ==> line == ""
  {
    BlankLineHasNoFact();
    if tail == "\n" {
      assert tail[..0] == "" && tail[1..] == "";
      assert Lines(tail) == [""] + [];
    }
  }

  lemma BlankLineHasNoFact()
    ensures FactOf("") == None
  {
    assert StripMarkdownNoise("") == "";
  }

  lemma GoodFact(key: string, value: string)
    requires GoodKey(key) && ValueShape(value)
    ensures FactOf(FactLine(key, value)) == Some((key, value))
  {
    RenderedFact(key, value);
    GoodKeyIsFixed(key);
  }

  lemma GoodFactsParse(props: Record, tail: string)
    requires IsTail(tail) && forall k :: k in props ==> GoodKey(k) && ValueShape(props[k])
    ensures Parsed(FactLines(props, SortedKeys(props.Keys)) + tail) == props
  {
    hide FactLine, KeyShape, ValueShape, IsSortedKeys, EnterAll, Lines;
    var ks := SortedKeys(props.Keys);
    RenderedLines(props, ks, tail);
    GoodFactsEntered(props, ks, map[], tail);
  }

  lemma {:induction false} LineIsRendered(props: Record, ks: seq<string>, line: string) returns (key: string)
    requires (forall k :: k in ks ==> k in props) && line in LinesOf(props, ks, "\n") && line != ""
    ensures key in props && line == FactLine(key, props[key])
    decreases |ks|
  {
    hide FactLine, Lines;
    if ks == [] {
      TailHasNoFacts(map[], "\n");
    } else if line == FactLine(ks[0], props[ks[0]]) {
      key := ks[0];
    } else {
      key := LineIsRendered(props, ks[1..], line);
    }
  }

  lemma FactComesFromKey(props: Record, key: string) returns (origin: string)
    requires AllShaped(props) && key in Parsed(Rendered(props))
    ensures origin in props && key == NormalizeKey(StrippedKey(origin))
  {
    hide FactOf, FactLine, NormalizeKey, StrippedKey;
    var ks := SortedKeys(props.Keys);
    RenderedLines(props, ks, "\n");
    EnteredFacts(map[], LinesOf(props, ks, "\n"), key);
    var line :| line in LinesOf(props, ks, "\n") && FactOf(line) == Some((key, Parsed(Rendered(props))[key]));
    BlankLineHasNoFact();
    origin := LineIsRendered(props, ks, line);
    RenderedFact(origin, props[origin]);
  }

  lemma Longest(keys: set<string>) returns (longest: string)
    requires keys != {}
    ensures longest in keys && forall k :: k in keys ==> |k| <= |longest|
    decreases |keys|
  {
    var k :| k in keys;
    if keys == {k} {
      longest := k;
    } else {
      var other := Longest(keys - {k});
      longest := if |k| <= |other| then other else k;
      assert keys == (keys - {k}) + {k};
    }
  }

  /** A record that came back cannot hold a key the parser would have changed. */
  lemma RoundTripNeedsGoodKeys(props: Record)
    requires Parsed(Rendered(props)) == props
    ensures forall k :: k in props ==> GoodKey(k) && ValueShape(props[k])
  {
    ParsedShape(Rendered(props));
    hide Parsed, Rendered, NormalizeKey, StrippedKey, ValueShape, KeyChar, Trimmed;
    forall k | k in props
      ensures '_' !in k
    {
      var origin := FactComesFromKey(props, k);
      ProducedKey(origin);
    }
    var hashed := set k | k in props && StartsWithHash(k);
    if hashed != {} {
      var k := Longest(hashed);
      var origin := FactComesFromKey(props, k);
      assert StartsWithHash(origin) ==> origin in hashed;
      ProducedKey(origin);
      if !StartsWithHash(origin) { GoodKeyIsFixed(origin); }
    }
    forall k | k in props
      ensures GoodKey(k) && ValueShape(props[k])
    {
      assert k !in hashed;
    }
  }

  predicate StartsWithHash(k: string) { k != "" && k[0] == '#' }

  /** A record survives rendering and parsing exactly when its keys and values need no clean-up. */
  lemma RoundTripIff(props: Record)
    ensures Parsed(Rendered(props)) == props <==>
            forall k :: k in props ==> GoodKey(k) && ValueShape(props[k])
  {
    if Parsed(Rendered(props)) == props {
      RoundTripNeedsGoodKeys(props);
    }
    if forall k :: k in props ==> GoodKey(k) && ValueShape(props[k]) {
      GoodFactsParse(props, "\n");
    }
  }
}
