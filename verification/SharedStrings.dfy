/**
  The shared-string table of internal/parser/xlsx.go:87-131 (ECMA-376 Part 1,
  section 18.4.8), read by the same kind of token machine as a sheet.
  */
module SharedStrings {
  import opened Strings
  import opened Xlsx

  /** The local variables of readSharedStrings. */
  datatype TableState = TableState(strs: seq<string>, cur: string, inSI: bool, inText: bool)

  const Initial := TableState([], "", false, false)

  function Feed(s: TableState, e: Event): TableState {
    match e
    case Start(name, _) =>
      if name == "si" then s.(inSI := true, cur := "") else if name == "t" then s.(inText := true) else s
    case End(name) =>
      if name == "si" then s.(inSI := false, strs := s.strs + [s.cur])
      else if name == "t" then s.(inText := false) else s
    case Chars(text) => if s.inSI && s.inText then s.(cur := s.cur + text) else s
  }

  function FeedAll(s: TableState, events: seq<Event>): TableState
    decreases |events|
  {
    if events == [] then s else FeedAll(Feed(s, events[0]), events[1..])
  }

  lemma {:induction false} FeedAllConcat(s: TableState, xs: seq<Event>, ys: seq<Event>)
    ensures FeedAll(s, xs + ys) == FeedAll(FeedAll(s, xs), ys)
    decreases |xs|
  {
    if xs == [] {
      assert xs + ys == ys;
    } else {
      assert (xs + ys)[1..] == xs[1..] + ys;
      FeedAllConcat(Feed(s, xs[0]), xs[1..], ys);
    }
  }

  method ReadSharedStrings(events: seq<Event>) returns (strs: seq<string>)
    ensures strs == FeedAll(Initial, events).strs
  {
    strs := [];
    var cur, inSI, inText := "", false, false;
    for n := 0 to |events|
      invariant FeedAll(Initial, events) == FeedAll(TableState(strs, cur, inSI, inText), events[n..])
    {
      assert events[n..][1..] == events[n + 1..];
      match events[n] {
        case Start(name, _) =>
          if name == "si" {
            inSI, cur := true, "";
          } else if name == "t" {
            inText := true;
          }
        case End(name) =>
          if name == "si" {
            inSI, strs := false, strs + [cur];
          } else if name == "t" {
            inText := false;
          }
        case Chars(text) =>
          if inSI && inText {
            cur := cur + text;
          }
      }
    }
  }

  // ---------------------------------------------------------------------------
  // Tables as data: items holding runs of text, and anything else in between
  // ---------------------------------------------------------------------------

  type Noise = e: Event | e.Chars? || (e.name != "si" && e.name != "t") witness Chars("")

  datatype ItemPart = Text(attrs: Attrs, inner: seq<Noise>) | ItemNoise(e: Noise)
  datatype TablePart = Item(attrs: Attrs, parts: seq<ItemPart>) | TableNoise(e: Noise)

  function ItemPartsEvents(parts: seq<ItemPart>): seq<Event> {
    if parts == [] then [] else
      (match parts[0]
       case Text(attrs, inner) => [Start("t", attrs)] + inner + [End("t")]
       case ItemNoise(e) => [e])
      + ItemPartsEvents(parts[1..])
  }

  function TableEvents(table: seq<TablePart>): seq<Event> {
    if table == [] then [] else
      (match table[0]
       case Item(attrs, parts) => [Start("si", attrs)] + ItemPartsEvents(parts) + [End("si")]
       case TableNoise(e) => [e])
      + TableEvents(table[1..])
  }

  function CharsOf(inner: seq<Noise>): string {
    if inner == [] then "" else (if inner[0].Chars? then inner[0].text else "") + CharsOf(inner[1..])
  }

  /** The text of an item: all its t elements, run after run, phonetic ones included. */
  function ItemText(parts: seq<ItemPart>): string {
    if parts == [] then "" else
      (if parts[0].Text? then CharsOf(parts[0].inner) else "") + ItemText(parts[1..])
  }

  function TableTexts(table: seq<TablePart>): seq<string> {
    if table == [] then [] else
      (if table[0].Item? then [ItemText(table[0].parts)] else []) + TableTexts(table[1..])
  }

  lemma {:induction false} TextFed(s: TableState, inner: seq<Noise>)
    requires s.inSI && s.inText
    ensures FeedAll(s, inner) == s.(cur := s.cur + CharsOf(inner))
    decreases |inner|
  {
    if inner == [] {
      assert s.cur + CharsOf(inner) == s.cur;
    } else {
      var head := if inner[0].Chars? then inner[0].text else "";
      var s' := s.(cur := s.cur + head);
      assert Feed(s, inner[0]) == s' by { assert s.cur + "" == s.cur; }
      TextFed(s', inner[1..]);
      assert s.cur + (head + CharsOf(inner[1..])) == (s.cur + head) + CharsOf(inner[1..]);
    }
  }

  lemma {:induction false} ItemPartsFed(s: TableState, parts: seq<ItemPart>)
    requires s.inSI && !s.inText
    ensures FeedAll(s, ItemPartsEvents(parts)) == s.(cur := s.cur + ItemText(parts))
    decreases |parts|
  {
    if parts == [] {
      assert s.cur + ItemText(parts) == s.cur;
    } else {
      var rest := ItemPartsEvents(parts[1..]);
      match parts[0] {
        case ItemNoise(e) =>
          FeedAllConcat(s, [e], rest);
          assert FeedAll(s, [e]) == s;
          ItemPartsFed(s, parts[1..]);
          assert ItemText(parts) == ItemText(parts[1..]);
        case Text(attrs, inner) =>
          var start: seq<Event>, end: seq<Event> := [Start("t", attrs)], [End("t")];
          FeedAllConcat(s, start + inner + end, rest);
          FeedAllConcat(s, start + inner, end);
          FeedAllConcat(s, start, inner);
          assert FeedAll(s, start) == s.(inText := true);
          TextFed(s.(inText := true), inner);
          var s' := s.(cur := s.cur + CharsOf(inner));
          assert FeedAll(s'.(inText := true), end) == s';
          ItemPartsFed(s', parts[1..]);
          assert s.cur + (CharsOf(inner) + ItemText(parts[1..])) == (s.cur + CharsOf(inner)) + ItemText(parts[1..]);
      }
    }
  }

  lemma {:induction false} TableFed(s: TableState, table: seq<TablePart>)
    requires !s.inSI && !s.inText
    ensures FeedAll(s, TableEvents(table)).strs == s.strs + TableTexts(table)
    decreases |table|
  {
    if table != [] {
      var rest := TableEvents(table[1..]);
      match table[0] {
        case TableNoise(e) =>
          FeedAllConcat(s, [e], rest);
          assert FeedAll(s, [e]) == s;
          TableFed(s, table[1..]);
          assert TableTexts(table) == TableTexts(table[1..]);
        case Item(attrs, parts) =>
          var start: seq<Event>, end: seq<Event> := [Start("si", attrs)], [End("si")];
          FeedAllConcat(s, start + ItemPartsEvents(parts) + end, rest);
          FeedAllConcat(s, start + ItemPartsEvents(parts), end);
          FeedAllConcat(s, start, ItemPartsEvents(parts));
          var open := s.(inSI := true, cur := "");
          assert FeedAll(s, start) == open;
          ItemPartsFed(open, parts);
          assert open.cur + ItemText(parts) == ItemText(parts);
          var s' := s.(cur := ItemText(parts), strs := s.strs + [ItemText(parts)]);
          assert FeedAll(open.(cur := ItemText(parts)), end) == s';
          TableFed(s', table[1..]);
          assert (s.strs + [ItemText(parts)]) + TableTexts(table[1..]) == s.strs + TableTexts(table);
      }
    }
  }

  /** Item k of the table is the text of the k-th si element. */
  lemma TablesAreRead(table: seq<TablePart>)
    ensures FeedAll(Initial, TableEvents(table)).strs == TableTexts(table)
  {
    TableFed(Initial, table);
  }
}
