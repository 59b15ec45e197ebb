/**
  The sheet reader of internal/parser/xlsx.go: a machine fed with XML tokens.
  Its meaning on documents (ECMA-376 Part 1, sections 18.3.1.4, 18.3.1.73 and
  18.18.11) is given apart, on well-nested sheets as data.
  */
module Xlsx {
  import opened Strings
  import C = ColumnNames

  type Attrs = seq<(string, string)>

  datatype Event = Start(name: string, attrs: Attrs) | End(name: string) | Chars(text: string)

  /** The first attribute of that local name, or "". */
  function AttrVal(attrs: Attrs, local: string): string {
    if attrs == [] then "" else if attrs[0].0 == local then attrs[0].1 else AttrVal(attrs[1..], local)
  }

  /** Of two attributes with the same local name the first one counts. */
  lemma {:induction false} FirstAttributeCounts(attrs: Attrs, local: string, k: nat)
    requires k < |attrs| && attrs[k].0 == local && forall j :: 0 <= j < k ==> attrs[j].0 != local
    ensures AttrVal(attrs, local) == attrs[k].1
    decreases k
  {
    if k > 0 {
      assert forall j :: 0 <= j < k - 1 ==> attrs[1..][j] == attrs[j + 1];
      FirstAttributeCounts(attrs[1..], local, k - 1);
    }
  }

  function Resolve(cellType: string, text: string, shared: seq<string>): string {
    if cellType != "s" then text else
      match Atoi(text)
      case Some(i) => if 0 <= i < |shared| then shared[i] else text
      case None => text
  }

  // ---------------------------------------------------------------------------
  // The machine
  // ---------------------------------------------------------------------------

  type Cells = map<int, string>

  /** The local variables of readXLSXRows; row is None while the Go map is nil. */
  datatype State = State(rows: seq<seq<string>>, row: Option<Cells>, rowMax: int, col: int, nextCol: int,
                         cellType: string, buf: string, inValue: bool)

  const Initial := State([], None, -1, -1, 0, "", "", false)

  /** The longest []string Go will make on 64-bit Linux: 2^48 bytes of 16 each. */
  const MAX_LEN := 0x1000_0000_0000

  function At(row: Option<Cells>, i: int): string {
    if row.Some? && i in row.value then row.value[i] else ""
  }

  function Line(row: Option<Cells>, rowMax: int): seq<string> {
    if rowMax < 0 then [] else seq(rowMax + 1, i => At(row, i))
  }

  /**
    One token; None when Go panics: on an assignment to a nil map, or on making a
    slice that is too long or, where rowMax+1 wraps at 2^63, of negative length.
    */
  function Feed(s: State, e: Event, shared: seq<string>): Option<State> {
    match e
    case Start(name, attrs) =>
      if name == "row" then Some(s.(row := Some(map[]), rowMax := -1, nextCol := 0))
      else if name == "c" then
        var idx := C.ColIndexOf(AttrVal(attrs, "r"));
        var col := if idx >= 0 then idx else s.nextCol;
        Some(s.(cellType := AttrVal(attrs, "t"), col := col, nextCol := C.Int64(col + 1)))
      else if name == "v" || name == "t" then Some(s.(inValue := true, buf := ""))
      else Some(s)
    case End(name) =>
      if name == "v" || name == "t" then
        if s.col < 0 then Some(s.(inValue := false))
        else if s.row.None? then None
        else Some(s.(inValue := false,
                     row := Some(s.row.value[s.col := Resolve(s.cellType, s.buf, shared)]),
                     rowMax := if s.col > s.rowMax then s.col else s.rowMax))
      else if name == "row" then
        if s.rowMax + 1 > MAX_LEN then None else Some(s.(rows := s.rows + [Line(s.row, s.rowMax)]))
      else Some(s)
    case Chars(text) => Some(if s.inValue then s.(buf := s.buf + text) else s)
  }

  function FeedAll(s: State, events: seq<Event>, shared: seq<string>): Option<State>
    decreases |events|
  {
    if events == [] then Some(s) else
      match Feed(s, events[0], shared)
      case None => None
      case Some(s') => FeedAll(s', events[1..], shared)
  }

  lemma {:induction false} FeedAllConcat(s: State, xs: seq<Event>, ys: seq<Event>, shared: seq<string>)
    ensures FeedAll(s, xs + ys, shared) ==
            match FeedAll(s, xs, shared) case None => None case Some(s') => FeedAll(s', ys, shared)
    decreases |xs|
  {
    if xs == [] {
      assert xs + ys == ys;
    } else {
      assert (xs + ys)[1..] == xs[1..] + ys;
      match Feed(s, xs[0], shared)
      case None =>
      case Some(s') => FeedAllConcat(s', xs[1..], ys, shared);
    }
  }

  /** readXLSXRows, loop and local variables as in the source. */
  method ReadRows(events: seq<Event>, shared: seq<string>) returns (result: Option<seq<seq<string>>>)
    ensures match FeedAll(Initial, events, shared)
            case None => result == None
            case Some(s) => result == Some(s.rows)
  {
    var rows: seq<seq<string>> := [];
    var row: Option<Cells> := None;
    var rowMax, col, nextCol := -1, -1, 0;
    var cellType, buf, inValue := "", "", false;
    for n := 0 to |events|
      invariant FeedAll(Initial, events, shared) ==
                FeedAll(State(rows, row, rowMax, col, nextCol, cellType, buf, inValue), events[n..], shared)
    {
      assert events[n..][1..] == events[n + 1..];
      match events[n] {
        case Start(name, attrs) =>
          if name == "row" {
            row, rowMax, nextCol := Some(map[]), -1, 0;
          } else if name == "c" {
            cellType := AttrVal(attrs, "t");
            var idx := C.ColIndex(AttrVal(attrs, "r"));
            if idx >= 0 {
              col := idx;
            } else {
              col := nextCol;
            }
            nextCol := C.Int64(col + 1);
          } else if name == "v" || name == "t" {
            inValue, buf := true, "";
          }
        case End(name) =>
          if name == "v" || name == "t" {
            inValue := false;
            if col >= 0 {
              var val := Resolve(cellType, buf, shared);
              if row.None? {
                return None;
              }
              row := Some(row.value[col := val]);
              if col > rowMax {
                rowMax := col;
              }
            }
          } else if name == "row" {
            if rowMax + 1 > MAX_LEN {
              return None;
            }
            var line: seq<string> := [];
            var i := 0;
            while i <= rowMax
              invariant |line| == i && (i <= rowMax + 1 || i == 0)
              invariant forall k :: 0 <= k < i ==> line[k] == At(row, k)
            {
              line := line + [At(row, i)];
              i := i + 1;
            }
            assert line == Line(row, rowMax);
            rows := rows + [line];
          }
        case Chars(text) =>
          if inValue {
            buf := buf + text;
          }
      }
    }
    result := Some(rows);
  }

  // ---------------------------------------------------------------------------
  // Well-nested sheets: c in row, v or t in c, and anything else anywhere
  // ---------------------------------------------------------------------------

  predicate Structural(name: string) { name == "row" || name == "c" || name == "v" || name == "t" }

  /** A token the reader has no case for: another element's tag, or character data. */
  type Noise = e: Event | e.Chars? || !Structural(e.name) witness Chars("")

  /** The element v (or, inline, t) and all tokens inside it. */
  datatype ValueElement = ValueElement(isT: bool, attrs: Attrs, inner: seq<Noise>) {
    function Name(): string { if isT then "t" else "v" }
  }

  datatype CellPart = CellValue(v: ValueElement) | CellNoise(e: Noise)
  datatype Cell = Cell(attrs: Attrs, parts: seq<CellPart>)
  datatype RowPart = RowCell(c: Cell) | RowNoise(e: Noise)
  datatype Row = Row(attrs: Attrs, parts: seq<RowPart>)
  datatype SheetPart = SheetRow(r: Row) | SheetNoise(e: Noise)
  type Sheet = seq<SheetPart>

  function ValueEvents(v: ValueElement): seq<Event> {
    [Start(v.Name(), v.attrs)] + v.inner + [End(v.Name())]
  }

  function CellPartsEvents(parts: seq<CellPart>): seq<Event> {
    if parts == [] then [] else
      (match parts[0] case CellValue(v) => ValueEvents(v) case CellNoise(e) => [e]) + CellPartsEvents(parts[1..])
  }

  function CellEvents(c: Cell): seq<Event> {
    [Start("c", c.attrs)] + CellPartsEvents(c.parts) + [End("c")]
  }

  function RowPartsEvents(parts: seq<RowPart>): seq<Event> {
    if parts == [] then [] else
      (match parts[0] case RowCell(c) => CellEvents(c) case RowNoise(e) => [e]) + RowPartsEvents(parts[1..])
  }

  function RowEvents(r: Row): seq<Event> {
    [Start("row", r.attrs)] + RowPartsEvents(r.parts) + [End("row")]
  }

  function PartEvents(part: SheetPart): seq<Event> {
    match part
    case SheetRow(r) => RowEvents(r)
    case SheetNoise(e) => [e]
  }

  function SheetEvents(sheet: Sheet): seq<Event> {
    if sheet == [] then [] else PartEvents(sheet[0]) + SheetEvents(sheet[1..])
  }

  // ---------------------------------------------------------------------------
  // What a sheet means
  // ---------------------------------------------------------------------------

  datatype Entry = Entry(column: int, text: string)

  function TextOf(inner: seq<Noise>): string {
    if inner == [] then "" else (if inner[0].Chars? then inner[0].text else "") + TextOf(inner[1..])
  }

  function CellEntries(column: int, cellType: string, parts: seq<CellPart>, shared: seq<string>): seq<Entry> {
    if parts == [] then [] else
      (if parts[0].CellValue? then [Entry(column, Resolve(cellType, TextOf(parts[0].v.inner), shared))] else [])
      + CellEntries(column, cellType, parts[1..], shared)
  }

  function CellColumn(c: Cell, next: int): int {
    var idx := C.ColIndexOf(AttrVal(c.attrs, "r"));
    if idx >= 0 then idx else next
  }

  /** The values of a row in document order, each with the column it resolves to. */
  function RowEntries(parts: seq<RowPart>, next: int, shared: seq<string>): seq<Entry> {
    if parts == [] then [] else
      match parts[0]
      case RowNoise(_) => RowEntries(parts[1..], next, shared)
      case RowCell(c) =>
        var column := CellColumn(c, next);
        CellEntries(column, AttrVal(c.attrs, "t"), c.parts, shared)
        + RowEntries(parts[1..], C.Int64(column + 1), shared)
  }

  /** One more than the largest column in use. */
  function Width(entries: seq<Entry>): nat {
    if entries == [] then 0 else
      var last := entries[|entries| - 1].column;
      var w := Width(entries[..|entries| - 1]);
      if last < w then w else last + 1
  }

  /** The last value resolved to a column, "" if there is none. */
  function LastValue(entries: seq<Entry>, column: int): string {
    if entries == [] then "" else
      var e := entries[|entries| - 1];
      if e.column == column then e.text else LastValue(entries[..|entries| - 1], column)
  }

  function LineOf(entries: seq<Entry>): seq<string> {
    seq(Width(entries), i => LastValue(entries, i))
  }

  function Rows(part: SheetPart, shared: seq<string>): seq<seq<string>> {
    match part
    case SheetRow(r) => [LineOf(RowEntries(r.parts, 0, shared))]
    case SheetNoise(_) => []
  }

  function RowsOf(sheet: Sheet, shared: seq<string>): seq<seq<string>> {
    if sheet == [] then [] else Rows(sheet[0], shared) + RowsOf(sheet[1..], shared)
  }

  /** Width is what it says: no column in use lies beyond it, and the one just below it is in use. */
  lemma {:induction false} WidthIsLargestColumn(entries: seq<Entry>)
    ensures forall e :: e in entries ==> e.column < Width(entries)
    ensures Width(entries) > 0 ==> exists e :: e in entries && e.column == Width(entries) - 1
    decreases |entries|
  {
    if entries != [] {
      var front, last := entries[..|entries| - 1], entries[|entries| - 1];
      WidthIsLargestColumn(front);
      assert entries == front + [last];
      if 0 <= last.column && Width(front) <= last.column {
        assert last in entries;
      } else if Width(front) > 0 {
        var e :| e in front && e.column == Width(front) - 1;
        assert e in entries;
      }
    }
  }

  // ---------------------------------------------------------------------------
  // The machine computes that meaning
  // ---------------------------------------------------------------------------

  /** The row under construction holds exactly these entries. */
  ghost predicate Holds(s: State, entries: seq<Entry>) {
    && s.row.Some? && !s.inValue && s.rowMax == Width(entries) - 1
    && forall i :: 0 <= i ==> At(s.row, i) == LastValue(entries, i)
  }

  lemma NothingFed(s: State, shared: seq<string>)
    ensures FeedAll(s, [], shared) == Some(s)
  {
  }

  lemma NoiseFed(s: State, e: Noise, shared: seq<string>)
    requires !s.inValue
    ensures FeedAll(s, [e], shared) == Some(s)
  {
    OneFed(s, e, shared);
  }

  lemma EntryAppended(before: seq<Entry>, e: Entry)
    ensures Width(before + [e]) == if Width(before) <= e.column then e.column + 1 else Width(before)
    ensures forall i :: LastValue(before + [e], i) == if i == e.column then e.text else LastValue(before, i)
  {
    assert (before + [e])[..|before|] == before;
  }

  lemma {:induction false} InnerFed(s: State, inner: seq<Noise>, shared: seq<string>)
    requires s.inValue
    ensures FeedAll(s, inner, shared) == Some(s.(buf := s.buf + TextOf(inner)))
    decreases |inner|
  {
    if inner == [] {
      assert s.buf + TextOf(inner) == s.buf;
    } else {
      var head := if inner[0].Chars? then inner[0].text else "";
      var s' := s.(buf := s.buf + head);
      assert Feed(s, inner[0], shared) == Some(s') by {
        assert s.buf + "" == s.buf;
      }
      InnerFed(s', inner[1..], shared);
      assert s.buf + (head + TextOf(inner[1..])) == (s.buf + head) + TextOf(inner[1..]);
    }
  }

  /** The end tag of a value stores it in the row. */
  lemma ValueStored(s: State, entries: seq<Entry>, text: string, name: string, shared: seq<string>) returns (s': State)
    requires Holds(s, entries) && (name == "v" || name == "t")
    ensures FeedAll(s.(inValue := true, buf := text), [End(name)], shared) == Some(s')
    ensures Holds(s', entries + [Entry(s.col, Resolve(s.cellType, text, shared))])
    ensures s'.rows == s.rows && s'.nextCol == s.nextCol && s'.col == s.col && s'.cellType == s.cellType
  {
    hide Resolve, FeedAll, Width, LastValue;
    var full := s.(inValue := true, buf := text);
    s' := Feed(full, End(name), shared).value;
    OneFed(full, End(name), shared);
    EntryAppended(entries, Entry(s.col, Resolve(s.cellType, text, shared)));
  }

  lemma OneFed(s: State, e: Event, shared: seq<string>)
    ensures FeedAll(s, [e], shared) == Feed(s, e, shared)
  {
    assert [e][1..] == [];
  }

  lemma ValueFed(s: State, entries: seq<Entry>, v: ValueElement, shared: seq<string>) returns (s': State)
    requires Holds(s, entries)
    ensures FeedAll(s, ValueEvents(v), shared) == Some(s')
    ensures Holds(s', entries + [Entry(s.col, Resolve(s.cellType, TextOf(v.inner), shared))])
    ensures s'.rows == s.rows && s'.nextCol == s.nextCol && s'.col == s.col && s'.cellType == s.cellType
  {
    var open := s.(inValue := true, buf := "");
    var start: seq<Event>, end: seq<Event> := [Start(v.Name(), v.attrs)], [End(v.Name())];
    OneFed(s, start[0], shared);
    hide FeedAll, Resolve, Holds, TextOf;
    assert FeedAll(s, start, shared) == Some(open);
    FeedAllConcat(s, start + v.inner, end, shared);
    FeedAllConcat(s, start, v.inner, shared);
    InnerFed(open, v.inner, shared);
    assert open.buf + TextOf(v.inner) == TextOf(v.inner);
    s' := ValueStored(s, entries, TextOf(v.inner), v.Name(), shared);
  }

  lemma {:induction false} CellPartsFed(s: State, entries: seq<Entry>, parts: seq<CellPart>, shared: seq<string>)
    returns (s': State)
    requires Holds(s, entries)
    ensures FeedAll(s, CellPartsEvents(parts), shared) == Some(s')
    ensures Holds(s', entries + CellEntries(s.col, s.cellType, parts, shared))
    ensures s'.rows == s.rows && s'.nextCol == s.nextCol
    decreases |parts|
  {
    hide Feed, FeedAll, ValueEvents, CellEvents, RowEvents;
    if parts == [] {
      s' := s;
      NothingFed(s, shared);
      assert entries + [] == entries;
    } else {
      match parts[0] {
        case CellNoise(e) =>
          FeedAllConcat(s, [e], CellPartsEvents(parts[1..]), shared);
          NoiseFed(s, e, shared);
          s' := CellPartsFed(s, entries, parts[1..], shared);
          assert CellEntries(s.col, s.cellType, parts, shared) == CellEntries(s.col, s.cellType, parts[1..], shared);
        case CellValue(v) =>
          FeedAllConcat(s, ValueEvents(v), CellPartsEvents(parts[1..]), shared);
          var mid := ValueFed(s, entries, v, shared);
          var entry := Entry(s.col, Resolve(s.cellType, TextOf(v.inner), shared));
          s' := CellPartsFed(mid, entries + [entry], parts[1..], shared);
          assert (entries + [entry]) + CellEntries(s.col, s.cellType, parts[1..], shared)
                 == entries + CellEntries(s.col, s.cellType, parts, shared);
      }
    }
  }

  lemma CellFed(s: State, entries: seq<Entry>, c: Cell, shared: seq<string>) returns (s': State)
    requires Holds(s, entries)
    ensures FeedAll(s, CellEvents(c), shared) == Some(s')
    ensures var column := CellColumn(c, s.nextCol);
            && Holds(s', entries + CellEntries(column, AttrVal(c.attrs, "t"), c.parts, shared))
            && s'.nextCol == C.Int64(column + 1) && s'.rows == s.rows
  {
    var start: seq<Event>, end: seq<Event> := [Start("c", c.attrs)], [End("c")];
    var open := Feed(s, start[0], shared).value;
    FeedAllConcat(s, start + CellPartsEvents(c.parts), end, shared);
    FeedAllConcat(s, start, CellPartsEvents(c.parts), shared);
    OneFed(s, start[0], shared);
    s' := CellPartsFed(open, entries, c.parts, shared);
    OneFed(s', end[0], shared);
  }

  lemma {:induction false} RowPartsFed(s: State, entries: seq<Entry>, parts: seq<RowPart>, shared: seq<string>)
    returns (s': State)
    requires Holds(s, entries)
    ensures FeedAll(s, RowPartsEvents(parts), shared) == Some(s')
    ensures Holds(s', entries + RowEntries(parts, s.nextCol, shared)) && s'.rows == s.rows
    decreases |parts|
  {
    hide Feed, FeedAll, ValueEvents, CellEvents, RowEvents;
    if parts == [] {
      s' := s;
      NothingFed(s, shared);
      assert entries + [] == entries;
    } else {
      match parts[0] {
        case RowNoise(e) =>
          FeedAllConcat(s, [e], RowPartsEvents(parts[1..]), shared);
          NoiseFed(s, e, shared);
          s' := RowPartsFed(s, entries, parts[1..], shared);
        case RowCell(c) =>
          FeedAllConcat(s, CellEvents(c), RowPartsEvents(parts[1..]), shared);
          var mid := CellFed(s, entries, c, shared);
          var column := CellColumn(c, s.nextCol);
          var these := CellEntries(column, AttrVal(c.attrs, "t"), c.parts, shared);
          s' := RowPartsFed(mid, entries + these, parts[1..], shared);
          assert (entries + these) + RowEntries(parts[1..], C.Int64(column + 1), shared)
                 == entries + RowEntries(parts, s.nextCol, shared);
      }
    }
  }

  lemma RowFed(s: State, r: Row, shared: seq<string>) returns (s': State)
    requires !s.inValue
    ensures var entries := RowEntries(r.parts, 0, shared);
            if Width(entries) > MAX_LEN then FeedAll(s, RowEvents(r), shared) == None
            else FeedAll(s, RowEvents(r), shared) == Some(s') && !s'.inValue && s'.rows == s.rows + [LineOf(entries)]
  {
    var start: seq<Event>, end: seq<Event> := [Start("row", r.attrs)], [End("row")];
    var open := s.(row := Some(map[]), rowMax := -1, nextCol := 0);
    FeedAllConcat(s, start + RowPartsEvents(r.parts), end, shared);
    FeedAllConcat(s, start, RowPartsEvents(r.parts), shared);
    OneFed(s, start[0], shared);
    assert Holds(open, []);
    var full := RowPartsFed(open, [], r.parts, shared);
    var entries := RowEntries(r.parts, 0, shared);
    assert [] + entries == entries;
    assert Line(full.row, full.rowMax) == LineOf(entries);
    OneFed(full, end[0], shared);
    s' := if Width(entries) > MAX_LEN then s else Feed(full, end[0], shared).value;
  }

  /** No row uses a column that would make it longer than Go's slices get. */
  predicate PartFits(part: SheetPart, shared: seq<string>) {
    part.SheetRow? ==> Width(RowEntries(part.r.parts, 0, shared)) <= MAX_LEN
  }

  predicate Fits(sheet: Sheet, shared: seq<string>) {
    forall part :: part in sheet ==> PartFits(part, shared)
  }

  lemma PartFed(s: State, part: SheetPart, shared: seq<string>) returns (s': State)
    requires !s.inValue
    ensures if PartFits(part, shared)
            then
              && FeedAll(s, PartEvents(part), shared) == Some(s') && !s'.inValue
              && s'.rows == s.rows + Rows(part, shared)
            else FeedAll(s, PartEvents(part), shared) == None
  {
    hide FeedAll, RowEvents, RowEntries, LineOf, Width;
    match part {
      case SheetNoise(e) =>
        NoiseFed(s, e, shared);
        s' := s;
      case SheetRow(r) =>
        s' := RowFed(s, r, shared);
    }
  }

  lemma {:induction false} SheetFed(s: State, sheet: Sheet, shared: seq<string>) returns (s': State)
    requires !s.inValue
    ensures if Fits(sheet, shared)
            then FeedAll(s, SheetEvents(sheet), shared) == Some(s') && s'.rows == s.rows + RowsOf(sheet, shared)
            else FeedAll(s, SheetEvents(sheet), shared) == None
    decreases |sheet|
  {
    hide FeedAll, PartEvents, Rows, PartFits;
    if sheet == [] {
      s' := s;
      NothingFed(s, shared);
    } else {
      FeedAllConcat(s, PartEvents(sheet[0]), SheetEvents(sheet[1..]), shared);
      var mid := PartFed(s, sheet[0], shared);
      s' := s;
      assert Fits(sheet, shared) <==> PartFits(sheet[0], shared) && Fits(sheet[1..], shared) by {
        assert sheet == [sheet[0]] + sheet[1..];
      }
      if PartFits(sheet[0], shared) {
        s' := SheetFed(mid, sheet[1..], shared);
        assert (s.rows + Rows(sheet[0], shared)) + RowsOf(sheet[1..], shared) == s.rows + RowsOf(sheet, shared);
      }
    }
  }

  /** A well-nested sheet is read without a panic exactly when its rows fit, and then as the rows it means. */
  lemma WellNestedSheetsAreRead(sheet: Sheet, shared: seq<string>)
    ensures FeedAll(Initial, SheetEvents(sheet), shared).Some? <==> Fits(sheet, shared)
    ensures Fits(sheet, shared) ==> FeedAll(Initial, SheetEvents(sheet), shared).value.rows == RowsOf(sheet, shared)
  {
    var s := SheetFed(Initial, sheet, shared);
  }

  // ---------------------------------------------------------------------------
  // When any stream at all, well-nested or not, makes the reader panic
  // ---------------------------------------------------------------------------

  /** The variables col and nextCol after these tokens; they follow from the tags alone. */
  function Cursor(events: seq<Event>): (int, int) {
    if events == [] then (-1, 0) else
      var (col, nextCol) := Cursor(events[..|events| - 1]);
      match events[|events| - 1]
      case Start(name, attrs) =>
        if name == "row" then (col, 0)
        else if name == "c" then
          var idx := C.ColIndexOf(AttrVal(attrs, "r"));
          var used := if idx >= 0 then idx else nextCol;
          (used, C.Int64(used + 1))
        else (col, nextCol)
      case _ => (col, nextCol)
  }

  /** Token k ends a value, and the column in force there is at least `column`. */
  predicate ValueBeyond(events: seq<Event>, k: int, column: int)
    requires 0 <= k < |events|
  {
    (events[k] == End("v") || events[k] == End("t")) && Cursor(events[..k]).0 >= column
  }

  predicate StartsRow(e: Event) { e.Start? && e.name == "row" }

  /** No row starts among the tokens from i to before j. */
  predicate NoRowStart(events: seq<Event>, i: int, j: int)
    requires 0 <= i <= j <= |events|
  {
    forall n :: i <= n < j ==> !StartsRow(events[n])
  }

  /** Since the last row start before token n, a value has been stored in a column too far right. */
  predicate TooWide(events: seq<Event>, n: int)
    requires 0 <= n <= |events|
  {
    exists k :: 0 <= k < n && ValueBeyond(events, k, MAX_LEN) && NoRowStart(events, k, n)
  }

  /** Token n is a value's end before the first row, or the end of a row that has become too wide. */
  predicate PanicsAt(events: seq<Event>, n: int)
    requires 0 <= n < |events|
  {
    (ValueBeyond(events, n, 0) && NoRowStart(events, 0, n)) || (events[n] == End("row") && TooWide(events, n))
  }

  /** What of the state after n tokens decides whether the next one panics. */
  ghost predicate Tracks(events: seq<Event>, n: int, s: State)
    requires 0 <= n <= |events|
  {
    && (s.col, s.nextCol) == Cursor(events[..n])
    && (s.row.None? <==> NoRowStart(events, 0, n))
    && (s.rowMax + 1 > MAX_LEN <==> TooWide(events, n))
  }

  lemma WideOneOn(events: seq<Event>, n: int)
    requires 0 <= n < |events|
    ensures TooWide(events, n + 1) <==>
            !StartsRow(events[n]) && (TooWide(events, n) || ValueBeyond(events, n, MAX_LEN))
    ensures NoRowStart(events, 0, n + 1) <==> NoRowStart(events, 0, n) && !StartsRow(events[n])
  {
    hide ValueBeyond, StartsRow;
    if !StartsRow(events[n]) && (TooWide(events, n) || ValueBeyond(events, n, MAX_LEN)) {
      var k := n;
      if TooWide(events, n) {
        k :| 0 <= k < n && ValueBeyond(events, k, MAX_LEN) && NoRowStart(events, k, n);
      }
      assert ValueBeyond(events, k, MAX_LEN) && NoRowStart(events, k, n + 1);
    }
    if TooWide(events, n + 1) {
      var k :| 0 <= k < n + 1 && ValueBeyond(events, k, MAX_LEN) && NoRowStart(events, k, n + 1);
      assert NoRowStart(events, k, n);
    }
  }

  lemma OneMoreTracked(events: seq<Event>, n: int, s: State, shared: seq<string>)
    requires 0 <= n < |events| && Tracks(events, n, s)
    ensures Feed(s, events[n], shared).None? <==> PanicsAt(events, n)
    ensures Feed(s, events[n], shared).Some? ==> Tracks(events, n + 1, Feed(s, events[n], shared).value)
  {
    WideOneOn(events, n);
    hide TooWide, NoRowStart, Resolve, Line, AttrVal, C.ColIndexOf, C.Int64;
    assert events[..n + 1][..n] == events[..n];
    assert events[..n + 1][n] == events[n];
  }

  lemma {:induction false} TrackedSoFar(events: seq<Event>, n: int, shared: seq<string>)
    requires 0 <= n <= |events|
    ensures FeedAll(Initial, events[..n], shared).None? <==> exists k :: 0 <= k < n && PanicsAt(events, k)
    ensures FeedAll(Initial, events[..n], shared).Some? ==>
              Tracks(events, n, FeedAll(Initial, events[..n], shared).value)
    decreases n
  {
    if n == 0 {
      assert NoRowStart(events, 0, 0) && Cursor(events[..0]) == (-1, 0);
    } else {
      hide PanicsAt, Tracks, Feed;
      TrackedSoFar(events, n - 1, shared);
      assert events[..n] == events[..n - 1] + [events[n - 1]];
      FeedAllConcat(Initial, events[..n - 1], [events[n - 1]], shared);
      match FeedAll(Initial, events[..n - 1], shared) {
        case None =>
        case Some(s) =>
          OneFed(s, events[n - 1], shared);
          OneMoreTracked(events, n - 1, s, shared);
      }
    }
  }

  /** The reader panics on a stream exactly if one of its tokens is of these two kinds. */
  lemma PanicsIff(events: seq<Event>, shared: seq<string>)
    ensures FeedAll(Initial, events, shared).None? <==> exists n :: 0 <= n < |events| && PanicsAt(events, n)
  {
    hide PanicsAt, Tracks, FeedAll;
    TrackedSoFar(events, |events|, shared);
    assert events[..|events|] == events;
  }

  lemma NoReference()
    ensures C.ColIndexOf("") == -1
  {
    assert C.Letters("") == "";
  }

  /** The shortest stream of the first kind: a value in a cell outside any row is an assignment to a nil map. */
  lemma CellOutsideRowPanics(shared: seq<string>)
    ensures FeedAll(Initial, [Start("c", []), Start("v", []), End("v")], shared) == None
  {
    hide FeedAll;
    var es: seq<Event> := [Start("c", []), Start("v", []), End("v")];
    assert es[..2][..1] == es[..1] && es[..1][..0] == [];
    NoReference();
    assert AttrVal([], "r") == "";
    assert Cursor(es[..1]) == (0, C.Int64(1));
    assert Cursor(es[..2]) == Cursor(es[..1]);
    assert PanicsAt(es, 2);
    PanicsIff(es, shared);
  }

  // ---------------------------------------------------------------------------
  // Printing a grid and reading it back
  // ---------------------------------------------------------------------------

  /** A typed value stands in a v or, as inline strings do, in a t. */
  datatype Content =
    | Empty
    | Inline(text: string)
    | Typed(cellType: string, text: string, isT: bool)
    | Shared(index: nat)

  /** How a cell is written: left out, without a reference, or with its A1 reference. */
  datatype Form = Skipped | Positional | Referenced

  datatype Slot = Slot(content: Content, form: Form)

  /** The type "s" is left to numbers of shared strings. */
  predicate TypeFits(content: Content, shared: seq<string>) {
    content.Typed? && content.cellType == "s" ==>
      Atoi(content.text).None? || !(0 <= Atoi(content.text).value < |shared|)
  }

  /** Only empty cells may be left out, and the next cell written must then say where it is. */
  ghost predicate Printable(row: seq<Slot>, shared: seq<string>) {
    && |row| <= C.TWO_63
    && (forall i :: 0 <= i < |row| && row[i].form == Skipped ==> row[i].content == Empty)
    && (forall i :: 0 < i < |row| && row[i - 1].form == Skipped ==> row[i].form != Positional)
    && (forall i :: 0 <= i < |row| ==> TypeFits(row[i].content, shared))
  }

  function PrintValue(text: string, isT: bool): CellPart { CellValue(ValueElement(isT, [], [Chars(text)])) }

  function PrintCell(slot: Slot, rowNumber: nat, column: nat): Cell {
    var ref: Attrs := if slot.form == Referenced then [("r", C.ColumnName(column) + Itoa(rowNumber))] else [];
    match slot.content
    case Empty => Cell(ref, [])
    case Inline(text) => Cell(ref, [PrintValue(text, false)])
    case Typed(cellType, text, isT) => Cell(ref + [("t", cellType)], [PrintValue(text, isT)])
    case Shared(index) => Cell(ref + [("t", "s")], [PrintValue(Itoa(index), false)])
  }

  function PrintRow(row: seq<Slot>, rowNumber: nat, column: nat): seq<RowPart>
    requires column <= |row|
    decreases |row| - column
  {
    if column == |row| then [] else
      (if row[column].form == Skipped then [] else [RowCell(PrintCell(row[column], rowNumber, column))])
      + PrintRow(row, rowNumber, column + 1)
  }

  function PrintGrid(grid: seq<seq<Slot>>, rowNumber: nat): Sheet {
    if grid == [] then [] else
      [SheetRow(Row([("r", Itoa(rowNumber))], PrintRow(grid[0], rowNumber, 0)))] + PrintGrid(grid[1..], rowNumber + 1)
  }

  function TextIn(content: Content, shared: seq<string>): string {
    match content
    case Empty => ""
    case Inline(text) => text
    case Typed(_, text, _) => text
    case Shared(index) => if index < |shared| then shared[index] else Itoa(index)
  }

  function TrimEmpties(row: seq<Slot>): seq<Slot> {
    if row != [] && row[|row| - 1].content == Empty then TrimEmpties(row[..|row| - 1]) else row
  }

  function Texts(row: seq<Slot>, shared: seq<string>): seq<string> {
    seq(|row|, i requires 0 <= i < |row| => TextIn(row[i].content, shared))
  }

  /** The printed entries of the columns from `column` on. */
  function GridEntries(row: seq<Slot>, column: nat, shared: seq<string>): seq<Entry>
    requires column <= |row|
    decreases |row| - column
  {
    if column == |row| then [] else
      (if row[column].content == Empty then [] else [Entry(column, TextIn(row[column].content, shared))])
      + GridEntries(row, column + 1, shared)
  }

  lemma PrintedCellColumn(slot: Slot, rowNumber: nat, column: nat, next: int)
    requires column < C.TWO_63 && slot.form != Skipped
    requires slot.form == Positional ==> next == column
    ensures CellColumn(PrintCell(slot, rowNumber, column), next) == column
  {
    hide Itoa;
    C.ColIndexOfColumnName(column, Itoa(rowNumber));
    hide C.ColIndexOf, C.ColumnName;
    NoReference();
    var attrs := PrintCell(slot, rowNumber, column).attrs;
    if slot.form == Referenced {
      assert attrs[0] == ("r", C.ColumnName(column) + Itoa(rowNumber));
    } else if attrs != [] {
      assert attrs == [("t", attrs[0].1)] && attrs[1..] == [] && "t"[0] != "r"[0];
      assert AttrVal(attrs, "r") == AttrVal([], "r") == "";
    }
  }

  function TypeOf(content: Content): string {
    match content
    case Typed(cellType, _, _) => cellType
    case Shared(_) => "s"
    case _ => ""
  }

  lemma PrintedCellType(slot: Slot, rowNumber: nat, column: nat)
    ensures AttrVal(PrintCell(slot, rowNumber, column).attrs, "t") == TypeOf(slot.content)
  {
    hide Itoa, C.ColumnName;
    var attrs := PrintCell(slot, rowNumber, column).attrs;
    if slot.form == Referenced {
      assert attrs[1..] == if slot.content.Shared? || slot.content.Typed? then [("t", TypeOf(slot.content))] else [];
    }
  }

  lemma PrintedCellEntries(slot: Slot, rowNumber: nat, column: nat, shared: seq<string>)
    requires TypeFits(slot.content, shared)
    ensures var c := PrintCell(slot, rowNumber, column);
            CellEntries(column, AttrVal(c.attrs, "t"), c.parts, shared)
            == if slot.content == Empty then [] else [Entry(column, TextIn(slot.content, shared))]
  {
    PrintedCellType(slot, rowNumber, column);
    hide C.ColumnName, AttrVal;
    var c := PrintCell(slot, rowNumber, column);
    if slot.content.Shared? {
      AtoiOfItoa(slot.content.index);
    }
    if slot.content != Empty {
      assert c.parts[1..] == [];
      var inner := c.parts[0].v.inner;
      assert inner[1..] == [] && TextOf(inner) == inner[0].text + "" == inner[0].text;
    }
  }

  lemma PrintedCellStep(slot: Slot, rowNumber: nat, column: nat, next: int, rest: seq<RowPart>, shared: seq<string>)
    requires column < C.TWO_63 && slot.form != Skipped
    requires slot.form == Positional ==> next == column
    requires TypeFits(slot.content, shared)
    ensures RowEntries([RowCell(PrintCell(slot, rowNumber, column))] + rest, next, shared)
            == (if slot.content == Empty then [] else [Entry(column, TextIn(slot.content, shared))])
               + RowEntries(rest, C.Int64(column + 1), shared)
  {
    PrintedCellColumn(slot, rowNumber, column, next);
    PrintedCellEntries(slot, rowNumber, column, shared);
    hide PrintCell, CellColumn, CellEntries, TextIn, AttrVal, C.Int64;
    var cell := PrintCell(slot, rowNumber, column);
    assert ([RowCell(cell)] + rest)[1..] == rest;
  }

  /** A positional cell is printed only where the reader expects it anyway. */
  lemma NextInRange(column: nat)
    requires column < C.TWO_63
    ensures column + 1 < C.TWO_63 ==> C.Int64(column + 1) == column + 1
  {
  }

  lemma {:induction false} PrintedRowEntries(row: seq<Slot>, rowNumber: nat, column: nat, next: int, shared: seq<string>)
    requires Printable(row, shared) && column <= |row|
    requires column < |row| && row[column].form == Positional ==> next == column
    ensures RowEntries(PrintRow(row, rowNumber, column), next, shared) == GridEntries(row, column, shared)
    decreases |row| - column
  {
    hide PrintCell, TextIn, C.Int64, RowEntries, Printable;
    if column == |row| {
      NoEntries(next, shared);
    } else {
      SlotIsPrintable(row, column, shared);
      var rest := PrintRow(row, rowNumber, column + 1);
      if row[column].form == Skipped {
        PrintedRowEntries(row, rowNumber, column + 1, next, shared);
        assert PrintRow(row, rowNumber, column) == rest;
        assert GridEntries(row, column, shared) == GridEntries(row, column + 1, shared);
      } else {
        PrintedCellStep(row[column], rowNumber, column, next, rest, shared);
        NextInRange(column);
        PrintedRowEntries(row, rowNumber, column + 1, C.Int64(column + 1), shared);
      }
    }
  }

  lemma SlotIsPrintable(row: seq<Slot>, column: nat, shared: seq<string>)
    requires Printable(row, shared) && column < |row|
    ensures column < C.TWO_63 && (column + 1 < |row| ==> column + 1 < C.TWO_63)
    ensures row[column].form == Skipped ==>
              row[column].content == Empty && (column + 1 < |row| ==> row[column + 1].form != Positional)
    ensures TypeFits(row[column].content, shared)
  {
    assert column + 1 < |row| ==> row[column] == row[column + 1 - 1];
  }

  lemma NoEntries(next: int, shared: seq<string>)
    ensures RowEntries([], next, shared) == []
  {
  }

  /** What has been read once the columns below `column` are behind. */
  ghost predicate Spread(row: seq<Slot>, column: nat, shared: seq<string>, entries: seq<Entry>)
    requires column <= |row|
  {
    && Width(entries) == |TrimEmpties(row[..column])|
    && forall i :: 0 <= i ==>
                     LastValue(entries, i) == if i < column then TextIn(row[i].content, shared) else ""
  }

  lemma {:induction false} EntriesSpread(row: seq<Slot>, column: nat, shared: seq<string>, before: seq<Entry>)
    requires column <= |row| && Spread(row, column, shared, before)
    ensures Spread(row, |row|, shared, before + GridEntries(row, column, shared))
    decreases |row| - column
  {
    hide Width, LastValue;
    if column == |row| {
      assert before + [] == before;
    } else {
      var entry := Entry(column, TextIn(row[column].content, shared));
      assert row[..column + 1][..column] == row[..column];
      TrimEmptiesShortens(row[..column]);
      if row[column].content == Empty {
        EntriesSpread(row, column + 1, shared, before);
        assert GridEntries(row, column, shared) == GridEntries(row, column + 1, shared);
      } else {
        EntryAppended(before, entry);
        EntriesSpread(row, column + 1, shared, before + [entry]);
        assert (before + [entry]) + GridEntries(row, column + 1, shared) == before + GridEntries(row, column, shared);
      }
    }
  }

  lemma {:induction false} TrimEmptiesShortens(row: seq<Slot>)
    ensures |TrimEmpties(row)| <= |row| && TrimEmpties(row) == row[..|TrimEmpties(row)|]
    decreases |row|
  {
    if row != [] && row[|row| - 1].content == Empty {
      TrimEmptiesShortens(row[..|row| - 1]);
      assert row[..|row| - 1][..|TrimEmpties(row)|] == row[..|TrimEmpties(row)|];
    }
  }

  lemma NothingSpread(row: seq<Slot>, shared: seq<string>)
    ensures Spread(row, 0, shared, [])
  {
  }

  lemma PrintedRowMeans(row: seq<Slot>, rowNumber: nat, shared: seq<string>)
    requires Printable(row, shared)
    ensures LineOf(RowEntries(PrintRow(row, rowNumber, 0), 0, shared)) == Texts(TrimEmpties(row), shared)
    ensures Width(RowEntries(PrintRow(row, rowNumber, 0), 0, shared)) == |TrimEmpties(row)|
  {
    hide PrintRow, RowEntries, GridEntries, TextIn, Width, LastValue, TrimEmpties;
    PrintedRowEntries(row, rowNumber, 0, 0, shared);
    NothingSpread(row, shared);
    EntriesSpread(row, 0, shared, []);
    TrimEmptiesShortens(row);
    assert row[..|row|] == row;
    assert [] + GridEntries(row, 0, shared) == GridEntries(row, 0, shared);
  }

  /** Read between any two other rows, a printed row adds itself, trimmed, or is too long and panics. */
  lemma PrintedRowReadsBack(s: State, row: seq<Slot>, attrs: Attrs, rowNumber: nat, shared: seq<string>)
    requires Printable(row, shared) && !s.inValue
    ensures var read := FeedAll(s, RowEvents(Row(attrs, PrintRow(row, rowNumber, 0))), shared);
            && (read.Some? <==> |TrimEmpties(row)| <= MAX_LEN)
            && (read.Some? ==> read.value.rows == s.rows + [Texts(TrimEmpties(row), shared)])
  {
    hide PrintRow, RowEntries, RowEvents, FeedAll, Width, LineOf, Texts, TrimEmpties, Printable;
    PrintedRowMeans(row, rowNumber, shared);
    var s' := RowFed(s, Row(attrs, PrintRow(row, rowNumber, 0)), shared);
  }

  lemma {:induction false} PrintedGridMeans(grid: seq<seq<Slot>>, rowNumber: nat, shared: seq<string>)
    requires forall r :: r in grid ==> Printable(r, shared)
    ensures |RowsOf(PrintGrid(grid, rowNumber), shared)| == |grid|
    ensures forall n :: 0 <= n < |grid| ==>
                          RowsOf(PrintGrid(grid, rowNumber), shared)[n] == Texts(TrimEmpties(grid[n]), shared)
    ensures Fits(PrintGrid(grid, rowNumber), shared) <==> forall r :: r in grid ==> |TrimEmpties(r)| <= MAX_LEN
    decreases |grid|
  {
    hide PrintRow, RowEntries, LineOf, Texts, TrimEmpties, Printable, Width;
    if grid != [] {
      PrintedRowMeans(grid[0], rowNumber, shared);
      PrintedGridMeans(grid[1..], rowNumber + 1, shared);
      var sheet := PrintGrid(grid, rowNumber);
      assert sheet == [sheet[0]] + PrintGrid(grid[1..], rowNumber + 1);
      assert grid == [grid[0]] + grid[1..];
      assert PartFits(sheet[0], shared) <==> |TrimEmpties(grid[0])| <= MAX_LEN;
      forall n | 0 < n < |grid|
        ensures RowsOf(sheet, shared)[n] == Texts(TrimEmpties(grid[n]), shared)
      {
        assert sheet[1..] == PrintGrid(grid[1..], rowNumber + 1);
        assert grid[n] == grid[1..][n - 1];
      }
    }
  }

  /**
    Print a grid in any mixture of A1 references, positional cells and shared
    strings; the reader returns it, with trailing empty cells trimmed, exactly if
    no trimmed row is longer than Go's slices get.
    */
  lemma GridRoundTrip(grid: seq<seq<Slot>>, shared: seq<string>)
    requires forall r :: r in grid ==> Printable(r, shared)
    ensures var read := FeedAll(Initial, SheetEvents(PrintGrid(grid, 1)), shared);
            && (read.Some? <==> forall r :: r in grid ==> |TrimEmpties(r)| <= MAX_LEN)
            && (read.Some? ==>
                  && |read.value.rows| == |grid|
                  && forall n :: 0 <= n < |grid| ==> read.value.rows[n] == Texts(TrimEmpties(grid[n]), shared))
  {
    hide FeedAll, Printable, Texts, TrimEmpties, Fits, RowsOf, PrintGrid, SheetEvents;
    WellNestedSheetsAreRead(PrintGrid(grid, 1), shared);
    PrintedGridMeans(grid, 1, shared);
  }

  /** One cell with one letter of text far enough to the right is a sheet the reader panics on. */
  lemma FarCellPanics(column: nat, shared: seq<string>)
    requires MAX_LEN <= column < C.TWO_63
    ensures var cell := Cell([("r", C.ColumnName(column) + "1")], [PrintValue("x", false)]);
            FeedAll(Initial, SheetEvents([SheetRow(Row([], [RowCell(cell)]))]), shared) == None
  {
    hide FeedAll, SheetEvents, C.ColumnName, C.Int64, RowEntries;
    var slot := Slot(Inline("x"), Referenced);
    var cell := Cell([("r", C.ColumnName(column) + "1")], [PrintValue("x", false)]);
    assert Itoa(1) == "1";
    assert cell == PrintCell(slot, 1, column);
    PrintedCellStep(slot, 1, column, 0, [], shared);
    NoEntries(C.Int64(column + 1), shared);
    var part := SheetRow(Row([], [RowCell(cell)]));
    var entries := RowEntries([RowCell(cell)], 0, shared);
    assert [RowCell(cell)] + [] == [RowCell(cell)];
    assert entries == [Entry(column, "x")];
    assert entries[..0] == [] && Width(entries) == column + 1;
    assert part in [part] && !PartFits(part, shared);
    WellNestedSheetsAreRead([part], shared);
  }
}
