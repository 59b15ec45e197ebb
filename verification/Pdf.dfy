/**
  The show-operator scanner of internal/parser/pdf.go: literal strings
  (ISO 32000-1:2008, section 7.3.4.2, a subset) and the operators that show
  them (section 9.4.3).  Bytes are written as characters.
  */
module Pdf {
  import opened Strings

  // ---------------------------------------------------------------------------
  // The tokens of tokenRe
  // ---------------------------------------------------------------------------

  /** The end of (?:[^()\\]|\\.)*\) from i on; the alternatives exclude each other. */
  function LiteralEnd(s: string, i: nat): (end: Option<nat>)
    ensures end.Some? ==> i < end.value <= |s|
    decreases |s| - i
  {
    if i >= |s| || s[i] == '(' then None
    else if s[i] == ')' then Some(i + 1)
    else if s[i] != '\\' then LiteralEnd(s, i + 1)
    else if i + 1 < |s| && s[i + 1] != '\n' then LiteralEnd(s, i + 2)
    else None
  }

  predicate IsOperator(tok: string) { tok == "Tj" || tok == "TJ" || tok == "'" || tok == "\"" }

  /** The end of the token starting at i, if one does. */
  function TokenEnd(s: string, i: nat): (end: Option<nat>)
    requires i < |s|
    ensures end.Some? ==> i < end.value <= |s|
  {
    if s[i] == '(' then LiteralEnd(s, i + 1)
    else if s[i] == '\'' || s[i] == '"' then Some(i + 1)
    else if s[i] == 'T' && i + 1 < |s| && (s[i + 1] == 'j' || s[i + 1] == 'J') then Some(i + 2)
    else None
  }

  /** FindAll: the leftmost tokens, each starting where the one before ended or later. */
  function Tokens(s: string, i: nat): seq<string>
    decreases |s| - i
  {
    if i >= |s| then [] else
      match TokenEnd(s, i)
      case Some(end) => [s[i..end]] + Tokens(s, end)
      case None => Tokens(s, i + 1)
  }

  // ---------------------------------------------------------------------------
  // Decoding and extraction
  // ---------------------------------------------------------------------------

  /** What a backslash and the byte after it stand for; octal escapes are not known. */
  function Escaped(c: char): char {
    match c
    case 'n' => '\n'
    case 'r' => '\r'
    case 't' => '\t'
    case 'b' => '\U{08}'
    case 'f' => '\U{0C}'
    case _ => c
  }

  function Decoded(s: string): string {
    if s == "" then ""
    else if s[0] != '\\' || |s| == 1 then [s[0]] + Decoded(s[1..])
    else [Escaped(s[1])] + Decoded(s[2..])
  }

  method DecodePDFString(s: string) returns (out: string)
    ensures out == Decoded(s)
  {
    hide Escaped;
    out := "";
    var i := 0;
    while i < |s|
      invariant i <= |s| && out + Decoded(s[i..]) == Decoded(s)
    {
      assert s[i..][1..] == s[i + 1..];
      if s[i] != '\\' || i == |s| - 1 {
        assert (out + [s[i]]) + Decoded(s[i + 1..]) == out + Decoded(s[i..]);
        out := out + [s[i]];
        i := i + 1;
      } else {
        assert s[i..][2..] == s[i + 2..];
        assert (out + [Escaped(s[i + 1])]) + Decoded(s[i + 2..]) == out + Decoded(s[i..]);
        out := out + [Escaped(s[i + 1])];
        i := i + 2;
      }
    }
  }

  /** The output for a list of tokens, with `pending` already read and not yet shown. */
  function Shown(tokens: seq<string>, pending: string): string {
    if tokens == [] then ""
    else if IsOperator(tokens[0]) then
      (if pending != "" then pending + "\n" else "") + Shown(tokens[1..], "")
    else Shown(tokens[1..], pending + Decoded(Inner(tokens[0])))
  }

  /** tok[1 : len(tok)-1]; tokens that are not operators are at least two bytes long. */
  function Inner(tok: string): string {
    if |tok| < 2 then "" else tok[1..|tok| - 1]
  }

  method ExtractShowOperators(content: string) returns (out: string)
    ensures out == Shown(Tokens(content, 0), "")
  {
    hide Tokens, Decoded, Inner;
    out := "";
    var pending := "";
    var tokens := Tokens(content, 0);
    for n := 0 to |tokens|
      invariant out + Shown(tokens[n..], pending) == Shown(tokens, "")
    {
      var tok := tokens[n];
      assert tokens[n..][1..] == tokens[n + 1..];
      if tok == "Tj" || tok == "TJ" || tok == "'" || tok == "\"" {
        if |pending| > 0 {
          assert (out + pending + "\n") + Shown(tokens[n + 1..], "")
                 == out + (pending + "\n" + Shown(tokens[n + 1..], ""));
          out := out + pending;
          out := out + "\n";
          pending := "";
        }
      } else {
        var text := DecodePDFString(Inner(tok));
        pending := pending + text;
      }
    }
  }

  // ---------------------------------------------------------------------------
  // Literal strings as what they are made of
  // ---------------------------------------------------------------------------

  /** A byte of a literal: written as itself, or after a backslash. */
  datatype Unit = Plain(c: char) | Backslashed(c: char)

  predicate IsUnit(u: Unit) {
    match u
    case Plain(c) => c != '(' && c != ')' && c != '\\'
    case Backslashed(c) => c != '\n'
  }

  predicate IsLiteral(us: seq<Unit>) {
    forall i :: 0 <= i < |us| ==> IsUnit(us[i])
  }

  function Written(us: seq<Unit>): string {
    if us == [] then "" else
      UnitText(us[0]) + Written(us[1..])
  }

  function Meant(us: seq<Unit>): string {
    if us == [] then "" else
      [match us[0] case Plain(c) => c case Backslashed(c) => Escaped(c)] + Meant(us[1..])
  }

  /** Escaping with a backslash exactly what needs one. */
  function Escape(s: string): seq<Unit> {
    if s == "" then [] else
      [if s[0] == '(' || s[0] == ')' || s[0] == '\\' then Backslashed(s[0]) else Plain(s[0])] + Escape(s[1..])
  }

  lemma {:induction false} EscapeMeansItself(s: string)
    ensures IsLiteral(Escape(s)) && Meant(Escape(s)) == s
    decreases |s|
  {
    if s != "" {
      EscapeMeansItself(s[1..]);
      assert Escape(s)[1..] == Escape(s[1..]);
    }
  }

  /** The letter that may stand for a control character after a backslash. */
  function Mnemonic(c: char): Option<char> {
    if c == '\n' then Some('n')
    else if c == '\r' then Some('r')
    else if c == '\t' then Some('t')
    else if c == '\U{08}' then Some('b')
    else if c == '\U{0C}' then Some('f')
    else None
  }

  /** The text in printable form: control characters by their letters, the rest as in Escape. */
  function EscapeControls(s: string): seq<Unit> {
    if s == "" then [] else
      (match Mnemonic(s[0])
       case Some(letter) => [Backslashed(letter)]
       case None => Escape([s[0]]))
      + EscapeControls(s[1..])
  }

  lemma {:induction false} EscapeControlsMeansItself(s: string)
    ensures IsLiteral(EscapeControls(s)) && Meant(EscapeControls(s)) == s
    decreases |s|
  {
    if s != "" {
      EscapeControlsMeansItself(s[1..]);
      EscapeMeansItself([s[0]]);
      var us := EscapeControls(s);
      assert us[1..] == EscapeControls(s[1..]);
      assert [s[0]][1..] == "" && Escape("") == [];
    }
  }

  /** Every literal means what it says: the decoder reads it byte by byte. */
  lemma {:induction false} DecodedIsMeant(us: seq<Unit>)
    requires IsLiteral(us)
    ensures Decoded(Written(us)) == Meant(us)
    decreases |us|
  {
    if us != [] {
      DecodedIsMeant(us[1..]);
      var n := if us[0].Plain? then 1 else 2;
      assert Written(us)[n..] == Written(us[1..]);
    }
  }

  /** The string t stands in s at position i. */
  ghost predicate Here(s: string, i: nat, t: string) {
    i + |t| <= |s| && forall k :: 0 <= k < |t| ==> t[k] == s[i + k]
  }

  lemma HereSplits(s: string, i: nat, t: string, u: string)
    requires Here(s, i, t + u)
    ensures Here(s, i, t) && Here(s, i + |t|, u)
  {
    forall k | 0 <= k < |t|
      ensures t[k] == s[i + k]
    {
      assert (t + u)[k] == t[k];
    }
    forall k | 0 <= k < |u|
      ensures u[k] == s[i + |t| + k]
    {
      assert (t + u)[|t| + k] == u[k];
    }
  }

  lemma HereAt(s: string, i: nat, t: string, k: nat)
    requires Here(s, i, t) && k < |t|
    ensures i + |t| <= |s| && s[i + k] == t[k]
  {
  }

  function UnitText(u: Unit): string {
    match u case Plain(c) => [c] case Backslashed(c) => ['\\', c]
  }

  lemma {:induction false} LiteralEndsAtParenthesis(s: string, i: nat, us: seq<Unit>)
    requires IsLiteral(us) && Here(s, i, Written(us) + ")")
    ensures LiteralEnd(s, i) == Some(i + |Written(us)| + 1)
    decreases |us|
  {
    hide Here;
    HereAt(s, i, Written(us) + ")", 0);
    if us != [] {
      var unit, rest := UnitText(us[0]), Written(us[1..]) + ")";
      assert Written(us) + ")" == unit + rest;
      HereSplits(s, i, unit, rest);
      HereAt(s, i, unit, |unit| - 1);
      LiteralEndsAtParenthesis(s, i + |unit|, us[1..]);
    }
  }

  /** Conversely, the scanner accepts nothing but literals: every escape in a token is complete. */
  lemma {:induction false} TokensAreLiterals(s: string, i: nat) returns (us: seq<Unit>)
    requires LiteralEnd(s, i).Some?
    ensures IsLiteral(us) && s[i..LiteralEnd(s, i).value] == Written(us) + ")"
    decreases |s| - i
  {
    var end := LiteralEnd(s, i).value;
    if s[i] == ')' {
      us := [];
    } else {
      var n := if s[i] == '\\' then 2 else 1;
      var rest := TokensAreLiterals(s, i + n);
      us := [if s[i] == '\\' then Backslashed(s[i + 1]) else Plain(s[i])] + rest;
      assert us[1..] == rest;
      assert s[i..end] == s[i..i + n] + s[i + n..end];
    }
  }

  /** The decoder's guard for a lone trailing backslash. */
  predicate EndsInLoneBackslash(s: string) {
    if s == "" then false
    else if s[0] != '\\' then EndsInLoneBackslash(s[1..])
    else |s| == 1 || EndsInLoneBackslash(s[2..])
  }

  lemma {:induction false} LiteralsAreComplete(us: seq<Unit>)
    requires IsLiteral(us)
    ensures !EndsInLoneBackslash(Written(us))
    decreases |us|
  {
    if us != [] {
      LiteralsAreComplete(us[1..]);
      var n := if us[0].Plain? then 1 else 2;
      assert Written(us)[n..] == Written(us[1..]);
    }
  }

  lemma {:induction false} NoTokenEndsInLoneBackslash(s: string, i: nat, tok: string)
    requires tok in Tokens(s, i) && !IsOperator(tok)
    ensures !EndsInLoneBackslash(Inner(tok)) && |tok| >= 2
    decreases |s| - i
  {
    match TokenEnd(s, i)
    case None => NoTokenEndsInLoneBackslash(s, i + 1, tok);
    case Some(end) =>
      if tok in Tokens(s, end) {
        NoTokenEndsInLoneBackslash(s, end, tok);
      } else {
        assert tok == s[i..end];
        if s[i] != '(' { OtherTokensAreOperators(s, i); }
        var us := TokensAreLiterals(s, i + 1);
        assert tok == "(" + s[i + 1..end];
        assert Inner(tok) == Written(us);
        LiteralsAreComplete(us);
      }
  }

  lemma OtherTokensAreOperators(s: string, i: nat)
    requires i < |s| && s[i] != '(' && TokenEnd(s, i).Some?
    ensures IsOperator(s[i..TokenEnd(s, i).value])
  {
  }

  // ---------------------------------------------------------------------------
  // Content streams as data, and the round trip
  // ---------------------------------------------------------------------------

  /** Whatever else stands between tokens: nothing that starts one, and no parenthesis left open. */
  predicate IsFiller(s: string) {
    forall i :: 0 <= i < |s| ==> s[i] != '(' && TokenEnd(s, i) == None
  }

  datatype Operand = Operand(filler: string, text: seq<Unit>)

  datatype Operator = Tj | TJ | Quote | DoubleQuote {
    function Text(): string {
      match this
      case Tj => "Tj"
      case TJ => "TJ"
      case Quote => "'"
      case DoubleQuote => "\""
    }
  }

  /** Operands, each after some filler, then more filler and the operator that shows them. */
  datatype Show = Show(operands: seq<Operand>, filler: string, op: Operator)

  predicate IsShow(s: Show) {
    IsFiller(s.filler) && forall o :: o in s.operands ==> IsFiller(o.filler) && IsLiteral(o.text)
  }

  function PrintOperands(operands: seq<Operand>): string {
    if operands == [] then "" else
      operands[0].filler + (Literal(operands[0].text) + PrintOperands(operands[1..]))
  }

  function PrintShow(s: Show): string { PrintOperands(s.operands) + (s.filler + s.op.Text()) }

  function Print(shows: seq<Show>, trailer: string): string {
    if shows == [] then trailer else PrintShow(shows[0]) + Print(shows[1..], trailer)
  }

  function OperandsText(operands: seq<Operand>): string {
    if operands == [] then "" else Meant(operands[0].text) + OperandsText(operands[1..])
  }

  /** One line for every operator that shows something. */
  function Lines(shows: seq<Show>): string {
    if shows == [] then "" else
      var text := OperandsText(shows[0].operands);
      (if text != "" then text + "\n" else "") + Lines(shows[1..])
  }

  /** The text goes on like a token, or not at all: no filler before it can run into it. */
  predicate TokenFollows(s: string, i: nat) {
    i >= |s| || s[i] == '(' || s[i] == 'T' || s[i] == '\'' || s[i] == '"'
  }

  lemma {:induction false} FillerSkipped(s: string, i: nat, filler: string)
    requires IsFiller(filler) && Here(s, i, filler) && TokenFollows(s, i + |filler|)
    ensures Tokens(s, i) == Tokens(s, i + |filler|)
    decreases |filler|
  {
    hide LiteralEnd, Here;
    if filler != "" {
      HereAt(s, i, filler, 0);
      if |filler| > 1 { HereAt(s, i, filler, 1); }
      assert filler[0] != '(' && TokenEnd(filler, 0) == None;
      assert TokenEnd(s, i) == None;
      assert filler == [filler[0]] + filler[1..];
      HereSplits(s, i, [filler[0]], filler[1..]);
      RestIsFiller(filler);
      FillerSkipped(s, i + 1, filler[1..]);
    }
  }

  lemma RestIsFiller(filler: string)
    requires filler != "" && IsFiller(filler)
    ensures IsFiller(filler[1..])
  {
    forall i | 0 <= i < |filler[1..]|
      ensures filler[1..][i] != '(' && TokenEnd(filler[1..], i) == None
    {
      assert filler[1..][i] == filler[i + 1] && TokenEnd(filler, i + 1) == None;
    }
  }

  lemma TokenTaken(s: string, i: nat, token: string)
    requires i < |s| && Here(s, i, token) && TokenEnd(s, i) == Some(i + |token|)
    ensures Tokens(s, i) == [token] + Tokens(s, i + |token|)
  {
    assert s[i..i + |token|] == token;
  }

  function Literal(us: seq<Unit>): string { "(" + Written(us) + ")" }

  lemma LiteralScanned(s: string, i: nat, us: seq<Unit>)
    requires IsLiteral(us) && Here(s, i, Literal(us))
    ensures TokenFollows(s, i) && Tokens(s, i) == [Literal(us)] + Tokens(s, i + |Literal(us)|)
  {
    hide Tokens, IsLiteral, LiteralEnd;
    HereAt(s, i, Literal(us), 0);
    assert Literal(us) == "(" + (Written(us) + ")");
    HereSplits(s, i, "(", Written(us) + ")");
    LiteralEndsAtParenthesis(s, i + 1, us);
    TokenTaken(s, i, Literal(us));
  }

  lemma OperatorScanned(s: string, i: nat, op: Operator)
    requires Here(s, i, op.Text())
    ensures TokenFollows(s, i) && Tokens(s, i) == [op.Text()] + Tokens(s, i + |op.Text()|)
  {
    hide Tokens, LiteralEnd;
    HereAt(s, i, op.Text(), 0);
    HereAt(s, i, op.Text(), |op.Text()| - 1);
    TokenTaken(s, i, op.Text());
  }

  function OperandTokens(operands: seq<Operand>): seq<string> {
    if operands == [] then [] else [Literal(operands[0].text)] + OperandTokens(operands[1..])
  }

  function ShowTokens(shows: seq<Show>): seq<string> {
    if shows == [] then [] else
      OperandTokens(shows[0].operands) + [shows[0].op.Text()] + ShowTokens(shows[1..])
  }

  lemma {:induction false} OperandsScanned(s: string, i: nat, operands: seq<Operand>)
    requires forall o :: o in operands ==> IsFiller(o.filler) && IsLiteral(o.text)
    requires Here(s, i, PrintOperands(operands))
    ensures Tokens(s, i) == OperandTokens(operands) + Tokens(s, i + |PrintOperands(operands)|)
    decreases |operands|
  {
    hide Tokens, IsFiller, IsLiteral, Here, Literal, TokenFollows;
    if operands == [] {
      assert OperandTokens(operands) + Tokens(s, i) == Tokens(s, i);
    } else {
      var o, more := operands[0], PrintOperands(operands[1..]);
      HereSplits(s, i, o.filler, Literal(o.text) + more);
      HereSplits(s, i + |o.filler|, Literal(o.text), more);
      LiteralScanned(s, i + |o.filler|, o.text);
      FillerSkipped(s, i, o.filler);
      OperandsScanned(s, i + |o.filler| + |Literal(o.text)|, operands[1..]);
    }
  }

  lemma ShowScanned(s: string, i: nat, show: Show)
    requires IsShow(show) && Here(s, i, PrintShow(show))
    ensures Tokens(s, i)
            == OperandTokens(show.operands) + ([show.op.Text()] + Tokens(s, i + |PrintShow(show)|))
  {
    hide Tokens, PrintOperands, OperandTokens, IsFiller, IsLiteral, Operator.Text, Here, TokenFollows;
    var operands, end := PrintOperands(show.operands), show.filler + show.op.Text();
    HereSplits(s, i, operands, end);
    HereSplits(s, i + |operands|, show.filler, show.op.Text());
    OperandsScanned(s, i, show.operands);
    OperatorScanned(s, i + |operands| + |show.filler|, show.op);
    FillerSkipped(s, i + |operands|, show.filler);
  }

  lemma {:induction false} ShowsScanned(s: string, i: nat, shows: seq<Show>, trailer: string)
    requires (forall s :: s in shows ==> IsShow(s)) && IsFiller(trailer)
    requires i <= |s| && s[i..] == Print(shows, trailer)
    ensures Tokens(s, i) == ShowTokens(shows)
    decreases |shows|
  {
    hide Tokens, PrintShow, OperandTokens, IsFiller, IsShow, Operator.Text;
    if shows == [] {
      FillerSkipped(s, i, trailer);
      NothingLeft(s);
    } else {
      var show, rest := shows[0], Print(shows[1..], trailer);
      assert s[i..|s|] == PrintShow(show) + rest;
      HereSplits(s, i, PrintShow(show), rest);
      ShowScanned(s, i, show);
      ShowsScanned(s, i + |PrintShow(show)|, shows[1..], trailer);
      assert OperandTokens(show.operands) + ([show.op.Text()] + ShowTokens(shows[1..])) == ShowTokens(shows);
    }
  }

  lemma NothingLeft(s: string)
    ensures Tokens(s, |s|) == []
  {
  }

  lemma LiteralIsOperand(us: seq<Unit>)
    ensures !IsOperator(Literal(us)) && Inner(Literal(us)) == Written(us)
  {
    assert Literal(us)[0] == '(';
  }

  lemma {:induction false} OperandsShown(operands: seq<Operand>, more: seq<string>, pending: string)
    requires forall o :: o in operands ==> IsLiteral(o.text)
    ensures Shown(OperandTokens(operands) + more, pending) == Shown(more, pending + OperandsText(operands))
    decreases |operands|
  {
    hide Decoded, Meant, Inner, Literal, IsOperator, IsLiteral;
    if operands == [] {
      assert OperandTokens(operands) + more == more && pending + "" == pending;
    } else {
      var token := Literal(operands[0].text);
      var tokens := OperandTokens(operands) + more;
      assert tokens[0] == token && tokens[1..] == OperandTokens(operands[1..]) + more;
      LiteralIsOperand(operands[0].text);
      DecodedIsMeant(operands[0].text);
      OperandsShown(operands[1..], more, pending + Meant(operands[0].text));
      assert (pending + Meant(operands[0].text)) + OperandsText(operands[1..]) == pending + OperandsText(operands);
    }
  }

  lemma {:induction false} ShowsShown(shows: seq<Show>)
    requires forall s :: s in shows ==> IsShow(s)
    ensures Shown(ShowTokens(shows), "") == Lines(shows)
    decreases |shows|
  {
    if shows != [] {
      var show := shows[0];
      var after := [show.op.Text()] + ShowTokens(shows[1..]);
      assert IsShow(show);
      assert ShowTokens(shows) == OperandTokens(show.operands) + after;
      OperandsShown(show.operands, after, "");
      assert "" + OperandsText(show.operands) == OperandsText(show.operands);
      assert after[1..] == ShowTokens(shows[1..]);
      ShowsShown(shows[1..]);
    }
  }

  /** Whatever the literals are and whatever stands in between, every operator gives back its operands. */
  lemma ShowsAreExtracted(shows: seq<Show>, trailer: string)
    requires (forall s :: s in shows ==> IsShow(s)) && IsFiller(trailer)
    ensures Shown(Tokens(Print(shows, trailer), 0), "") == Lines(shows)
  {
    ShowsScanned(Print(shows, trailer), 0, shows, trailer);
    ShowsShown(shows);
  }

  /** One text per operator, escaped where necessary, shown by Tj. */
  function ShowTexts(texts: seq<string>): seq<Show> {
    if texts == [] then [] else [Show([Operand("BT ", Escape(texts[0]))], " ", Tj)] + ShowTexts(texts[1..])
  }

  function NonEmptyLines(texts: seq<string>): string {
    if texts == [] then "" else (if texts[0] != "" then texts[0] + "\n" else "") + NonEmptyLines(texts[1..])
  }

  lemma {:induction false} TextsAreShows(texts: seq<string>)
    ensures forall s :: s in ShowTexts(texts) ==> IsShow(s)
    ensures Lines(ShowTexts(texts)) == NonEmptyLines(texts)
    decreases |texts|
  {
    if texts != [] {
      TextsAreShows(texts[1..]);
      EscapeMeansItself(texts[0]);
      var shows := ShowTexts(texts);
      assert shows[1..] == ShowTexts(texts[1..]);
      var operands := shows[0].operands;
      assert operands[1..] == [] && OperandsText(operands) == texts[0] + "" == texts[0];
    }
  }

  /** Any texts at all, escaped and shown one by one, come back one line each. */
  lemma EscapedTextsRoundTrip(texts: seq<string>)
    ensures Shown(Tokens(Print(ShowTexts(texts), " ET"), 0), "") == NonEmptyLines(texts)
  {
    TextsAreShows(texts);
    assert IsFiller(" ET");
    ShowsAreExtracted(ShowTexts(texts), " ET");
  }
}
