/**
  ParsePDF from its content stream on (internal/parser/pdf.go:18-40): the shown
  lines go through the text parser.
  */
module PdfFacts {
  import opened Strings
  import opened TextParser
  import opened LlmsTxt
  import opened Pdf

  /** The facts of a record, one line of text each. */
  function FactTexts(props: Record, ks: seq<string>): seq<string>
    requires forall k :: k in ks ==> k in props
  {
    if ks == [] then [] else [FactLine(ks[0], props[ks[0]])] + FactTexts(props, ks[1..])
  }

  lemma {:induction false} FactTextsAreLines(props: Record, ks: seq<string>)
    requires forall k :: k in ks ==> k in props
    ensures NonEmptyLines(FactTexts(props, ks)) == FactLines(props, ks)
    decreases |ks|
  {
    if ks != [] {
      FactTextsAreLines(props, ks[1..]);
      var texts := FactTexts(props, ks);
      assert texts[1..] == FactTexts(props, ks[1..]);
    }
  }

  /** Show a record's facts as escaped strings, one Tj each: extracting and parsing returns the record. */
  lemma ShownFactsRoundTrip(props: Record)
    requires forall k :: k in props ==> GoodKey(k) && ValueShape(props[k])
    ensures var content := Print(ShowTexts(FactTexts(props, SortedKeys(props.Keys))), " ET");
            Parsed(Shown(Tokens(content, 0), "")) == props
  {
    var ks := SortedKeys(props.Keys);
    EscapedTextsRoundTrip(FactTexts(props, ks));
    FactTextsAreLines(props, ks);
    GoodFactsParse(props, "");
    assert FactLines(props, ks) + "" == FactLines(props, ks);
  }
}
