/** The printer and the parser together, buffer to buffer. */
module JsonEndToEnd {
  import opened CString
  import opened Json
  import opened JsonText
  import opened JsonRoundTrip
  import JsonPrinter
  import JsonParser

  lemma {:induction false} ReadRaw(before: seq<int>, x: Str)
    requires JsonParser.Terminated(before + Raw(x) + [0])
    ensures JsonParser.StrAt(before + Raw(x) + [0], |before|) == x
    decreases x
  {
    if x.Ch? {
      assert before + Raw(x) + [0] == before + [x.c] + Raw(x.rest) + [0];
      ReadRaw(before + [x.c], x.rest);
    }
  }

  /** Whatever can be printed is parsed again as the value that was printed. */
  method PrintAndParse(t: Json, format: bool, requireEnd: bool) returns (printed: bool, r: JsonParser.Parsed<Json>)
    requires Printable(t) && NestedWithin(t, NESTING_LIMIT)
    ensures printed <==> Length(RenderTo(t, format, 0, End)) + 2 <= INT_MAX
    ensures printed ==> r == JsonParser.Parsed(t)
  {
    var output;
    printed, output := JsonPrinter.Print(t, format);
    r := JsonParser.Failed;
    if printed {
      var text := output[..];
      ghost var x := RenderTo(t, format, 0, End);
      RawIsBytes(x);
      assert text == [] + Raw(x) + [0];
      ReadRaw([], x);
      PrintParse(t, format, requireEnd);
      var end;
      r, end := JsonParser.ParseText(text, requireEnd);
    }
  }
}
