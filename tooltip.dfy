/** The part of the custom tooltip callback that computes something: each
    body line, formatted by the chart library as `"<label>: <value>"`, is cut
    with `split(":")`; piece 0 becomes the dataset title and piece 1 the
    value shown in the pill. */
module Tooltip {
  import opened Wrappers
  import opened Strings

  /** Title and value of one tooltip body line; the value is `None` where
      JavaScript reads `undefined` (a line without a colon). */
  datatype BodyLine = BodyLine(title: string, value: Option<string>)

  /** `body[0].split(":")[0]` and `body[0].split(":")[1]`. */
  function SplitBodyLine(line: string): BodyLine
  {
    var pieces := Split(line, ':');
    BodyLine(pieces[0], if |pieces| > 1 then Some(pieces[1]) else None)
  }

  /** The title is the text before the first colon and never contains one.
      The value is the text between the first and the second colon (or the
      end of the line), not everything after the first colon; a line without
      a colon has no value. */
  lemma SplitBodyLineSpec(line: string)
    ensures var b := SplitBodyLine(line);
      && ':' !in b.title
      && (':' !in line ==> b.title == line && b.value == None)
      && (':' in line ==>
            b.value.Some? && ':' !in b.value.value
            && var n := |b.title| + 1 + |b.value.value|;
            n <= |line| && line[..n] == b.title + ":" + b.value.value
            && (n == |line| || line[n] == ':'))
  {
    SplitFirstPieces(line, ':');
  }

  /** The line the chart library produces for the first default dataset. */
  lemma SplitDatasetLine()
    ensures SplitBodyLine("Dataset: 42") == BodyLine("Dataset", Some(" 42"))
  {
    SplitCons("Dataset", ':', " 42");
    SplitNone(" 42", ':');
    assert "Dataset: 42" == "Dataset" + [':'] + " 42";
  }

  /** A label that itself holds a colon shifts the pieces: the value is cut
      at the second colon. */
  lemma SplitLineWithTwoColons()
    ensures SplitBodyLine("Sales: Q1: 42") == BodyLine("Sales", Some(" Q1"))
  {
    var a, b, c := "Sales", " Q1", " 42";
    SplitCons(b, ':', c);
    SplitCons(a, ':', b + [':'] + c);
    assert "Sales: Q1: 42" == a + [':'] + (b + [':'] + c);
  }
}
