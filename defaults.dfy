/** The component's default properties and what the constructor and the
    label splitter make of them. Each default comma-separated text is written
    as its pieces joined by commas, which is the same string. */
module Defaults {
  import opened Wrappers
  import opened Strings
  import opened JsParseInt
  import opened Colour
  import opened Annotations
  import opened Datasets
  import opened Chart

  const Months: seq<string> :=
    ["January", "February", "March", "April", "May", "June", "July",
     "August", "September", "October", "November", "December"]

  /** `labels`: the month names separated by commas. */
  const DefaultLabels: string := Join(Months, ',')

  const FirstPoints: seq<string> :=
    ["44", "570", "311", "358", "463", "687", "225", "673", "559", "367", "524", "325"]

  const SecondPoints: seq<string> :=
    ["725", "826", "825", "1", "744", "107", "386", "969", "553", "641", "805", "380"]

  const FirstDataset: Dataset :=
    Dataset("Dataset", DataText(Join(FirstPoints, ',')), FillText("false"),
            "rgba(115, 121, 137, 0.3)", "#737989", "white", None)

  const SecondDataset: Dataset :=
    Dataset("Dataset2", DataText(Join(SecondPoints, ',')), FillText("0"),
            "rgba(244, 178, 65, 0.3)", "rgb(244, 178, 65)", "white", None)

  const DefaultDataSet: seq<Dataset> := [FirstDataset, SecondDataset]

  const DefaultAnnotations: seq<AnnotationInput> := [
    AnnotationInput("100", Some("rgb(255, 0, 0)")),
    AnnotationInput("500", Some("rgb(0, 184, 104)"))
  ]

  /** The default labels split into the twelve month names. */
  lemma DefaultLabelsSplit()
    ensures MySplit(DefaultLabels) == Months
  {
    SplitJoin(Months, ',');
  }

  /** The first default series splits into its twelve values. */
  lemma FirstDataSplit()
    ensures Split(Join(FirstPoints, ','), ',') == FirstPoints
  {
    SplitJoin(FirstPoints, ',');
  }

  /** The second default series splits into its twelve values. */
  lemma SecondDataSplit()
    ensures Split(Join(SecondPoints, ','), ',') == SecondPoints
  {
    SplitJoin(SecondPoints, ',');
  }

  /** No `v` occurs in any default colour, so none of them mentions `var`. */
  lemma DefaultColoursPlain()
    ensures 'v' !in "rgba(115, 121, 137, 0.3)" && 'v' !in "#737989"
    ensures 'v' !in "rgba(244, 178, 65, 0.3)" && 'v' !in "rgb(244, 178, 65)"
    ensures 'v' !in "rgb(255, 0, 0)" && 'v' !in "rgb(0, 184, 104)"
  {
  }

  /** A record with text `data` that splits into `points` and colours that do
      not mention `var` is finished by the callback: `fill` is normalised,
      `data` becomes `points`, the colours are kept and the styling fields are
      written. */
  lemma PlainEntry(d: Dataset, smooth: real, points: seq<string>)
    requires 'v' !in d.backgroundColor && 'v' !in d.borderColor
    requires d.data.DataText? && Split(d.data.text, ',') == points
    ensures NormaliseEntry(d, smooth) == Step(
      d.(fill := if d.fill == FillText("false") then FillFlag(false) else d.fill,
         data := DataPoints(points),
         style := Some(Style(smooth, 4, 5, 4, "white", 4, 8))), true)
  {
    ContainsNeedsFirst(d.backgroundColor, "var");
    ContainsNeedsFirst(d.borderColor, "var");
  }

  /** The first default dataset: `fill` becomes `false`, the series is split
      into its twelve values, the colours are kept and the styling fields are
      written. */
  lemma FirstDatasetNormalised(smooth: real)
    ensures NormaliseEntry(FirstDataset, smooth) == Step(
      FirstDataset.(data := DataPoints(FirstPoints), fill := FillFlag(false),
                    style := Some(Style(smooth, 4, 5, 4, "white", 4, 8))), true)
  {
    var d := FirstDataset;
    assert d.backgroundColor == "rgba(115, 121, 137, 0.3)" && d.borderColor == "#737989";
    assert d.data == DataText(Join(FirstPoints, ',')) && d.fill == FillText("false");
    DefaultColoursPlain();
    FirstDataSplit();
    PlainEntry(d, smooth, FirstPoints);
  }

  /** The second default dataset: `fill` keeps the text `"0"`, the series is
      split into its twelve values, the colours are kept and the styling
      fields are written. */
  lemma SecondDatasetNormalised(smooth: real)
    ensures NormaliseEntry(SecondDataset, smooth) == Step(
      SecondDataset.(data := DataPoints(SecondPoints),
                     style := Some(Style(smooth, 4, 5, 4, "white", 4, 8))), true)
  {
    var d := SecondDataset;
    assert d.backgroundColor == "rgba(244, 178, 65, 0.3)" && d.borderColor == "rgb(244, 178, 65)";
    assert d.data == DataText(Join(SecondPoints, ',')) && d.fill == FillText("0");
    DefaultColoursPlain();
    SecondDataSplit();
    PlainEntry(d, smooth, SecondPoints);
  }

  /** A walk over two records whose callbacks both finish. */
  lemma NormalisePair(x: Dataset, y: Dataset, smooth: real)
    requires NormaliseEntry(x, smooth).ok && NormaliseEntry(y, smooth).ok
    ensures NormaliseAll([x, y], smooth) ==
      Normalised([NormaliseEntry(x, smooth).entry, NormaliseEntry(y, smooth).entry], true)
  {
    assert [x, y][1..] == [y];
    assert [y][1..] == [];
    assert NormaliseAll([y], smooth) == Normalised([NormaliseEntry(y, smooth).entry], true);
  }

  /** With the default datasets the walk finishes, and each record ends up as
      its callback leaves it. */
  lemma DefaultDataSetNormalised(smooth: real)
    ensures NormaliseAll(DefaultDataSet, smooth) == Normalised(
      [NormaliseEntry(FirstDataset, smooth).entry, NormaliseEntry(SecondDataset, smooth).entry], true)
    ensures NormaliseAll(DefaultDataSet, smooth).entries[0].fill == FillFlag(false)
    ensures NormaliseAll(DefaultDataSet, smooth).entries[1].fill == FillText("0")
  {
    FirstDatasetNormalised(smooth);
    SecondDatasetNormalised(smooth);
    NormalisePair(FirstDataset, SecondDataset, smooth);
  }

  /** The default annotation values read as 100 and 500. */
  lemma DefaultValues()
    ensures ParseInt("100") == Some(100) && ParseInt("500") == Some(500)
  {
    assert IntText(100) == "100";
    ParseIntRoundTrip("", 100, "");
    assert "" + "100" + "" == "100";
    assert IntText(500) == "500";
    ParseIntRoundTrip("", 500, "");
    assert "" + "500" + "" == "500";
  }

  /** Two annotations whose colours need no resolving are kept as they are and
      give one descriptor each, in order. */
  lemma ReducePlainPair(a: AnnotationInput, b: AnnotationInput)
    requires a.borderColor.Some? && 'v' !in a.borderColor.value
    requires b.borderColor.Some? && 'v' !in b.borderColor.value
    ensures Reduce([a, b]) == Reduced([a, b], Some([LineOf(a), LineOf(b)]))
  {
    ContainsNeedsFirst(a.borderColor.value, "var");
    RgbFromVarFails(a.borderColor.value);
    assert ResolveInput(a) == Some(a);
    ContainsNeedsFirst(b.borderColor.value, "var");
    RgbFromVarFails(b.borderColor.value);
    assert ResolveInput(b) == Some(b);
    assert [a, b][1..] == [b];
    assert [b][1..] == [];
    assert Reduce([]) == Reduced([], Some([]));
    assert Reduce([b]) == Reduced([b] + [], Prepend(LineOf(b), Some([])));
    assert [b] + [] == [b] && [LineOf(b)] + [] == [LineOf(b)];
    assert [a] + [b] == [a, b] && [LineOf(a)] + [LineOf(b)] == [LineOf(a), LineOf(b)];
  }

  /** The default annotations become two horizontal lines at 100 and 500, in
      their own colours, and are themselves left unchanged. */
  lemma DefaultAnnotationsReduced()
    ensures Reduce(DefaultAnnotations) == Reduced(DefaultAnnotations, Some([
      LineAnnotation("line", "horizontal", "y-axis-0", Some(100), Some("rgb(255, 0, 0)"), 2, [4, 5]),
      LineAnnotation("line", "horizontal", "y-axis-0", Some(500), Some("rgb(0, 184, 104)"), 2, [4, 5])
    ]))
  {
    var a := DefaultAnnotations[0];
    var b := DefaultAnnotations[1];
    assert a == AnnotationInput("100", Some("rgb(255, 0, 0)"));
    assert b == AnnotationInput("500", Some("rgb(0, 184, 104)"));
    assert DefaultAnnotations == [a, b];
    DefaultColoursPlain();
    DefaultValues();
    ReducePlainPair(a, b);
  }
}
