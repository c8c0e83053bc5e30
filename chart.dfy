/** The `LineGraph` component: its construction-time normalisation and the
    label splitter `mySplit` used when rendering. */
module Chart {
  import opened Wrappers
  import opened Strings
  import opened Annotations
  import opened Datasets

  /** `mySplit(str)`: the axis labels, split on commas. */
  function MySplit(str: string): (r: seq<string>)
    ensures |r| == Count(str, ',') + 1
    ensures Join(r, ',') == str
    ensures forall i :: 0 <= i < |r| ==> ',' !in r[i]
    ensures str == "" ==> r == [""]
  {
    SplitLength(str, ',');
    JoinSplit(str, ',');
    SplitPiecesFree(str, ',');
    Split(str, ',')
  }

  class LineGraph {
    /** The annotation descriptors handed to the annotation plugin. */
    var annotations: seq<LineAnnotation>

    /** Allocation with the field initialiser `annotations = []`. */
    constructor Empty()
      ensures annotations == []
    {
      annotations := [];
    }

    /** The body of the constructor: builds the annotation descriptors
        (updating the input annotations), stores them, then normalises the
        datasets in place. Reports `false` where the colour resolver threw;
        when that happens in the annotation fold, neither the field nor the
        datasets are changed. */
    method Init(dataSet: array<Dataset>, anns: array<AnnotationInput>, smooth: real) returns (ok: bool)
      modifies this, dataSet, anns
      ensures anns[..] == Reduce(old(anns[..])).inputs
      ensures Reduce(old(anns[..])).lines.None? ==>
        !ok && annotations == old(annotations) && dataSet[..] == old(dataSet[..])
      ensures Reduce(old(anns[..])).lines.Some? ==>
        annotations == Reduce(old(anns[..])).lines.value
        && dataSet[..] == NormaliseAll(old(dataSet[..]), smooth).entries
        && ok == NormaliseAll(old(dataSet[..]), smooth).ok
    {
      var built := BuildAnnotations(anns);
      if built.None? {
        return false;
      }
      annotations := built.value;
      ok := NormaliseDatasets(dataSet, smooth);
    }
  }

  /** `new LineGraph(props)`: the component, or `None` where its constructor
      throws. */
  method Create(dataSet: array<Dataset>, anns: array<AnnotationInput>, smooth: real)
    returns (g: Option<LineGraph>)
    modifies dataSet, anns
    ensures anns[..] == Reduce(old(anns[..])).inputs
    ensures g.Some? <==>
      Reduce(old(anns[..])).lines.Some? && NormaliseAll(old(dataSet[..]), smooth).ok
    ensures Reduce(old(anns[..])).lines.None? ==> dataSet[..] == old(dataSet[..])
    ensures Reduce(old(anns[..])).lines.Some? ==>
      dataSet[..] == NormaliseAll(old(dataSet[..]), smooth).entries
    ensures g.Some? ==>
      fresh(g.value) && g.value.annotations == Reduce(old(anns[..])).lines.value
  {
    var graph := new LineGraph.Empty();
    var ok := graph.Init(dataSet, anns, smooth);
    g := if ok then Some(graph) else None;
  }
}
