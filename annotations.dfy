/** The annotation builder of the chart's constructor: `props.annotations`
    is folded with `reduce` into a new list of horizontal threshold lines.
    On the way each input annotation that has a `borderColor` has that colour
    replaced, in the input object itself, by the resolved colour. */
module Annotations {
  import opened Wrappers
  import opened Sequences
  import opened Colour
  import opened JsParseInt

  /** One entry of `props.annotations`: the threshold as the author typed it
      and an optional border colour. */
  datatype AnnotationInput = AnnotationInput(value: string, borderColor: Option<string>)

  /** One line descriptor handed to the annotation plugin. `kind` is the
      descriptor's `type` key (`type` is a keyword here). `value` is `None`
      where `parseInt` gives `NaN`; `borderColor` is `None` where the input
      had none (JavaScript's `undefined`). */
  datatype LineAnnotation = LineAnnotation(
    kind: string, mode: string, scaleID: string,
    value: Option<int>, borderColor: Option<string>,
    borderWidth: int, borderDash: seq<int>)

  /** The fixed shape every descriptor has. */
  predicate FixedShape(l: LineAnnotation)
  {
    l.kind == "line" && l.mode == "horizontal" && l.scaleID == "y-axis-0"
    && l.borderWidth == 2 && l.borderDash == [4, 5]
  }

  /** The in-place colour update of one input annotation; `None` where the
      colour resolver throws. */
  function ResolveInput(a: AnnotationInput): Option<AnnotationInput>
  {
    match a.borderColor
    case None => Some(a)
    case Some(c) =>
      match RgbFromVar(c)
      case None => None
      case Some(c') => Some(a.(borderColor := Some(c')))
  }

  /** The descriptor pushed for one (already updated) input annotation. */
  function LineOf(a: AnnotationInput): LineAnnotation
  {
    LineAnnotation("line", "horizontal", "y-axis-0", ParseInt(a.value), a.borderColor, 2, [4, 5])
  }

  /** State after the fold: the input annotations as updated, and the
      accumulated list, `None` when the fold threw. */
  datatype Reduced = Reduced(inputs: seq<AnnotationInput>, lines: Option<seq<LineAnnotation>>)

  /** The `reduce`, from the first annotation on. When the resolver throws,
      that annotation and all later ones are left as they were. */
  function Reduce(s: seq<AnnotationInput>): (r: Reduced)
    ensures |r.inputs| == |s|
    ensures r.lines.Some? ==> |r.lines.value| == |s|
  {
    if s == [] then Reduced([], Some([]))
    else
      match ResolveInput(s[0])
      case None => Reduced(s, None)
      case Some(a) =>
        var r := Reduce(s[1..]);
        Reduced([a] + r.inputs, Prepend(LineOf(a), r.lines))
  }

  function Prepend(l: LineAnnotation, lines: Option<seq<LineAnnotation>>): Option<seq<LineAnnotation>>
  {
    match lines
    case None => None
    case Some(ls) => Some([l] + ls)
  }

  /** The fold succeeds exactly when every colour can be resolved. */
  lemma {:induction false} ReduceSucceeds(s: seq<AnnotationInput>)
    ensures Reduce(s).lines.Some? <==> forall i :: 0 <= i < |s| ==> ResolveInput(s[i]).Some?
  {
    if s != [] && ResolveInput(s[0]).Some? {
      ReduceSucceeds(s[1..]);
      assert forall i :: 1 <= i < |s| ==> s[1..][i - 1] == s[i];
    }
  }

  /** The fold keeps the number and the order of the annotations: entry `i`
      of the result is built from input `i`, has the fixed shape, carries
      `parseInt` of the input's value and the resolved border colour; and each
      input annotation now holds its resolved colour. */
  lemma {:induction false} ReduceEntries(s: seq<AnnotationInput>)
    requires Reduce(s).lines.Some?
    ensures var r := Reduce(s).lines.value;
      forall i :: 0 <= i < |s| ==>
           ResolveInput(s[i]).Some?
           && Reduce(s).inputs[i] == ResolveInput(s[i]).value
           && FixedShape(r[i])
           && r[i].value == ParseInt(s[i].value)
           && r[i].borderColor == (if s[i].borderColor.None? then None
                                   else RgbFromVar(s[i].borderColor.value))
  {
    if s != [] {
      ReduceEntries(s[1..]);
      assert forall i :: 1 <= i < |s| ==> s[1..][i - 1] == s[i];
    }
  }

  /** When the resolver throws on annotation `k`, the earlier annotations
      keep their resolved colours and `k` and every later one are untouched. */
  lemma {:induction false} ReduceFailure(s: seq<AnnotationInput>, k: nat)
    requires k < |s| && ResolveInput(s[k]).None?
    requires forall i :: 0 <= i < k ==> ResolveInput(s[i]).Some?
    ensures Reduce(s).lines.None?
    ensures forall i :: 0 <= i < k ==> Reduce(s).inputs[i] == ResolveInput(s[i]).value
    ensures Reduce(s).inputs[k..] == s[k..]
  {
    if k > 0 {
      ReduceFailure(s[1..], k - 1);
      assert s[1..][k - 1..] == s[k..];
      assert forall i :: 1 <= i < k ==> s[1..][i - 1] == s[i];
    }
  }

  /** The constructor's `props.annotations.reduce(...)`: updates the input
      annotations in place and returns the accumulated descriptors, or `None`
      when the colour resolver throws. */
  method BuildAnnotations(anns: array<AnnotationInput>) returns (result: Option<seq<LineAnnotation>>)
    modifies anns
    ensures anns[..] == Reduce(old(anns[..])).inputs
    ensures result == Reduce(old(anns[..])).lines
  {
    ghost var s := anns[..];
    ghost var total := Reduce(s);
    var acc: seq<LineAnnotation> := [];
    var i := 0;
    FoldStart(s);
    while i < anns.Length
      invariant |s| == anns.Length && FoldState(s, total, anns[..], i, acc)
    {
      ghost var before := anns[..];
      var resolved := ResolveAt(anns, i);
      if !resolved {
        FoldStop(s, total, before, i, acc);
        return None;
      }
      FoldAdvance(s, total, before, i, acc, anns[i]);
      acc := acc + [LineOf(anns[i])];
      i := i + 1;
    }
    FoldEnd(s, total, anns[..], i, acc);
    result := Some(acc);
  }

  /** The colour update of annotation `i` inside the fold: rewrites its
      colour in place when it resolves, and reports whether it did. */
  method ResolveAt(anns: array<AnnotationInput>, i: nat) returns (resolved: bool)
    requires i < anns.Length
    modifies anns
    ensures resolved == ResolveInput(old(anns[i])).Some?
    ensures resolved ==> anns[..] == old(anns[..])[i := ResolveInput(old(anns[i])).value]
    ensures !resolved ==> anns[..] == old(anns[..])
  {
    var a := anns[i];
    if a.borderColor.Some? {
      var c := RgbFromVar(a.borderColor.value);
      if c.None? {
        return false;
      }
      anns[i] := a.(borderColor := c);
    }
    resolved := true;
  }

  /** The state of the fold after `i` annotations: `cur` is the array, whose
      first `i` entries are rewritten and the rest untouched, `acc` the
      descriptors pushed so far, and `total` what the whole fold gives. */
  ghost predicate FoldState(s: seq<AnnotationInput>, total: Reduced, cur: seq<AnnotationInput>,
                            i: nat, acc: seq<LineAnnotation>)
  {
    i <= |s| == |cur| && cur[i..] == s[i..]
    && total.inputs == cur[..i] + Reduce(s[i..]).inputs
    && total.lines == PrependAll(acc, Reduce(s[i..]).lines)
  }

  lemma FoldStart(s: seq<AnnotationInput>)
    ensures FoldState(s, Reduce(s), s, 0, [])
  {
    assert s[0..] == s;
    PrependAllNothing(Reduce(s).lines);
  }

  /** The fold state after annotation `i` has been resolved to `a` and written
      back. */
  lemma FoldAdvance(s: seq<AnnotationInput>, total: Reduced, cur: seq<AnnotationInput>,
                    i: nat, acc: seq<LineAnnotation>, a: AnnotationInput)
    requires FoldState(s, total, cur, i, acc) && i < |s| && ResolveInput(cur[i]) == Some(a)
    ensures FoldState(s, total, cur[i := a], i + 1, acc + [LineOf(a)])
  {
    assert cur[i] == s[i] by { assert cur[i..][0] == s[i..][0]; }
    assert cur[i + 1..] == s[i + 1..] by { assert cur[i + 1..] == cur[i..][1..]; }
    UpdateSlices(cur, i, a);
    ContinueAt(s, i, total, cur[..i], acc, a);
  }

  /** Where annotation `i` does not resolve, the fold throws with the array as
      it stands. */
  lemma FoldStop(s: seq<AnnotationInput>, total: Reduced, cur: seq<AnnotationInput>,
                 i: nat, acc: seq<LineAnnotation>)
    requires FoldState(s, total, cur, i, acc) && i < |s| && ResolveInput(cur[i]).None?
    ensures total == Reduced(cur, None)
  {
    assert cur[i] == s[i] by { assert cur[i..][0] == s[i..][0]; }
    StopAt(s, i, total, cur[..i], acc);
    assert cur == cur[..i] + cur[i..];
  }

  /** After the last annotation the array and the descriptors are the fold's. */
  lemma FoldEnd(s: seq<AnnotationInput>, total: Reduced, cur: seq<AnnotationInput>,
                i: nat, acc: seq<LineAnnotation>)
    requires FoldState(s, total, cur, i, acc) && i == |s|
    ensures total == Reduced(cur, Some(acc))
  {
    assert cur[..i] == cur;
    assert s[i..] == [] && acc + [] == acc;
  }

  /** The fold's invariant survives one resolved annotation. */
  lemma ContinueAt(s: seq<AnnotationInput>, i: nat, total: Reduced, done: seq<AnnotationInput>,
                   acc: seq<LineAnnotation>, a: AnnotationInput)
    requires i < |s| && ResolveInput(s[i]) == Some(a)
    requires total.inputs == done + Reduce(s[i..]).inputs
    requires total.lines == PrependAll(acc, Reduce(s[i..]).lines)
    ensures total.inputs == done + [a] + Reduce(s[i + 1..]).inputs
    ensures total.lines == PrependAll(acc + [LineOf(a)], Reduce(s[i + 1..]).lines)
  {
    ReduceAtSome(s, i, a);
    AccumulateStep(total, Reduce(s[i..]), Reduce(s[i + 1..]), done, acc, a);
  }

  /** Moving one resolved annotation from the fold into the accumulated part. */
  lemma AccumulateStep(total: Reduced, here: Reduced, next: Reduced,
                       done: seq<AnnotationInput>, acc: seq<LineAnnotation>, a: AnnotationInput)
    requires here == Reduced([a] + next.inputs, Prepend(LineOf(a), next.lines))
    requires total.inputs == done + here.inputs
    requires total.lines == PrependAll(acc, here.lines)
    ensures total.inputs == done + [a] + next.inputs
    ensures total.lines == PrependAll(acc + [LineOf(a)], next.lines)
  {
    assert done + ([a] + next.inputs) == done + [a] + next.inputs;
    PrependAllStep(acc, LineOf(a), next.lines);
  }

  /** Where the resolver throws, the fold leaves the rest as it was. */
  lemma StopAt(s: seq<AnnotationInput>, i: nat, total: Reduced, done: seq<AnnotationInput>,
               acc: seq<LineAnnotation>)
    requires i < |s| && ResolveInput(s[i]).None?
    requires total.inputs == done + Reduce(s[i..]).inputs
    requires total.lines == PrependAll(acc, Reduce(s[i..]).lines)
    ensures total == Reduced(done + s[i..], None)
  {
    assert s[i..][0] == s[i];
    assert Reduce(s[i..]) == Reduced(s[i..], None);
  }

  /** The fold from a resolved annotation `i` on, in terms of the fold after
      it. */
  lemma ReduceAtSome(s: seq<AnnotationInput>, i: nat, a: AnnotationInput)
    requires i < |s| && ResolveInput(s[i]) == Some(a)
    ensures Reduce(s[i..]) ==
      Reduced([a] + Reduce(s[i + 1..]).inputs, Prepend(LineOf(a), Reduce(s[i + 1..]).lines))
  {
    assert s[i..][0] == s[i] && s[i..][1..] == s[i + 1..];
  }

  function PrependAll(acc: seq<LineAnnotation>, lines: Option<seq<LineAnnotation>>): Option<seq<LineAnnotation>>
  {
    match lines
    case None => None
    case Some(ls) => Some(acc + ls)
  }

  lemma PrependAllNothing(lines: Option<seq<LineAnnotation>>)
    ensures PrependAll([], lines) == lines
  {
    if lines.Some? {
      assert [] + lines.value == lines.value;
    }
  }

  lemma PrependAllStep(acc: seq<LineAnnotation>, l: LineAnnotation, lines: Option<seq<LineAnnotation>>)
    ensures PrependAll(acc, Prepend(l, lines)) == PrependAll(acc + [l], lines)
  {
    if lines.Some? {
      assert acc + ([l] + lines.value) == acc + [l] + lines.value;
    }
  }
}
