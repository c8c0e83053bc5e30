/** The dataset normaliser of the chart's constructor: `props.dataSet` is
    walked with `forEach`, and each dataset record is updated in place so that
    the chart library can draw it. A colour whose resolution throws ends the
    walk; what was already written stays written. */
module Datasets {
  import opened Wrappers
  import opened Sequences
  import opened Strings
  import opened Colour

  /** `fill` arrives as the text the author typed and may become a boolean. */
  datatype Fill = FillText(text: string) | FillFlag(flag: bool)

  /** `data` may be missing, may be comma-separated text, or may already be a
      list of values. */
  datatype Data = NoData | DataText(text: string) | DataPoints(points: seq<string>)

  /** The seven styling fields written on every dataset. `lineTension` is the
      `smooth` property as given. */
  datatype Style = Style(
    lineTension: real, borderWidth: int, pointRadius: int, pointBorderWidth: int,
    pointHoverBackgroundColor: string, pointHoverBorderWidth: int, pointHoverRadius: int)

  /** One dataset record. `labelText` is the record's `label` field (`label`
      is a keyword here); `style` is `None` until the styling fields have been
      written. */
  datatype Dataset = Dataset(
    labelText: string, data: Data, fill: Fill,
    backgroundColor: string, borderColor: string, pointBackgroundColor: string,
    style: Option<Style>)

  function FixedStyle(smooth: real): Style
  {
    Style(smooth, 4, 5, 4, "white", 4, 8)
  }

  /** The record after the callback, and whether the callback finished
      (`false` where the colour resolver threw). */
  datatype Step = Step(entry: Dataset, ok: bool)

  /** The `forEach` callback on one record, update by update. */
  function NormaliseEntry(d: Dataset, smooth: real): Step
  {
    var d1 := if d.fill == FillText("false") then d.(fill := FillFlag(false)) else d;
    var d2 := if d1.data.DataText? then d1.(data := DataPoints(Split(d1.data.text, ','))) else d1;
    var bg := if Contains(d2.backgroundColor, "var") then RgbFromVar(d2.backgroundColor) else Some(d2.backgroundColor);
    if bg.None? then Step(d2, false)
    else
      var d3 := d2.(backgroundColor := bg.value);
      var bc := if Contains(d3.borderColor, "var") then RgbFromVar(d3.borderColor) else Some(d3.borderColor);
      if bc.None? then Step(d3, false)
      else Step(d3.(borderColor := bc.value, style := Some(FixedStyle(smooth))), true)
  }

  /** What one call of the callback does to a record: the text `"false"` in
      `fill` becomes `false` and any other `fill` stays; text `data` is split
      on commas and other `data` stays; the callback finishes exactly when
      both colours resolve, and then the colours are the resolved ones, no
      longer mention `var`, and the seven styling fields are set. When it
      throws, the styling fields and the border colour are as they were, and
      the background colour is the resolved one if it resolved (the border
      threw) and the original text otherwise (the background threw). `label`
      and `pointBackgroundColor` are never changed. */
  lemma NormaliseEntrySpec(d: Dataset, smooth: real)
    ensures var r := NormaliseEntry(d, smooth);
      && r.entry.labelText == d.labelText
      && r.entry.pointBackgroundColor == d.pointBackgroundColor
      && r.entry.fill == (if d.fill == FillText("false") then FillFlag(false) else d.fill)
      && r.entry.data == (if d.data.DataText? then DataPoints(Split(d.data.text, ',')) else d.data)
      && (r.ok <==> RgbFromVar(d.backgroundColor).Some? && RgbFromVar(d.borderColor).Some?)
      && (r.ok ==>
            r.entry.backgroundColor == RgbFromVar(d.backgroundColor).value
            && r.entry.borderColor == RgbFromVar(d.borderColor).value
            && !Contains(r.entry.backgroundColor, "var")
            && !Contains(r.entry.borderColor, "var")
            && r.entry.style == Some(Style(smooth, 4, 5, 4, "white", 4, 8)))
      && (!r.ok ==>
            r.entry.style == d.style
            && r.entry.borderColor == d.borderColor
            && r.entry.backgroundColor ==
                 (if RgbFromVar(d.backgroundColor).Some? then RgbFromVar(d.backgroundColor).value
                  else d.backgroundColor))
  {
    if RgbFromVar(d.backgroundColor).Some? {
      RgbFromVarIdempotent(d.backgroundColor);
    }
    if RgbFromVar(d.borderColor).Some? {
      RgbFromVarIdempotent(d.borderColor);
    }
  }

  /** Running the callback again on a record it finished changes nothing. */
  lemma NormaliseEntryIdempotent(d: Dataset, smooth: real)
    requires NormaliseEntry(d, smooth).ok
    ensures var e := NormaliseEntry(d, smooth).entry;
      NormaliseEntry(e, smooth) == Step(e, true)
  {
    var e := NormaliseEntry(d, smooth).entry;
    NormaliseEntrySpec(d, smooth);
    RgbFromVarIdempotent(d.backgroundColor);
    RgbFromVarIdempotent(d.borderColor);
    assert e.fill != FillText("false");
    assert !e.data.DataText?;
  }

  /** The walk over all records and whether it finished. */
  datatype Normalised = Normalised(entries: seq<Dataset>, ok: bool)

  /** The `forEach`, from the first record on. Where the callback throws, that
      record keeps its partial update and later records are untouched. */
  function NormaliseAll(s: seq<Dataset>, smooth: real): (r: Normalised)
    ensures |r.entries| == |s|
  {
    if s == [] then Normalised([], true)
    else
      var st := NormaliseEntry(s[0], smooth);
      if !st.ok then Normalised([st.entry] + s[1..], false)
      else
        var r := NormaliseAll(s[1..], smooth);
        Normalised([st.entry] + r.entries, r.ok)
  }

  /** The walk finishes exactly when every record's colours resolve, and then
      every record is what the callback makes of it. */
  lemma {:induction false} NormaliseAllSpec(s: seq<Dataset>, smooth: real)
    ensures NormaliseAll(s, smooth).ok <==> forall i :: 0 <= i < |s| ==> NormaliseEntry(s[i], smooth).ok
    ensures NormaliseAll(s, smooth).ok ==>
      forall i :: 0 <= i < |s| ==> NormaliseAll(s, smooth).entries[i] == NormaliseEntry(s[i], smooth).entry
  {
    if s != [] && NormaliseEntry(s[0], smooth).ok {
      NormaliseAllSpec(s[1..], smooth);
      assert forall i :: 1 <= i < |s| ==> s[1..][i - 1] == s[i];
    }
  }

  /** When the callback throws on record `k`, the earlier records are fully
      normalised, record `k` holds the partial update and the later records
      are untouched. */
  lemma {:induction false} NormaliseAllFailure(s: seq<Dataset>, smooth: real, k: nat)
    requires k < |s| && !NormaliseEntry(s[k], smooth).ok
    requires forall i :: 0 <= i < k ==> NormaliseEntry(s[i], smooth).ok
    ensures !NormaliseAll(s, smooth).ok
    ensures forall i :: 0 <= i <= k ==> NormaliseAll(s, smooth).entries[i] == NormaliseEntry(s[i], smooth).entry
    ensures NormaliseAll(s, smooth).entries[k + 1..] == s[k + 1..]
  {
    if k > 0 {
      NormaliseAllFailure(s[1..], smooth, k - 1);
      assert s[1..][k..] == s[k + 1..];
      assert forall i :: 1 <= i <= k ==> s[1..][i - 1] == s[i];
    }
  }

  /** After a finished walk no `fill` is the text `"false"`, no `data` is
      text, and no colour mentions `var`. */
  lemma {:induction false} NormalisedShape(s: seq<Dataset>, smooth: real)
    requires NormaliseAll(s, smooth).ok
    ensures forall i :: 0 <= i < |s| ==>
      var e := NormaliseAll(s, smooth).entries[i];
      e.fill != FillText("false") && !e.data.DataText?
      && !Contains(e.backgroundColor, "var") && !Contains(e.borderColor, "var")
      && e.style == Some(FixedStyle(smooth))
  {
    NormaliseAllSpec(s, smooth);
    forall i | 0 <= i < |s|
      ensures var e := NormaliseAll(s, smooth).entries[i];
        e.fill != FillText("false") && !e.data.DataText?
        && !Contains(e.backgroundColor, "var") && !Contains(e.borderColor, "var")
        && e.style == Some(FixedStyle(smooth))
    {
      NormaliseEntrySpec(s[i], smooth);
    }
  }

  /** The callback on record `i`: updates `ds[i]` field by field, in the
      order of the source, and reports whether it finished. */
  method NormaliseRecord(ds: array<Dataset>, i: nat, smooth: real) returns (ok: bool)
    requires i < ds.Length
    modifies ds
    ensures ds[i] == NormaliseEntry(old(ds[i]), smooth).entry
    ensures ok == NormaliseEntry(old(ds[i]), smooth).ok
    ensures ds[..] == old(ds[..])[i := ds[i]]
  {
    if ds[i].fill == FillText("false") {
      ds[i] := ds[i].(fill := FillFlag(false));
    }
    if ds[i].data.DataText? {
      ds[i] := ds[i].(data := DataPoints(Split(ds[i].data.text, ',')));
    }
    if Contains(ds[i].backgroundColor, "var") {
      var c := RgbFromVar(ds[i].backgroundColor);
      if c.None? {
        return false;
      }
      ds[i] := ds[i].(backgroundColor := c.value);
    }
    if Contains(ds[i].borderColor, "var") {
      var c := RgbFromVar(ds[i].borderColor);
      if c.None? {
        return false;
      }
      ds[i] := ds[i].(borderColor := c.value);
    }
    ds[i] := ds[i].(style := Some(FixedStyle(smooth)));
    ok := true;
  }

  /** The constructor's `props.dataSet.forEach(...)`. */
  method NormaliseDatasets(ds: array<Dataset>, smooth: real) returns (ok: bool)
    modifies ds
    ensures ds[..] == NormaliseAll(old(ds[..]), smooth).entries
    ensures ok == NormaliseAll(old(ds[..]), smooth).ok
  {
    ghost var s := ds[..];
    ghost var total := NormaliseAll(s, smooth);
    var i := 0;
    WalkStart(s, smooth);
    while i < ds.Length
      invariant |s| == ds.Length && WalkState(s, total, ds[..], i, smooth)
    {
      ghost var before := ds[..];
      var done := NormaliseRecord(ds, i, smooth);
      if !done {
        WalkStop(s, total, before, i, smooth);
        return false;
      }
      WalkAdvance(s, total, before, i, smooth);
      i := i + 1;
    }
    WalkEnd(s, total, ds[..], i, smooth);
    ok := true;
  }

  /** The state of the walk after `i` records: `cur` is the array, whose
      first `i` records are normalised and the rest untouched, and `total`
      what the whole walk gives. */
  ghost predicate WalkState(s: seq<Dataset>, total: Normalised, cur: seq<Dataset>, i: nat, smooth: real)
  {
    i <= |s| == |cur| && cur[i..] == s[i..]
    && total.entries == cur[..i] + NormaliseAll(s[i..], smooth).entries
    && total.ok == NormaliseAll(s[i..], smooth).ok
  }

  lemma WalkStart(s: seq<Dataset>, smooth: real)
    ensures WalkState(s, NormaliseAll(s, smooth), s, 0, smooth)
  {
    assert s[0..] == s;
  }

  /** The walk state after record `i` has been finished by the callback and
      written back. */
  lemma WalkAdvance(s: seq<Dataset>, total: Normalised, cur: seq<Dataset>, i: nat, smooth: real)
    requires WalkState(s, total, cur, i, smooth) && i < |s| && NormaliseEntry(cur[i], smooth).ok
    ensures WalkState(s, total, cur[i := NormaliseEntry(cur[i], smooth).entry], i + 1, smooth)
  {
    assert cur[i] == s[i] by { assert cur[i..][0] == s[i..][0]; }
    assert cur[i + 1..] == s[i + 1..] by { assert cur[i + 1..] == cur[i..][1..]; }
    var e := NormaliseEntry(s[i], smooth).entry;
    UpdateSlices(cur, i, e);
    NormaliseAt(s, i, smooth);
    WalkAlgebra(total, NormaliseAll(s[i..], smooth), NormaliseAll(s[i + 1..], smooth),
                NormaliseEntry(s[i], smooth), s[i + 1..], cur[..i]);
  }

  /** Where the callback throws on record `i`, the walk ends with the array as
      it stands after the partial update. */
  lemma WalkStop(s: seq<Dataset>, total: Normalised, cur: seq<Dataset>, i: nat, smooth: real)
    requires WalkState(s, total, cur, i, smooth) && i < |s| && !NormaliseEntry(cur[i], smooth).ok
    ensures total == Normalised(cur[i := NormaliseEntry(cur[i], smooth).entry], false)
  {
    assert cur[i] == s[i] by { assert cur[i..][0] == s[i..][0]; }
    assert cur[i + 1..] == s[i + 1..] by { assert cur[i + 1..] == cur[i..][1..]; }
    var e := NormaliseEntry(s[i], smooth).entry;
    UpdateSlices(cur, i, e);
    NormaliseAt(s, i, smooth);
    WalkAlgebra(total, NormaliseAll(s[i..], smooth), NormaliseAll(s[i + 1..], smooth),
                NormaliseEntry(s[i], smooth), s[i + 1..], cur[..i]);
  }

  /** After the last record the array and the flag are the walk's. */
  lemma WalkEnd(s: seq<Dataset>, total: Normalised, cur: seq<Dataset>, i: nat, smooth: real)
    requires WalkState(s, total, cur, i, smooth) && i == |s|
    ensures total == Normalised(cur, true)
  {
    assert cur[..i] == cur;
    assert s[i..] == [];
  }

  /** Moving one record from the walk into the finished part. */
  lemma WalkAlgebra(total: Normalised, here: Normalised, next: Normalised, st: Step,
                    rest: seq<Dataset>, done: seq<Dataset>)
    requires here == if !st.ok then Normalised([st.entry] + rest, false)
                     else Normalised([st.entry] + next.entries, next.ok)
    requires total.entries == done + here.entries && total.ok == here.ok
    ensures !st.ok ==> total == Normalised(done + [st.entry] + rest, false)
    ensures st.ok ==> total.entries == done + [st.entry] + next.entries && total.ok == next.ok
  {
    assert done + ([st.entry] + rest) == done + [st.entry] + rest;
    assert done + ([st.entry] + next.entries) == done + [st.entry] + next.entries;
  }

  /** The walk from record `i` on, in terms of record `i` and the walk after
      it. */
  lemma NormaliseAt(s: seq<Dataset>, i: nat, smooth: real)
    requires i < |s|
    ensures var st := NormaliseEntry(s[i], smooth);
      NormaliseAll(s[i..], smooth) ==
        if !st.ok then Normalised([st.entry] + s[i + 1..], false)
        else Normalised([st.entry] + NormaliseAll(s[i + 1..], smooth).entries,
                        NormaliseAll(s[i + 1..], smooth).ok)
  {
    assert s[i..][0] == s[i] && s[i..][1..] == s[i + 1..];
  }
}
