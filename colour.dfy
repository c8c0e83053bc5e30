/** The colour resolver `getRgbFromVar`. A colour that mentions `var` (a CSS
    custom-property reference such as `var(--token, rgb(0, 184, 104))`) is
    replaced by the first text matching the regular expression
    `rgb\((\d{1,3}), (\d{1,3}), (\d{1,3})\)`; any other colour is kept. When
    `var` is present and nothing matches, the source indexes the `null` that
    `String.prototype.match` returns and throws; that is `None` here. */
module Colour {
  import opened Wrappers
  import opened Strings

  /** A regular expression made of literal text and capturing `(\d{1,3})`
      groups, in order. */
  datatype Token = Lit(text: string) | Group

  type Pattern = seq<Token>

  /** The pattern of the source: `rgb\((\d{1,3}), (\d{1,3}), (\d{1,3})\)`;
      note the literal comma-and-space separators. */
  const RgbPattern: Pattern :=
    [Lit("rgb("), Group, Lit(", "), Group, Lit(", "), Group, Lit(")")]

  /** Number of capturing groups of a pattern. */
  function GroupCount(pat: Pattern): nat
  {
    if pat == [] then 0 else (if pat[0] == Group then 1 else 0) + GroupCount(pat[1..])
  }

  /** What `\d{1,3}` accepts: one to three ASCII decimal digits. */
  predicate IsGroup(g: string)
  {
    1 <= |g| <= 3 && forall i :: 0 <= i < |g| ==> IsDigit(g[i])
  }

  predicate AllGroups(gs: seq<string>)
  {
    forall i :: 0 <= i < |gs| ==> IsGroup(gs[i])
  }

  /** The text a pattern matches when its groups capture `gs`. */
  function Render(pat: Pattern, gs: seq<string>): string
    requires |gs| == GroupCount(pat)
  {
    if pat == [] then []
    else match pat[0]
      case Lit(t) => t + Render(pat[1..], gs)
      case Group => gs[0] + Render(pat[1..], gs[1..])
  }

  /** Every group is directly followed by a non-empty literal that starts with
      a non-digit. Under this condition backtracking over `\d{1,3}` can only
      succeed with the whole run of digits, so a greedy matcher is exact. */
  predicate GroupsDelimited(pat: Pattern)
  {
    forall i :: 0 <= i < |pat| && pat[i] == Group ==>
      i + 1 < |pat| && pat[i + 1].Lit? && pat[i + 1].text != [] && !IsDigit(pat[i + 1].text[0])
  }

  /** An attempt of the pattern anchored at index `i`: the index where the
      match ends and the captured groups. A group takes the whole run of
      digits, which must be one to three long. */
  function MatchFrom(s: string, i: nat, pat: Pattern): (r: Option<(nat, seq<string>)>)
    requires i <= |s|
    ensures r.Some? ==> i <= r.value.0 <= |s|
    decreases pat
  {
    if pat == [] then Some((i, []))
    else match pat[0]
      case Lit(t) =>
        if LitAt(s, i, t) then
          LitAtOccurs(s, i, t);
          MatchFrom(s, i + |t|, pat[1..])
        else None
      case Group =>
        var k := DigitRun(s, i);
        if 1 <= k <= 3 then
          match MatchFrom(s, i + k, pat[1..])
          case None => None
          case Some((e, gs)) => Some((e, [s[i..i + k]] + gs))
        else None
  }

  /** A successful attempt has matched the text the pattern renders with the
      captured groups. */
  lemma {:induction false} MatchFromSound(s: string, i: nat, pat: Pattern)
    requires i <= |s| && MatchFrom(s, i, pat).Some?
    ensures var (e, gs) := MatchFrom(s, i, pat).value;
      |gs| == GroupCount(pat) && AllGroups(gs)
      && OccursAt(s, Render(pat, gs), i) && e == i + |Render(pat, gs)|
    decreases pat
  {
    if pat != [] {
      if pat[0].Lit? {
        var t := pat[0].text;
        MatchFromSound(s, i + |t|, pat[1..]);
        SoundLitStep(s, i, pat);
      } else {
        var k := DigitRun(s, i);
        MatchFromSound(s, i + k, pat[1..]);
        SoundGroupStep(s, i, pat);
      }
    }
  }

  lemma SoundLitStep(s: string, i: nat, pat: Pattern)
    requires i <= |s| && pat != [] && pat[0].Lit? && MatchFrom(s, i, pat).Some?
    requires var t := pat[0].text;
      i + |t| <= |s| && MatchFrom(s, i + |t|, pat[1..]).Some? &&
      var (e, gs) := MatchFrom(s, i + |t|, pat[1..]).value;
      |gs| == GroupCount(pat[1..]) && AllGroups(gs)
      && OccursAt(s, Render(pat[1..], gs), i + |t|) && e == i + |t| + |Render(pat[1..], gs)|
    ensures var (e, gs) := MatchFrom(s, i, pat).value;
      |gs| == GroupCount(pat) && AllGroups(gs)
      && OccursAt(s, Render(pat, gs), i) && e == i + |Render(pat, gs)|
  {
    var t := pat[0].text;
    var gs := MatchFrom(s, i + |t|, pat[1..]).value.1;
    LitAtOccurs(s, i, t);
    OccursAtConcat(s, t, Render(pat[1..], gs), i);
  }

  lemma SoundGroupStep(s: string, i: nat, pat: Pattern)
    requires i <= |s| && pat != [] && pat[0] == Group && MatchFrom(s, i, pat).Some?
    requires var k := DigitRun(s, i);
      MatchFrom(s, i + k, pat[1..]).Some? &&
      var (e, gs) := MatchFrom(s, i + k, pat[1..]).value;
      |gs| == GroupCount(pat[1..]) && AllGroups(gs)
      && OccursAt(s, Render(pat[1..], gs), i + k) && e == i + k + |Render(pat[1..], gs)|
    ensures var (e, gs) := MatchFrom(s, i, pat).value;
      |gs| == GroupCount(pat) && AllGroups(gs)
      && OccursAt(s, Render(pat, gs), i) && e == i + |Render(pat, gs)|
  {
    var k := DigitRun(s, i);
    var g := s[i..i + k];
    var gs := MatchFrom(s, i + k, pat[1..]).value.1;
    DigitRunSpec(s, i);
    assert OccursAt(s, g, i);
    assert ([g] + gs)[1..] == gs;
    OccursAtConcat(s, g, Render(pat[1..], gs), i);
  }

  /** Wherever a delimited pattern matches, the anchored attempt finds it with
      the same groups: the match at an index is unique. */
  lemma {:induction false} MatchFromComplete(s: string, i: nat, pat: Pattern, gs: seq<string>)
    requires GroupsDelimited(pat)
    requires |gs| == GroupCount(pat) && AllGroups(gs)
    requires OccursAt(s, Render(pat, gs), i)
    ensures MatchFrom(s, i, pat) == Some((i + |Render(pat, gs)|, gs))
    decreases pat, 1
  {
    if pat != [] {
      if pat[0].Lit? {
        CompleteLit(s, i, pat, gs);
      } else {
        CompleteGroup(s, i, pat, gs);
      }
    }
  }

  /** `MatchFromComplete` for a pattern that starts with a literal. */
  lemma {:induction false} CompleteLit(s: string, i: nat, pat: Pattern, gs: seq<string>)
    requires GroupsDelimited(pat) && pat != [] && pat[0].Lit?
    requires |gs| == GroupCount(pat) && AllGroups(gs)
    requires OccursAt(s, Render(pat, gs), i)
    ensures MatchFrom(s, i, pat) == Some((i + |Render(pat, gs)|, gs))
    decreases pat, 0
  {
    var t := pat[0].text;
    assert Render(pat, gs) == t + Render(pat[1..], gs);
    OccursAtConcat(s, t, Render(pat[1..], gs), i);
    DelimitedTail(pat);
    MatchFromComplete(s, i + |t|, pat[1..], gs);
    CompleteLitStep(s, i, pat, gs);
  }

  /** `MatchFromComplete` for a pattern that starts with a group. */
  lemma {:induction false} CompleteGroup(s: string, i: nat, pat: Pattern, gs: seq<string>)
    requires GroupsDelimited(pat) && pat != [] && pat[0] == Group
    requires |gs| == GroupCount(pat) && AllGroups(gs)
    requires OccursAt(s, Render(pat, gs), i)
    ensures MatchFrom(s, i, pat) == Some((i + |Render(pat, gs)|, gs))
    decreases pat, 0
  {
    var g := gs[0];
    assert Render(pat, gs) == g + Render(pat[1..], gs[1..]);
    OccursAtConcat(s, g, Render(pat[1..], gs[1..]), i);
    DelimitedTail(pat);
    AllGroupsTail(gs);
    MatchFromComplete(s, i + |g|, pat[1..], gs[1..]);
    CompleteGroupStep(s, i, pat, gs);
  }

  lemma CompleteLitStep(s: string, i: nat, pat: Pattern, gs: seq<string>)
    requires pat != [] && pat[0].Lit? && |gs| == GroupCount(pat)
    requires OccursAt(s, Render(pat, gs), i)
    requires var t := pat[0].text;
      OccursAt(s, t, i) &&
      MatchFrom(s, i + |t|, pat[1..]) == Some((i + |t| + |Render(pat[1..], gs)|, gs))
    ensures MatchFrom(s, i, pat) == Some((i + |Render(pat, gs)|, gs))
  {
    LitAtOccurs(s, i, pat[0].text);
  }

  lemma CompleteGroupStep(s: string, i: nat, pat: Pattern, gs: seq<string>)
    requires GroupsDelimited(pat) && pat != [] && pat[0] == Group
    requires |gs| == GroupCount(pat) && IsGroup(gs[0])
    requires OccursAt(s, Render(pat, gs), i)
    requires OccursAt(s, gs[0], i) && OccursAt(s, Render(pat[1..], gs[1..]), i + |gs[0]|)
    requires MatchFrom(s, i + |gs[0]|, pat[1..])
      == Some((i + |gs[0]| + |Render(pat[1..], gs[1..])|, gs[1..]))
    ensures MatchFrom(s, i, pat) == Some((i + |Render(pat, gs)|, gs))
  {
    GroupRunExact(s, i, pat, gs);
    assert [gs[0]] + gs[1..] == gs;
  }

  lemma DelimitedTail(pat: Pattern)
    requires pat != [] && GroupsDelimited(pat)
    ensures GroupsDelimited(pat[1..])
  {
    forall j | 0 <= j < |pat[1..]| && pat[1..][j] == Group
      ensures j + 1 < |pat[1..]| && pat[1..][j + 1].Lit?
        && pat[1..][j + 1].text != [] && !IsDigit(pat[1..][j + 1].text[0])
    {
      assert pat[j + 1] == Group;
    }
  }

  lemma AllGroupsTail(gs: seq<string>)
    requires gs != [] && AllGroups(gs)
    ensures IsGroup(gs[0]) && AllGroups(gs[1..])
  {
    forall j | 0 <= j < |gs[1..]| ensures IsGroup(gs[1..][j]) {
      assert gs[1..][j] == gs[j + 1];
    }
  }

  /** A group of a delimited pattern, found in the text, is exactly the run of
      digits at its start. */
  lemma GroupRunExact(s: string, i: nat, pat: Pattern, gs: seq<string>)
    requires GroupsDelimited(pat) && pat != [] && pat[0] == Group
    requires |gs| == GroupCount(pat) && IsGroup(gs[0])
    requires OccursAt(s, gs[0], i) && OccursAt(s, Render(pat[1..], gs[1..]), i + |gs[0]|)
    ensures DigitRun(s, i) == |gs[0]| && s[i..i + |gs[0]|] == gs[0]
  {
    var g := gs[0];
    var lit := pat[1].text;
    assert pat[1..] == [Lit(lit)] + pat[2..];
    assert Render(pat[1..], gs[1..]) == lit + Render(pat[2..], gs[1..]);
    OccursAtConcat(s, lit, Render(pat[2..], gs[1..]), i + |g|);
    assert s[i + |g|] == s[i + |g|..i + |g| + |lit|][0];
    forall j | i <= j < i + |g| ensures IsDigit(s[j]) {
      assert s[j] == s[i..i + |g|][j - i];
    }
    DigitRunOf(s, i, |g|);
  }

  lemma RgbPatternDelimited()
    ensures GroupsDelimited(RgbPattern) && GroupCount(RgbPattern) == 3
  {
  }

  /** The text the regular expression matches, captured groups `gs`. */
  function RgbText(gs: seq<string>): string
    requires |gs| == 3
  {
    RgbPatternDelimited();
    Render(RgbPattern, gs)
  }

  /** The regular expression matches the text `m` at index `p` of `s`. */
  ghost predicate MatchesAt(s: string, p: nat, m: string)
  {
    OccursAt(s, m, p) && exists gs :: |gs| == 3 && AllGroups(gs) && RgbText(gs) == m
  }

  /** The regular expression's search: the first index from `p` on where the
      anchored attempt succeeds, with the matched text. */
  function FindRgb(s: string, p: nat): (r: Option<(nat, string)>)
    requires p <= |s|
    ensures r.Some? ==> p <= r.value.0 <= |s|
    decreases |s| - p
  {
    match MatchFrom(s, p, RgbPattern)
    case Some((e, _)) => Some((p, s[p..e]))
    case None => if p == |s| then None else FindRgb(s, p + 1)
  }

  /** The search returns the leftmost match, and fails only when the
      regular expression matches nowhere from `p` on. */
  lemma {:induction false} FindRgbLeftmost(s: string, p: nat)
    requires p <= |s|
    ensures FindRgb(s, p).Some? ==> MatchesAt(s, FindRgb(s, p).value.0, FindRgb(s, p).value.1)
    ensures FindRgb(s, p).Some? ==>
      forall q: nat, m: string :: p <= q < FindRgb(s, p).value.0 ==> !MatchesAt(s, q, m)
    ensures FindRgb(s, p).None? ==> forall q: nat, m: string :: p <= q ==> !MatchesAt(s, q, m)
    decreases |s| - p
  {
    if MatchFrom(s, p, RgbPattern).Some? {
      FoundHere(s, p);
    } else {
      NothingHere(s, p);
      if p < |s| {
        FindRgbLeftmost(s, p + 1);
      } else {
        forall q: nat, m: string | p < q ensures !MatchesAt(s, q, m) { }
      }
    }
  }

  /** Where the anchored attempt succeeds, the search stops there with a
      match of the regular expression. */
  lemma FoundHere(s: string, p: nat)
    requires p <= |s| && MatchFrom(s, p, RgbPattern).Some?
    ensures FindRgb(s, p).Some? && FindRgb(s, p).value.0 == p
    ensures MatchesAt(s, p, FindRgb(s, p).value.1)
  {
    var (e, gs) := MatchFrom(s, p, RgbPattern).value;
    assert FindRgb(s, p) == Some((p, s[p..e]));
    MatchFromSound(s, p, RgbPattern);
    RgbPatternDelimited();
    assert s[p..e] == RgbText(gs);
  }

  /** Where the anchored attempt fails, nothing matches at `p` and the search
      moves on. */
  lemma NothingHere(s: string, p: nat)
    requires p <= |s| && MatchFrom(s, p, RgbPattern).None?
    ensures forall m: string :: !MatchesAt(s, p, m)
    ensures FindRgb(s, p) == if p == |s| then None else FindRgb(s, p + 1)
  {
    forall m: string ensures !MatchesAt(s, p, m) {
      NoMatchAt(s, p, m);
    }
  }

  /** Where the anchored attempt fails, the regular expression does not
      match. */
  lemma {:induction false} NoMatchAt(s: string, p: nat, m: string)
    requires p <= |s| && MatchFrom(s, p, RgbPattern).None?
    ensures !MatchesAt(s, p, m)
  {
    if MatchesAt(s, p, m) {
      var gs :| |gs| == 3 && AllGroups(gs) && RgbText(gs) == m;
      RgbPatternDelimited();
      MatchFromComplete(s, p, RgbPattern, gs);
    }
  }

  /** `str.match(regex)[0]` for the global regular expression: the first
      match, or `None` where `match` returns `null`. */
  function FirstRgbMatch(s: string): Option<string>
  {
    match FindRgb(s, 0)
    case None => None
    case Some((_, m)) => Some(m)
  }

  /** `getRgbFromVar(str)`. */
  function RgbFromVar(s: string): Option<string>
  {
    if Contains(s, "var") then FirstRgbMatch(s) else Some(s)
  }

  /** The resolver keeps any colour without `var`; on a colour with `var` it
      fails exactly when no text of the colour matches the regular
      expression. */
  lemma {:induction false} RgbFromVarFails(s: string)
    ensures !Contains(s, "var") ==> RgbFromVar(s) == Some(s)
    ensures Contains(s, "var") ==>
      (RgbFromVar(s).None? <==> forall p: nat, m: string :: !MatchesAt(s, p, m))
  {
    FindRgbLeftmost(s, 0);
  }

  /** On a colour with `var` that has a match, the resolver returns the
      leftmost one. */
  lemma {:induction false} RgbFromVarFirstMatch(s: string)
    requires Contains(s, "var") && RgbFromVar(s).Some?
    ensures exists p: nat ::
      (MatchesAt(s, p, RgbFromVar(s).value)
       && forall q: nat, m: string :: q < p ==> !MatchesAt(s, q, m))
  {
    FindRgbLeftmost(s, 0);
    var p := FindRgb(s, 0).value.0;
    assert MatchesAt(s, p, RgbFromVar(s).value);
  }

  /** The text of a match written out: the groups between the literal parts. */
  lemma {:induction false} RgbTextShape(gs: seq<string>)
    requires |gs| == 3
    ensures RgbText(gs) == "rgb(" + (gs[0] + (", " + (gs[1] + (", " + (gs[2] + ")")))))
  {
    var P := RgbPattern;
    RgbPatternDelimited();
    RgbTextTail(gs);
    assert P[1..][1..] == P[2..];
    assert Render(P[1..], gs) == gs[0] + (", " + (gs[1] + (", " + (gs[2] + ")"))));
  }

  lemma {:induction false} RgbTextTail(gs: seq<string>)
    requires |gs| == 3
    ensures GroupCount(RgbPattern[2..]) == 2
    ensures Render(RgbPattern[2..], gs[1..]) == ", " + (gs[1] + (", " + (gs[2] + ")")))
  {
    var P := RgbPattern;
    assert P[6..][1..] == [];
    assert GroupCount(P[6..]) == 0;
    assert Render(P[6..], gs[3..]) == ")";
    assert P[5..][1..] == P[6..] && gs[2..][1..] == gs[3..];
    assert GroupCount(P[5..]) == 1;
    assert Render(P[5..], gs[2..]) == gs[2] + ")";
    assert P[4..][1..] == P[5..];
    assert GroupCount(P[4..]) == 1;
    assert Render(P[4..], gs[2..]) == ", " + (gs[2] + ")");
    assert P[3..][1..] == P[4..] && gs[1..][1..] == gs[2..];
    assert GroupCount(P[3..]) == 2;
    assert Render(P[3..], gs[1..]) == gs[1] + (", " + (gs[2] + ")"));
    assert P[2..][1..] == P[3..];
  }

  /** A rendered text has no character that is neither a digit nor in one of
      the pattern's literals. */
  lemma {:induction false} RenderAvoids(pat: Pattern, gs: seq<string>, c: char)
    requires |gs| == GroupCount(pat) && AllGroups(gs) && !IsDigit(c)
    requires forall i :: 0 <= i < |pat| && pat[i].Lit? ==> c !in pat[i].text
    ensures c !in Render(pat, gs)
    decreases pat
  {
    if pat != [] {
      assert forall i :: 0 <= i < |pat[1..]| ==> pat[1..][i] == pat[i + 1];
      if pat[0].Lit? {
        RenderAvoids(pat[1..], gs, c);
      } else {
        AllGroupsTail(gs);
        RenderAvoids(pat[1..], gs[1..], c);
        assert c !in gs[0];
      }
    }
  }

  /** A resolved colour never mentions `var`, so resolving it again changes
      nothing. */
  lemma {:induction false} RgbFromVarIdempotent(s: string)
    requires RgbFromVar(s).Some?
    ensures !Contains(RgbFromVar(s).value, "var")
    ensures RgbFromVar(RgbFromVar(s).value) == RgbFromVar(s)
  {
    if Contains(s, "var") {
      FindRgbLeftmost(s, 0);
      var (p, m) := FindRgb(s, 0).value;
      var gs :| |gs| == 3 && AllGroups(gs) && RgbText(gs) == m;
      RgbPatternDelimited();
      RenderAvoids(RgbPattern, gs, 'v');
      ContainsNeedsFirst(m, "var");
    }
  }

  /** The search skips indices where the anchored attempt fails. */
  lemma {:induction false} FindRgbSkips(s: string, p: nat, q: nat)
    requires p <= q <= |s|
    requires forall j :: p <= j < q ==> MatchFrom(s, j, RgbPattern).None?
    ensures FindRgb(s, p) == FindRgb(s, q)
    decreases q - p
  {
    if p < q {
      assert FindRgb(s, p) == FindRgb(s, p + 1);
      FindRgbSkips(s, p + 1, q);
    }
  }

  /** A colour reference with a fallback resolves to the fallback. */
  lemma ResolvesFallback()
    ensures RgbFromVar("var(--x, rgb(10, 20, 30))") == Some("rgb(10, 20, 30)")
  {
    var s := "var(--x, rgb(10, 20, 30))";
    FallbackMentionsVar(s);
    FallbackNoEarlyMatch(s);
    FindRgbSkips(s, 0, 9);
    FallbackMatch(s);
  }

  lemma FallbackMentionsVar(s: string)
    requires s == "var(--x, rgb(10, 20, 30))"
    ensures Contains(s, "var")
  {
    assert OccursAt(s, "var", 0);
    ContainsAt(s, "var");
  }

  lemma FallbackNoEarlyMatch(s: string)
    requires s == "var(--x, rgb(10, 20, 30))"
    ensures forall q :: 0 <= q < 9 ==> MatchFrom(s, q, RgbPattern).None?
  {
    forall q | 0 <= q < 9 ensures MatchFrom(s, q, RgbPattern).None? {
      assert !LitAt(s, q, "rgb(");
    }
  }

  lemma FallbackMatch(s: string)
    requires s == "var(--x, rgb(10, 20, 30))"
    ensures MatchFrom(s, 9, RgbPattern) == Some((24, ["10", "20", "30"]))
    ensures s[9..24] == "rgb(10, 20, 30)"
  {
    var m := "rgb(10, 20, 30)";
    var gs := ["10", "20", "30"];
    FallbackText(s, gs);
    RgbPatternDelimited();
    MatchFromComplete(s, 9, RgbPattern, gs);
  }

  lemma FallbackText(s: string, gs: seq<string>)
    requires s == "var(--x, rgb(10, 20, 30))" && gs == ["10", "20", "30"]
    ensures AllGroups(gs) && s[9..24] == "rgb(10, 20, 30)" == RgbText(gs)
  {
    assert s == "var(--x, " + "rgb(10, 20, 30)" + ")";
    RgbTextShape(gs);
  }
}
