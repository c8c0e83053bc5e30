/** Text helpers shared by the component: JavaScript's `String.prototype.split`
    with a one-character separator, its inverse `Array.prototype.join`,
    `String.prototype.includes`, and runs of ASCII decimal digits. */
module Strings {

  /** Number of occurrences of `c` in `s`. */
  function Count(s: string, c: char): nat
  {
    if s == [] then 0 else (if s[0] == c then 1 else 0) + Count(s[1..], c)
  }

  /** `s.split(sep)` for a one-character separator: the pieces between the
      separators, in order; an empty string gives one empty piece. */
  function Split(s: string, sep: char): (r: seq<string>)
    ensures |r| >= 1
  {
    if s == [] then [[]]
    else
      var rest := Split(s[1..], sep);
      if s[0] == sep then [[]] + rest else [[s[0]] + rest[0]] + rest[1..]
  }

  /** `parts.join(sep)`. */
  function Join(parts: seq<string>, sep: char): string
  {
    if parts == [] then []
    else if |parts| == 1 then parts[0]
    else parts[0] + [sep] + Join(parts[1..], sep)
  }

  /** Splitting yields one more piece than there are separators. */
  lemma {:induction false} SplitLength(s: string, sep: char)
    ensures |Split(s, sep)| == Count(s, sep) + 1
  {
    if s != [] {
      SplitLength(s[1..], sep);
    }
  }

  /** No piece contains the separator. */
  lemma {:induction false} SplitPiecesFree(s: string, sep: char)
    ensures forall i :: 0 <= i < |Split(s, sep)| ==> sep !in Split(s, sep)[i]
  {
    if s != [] {
      SplitPiecesFree(s[1..], sep);
      var rest := Split(s[1..], sep);
      if s[0] != sep {
        assert sep !in rest[0];
        assert forall i :: 1 <= i < |rest| ==> sep !in rest[i];
      }
    }
  }

  /** Joining the pieces with the separator gives back the input. */
  lemma {:induction false} JoinSplit(s: string, sep: char)
    ensures Join(Split(s, sep), sep) == s
  {
    if s != [] {
      JoinSplit(s[1..], sep);
      var rest := Split(s[1..], sep);
      if s[0] == sep {
        assert Join([[]] + rest, sep) == [] + [sep] + Join(rest, sep);
      } else {
        var head := [s[0]] + rest[0];
        if |rest| == 1 {
          assert Join([head], sep) == head;
        } else {
          assert ([head] + rest[1..])[1..] == rest[1..];
          assert Join(rest, sep) == rest[0] + [sep] + Join(rest[1..], sep);
        }
      }
      assert [s[0]] + s[1..] == s;
    }
  }

  /** Splitting text that starts with a separator-free piece and a separator. */
  lemma {:induction false} SplitCons(a: string, sep: char, b: string)
    requires sep !in a
    ensures Split(a + [sep] + b, sep) == [a] + Split(b, sep)
  {
    if a == [] {
      assert a + [sep] + b == [sep] + b;
      assert ([sep] + b)[1..] == b;
    } else {
      assert (a + [sep] + b)[1..] == a[1..] + [sep] + b;
      SplitCons(a[1..], sep, b);
      assert [a[0]] + a[1..] == a;
    }
  }

  /** Text without the separator is a single piece. */
  lemma {:induction false} SplitNone(a: string, sep: char)
    requires sep !in a
    ensures Split(a, sep) == [a]
  {
    if a != [] {
      SplitNone(a[1..], sep);
      assert [a[0]] + a[1..] == a;
    }
  }

  /** Splitting undoes joining, for a non-empty list of separator-free pieces. */
  lemma {:induction false} SplitJoin(parts: seq<string>, sep: char)
    requires |parts| >= 1
    requires forall i :: 0 <= i < |parts| ==> sep !in parts[i]
    ensures Split(Join(parts, sep), sep) == parts
  {
    if |parts| == 1 {
      SplitNone(parts[0], sep);
    } else {
      SplitJoin(parts[1..], sep);
      SplitCons(parts[0], sep, Join(parts[1..], sep));
      assert [parts[0]] + parts[1..] == parts;
    }
  }

  /** The first piece of a split is the text before the first separator, and
      when there is a separator the second piece is the text between the first
      separator and the second one (or the end of the text). */
  lemma {:induction false} SplitFirstPieces(s: string, sep: char)
    ensures var r := Split(s, sep);
      && sep !in r[0]
      && (sep !in s ==> r == [s])
      && (sep in s ==>
            |r| >= 2 &&
            var n := |r[0]| + 1 + |r[1]|;
            sep !in r[1] && n <= |s|
            && s[..n] == r[0] + [sep] + r[1]
            && (n == |s| || s[n] == sep))
  {
    SplitPiecesFree(s, sep);
    JoinSplit(s, sep);
    SplitLength(s, sep);
    var r := Split(s, sep);
    if sep !in s {
      SplitNone(s, sep);
    } else {
      CountPositive(s, sep);
      var rest := if |r| == 2 then [] else [sep] + Join(r[2..], sep);
      assert Join(r, sep) == r[0] + [sep] + Join(r[1..], sep);
      if |r| == 2 {
        assert Join(r[1..], sep) == r[1];
      } else {
        assert r[1..][1..] == r[2..];
        assert Join(r[1..], sep) == r[1] + [sep] + Join(r[2..], sep);
      }
      assert s == r[0] + [sep] + r[1] + rest;
    }
  }

  lemma {:induction false} CountPositive(s: string, c: char)
    requires c in s
    ensures Count(s, c) >= 1
  {
    if s[0] != c {
      assert c in s[1..];
      CountPositive(s[1..], c);
    }
  }

  /** `s.includes(t)`: `t` occurs in `s` at some position. */
  predicate Contains(s: string, t: string)
  {
    |t| <= |s| && (s[..|t|] == t || Contains(s[1..], t))
  }

  /** `t` occurs in `s` starting at index `i`. */
  predicate OccursAt(s: string, t: string, i: nat)
  {
    i + |t| <= |s| && s[i..i + |t|] == t
  }

  /** `x + y` occurs at `p` exactly when `x` does and `y` follows it. */
  lemma OccursAtConcat(s: string, x: string, y: string, p: nat)
    ensures OccursAt(s, x + y, p) <==> OccursAt(s, x, p) && OccursAt(s, y, p + |x|)
  {
    if p + |x| + |y| <= |s| {
      var w := s[p..p + |x| + |y|];
      assert s[p..p + |x|] == w[..|x|];
      assert s[p + |x|..p + |x| + |y|] == w[|x|..];
      assert w == w[..|x|] + w[|x|..];
      if w == x + y {
        assert w[..|x|] == x && w[|x|..] == y;
      }
    }
  }

  /** `lit` occurs in `s` at index `i`, checked one character at a time. */
  predicate LitAt(s: string, i: nat, lit: string)
    decreases lit
  {
    if lit == [] then i <= |s| else i < |s| && s[i] == lit[0] && LitAt(s, i + 1, lit[1..])
  }

  lemma {:induction false} LitAtOccurs(s: string, i: nat, lit: string)
    ensures LitAt(s, i, lit) <==> OccursAt(s, lit, i)
    decreases lit
  {
    if lit != [] {
      LitAtOccurs(s, i + 1, lit[1..]);
      OccursAtConcat(s, [lit[0]], lit[1..], i);
      assert [lit[0]] + lit[1..] == lit;
    }
  }

  /** The recursive definition of `Contains` agrees with "`t` occurs at some
      index of `s`". */
  lemma {:induction false} ContainsAt(s: string, t: string)
    ensures Contains(s, t) <==> exists i: nat :: OccursAt(s, t, i)
  {
    if |t| <= |s| {
      if s[..|t|] != t {
        ContainsAt(s[1..], t);
        if exists i: nat :: OccursAt(s, t, i) {
          var i: nat :| OccursAt(s, t, i);
          assert i != 0;
          assert OccursAt(s[1..], t, i - 1);
        }
        if Contains(s[1..], t) {
          var j: nat :| OccursAt(s[1..], t, j);
          assert OccursAt(s, t, j + 1);
        }
      } else {
        assert OccursAt(s, t, 0);
      }
    } else {
      assert forall i: nat :: !OccursAt(s, t, i);
    }
  }

  /** A non-empty `t` cannot occur in text lacking its first character. */
  lemma {:induction false} ContainsNeedsFirst(s: string, t: string)
    requires t != [] && t[0] !in s
    ensures !Contains(s, t)
  {
    if |t| <= |s| {
      assert s[..|t|][0] == s[0];
      ContainsNeedsFirst(s[1..], t);
    }
  }

  predicate IsDigit(c: char)
  {
    '0' <= c <= '9'
  }

  /** Length of the run of ASCII decimal digits that starts at index `i`. */
  function DigitRun(s: string, i: nat): (k: nat)
    requires i <= |s|
    ensures i + k <= |s|
    decreases |s| - i
  {
    if i < |s| && IsDigit(s[i]) then 1 + DigitRun(s, i + 1) else 0
  }

  /** The run `DigitRun` measures is made of digits and is maximal. */
  lemma {:induction false} DigitRunSpec(s: string, i: nat)
    requires i <= |s|
    ensures forall j :: i <= j < i + DigitRun(s, i) ==> IsDigit(s[j])
    ensures i + DigitRun(s, i) == |s| || !IsDigit(s[i + DigitRun(s, i)])
    decreases |s| - i
  {
    if i < |s| && IsDigit(s[i]) {
      DigitRunSpec(s, i + 1);
    }
  }

  /** A run of digits ended by the end of text or a non-digit is exactly the
      run `DigitRun` measures. */
  lemma {:induction false} DigitRunOf(s: string, i: nat, k: nat)
    requires i + k <= |s|
    requires forall j :: i <= j < i + k ==> IsDigit(s[j])
    requires i + k == |s| || !IsDigit(s[i + k])
    ensures DigitRun(s, i) == k
    decreases k
  {
    if k > 0 {
      DigitRunOf(s, i + 1, k - 1);
    }
  }
}
