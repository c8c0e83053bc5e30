/** JavaScript's global `parseInt(text)` without a radix, restricted to decimal
    text: leading white space is skipped, an optional sign is read, then the
    longest run of decimal digits; text with no such digits gives `NaN`,
    modelled as `None`. */
module JsParseInt {
  import opened Wrappers
  import opened Strings

  /** The characters ECMAScript's `parseInt` skips before the number: the
      WhiteSpace set (tab, vertical tab, form feed, space, no-break space,
      zero-width no-break space and the Unicode space separators) and the
      LineTerminator set (line feed, carriage return, line and paragraph
      separators). */
  predicate IsJsSpace(c: char)
  {
    c == '\t' || c == '\n' || c == '\U{B}' || c == '\U{C}' || c == '\r' || c == ' '
    || c == '\U{A0}' || c == '\U{1680}' || ('\U{2000}' <= c <= '\U{200A}')
    || c == '\U{2028}' || c == '\U{2029}' || c == '\U{202F}' || c == '\U{205F}'
    || c == '\U{3000}' || c == '\U{FEFF}'
  }

  /** `s` with its leading white space removed. */
  function TrimStart(s: string): (t: string)
    ensures t == [] || !IsJsSpace(t[0])
  {
    if s != [] && IsJsSpace(s[0]) then TrimStart(s[1..]) else s
  }

  /** The value of a string of decimal digits, read most significant first. */
  function DecimalValue(d: string): nat
    requires forall i :: 0 <= i < |d| ==> IsDigit(d[i])
  {
    if d == [] then 0
    else
      assert IsDigit(d[|d| - 1]);
      10 * DecimalValue(d[..|d| - 1]) + (d[|d| - 1] as int - '0' as int)
  }

  /** `parseInt(s)`: `None` stands for `NaN`. */
  function ParseInt(s: string): Option<int>
  {
    ParseSigned(TrimStart(s))
  }

  /** The part of `parseInt` after the white space: optional sign, digits. */
  function ParseSigned(t: string): Option<int>
  {
    var negative := t != [] && t[0] == '-';
    var u := if t != [] && (t[0] == '-' || t[0] == '+') then t[1..] else t;
    var k := DigitRun(u, 0);
    DigitRunSpec(u, 0);
    if k == 0 then None
    else
      var m: int := DecimalValue(u[..k]);
      Some(if negative then -m else m)
  }

  /** The digit character for `0 <= d < 10`. */
  function DigitChar(d: nat): (c: char)
    requires d < 10
    ensures IsDigit(c) && c as int - '0' as int == d
  {
    ('0' as int + d) as char
  }

  /** Shortest decimal text of a natural number. */
  function NatText(n: nat): (t: string)
    ensures |t| >= 1
    ensures forall i :: 0 <= i < |t| ==> IsDigit(t[i])
  {
    if n < 10 then [DigitChar(n)] else NatText(n / 10) + [DigitChar(n % 10)]
  }

  /** Decimal text of an integer, with a leading `-` when negative, as
      JavaScript's `String(n)` writes a safe integer. */
  function IntText(n: int): string
  {
    if n < 0 then "-" + NatText(-n) else NatText(n)
  }

  /** Reading the decimal text of a natural number gives it back. */
  lemma {:induction false} NatTextValue(n: nat)
    ensures DecimalValue(NatText(n)) == n
  {
    if n >= 10 {
      NatTextValue(n / 10);
      var t := NatText(n);
      assert t[..|t| - 1] == NatText(n / 10);
    }
  }

  /** Leading white space is ignored. */
  lemma {:induction false} ParseIntSkipsSpace(w: string, s: string)
    requires forall i :: 0 <= i < |w| ==> IsJsSpace(w[i])
    ensures ParseInt(w + s) == ParseInt(s)
  {
    TrimStartSkips(w, s);
  }

  lemma {:induction false} TrimStartSkips(w: string, s: string)
    requires forall i :: 0 <= i < |w| ==> IsJsSpace(w[i])
    ensures TrimStart(w + s) == TrimStart(s)
  {
    if w != [] {
      assert IsJsSpace(w[0]);
      assert (w + s)[0] == w[0];
      assert (w + s)[1..] == w[1..] + s;
      TrimStartSkips(w[1..], s);
    } else {
      assert w + s == s;
    }
  }

  /** `parseInt` reads back the decimal text of any integer, whatever
      white space precedes it and whatever non-digit text follows it. */
  lemma {:induction false} ParseIntRoundTrip(w: string, n: int, tail: string)
    requires forall i :: 0 <= i < |w| ==> IsJsSpace(w[i])
    requires tail == [] || !IsDigit(tail[0])
    ensures ParseInt(w + IntText(n) + tail) == Some(n)
  {
    var s := IntText(n) + tail;
    assert w + IntText(n) + tail == w + s;
    ParseIntSkipsSpace(w, s);
    assert s[0] == IntText(n)[0];
    assert TrimStart(s) == s;
    ParseSignedText(n, tail);
  }

  lemma {:induction false} ParseSignedText(n: int, tail: string)
    requires tail == [] || !IsDigit(tail[0])
    ensures ParseSigned(IntText(n) + tail) == Some(n)
  {
    var m: nat := if n < 0 then -n else n;
    NatTextValue(m);
    ParseDigitsText(NatText(m), tail);
    if n < 0 {
      assert IntText(n) + tail == "-" + (NatText(m) + tail);
      ParseNegated(NatText(m) + tail);
    } else {
      assert IntText(n) + tail == NatText(m) + tail;
    }
  }

  /** Digits followed by a non-digit read as their value. */
  lemma ParseDigitsText(d: string, tail: string)
    requires |d| >= 1 && forall i :: 0 <= i < |d| ==> IsDigit(d[i])
    requires tail == [] || !IsDigit(tail[0])
    ensures ParseSigned(d + tail) == Some(DecimalValue(d) as int)
  {
    var u := d + tail;
    DigitRunOf(u, 0, |d|);
    assert u[..|d|] == d;
    assert u[0] == d[0];
  }

  /** A `-` before text that starts with a digit negates what it reads as. */
  lemma ParseNegated(u: string)
    requires u != [] && IsDigit(u[0])
    ensures ParseSigned(u).Some?
    ensures ParseSigned("-" + u) == Some(-ParseSigned(u).value)
  {
    assert ("-" + u)[1..] == u;
    DigitRunSpec(u, 0);
  }

  /** A `+` before text that starts with a digit changes nothing. */
  lemma ParsePlus(u: string)
    requires u != [] && IsDigit(u[0])
    ensures ParseSigned("+" + u) == ParseSigned(u)
  {
    assert ("+" + u)[1..] == u;
  }

  /** What `parseInt` reads from any decimal input: white space, an optional
      sign and a non-empty digit run ended by the end of text or a non-digit
      give the run's value, negated after `-`. Leading zeros are read as
      digits (`"007"` is 7), `+` is dropped, and `"-0"` reads as 0. */
  lemma {:induction false} ParseIntValue(w: string, sign: string, d: string, tail: string)
    requires forall i :: 0 <= i < |w| ==> IsJsSpace(w[i])
    requires sign == "" || sign == "-" || sign == "+"
    requires |d| >= 1 && forall i :: 0 <= i < |d| ==> IsDigit(d[i])
    requires tail == [] || !IsDigit(tail[0])
    ensures ParseInt(w + (sign + (d + tail))) ==
      Some(if sign == "-" then -(DecimalValue(d) as int) else DecimalValue(d) as int)
  {
    var u := d + tail;
    var s := sign + u;
    ParseIntSkipsSpace(w, s);
    assert u[0] == d[0] && IsDigit(u[0]);
    assert s[0] == (if sign == "" then u[0] else sign[0]);
    assert TrimStart(s) == s;
    ParseDigitsText(d, tail);
    if sign == "-" {
      ParseNegated(u);
    } else if sign == "+" {
      ParsePlus(u);
    } else {
      assert s == u;
    }
  }

  /** `parseInt` fails exactly when, after the white space and an optional
      sign, the text does not start with a decimal digit. */
  lemma {:induction false} ParseIntNaN(w: string, sign: string, rest: string)
    requires forall i :: 0 <= i < |w| ==> IsJsSpace(w[i])
    requires sign == "" || sign == "-" || sign == "+"
    requires sign == "" ==> rest == [] || (!IsJsSpace(rest[0]) && rest[0] != '-' && rest[0] != '+')
    ensures ParseInt(w + sign + rest) == None <==> (rest == [] || !IsDigit(rest[0]))
  {
    var s := sign + rest;
    assert w + sign + rest == w + s;
    ParseIntSkipsSpace(w, s);
    if s != [] {
      assert !IsJsSpace(s[0]);
    }
    assert TrimStart(s) == s;
    if sign == "" {
      assert s == rest;
    } else {
      assert s[1..] == rest;
    }
  }
}
