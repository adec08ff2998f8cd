/** String helpers of the browsing controller: JavaScript's `trim`, the
    "blank means absent" cleaning of form values and record fields, and the
    integer subset of `Number(...)` / `String(...)`. */
module Text {
  import opened Wrappers

  /** The code points `String.prototype.trim` removes: ECMAScript WhiteSpace
      and LineTerminator. */
  predicate IsSpace(c: char) {
    || c == '\t' || c == '\n' || c == '\U{000B}' || c == '\U{000C}' || c == '\r'
    || c == ' ' || c == '\U{00A0}' || c == '\U{1680}' || ('\U{2000}' <= c <= '\U{200A}')
    || c == '\U{2028}' || c == '\U{2029}' || c == '\U{202F}' || c == '\U{205F}'
    || c == '\U{3000}' || c == '\U{FEFF}'
  }

  predicate AllSpace(s: string) {
    forall i :: 0 <= i < |s| ==> IsSpace(s[i])
  }

  /** No white space at either end: what `trim` produces. */
  predicate Trimmed(s: string) {
    s == [] || (!IsSpace(s[0]) && !IsSpace(s[|s| - 1]))
  }

  /** `s` without its leading white space. */
  function TrimStart(s: string): (r: string)
    ensures r == [] || !IsSpace(r[0])
    ensures |r| <= |s|
  {
    if s == [] || !IsSpace(s[0]) then s else TrimStart(s[1..])
  }

  /** `s` without its trailing white space. */
  function TrimEnd(s: string): (r: string)
    ensures r == [] || !IsSpace(r[|r| - 1])
    ensures |r| <= |s|
  {
    if s == [] || !IsSpace(s[|s| - 1]) then s else TrimEnd(s[..|s| - 1])
  }

  /** What `TrimStart` removes is a white-space prefix. */
  lemma {:induction false} TrimStartShape(s: string)
    ensures TrimStart(s) == s[|s| - |TrimStart(s)|..]
    ensures AllSpace(s[..|s| - |TrimStart(s)|])
  {
    if s != [] && IsSpace(s[0]) {
      var r := TrimStart(s[1..]);
      TrimStartShape(s[1..]);
      assert s[1..][|s| - 1 - |r|..] == s[|s| - |r|..];
      assert s[..|s| - |r|] == [s[0]] + s[1..][..|s| - 1 - |r|];
    }
  }

  /** What `TrimEnd` removes is a white-space suffix. */
  lemma {:induction false} TrimEndShape(s: string)
    ensures TrimEnd(s) == s[..|TrimEnd(s)|]
    ensures AllSpace(s[|TrimEnd(s)|..])
  {
    if s != [] && IsSpace(s[|s| - 1]) {
      var r := TrimEnd(s[..|s| - 1]);
      TrimEndShape(s[..|s| - 1]);
      assert s[..|s| - 1][..|r|] == s[..|r|];
      assert s[|r|..] == s[..|s| - 1][|r|..] + [s[|s| - 1]];
    }
  }

  /** The facts `Trim` promises, about the composition it computes. */
  lemma TrimFacts(s: string)
    ensures Trimmed(TrimEnd(TrimStart(s)))
    ensures TrimEnd(TrimStart(s)) == [] <==> AllSpace(s)
  {
    var t := TrimStart(s);
    var r := TrimEnd(t);
    TrimStartShape(s);
    TrimEndShape(t);
    assert s == s[..|s| - |t|] + t;
    if r != [] {
      assert r[0] == t[0];
    }
    if t != [] {
      assert s[|s| - |t|] == t[0];
      assert !AllSpace(s);
    }
  }

  /** `String.prototype.trim`. */
  function Trim(s: string): (r: string)
    ensures Trimmed(r)
    ensures |r| <= |s|
    ensures r == [] <==> AllSpace(s)
  {
    TrimFacts(s);
    TrimEnd(TrimStart(s))
  }

  lemma {:induction false} TrimStartPadded(p: string, t: string)
    requires AllSpace(p)
    requires t == [] || !IsSpace(t[0])
    ensures TrimStart(p + t) == t
  {
    if p != [] {
      assert (p + t)[1..] == p[1..] + t;
      TrimStartPadded(p[1..], t);
    }
  }

  lemma {:induction false} TrimEndPadded(t: string, q: string)
    requires AllSpace(q)
    requires t == [] || !IsSpace(t[|t| - 1])
    ensures TrimEnd(t + q) == t
  {
    if q != [] {
      assert (t + q)[..|t + q| - 1] == t + q[..|q| - 1];
      TrimEndPadded(t, q[..|q| - 1]);
    }
  }

  /** Trimming removes exactly the white space around a trimmed core. */
  lemma TrimPadded(p: string, m: string, q: string)
    requires AllSpace(p) && AllSpace(q) && Trimmed(m)
    ensures Trim(p + m + q) == m
  {
    if m == [] {
      assert p + m + q == p + q;
      TrimStartPadded(p + q, []);
    } else {
      assert p + m + q == p + (m + q);
      TrimStartPadded(p, m + q);
      TrimEndPadded(m, q);
    }
  }

  /** Every string is its trimmed form with white space around it. */
  lemma TrimDecompose(s: string) returns (p: string, q: string)
    ensures AllSpace(p) && AllSpace(q)
    ensures s == p + Trim(s) + q
  {
    var t := TrimStart(s);
    var r := TrimEnd(t);
    TrimStartShape(s);
    TrimEndShape(t);
    assert r == Trim(s);
    p := s[..|s| - |t|];
    q := t[|r|..];
    assert t == r + q;
    assert s == p + t;
    ConcatAssoc(p, r, q);
  }

  lemma ConcatAssoc(a: string, b: string, c: string)
    ensures a + (b + c) == a + b + c
  {
  }

  lemma Regroup(p: string, a: string, m: string, b: string, q: string)
    ensures p + (a + m + b) + q == (p + a) + m + (b + q)
  {
  }

  lemma AllSpaceConcat(a: string, b: string)
    requires AllSpace(a) && AllSpace(b)
    ensures AllSpace(a + b)
  {
  }

  lemma TrimIdempotent(s: string)
    ensures Trim(Trim(s)) == Trim(s)
  {
    TrimItself(Trim(s));
  }

  /** Extra white space around a string does not change its trimmed form. */
  lemma TrimIgnoresPadding(p: string, s: string, q: string)
    requires AllSpace(p) && AllSpace(q)
    ensures Trim(p + s + q) == Trim(s)
  {
    var a, b := TrimDecompose(s);
    Regroup(p, a, Trim(s), b, q);
    AllSpaceConcat(p, a);
    AllSpaceConcat(b, q);
    TrimPadded(p + a, Trim(s), b + q);
  }

  /** `sanitizeInput` / `cleanText`: a string is trimmed, and a missing or
      blank one becomes absent. */
  function CleanText(v: Option<string>): (r: Option<string>)
    ensures r.None? <==> v.None? || AllSpace(v.value)
    ensures r.Some? ==> r.value == Trim(v.value) && r.value != [] && Trimmed(r.value)
  {
    if v.None? then None
    else
      var t := Trim(v.value);
      if |t| > 0 then Some(t) else None
  }

  lemma CleanTextIdempotent(v: Option<string>)
    ensures CleanText(CleanText(v)) == CleanText(v)
  {
    if v.Some? {
      TrimIdempotent(v.value);
    }
  }

  lemma CleanTextIgnoresPadding(p: string, s: string, q: string)
    requires AllSpace(p) && AllSpace(q)
    ensures CleanText(Some(p + s + q)) == CleanText(Some(s))
  {
    TrimIgnoresPadding(p, s, q);
  }

  predicate IsDigit(c: char) {
    '0' <= c <= '9'
  }

  predicate AllDigits(s: string) {
    forall i :: 0 <= i < |s| ==> IsDigit(s[i])
  }

  function DigitChar(d: nat): (c: char)
    requires d < 10
    ensures IsDigit(c) && c as int - '0' as int == d
  {
    ('0' as int + d) as char
  }

  /** The value of a string of decimal digits. */
  function DigitsValue(s: string): nat
    requires AllDigits(s)
  {
    if s == [] then 0
    else DigitsValue(s[..|s| - 1]) * 10 + (s[|s| - 1] as int - '0' as int)
  }

  /** `String(n)` for a non-negative integer: its decimal digits without
      leading zeros. */
  function NatToString(n: nat): (s: string)
    ensures |s| >= 1 && AllDigits(s)
    ensures |s| > 1 ==> s[0] != '0'
  {
    if n < 10 then [DigitChar(n)]
    else NatToString(n / 10) + [DigitChar(n % 10)]
  }

  lemma {:induction false} NatToStringValue(n: nat)
    ensures DigitsValue(NatToString(n)) == n
  {
    if n >= 10 {
      var s := NatToString(n / 10);
      NatToStringValue(n / 10);
      assert (s + [DigitChar(n % 10)])[..|s|] == s;
    }
  }

  lemma NatToStringInjective(a: nat, b: nat)
    requires NatToString(a) == NatToString(b)
    ensures a == b
  {
    NatToStringValue(a);
    NatToStringValue(b);
  }

  /** `String(i)` for an integer. */
  function IntToString(i: int): (s: string)
    ensures s != [] && Trimmed(s)
  {
    if i < 0 then "-" + NatToString(-i) else NatToString(i)
  }

  /** The integers `Number(t)` reads from an already trimmed, non-empty text:
      an optional sign followed by decimal digits. Anything else is treated
      as not a finite integer. */
  function ParseInteger(t: string): Option<int> {
    if |t| > 1 && (t[0] == '-' || t[0] == '+') && AllDigits(t[1..]) then
      var magnitude: int := DigitsValue(t[1..]);
      Some(if t[0] == '-' then -magnitude else magnitude)
    else if |t| > 0 && AllDigits(t) then Some(DigitsValue(t))
    else None
  }

  /** `Number(text)` restricted to integers: white space around the text is
      ignored and a blank text reads as 0. */
  function JsNumber(text: string): Option<int> {
    var t := Trim(text);
    if t == [] then Some(0) else ParseInteger(t)
  }

  /** `parseNumber`: a missing or blank value is absent; otherwise `Number`
      of the trimmed text, when it is a finite integer. */
  function ParseNumber(v: Option<string>): (r: Option<int>)
    ensures r.Some? ==> v.Some? && !AllSpace(v.value)
  {
    if v.None? then None
    else
      var t := Trim(v.value);
      if t == [] then None else JsNumber(t)
  }

  lemma NatTextReadsBack(n: nat)
    ensures ParseInteger(NatToString(n)) == Some(n)
  {
    var d := NatToString(n);
    NatToStringValue(n);
    assert IsDigit(d[0]);
  }

  lemma NegativeTextReadsBack(n: nat)
    requires n > 0
    ensures ParseInteger("-" + NatToString(n)) == Some(0 - n as int)
  {
    var d := NatToString(n);
    var s := "-" + d;
    NatToStringValue(n);
    assert s[0] == '-' && s[1..] == d;
  }

  /** `Number(String(i)) == i`. */
  lemma IntToStringRoundTrip(i: int)
    ensures ParseInteger(IntToString(i)) == Some(i)
    ensures JsNumber(IntToString(i)) == Some(i)
  {
    var s := IntToString(i);
    if i < 0 {
      NegativeTextReadsBack(-i);
    } else {
      NatTextReadsBack(i);
    }
    TrimItself(s);
  }

  lemma TrimItself(s: string)
    requires Trimmed(s)
    ensures Trim(s) == s
  {
    assert [] + s + [] == s;
    TrimPadded([], s, []);
  }

  /** `parseNumber` differs from `Number` only in reading a blank text as
      absent rather than 0. */
  lemma ParseNumberVersusNumber(s: string)
    ensures ParseNumber(Some(s)) == if AllSpace(s) then None else JsNumber(s)
  {
    TrimIdempotent(s);
  }

  lemma ParseNumberRoundTrip(i: int)
    ensures ParseNumber(Some(IntToString(i))) == Some(i)
  {
    IntToStringRoundTrip(i);
    ParseNumberVersusNumber(IntToString(i));
  }
}
