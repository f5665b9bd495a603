/**
 * The JavaScript string built-ins that the form builder relies on:
 * `String.prototype.trim`, the character class `\s`, the `\D` strip used by
 * the phone rule, and the implicit `String(array)` conversion that a regular
 * expression applies to an array argument.
 */
module JsText {

  /** The characters that `trim()` removes and that `\s` matches
      (ECMAScript WhiteSpace and LineTerminator). */
  predicate IsSpace(c: char) {
    c == '\t' || c == '\n' || c == '\U{000B}' || c == '\U{000C}' || c == '\r' ||
    c == ' ' || c == '\U{00A0}' || c == '\U{1680}' ||
    ('\U{2000}' <= c <= '\U{200A}') ||
    c == '\U{2028}' || c == '\U{2029}' || c == '\U{202F}' || c == '\U{205F}' ||
    c == '\U{3000}' || c == '\U{FEFF}'
  }

  predicate AllSpace(s: string) {
    forall k :: 0 <= k < |s| ==> IsSpace(s[k])
  }

  /** `\d`: the ASCII digits only. */
  predicate IsDigit(c: char) {
    '0' <= c <= '9'
  }

  predicate AllDigits(s: string) {
    forall k :: 0 <= k < |s| ==> IsDigit(s[k])
  }

  /** Removes leading whitespace: the result is a suffix of `s` that does not
      start with whitespace, and everything cut off is whitespace. */
  function TrimStart(s: string): (r: string)
    ensures |r| <= |s| && r == s[|s| - |r|..]
    ensures r == [] || !IsSpace(r[0])
    ensures AllSpace(s[..|s| - |r|])
  {
    if s != [] && IsSpace(s[0]) then TrimStart(s[1..]) else s
  }

  /** Removes trailing whitespace: the result is a prefix of `s` that does not
      end with whitespace, and everything cut off is whitespace. */
  function TrimEnd(s: string): (r: string)
    ensures |r| <= |s| && r == s[..|r|]
    ensures r == [] || !IsSpace(r[|r| - 1])
    ensures AllSpace(s[|r|..])
  {
    if s != [] && IsSpace(s[|s| - 1]) then TrimEnd(s[..|s| - 1]) else s
  }

  /** `r` is a piece of `s` with only whitespace on either side of it. */
  predicate CutsOnlySpace(s: string, r: string) {
    exists i :: 0 <= i <= |s| - |r| && r == s[i..i + |r|] && AllSpace(s[..i]) && AllSpace(s[i + |r|..])
  }

  /** `s.trim()`: a piece of `s` that neither starts nor ends with
      whitespace, with only whitespace cut off on either side. */
  function Trim(s: string): (r: string)
    ensures |r| <= |s|
    ensures r == [] || (!IsSpace(r[0]) && !IsSpace(r[|r| - 1]))
    ensures CutsOnlySpace(s, r)
  {
    var t := TrimStart(s);
    var r := TrimEnd(t);
    TrimCutsSpace(s, t, r);
    r
  }

  /** The two halves of `Trim` compose: cutting leading whitespace to get
      `t` and then trailing whitespace to get `r` leaves a piece of `s` at
      the offset the first cut stopped at, with whitespace on both sides. */
  lemma TrimCutsSpace(s: string, t: string, r: string)
    requires |t| <= |s| && t == s[|s| - |t|..] && AllSpace(s[..|s| - |t|])
    requires t == [] || !IsSpace(t[0])
    requires |r| <= |t| && r == t[..|r|] && AllSpace(t[|r|..])
    requires r == [] || !IsSpace(r[|r| - 1])
    ensures r == [] || (!IsSpace(r[0]) && !IsSpace(r[|r| - 1]))
    ensures CutsOnlySpace(s, r)
  {
    var i := |s| - |t|;
    assert r != [] ==> r[0] == t[0];
    assert r == s[i..i + |r|];
    assert s[i + |r|..] == t[|r|..];
    assert AllSpace(s[..i]) && AllSpace(s[i + |r|..]);
  }

  /** `s.trim()` is empty exactly when `s` consists of whitespace only. */
  lemma TrimEmptyIff(s: string)
    ensures Trim(s) == [] <==> AllSpace(s)
  {
    var t := TrimStart(s);
    if Trim(s) == [] {
      assert AllSpace(t[0..]);
      assert s == s[..|s| - |t|] + t;
    } else {
      var r := Trim(s);
      assert r[0] == t[0];
      assert !IsSpace(s[|s| - |t|]);
    }
  }

  /** A trimmed string starts and ends with a non-whitespace character, and
      trimming again changes nothing. */
  lemma TrimIsTrimmed(s: string)
    ensures Trim(s) == [] || (!IsSpace(Trim(s)[0]) && !IsSpace(Trim(s)[|Trim(s)| - 1]))
    ensures Trim(Trim(s)) == Trim(s)
  {
    var t := TrimStart(s);
    var r := TrimEnd(t);
    if r != [] {
      assert r[0] == t[0];
    }
  }

  /** `s.replace(/\D/g, '')` */
  function Digits(s: string): (r: string)
    ensures |r| <= |s|
    ensures forall k :: 0 <= k < |r| ==> IsDigit(r[k])
  {
    if s == [] then []
    else if IsDigit(s[0]) then [s[0]] + Digits(s[1..])
    else Digits(s[1..])
  }

  /** Stripping changes nothing in a string made of digits only, and the
      digits of a concatenation are the concatenation of the digits. */
  lemma {:induction false} DigitsOfDigits(s: string)
    requires AllDigits(s)
    ensures Digits(s) == s
  {
    if s != [] {
      DigitsOfDigits(s[1..]);
    }
  }

  lemma {:induction false} DigitsAppend(s: string, t: string)
    ensures Digits(s + t) == Digits(s) + Digits(t)
  {
    if s == [] {
      assert s + t == t;
    } else {
      assert (s + t)[1..] == s[1..] + t;
      DigitsAppend(s[1..], t);
    }
  }

  lemma SkipDash(s: string)
    ensures Digits("-" + s) == Digits(s)
  {
    assert ("-" + s)[1..] == s;
  }

  /** A number written as three dash-separated groups of digits strips to
      the groups run together. */
  lemma DashedDigits(a: string, b: string, c: string)
    requires AllDigits(a) && AllDigits(b) && AllDigits(c)
    ensures Digits(a + "-" + b + "-" + c) == a + b + c
  {
    var tail := "-" + c;
    var mid := "-" + (b + tail);
    assert a + "-" + b + "-" + c == a + mid;
    calc {
      Digits(a + mid);
    == { DigitsAppend(a, mid); }
      Digits(a) + Digits(mid);
    == { DigitsOfDigits(a); SkipDash(b + tail); }
      a + Digits(b + tail);
    == { DigitsAppend(b, tail); }
      a + (Digits(b) + Digits(tail));
    == { DigitsOfDigits(b); SkipDash(c); DigitsOfDigits(c); }
      a + (b + c);
    }
  }

  /** `String(items)` for an array of strings: the items joined by ','.
      The text starts with the first item and ends with the last one. */
  function JoinComma(items: seq<string>): (r: string)
    ensures items == [] ==> r == ""
    ensures items != [] ==> |items[0]| <= |r| && r[..|items[0]|] == items[0]
    ensures items != [] ==> |items[|items| - 1]| <= |r| && r[|r| - |items[|items| - 1]|..] == items[|items| - 1]
  {
    if items == [] then ""
    else if |items| == 1 then items[0]
    else items[0] + "," + JoinComma(items[1..])
  }
}
