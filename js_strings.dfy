/** The JavaScript string semantics the dashboard relies on: truthiness of
    optional strings, trim, ASCII case mapping, includes, parseInt and the
    decimal rendering of numbers in template strings. */
module JsStrings {
  import opened Wrappers

  /** The code points JavaScript counts as WhiteSpace or LineTerminator: what
      String.prototype.trim strips and what the regular-expression class \s matches. */
  predicate IsWhitespace(c: char) {
    || c == ' ' || c == '\t' || c == '\n' || c == '\r' || c == '\U{B}' || c == '\U{C}'
    || c == '\U{A0}' || c == '\U{1680}' || ('\U{2000}' <= c <= '\U{200A}')
    || c == '\U{2028}' || c == '\U{2029}' || c == '\U{202F}' || c == '\U{205F}'
    || c == '\U{3000}' || c == '\U{FEFF}'
  }

  /** The regular-expression class \d. */
  predicate IsDigit(c: char) { '0' <= c <= '9' }

  predicate AllDigits(s: string) { forall i :: 0 <= i < |s| ==> IsDigit(s[i]) }

  /** An optional string is truthy when it is present and not empty. */
  predicate Truthy(o: Option<string>) { o.Some? && o.value != "" }

  /** `o || fallback` for an optional string. */
  function OrElse(o: Option<string>, fallback: string): string {
    if Truthy(o) then o.value else fallback
  }

  /** The string without its leading white space. */
  function TrimStart(s: string): (r: string)
    ensures |r| <= |s| && r == s[|s| - |r|..]
    ensures forall i :: 0 <= i < |s| - |r| ==> IsWhitespace(s[i])
    ensures r == [] || !IsWhitespace(r[0])
  {
    if |s| > 0 && IsWhitespace(s[0]) then TrimStart(s[1..]) else s
  }

  /** The string without its trailing white space. */
  function TrimEnd(s: string): (r: string)
    ensures |r| <= |s| && r == s[..|r|]
    ensures forall i :: |r| <= i < |s| ==> IsWhitespace(s[i])
    ensures r == [] || !IsWhitespace(r[|r| - 1])
  {
    if |s| > 0 && IsWhitespace(s[|s| - 1]) then TrimEnd(s[..|s| - 1]) else s
  }

  /** String.prototype.trim. */
  function Trim(s: string): (r: string)
    ensures r == [] <==> (forall i :: 0 <= i < |s| ==> IsWhitespace(s[i]))
    ensures r != [] ==> !IsWhitespace(r[0]) && !IsWhitespace(r[|r| - 1])
  {
    TrimBlank(s);
    TrimEnds(TrimStart(s));
    TrimEnd(TrimStart(s))
  }

  /** Both trims together leave nothing exactly when the text is all white
      space: an empty end trim means the start trim, which ends in no white
      space, left nothing. */
  lemma TrimBlank(s: string)
    ensures TrimEnd(TrimStart(s)) == [] <==> (forall i :: 0 <= i < |s| ==> IsWhitespace(s[i]))
  {
  }

  /** The end trim of a start-trimmed text has no white space at either end. */
  lemma TrimEnds(t: string)
    requires t == [] || !IsWhitespace(t[0])
    ensures var r := TrimEnd(t); r != [] ==> !IsWhitespace(r[0]) && !IsWhitespace(r[|r| - 1])
  {
    var r := TrimEnd(t);
    if r != [] {
      assert r[0] == t[0];
    }
  }

  /** The trimmed text is a slice of the text. */
  lemma TrimIsSlice(s: string)
    ensures exists i :: 0 <= i <= |s| - |Trim(s)| && Trim(s) == s[i..][..|Trim(s)|]
  {
    var t := TrimStart(s);
    var r := TrimEnd(t);
    var k := |s| - |t|;
    assert 0 <= k <= |s| - |r| && r == s[k..][..|r|];
  }

  /** A text with no white space at either end is its own trimmed form. */
  lemma TrimNoop(s: string)
    requires s != [] && !IsWhitespace(s[0]) && !IsWhitespace(s[|s| - 1])
    ensures Trim(s) == s
  {
    assert TrimStart(s) == s;
    assert TrimEnd(s) == s;
  }

  function LowerChar(c: char): char {
    if 'A' <= c <= 'Z' then (c as int + 32) as char else c
  }

  function UpperChar(c: char): char {
    if 'a' <= c <= 'z' then (c as int - 32) as char else c
  }

  /** String.prototype.toLowerCase on ASCII letters. */
  function ToLower(s: string): (r: string)
    ensures |r| == |s|
  {
    seq(|s|, i requires 0 <= i < |s| => LowerChar(s[i]))
  }

  /** String.prototype.toUpperCase on ASCII letters. */
  function ToUpper(s: string): (r: string)
    ensures |r| == |s|
  {
    seq(|s|, i requires 0 <= i < |s| => UpperChar(s[i]))
  }

  /** Lower-casing keeps white space and does nothing to lower-case text. */
  lemma LowerKeeps(s: string)
    ensures ToLower(ToLower(s)) == ToLower(s)
    ensures forall i :: 0 <= i < |s| ==> (IsWhitespace(ToLower(s)[i]) <==> IsWhitespace(s[i]))
  {
  }

  /** Text free of upper-case ASCII letters. */
  predicate NoUpper(s: string) {
    forall i :: 0 <= i < |s| ==> !('A' <= s[i] <= 'Z')
  }

  /** Text free of upper-case letters is its own lower-case form. */
  lemma LowerOfLowerCase(s: string)
    requires NoUpper(s)
    ensures ToLower(s) == s
  {
  }

  lemma NoUpperAppend(a: string, b: string)
    requires NoUpper(a) && NoUpper(b)
    ensures NoUpper(a + b)
  {
    forall i | 0 <= i < |a + b| ensures !('A' <= (a + b)[i] <= 'Z') {
      if i >= |a| {
        assert (a + b)[i] == b[i - |a|];
      }
    }
  }

  /** Lower-casing distributes over concatenation. */
  lemma LowerAppend(a: string, b: string)
    ensures ToLower(a + b) == ToLower(a) + ToLower(b)
  {
  }

  /** Upper-casing first loses nothing lower-casing would keep. */
  lemma LowerOfUpper(s: string)
    ensures ToLower(ToUpper(s)) == ToLower(s)
  {
  }

  predicate StartsWith(s: string, prefix: string) {
    |prefix| <= |s| && s[..|prefix|] == prefix
  }

  /** String.prototype.includes: `needle` occurs in `s` at some position. */
  predicate Includes(s: string, needle: string) {
    exists i :: 0 <= i <= |s| - |needle| && s[i..][..|needle|] == needle
  }

  /** A needle holding a character the haystack lacks does not occur in it. */
  lemma NotIncludedByChar(s: string, needle: string, c: char)
    requires c in needle && c !in s
    ensures !Includes(s, needle)
  {
  }

  lemma IncludedAt(s: string, needle: string, i: nat)
    requires i + |needle| <= |s| && s[i..i + |needle|] == needle
    ensures Includes(s, needle)
  {
    assert s[i..][..|needle|] == needle;
  }

  function DigitValue(c: char): nat
    requires IsDigit(c)
  {
    c as int - '0' as int
  }

  function DigitChar(d: nat): (c: char)
    requires d < 10
    ensures IsDigit(c) && DigitValue(c) == d
  {
    ('0' as int + d) as char
  }

  /** The value of a string of decimal digits, most significant first. */
  function DigitsValue(s: string): nat
    requires AllDigits(s)
  {
    if s == [] then 0 else 10 * DigitsValue(s[..|s| - 1]) + DigitValue(s[|s| - 1])
  }

  /** The decimal rendering of a natural number, as a template string `${n}` writes it. */
  function NatToString(n: nat): (r: string)
    ensures r != [] && AllDigits(r)
  {
    if n < 10 then [DigitChar(n)] else NatToString(n / 10) + [DigitChar(n % 10)]
  }

  /** Reading back a rendered number gives the number. */
  lemma {:induction false} DigitsValueOfNatToString(n: nat)
    ensures DigitsValue(NatToString(n)) == n
  {
    if n >= 10 {
      var s := NatToString(n);
      assert s[..|s| - 1] == NatToString(n / 10);
      DigitsValueOfNatToString(n / 10);
    }
  }

  /** The number of leading decimal digits of `s`. */
  function DigitRun(s: string): (k: nat)
    ensures k <= |s| && AllDigits(s[..k])
    ensures k < |s| ==> !IsDigit(s[k])
  {
    if |s| > 0 && IsDigit(s[0]) then
      var k' := DigitRun(s[1..]);
      assert s[..k' + 1] == [s[0]] + s[1..][..k'];
      k' + 1
    else 0
  }

  /** A digit string followed by a non-digit (or nothing) is read whole. */
  lemma {:induction false} DigitRunOfDigitsThen(d: string, rest: string)
    requires AllDigits(d)
    requires rest == [] || !IsDigit(rest[0])
    ensures DigitRun(d + rest) == |d|
  {
    if d != [] {
      assert (d + rest)[1..] == d[1..] + rest;
      DigitRunOfDigitsThen(d[1..], rest);
    }
  }

  /** parseInt(s, 10): skip leading white space, read an optional sign, then the
      longest run of decimal digits; with no digit the result is NaN (None). */
  function ParseInt(s: string): (r: Option<int>)
    // only a minus sign makes the number negative
    ensures r.Some? && r.value < 0 ==> TrimStart(s) != [] && TrimStart(s)[0] == '-'
  {
    var t := TrimStart(s);
    var unsigned := if |t| > 0 && (t[0] == '-' || t[0] == '+') then t[1..] else t;
    var k := DigitRun(unsigned);
    if k == 0 then None
    else
      var magnitude: int := DigitsValue(unsigned[..k]);
      if |t| > 0 && t[0] == '-' then Some(-magnitude) else Some(magnitude)
  }

  /** parseInt reads a leading digit string whole, whatever follows after a non-digit. */
  lemma ParseIntOfDigitsThen(d: string, rest: string)
    requires d != [] && AllDigits(d)
    requires rest == [] || !IsDigit(rest[0])
    ensures ParseInt(d + rest) == Some(DigitsValue(d))
  {
    var s := d + rest;
    StartTrimOfDigit(s);
    DigitRunOfDigitsThen(d, rest);
    assert s[..DigitRun(s)] == d;
  }

  /** A text starting with a digit has no white space to skip. */
  lemma StartTrimOfDigit(s: string)
    requires s != [] && IsDigit(s[0])
    ensures TrimStart(s) == s
  {
  }

  /** parseInt reads back what `${n}` wrote, whatever follows after a non-digit. */
  lemma ParseIntOfNatToString(n: nat, rest: string)
    requires rest == [] || !IsDigit(rest[0])
    ensures ParseInt(NatToString(n) + rest) == Some(n)
  {
    ParseIntOfDigitsThen(NatToString(n), rest);
    DigitsValueOfNatToString(n);
  }

  /** parseInt gives NaN exactly when, after the white space, neither a digit
      nor a sign followed by a digit comes. */
  lemma ParseIntNaNIff(s: string)
    ensures var t := TrimStart(s);
      ParseInt(s).None? <==> t == [] || (!IsDigit(t[0]) && !((t[0] == '-' || t[0] == '+') && |t| > 1 && IsDigit(t[1])))
  {
  }

  /** After a minus sign parseInt reads the digit run that follows, negated. */
  lemma ParseIntOfSigned(u: string, n: nat)
    requires DigitRun(u) > 0 && DigitsValue(u[..DigitRun(u)]) == n
    ensures ParseInt("-" + u) == Some(-(n as int))
  {
    var s := "-" + u;
    StartTrimOfSign(s);
    assert s[1..] == u;
  }

  /** A text starting with a sign has no white space to skip. */
  lemma StartTrimOfSign(s: string)
    requires s != [] && (s[0] == '-' || s[0] == '+')
    ensures TrimStart(s) == s
  {
  }

  /** parseInt gives NaN when the first character after white space is neither a sign nor a digit. */
  lemma ParseIntNaN(s: string)
    requires s != [] && !IsWhitespace(s[0]) && !IsDigit(s[0]) && s[0] != '-' && s[0] != '+'
    ensures ParseInt(s).None?
  {
    assert TrimStart(s) == s;
  }
}
