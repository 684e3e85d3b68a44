/** Reading the Distance Matrix duration texts ("10 mins", "1 hour 5 mins")
    as minutes, the traffic delay between the usual and the in-traffic
    duration, and the colour and background the delay is shown with. */
module DurationParser {
  import opened Wrappers
  import opened JsStrings
  import opened Colors

  /** The number of leading white-space characters of `s` (what `\s*` consumes). */
  function SpaceRun(s: string): (k: nat)
    ensures k <= |s| && forall i :: 0 <= i < k ==> IsWhitespace(s[i])
  {
    if |s| > 0 && IsWhitespace(s[0]) then 1 + SpaceRun(s[1..]) else 0
  }

  /** The run stops at the first character that is not white space: `\s*` is greedy. */
  lemma {:induction false} SpaceRunStops(s: string)
    ensures SpaceRun(s) < |s| ==> !IsWhitespace(s[SpaceRun(s)])
    decreases |s|
  {
    if |s| > 0 && IsWhitespace(s[0]) {
      SpaceRunStops(s[1..]);
    }
  }

  /** A unit the pattern can follow digits and white space with: it starts
      with neither a digit nor white space, as "hour" and "min" do. */
  predicate ValidUnit(unit: string) {
    unit != [] && !IsWhitespace(unit[0]) && !IsDigit(unit[0])
  }

  /** `(\d+)\s*<unit>` matches at the start of `t` with the digits `t[..a]`
      and the unit at `j`. */
  predicate PatternAt(t: string, unit: string, a: int, j: int) {
    && 1 <= a <= j <= |t| && AllDigits(t[..a])
    && (forall i :: a <= i < j ==> IsWhitespace(t[i]))
    && StartsWith(t[j..], unit)
  }

  /** `(\d+)\s*<unit>` matches at the start of `t` in some way. */
  ghost predicate MatchesAt(t: string, unit: string) {
    exists a, j :: PatternAt(t, unit, a, j)
  }

  /** The pattern `(\d+)\s*<unit>` tried at the start of `t`, read greedily:
      the digits, then white space, then the unit, giving the captured number.
      `MatchHereIsPattern` shows that this agrees with the backtracking regex. */
  function MatchHere(t: string, unit: string): (r: Option<nat>)
    requires ValidUnit(unit)
    // a match starts at a digit and captures the whole leading run of digits
    ensures r.Some? ==> t != [] && IsDigit(t[0]) && r.value == DigitsValue(t[..DigitRun(t)])
  {
    if t == [] || !IsDigit(t[0]) then None
    else
      var k := DigitRun(t);
      var rest := t[k..];
      var j := k + SpaceRun(rest);
      assert t[j..] == rest[SpaceRun(rest)..];
      assert forall i :: k <= i < j ==> t[i] == rest[i - k];
      if StartsWith(rest[SpaceRun(rest)..], unit) then Some(DigitsValue(t[..k])) else None
  }

  /** The greedy reading is the regex's: the pattern matches at the start of
      `t` exactly when `MatchHere` finds it, and any match the regex could
      backtrack to has the whole digit run and the whole white-space run,
      since the unit starts with neither a digit nor white space. */
  lemma MatchHereIsPattern(t: string, unit: string)
    requires ValidUnit(unit)
    ensures MatchHere(t, unit).Some? <==> MatchesAt(t, unit)
    ensures forall a, j :: PatternAt(t, unit, a, j) ==>
      a == DigitRun(t) && j == DigitRun(t) + SpaceRun(t[DigitRun(t)..])
  {
    MatchHereGreedy(t, unit);
    forall a, j | PatternAt(t, unit, a, j) ensures a == DigitRun(t) && j == DigitRun(t) + SpaceRun(t[DigitRun(t)..]) {
      PatternIsGreedy(t, unit, a, j);
    }
  }

  /** The greedy reading matches exactly when the unit follows the leading
      digits after the white space run. */
  lemma MatchHereGreedy(t: string, unit: string)
    requires ValidUnit(unit)
    ensures MatchHere(t, unit).Some? <==> PatternAt(t, unit, DigitRun(t), DigitRun(t) + SpaceRun(t[DigitRun(t)..]))
  {
    var k := DigitRun(t);
    var rest := t[k..];
    var m := k + SpaceRun(rest);
    if t != [] && IsDigit(t[0]) {
      assert 1 <= k;
      assert t[m..] == rest[SpaceRun(rest)..];
      assert forall i :: k <= i < m ==> t[i] == rest[i - k];
      assert MatchHere(t, unit).Some? <==> StartsWith(t[m..], unit);
    } else {
      assert k == 0;
    }
  }

  /** A match of the pattern uses the whole leading digit run and the whole
      white-space run after it. */
  lemma PatternIsGreedy(t: string, unit: string, a: int, j: int)
    requires ValidUnit(unit) && PatternAt(t, unit, a, j)
    ensures a == DigitRun(t) && j == DigitRun(t) + SpaceRun(t[DigitRun(t)..])
  {
    var k := DigitRun(t);
    var rest := t[k..];
    SpaceRunStops(rest);
    // the unit's first character sits at j
    assert t[j..][..|unit|][0] == t[j];
    // both digit runs are read off t itself
    assert forall i :: 0 <= i < a ==> t[..a][i] == t[i];
    assert forall i :: 0 <= i < k ==> t[..k][i] == t[i];
    assert forall i :: k <= i < |t| ==> t[i] == rest[i - k];
    // the character after the digits is white space or the unit's first, so no digit
    assert !IsDigit(t[a]) by {
      if a < j {
        assert IsWhitespace(t[a]);
      } else {
        assert t[a] == unit[0];
      }
    }
    assert a == k;
  }

  /** `t.match(/(\d+)\s*<unit>/)`, its group read by parseInt: the match at the
      leftmost position where there is one (`FindUnitIsRegex`). */
  function FindUnit(t: string, unit: string): (r: Option<nat>)
    requires ValidUnit(unit)
    // a text without a digit holds no match
    ensures NoDigits(t) ==> r.None?
    decreases |t|
  {
    if t == [] then None
    else if MatchHere(t, unit).Some? then MatchHere(t, unit)
    else FindUnit(t[1..], unit)
  }

  /** The search reports the match at the leftmost matching position, and nothing when there is none. */
  lemma {:induction false} FindUnitLeftmost(t: string, unit: string)
    requires ValidUnit(unit)
    ensures FindUnit(t, unit).None? <==> forall k :: 0 <= k < |t| ==> MatchHere(t[k..], unit).None?
    ensures FindUnit(t, unit).Some? ==> exists k ::
      && 0 <= k < |t| && FindUnit(t, unit) == MatchHere(t[k..], unit)
      && forall k' :: 0 <= k' < k ==> MatchHere(t[k'..], unit).None?
    decreases |t|
  {
    if t != [] {
      var tail := t[1..];
      FindUnitLeftmost(tail, unit);
      if MatchHere(t, unit).Some? {
        assert t[0..] == t;
      } else if FindUnit(tail, unit).Some? {
        var k :| 0 <= k < |tail| && FindUnit(tail, unit) == MatchHere(tail[k..], unit)
          && forall k' :: 0 <= k' < k ==> MatchHere(tail[k'..], unit).None?;
        NoMatchBefore(t, unit, k + 1);
        assert t[k + 1..] == tail[k..];
      } else {
        NoMatchBefore(t, unit, |t|);
      }
    }
  }

  /** No match at the head and none in the first `n - 1` positions of the
      tail: none in the first `n` positions. */
  lemma NoMatchBefore(t: string, unit: string, n: nat)
    requires ValidUnit(unit) && 0 < n <= |t| && MatchHere(t, unit).None?
    requires forall k :: 0 <= k < n - 1 ==> MatchHere(t[1..][k..], unit).None?
    ensures forall k :: 0 <= k < n ==> MatchHere(t[k..], unit).None?
  {
    forall k | 0 <= k < n ensures MatchHere(t[k..], unit).None? {
      if k == 0 {
        assert t[k..] == t;
      } else {
        assert t[k..] == t[1..][k - 1..];
      }
    }
  }

  /** The search is the regex's: nothing is found exactly when the pattern
      matches at no position, and a found number is the digit run of the
      leftmost position where the pattern matches. */
  lemma FindUnitIsRegex(t: string, unit: string)
    requires ValidUnit(unit)
    ensures FindUnit(t, unit).None? <==> forall k :: 0 <= k < |t| ==> !MatchesAt(t[k..], unit)
    ensures FindUnit(t, unit).Some? ==> exists k ::
      && 0 <= k < |t| && MatchesAt(t[k..], unit)
      && FindUnit(t, unit) == Some(DigitsValue(t[k..][..DigitRun(t[k..])]))
      && forall k' :: 0 <= k' < k ==> !MatchesAt(t[k'..], unit)
  {
    FindUnitLeftmost(t, unit);
    forall k | 0 <= k < |t| ensures MatchHere(t[k..], unit).Some? <==> MatchesAt(t[k..], unit) {
      MatchHereIsPattern(t[k..], unit);
    }
  }

  /** The minutes a lower-cased text reads as: hours * 60 + minutes, a
      missing part counting as 0; nothing when neither part is found. */
  function MinutesOf(text: string): (r: Option<int>)
    ensures r.None? <==> FindUnit(text, "hour").None? && FindUnit(text, "min").None?
    ensures r.Some? ==> r.value >= 0
  {
    var hourMatch := FindUnit(text, "hour");
    var minMatch := FindUnit(text, "min");
    if hourMatch.None? && minMatch.None? then None
    else Some(hourMatch.GetOr(0) * 60 + minMatch.GetOr(0))
  }

  /** parseDurationToMinutes. */
  function ParseDurationToMinutes(durationText: Option<string>): (r: Option<int>)
    // nothing to read: absent, empty, white space only, or the placeholder
    ensures !Truthy(durationText) || durationText.value == "Unavailable" || Trim(durationText.value) == "" ==> r.None?
    ensures r.Some? ==> r.value >= 0
  {
    if !Truthy(durationText) || durationText.value == "Unavailable" || Trim(durationText.value) == "" then None
    else MinutesOf(ToLower(durationText.value))
  }

  /** Matching ignores case: a text reads as its lower-cased form does. */
  lemma ParseIgnoresCase(s: string)
    requires s != "Unavailable"
    ensures ParseDurationToMinutes(Some(ToLower(s))) == ParseDurationToMinutes(Some(s))
  {
    var l := ToLower(s);
    LowerKeeps(s);
    LowerKeepsBlank(s);
    if s != [] && Trim(s) != "" {
      LowerIsNotPlaceholder(s);
      ParseOfReadable(l);
      ParseOfReadable(s);
    }
  }

  /** The guard lets a non-blank text other than the placeholder through. */
  lemma ParseOfReadable(s: string)
    requires s != [] && Trim(s) != "" && s != "Unavailable"
    ensures ParseDurationToMinutes(Some(s)) == MinutesOf(ToLower(s))
  {
  }

  /** No lower-cased text is the placeholder, which holds a capital. */
  lemma LowerIsNotPlaceholder(s: string)
    ensures ToLower(s) != "Unavailable"
  {
    if |s| == 11 {
      assert ToLower(s)[0] != 'U';
    }
  }

  /** Lower-casing neither blanks a text nor un-blanks it. */
  lemma LowerKeepsBlank(s: string)
    ensures Trim(ToLower(s)) == "" <==> Trim(s) == ""
  {
    LowerKeeps(s);
    var l := ToLower(s);
    assert (forall i :: 0 <= i < |l| ==> IsWhitespace(l[i])) <==> (forall i :: 0 <= i < |s| ==> IsWhitespace(s[i]));
  }

  /** Text free of decimal digits. */
  predicate NoDigits(s: string) {
    forall i :: 0 <= i < |s| ==> !IsDigit(s[i])
  }

  lemma NoDigitsAppend(a: string, b: string)
    requires NoDigits(a) && NoDigits(b)
    ensures NoDigits(a + b)
  {
    forall i | 0 <= i < |a + b| ensures !IsDigit((a + b)[i]) {
      if i >= |a| {
        assert (a + b)[i] == b[i - |a|];
      }
    }
  }

  lemma DigitsNoUpper(d: string)
    requires AllDigits(d)
    ensures NoUpper(d)
  {
  }

  /** A number, one space, then `word`: the pattern matches here exactly when
      `word` starts with `unit`, capturing the number. */
  lemma MatchOfNumber(d: string, word: string, unit: string)
    requires ValidUnit(unit)
    requires d != [] && AllDigits(d)
    requires word != [] && !IsWhitespace(word[0]) && !IsDigit(word[0])
    ensures MatchHere(d + " " + word, unit) == if StartsWith(word, unit) then Some(DigitsValue(d)) else None
  {
    var t := d + " " + word;
    var after := " " + word;
    assert t == d + after;
    assert t[0] == d[0];
    DigitRunOfDigitsThen(d, after);
    assert t[|d|..] == after;
    assert after[1..] == word;
    assert SpaceRun(after) == 1;
    assert t[..|d|] == d;
  }

  /** The search skips characters that cannot start a number. */
  lemma {:induction false} SkipNonDigits(p: string, s: string, unit: string)
    requires ValidUnit(unit)
    requires NoDigits(p)
    ensures FindUnit(p + s, unit) == FindUnit(s, unit)
    decreases |p|
  {
    if p != [] {
      assert (p + s)[0] == p[0];
      assert MatchHere(p + s, unit).None?;
      assert (p + s)[1..] == p[1..] + s;
      SkipNonDigits(p[1..], s, unit);
    } else {
      assert p + s == s;
    }
  }

  /** The search skips a number that is followed by a word other than `unit`. */
  lemma {:induction false} SkipNumber(d: string, word: string, unit: string)
    requires ValidUnit(unit)
    requires AllDigits(d)
    requires word != [] && !IsWhitespace(word[0]) && !IsDigit(word[0]) && !StartsWith(word, unit)
    ensures FindUnit(d + " " + word, unit) == FindUnit(" " + word, unit)
    decreases |d|
  {
    if d != [] {
      MatchOfNumber(d, word, unit);
      assert (d + " " + word)[1..] == d[1..] + " " + word;
      SkipNumber(d[1..], word, unit);
    }
  }

  /** The unit words of the Distance Matrix duration texts. */
  predicate HourWord(w: string) { w == "hour" || w == "hours" }
  predicate MinWord(w: string) { w == "min" || w == "mins" }

  /** What the round trips need of a unit word: lower-case letters, and
      it starts with its own unit and not with the other one. */
  predicate UnitWord(w: string, own: string, other: string) {
    && w != [] && !IsWhitespace(w[0]) && NoDigits(w) && NoUpper(w)
    && StartsWith(w, own) && !StartsWith(w, other)
  }

  lemma MinWordFacts(w: string)
    requires MinWord(w)
    ensures UnitWord(w, "min", "hour")
  {
  }

  lemma HourWordFacts(w: string)
    requires HourWord(w)
    ensures UnitWord(w, "hour", "min")
  {
  }

  /** A number followed by one space and a word the unit starts: the search finds it there. */
  lemma FindAtNumber(d: string, word: string, unit: string, n: nat)
    requires ValidUnit(unit)
    requires d != [] && AllDigits(d) && DigitsValue(d) == n
    requires word != [] && !IsWhitespace(word[0]) && !IsDigit(word[0]) && StartsWith(word, unit)
    ensures FindUnit(d + " " + word, unit) == Some(n)
  {
    MatchOfNumber(d, word, unit);
  }

  /** Both parts found: hours * 60 + minutes. */
  lemma MinutesOfBoth(t: string, h: nat, m: nat)
    requires FindUnit(t, "hour") == Some(h) && FindUnit(t, "min") == Some(m)
    ensures MinutesOf(t) == Some(h * 60 + m)
  {
  }

  /** "<digits> <minute word>" holds no hours part and the number's minutes. */
  lemma MinutesOnly(d: string, w: string, n: nat)
    requires d != [] && AllDigits(d) && DigitsValue(d) == n && UnitWord(w, "min", "hour")
    ensures MinutesOf(d + " " + w) == Some(n)
  {
    NoHoursBeforeMinuteWord(d, w);
    FindAtNumber(d, w, "min", n);
    MinutesOfOne(d + " " + w, n);
  }

  /** A number followed by a minute word holds no hours part. */
  lemma NoHoursBeforeMinuteWord(d: string, w: string)
    requires AllDigits(d) && UnitWord(w, "min", "hour")
    ensures FindUnit(d + " " + w, "hour") == None
  {
    SkipNumber(d, w, "hour");
    NoDigitsAppend(" ", w);
    SkipNonDigits(" " + w, [], "hour");
    assert " " + w + [] == " " + w;
  }

  /** Only the minutes part found: the minutes. */
  lemma MinutesOfOne(t: string, m: nat)
    requires FindUnit(t, "hour") == None && FindUnit(t, "min") == Some(m)
    ensures MinutesOf(t) == Some(m)
  {
  }

  /** Only the hours part found: the hours in minutes. */
  lemma MinutesOfHoursOnly(t: string, h: nat)
    requires FindUnit(t, "hour") == Some(h) && FindUnit(t, "min") == None
    ensures MinutesOf(t) == Some(h * 60)
  {
  }

  /** A number followed by an hour word holds no minutes part. */
  lemma NoMinutesAfterHourWord(d: string, w: string)
    requires AllDigits(d) && UnitWord(w, "hour", "min")
    ensures FindUnit(d + " " + w, "min") == None
  {
    SkipNumber(d, w, "min");
    NoDigitsAppend(" ", w);
  }

  /** "<digits> <hour word>" holds no minutes part and the number's hours. */
  lemma HoursOnly(d: string, w: string, n: nat)
    requires d != [] && AllDigits(d) && DigitsValue(d) == n && UnitWord(w, "hour", "min")
    ensures MinutesOf(d + " " + w) == Some(n * 60)
  {
    NoMinutesAfterHourWord(d, w);
    FindAtNumber(d, w, "hour", n);
    MinutesOfHoursOnly(d + " " + w, n);
  }

  /** "<digits> <hour word> <digits> <minute word>" holds both parts. */
  lemma HoursAndMinutes(dh: string, hw: string, dm: string, mw: string, h: nat, m: nat)
    requires dh != [] && AllDigits(dh) && DigitsValue(dh) == h && UnitWord(hw, "hour", "min")
    requires dm != [] && AllDigits(dm) && DigitsValue(dm) == m && UnitWord(mw, "min", "hour")
    ensures MinutesOf(dh + " " + hw + " " + dm + " " + mw) == Some(h * 60 + m)
  {
    var second := dm + " " + mw;
    var word := hw + " " + second;
    Regroup(dh, hw, dm, mw);
    // hours: the match at the first number
    assert word[..|hw|] == hw;
    FindAtNumber(dh, word, "hour", h);
    // minutes: the first number and the hour word are skipped
    assert word[0] == hw[0];
    SkipNumber(dh, word, "min");
    NoDigitsAppend(" ", hw);
    NoDigitsAppend(" " + hw, " ");
    SkipNonDigits(" " + hw + " ", second, "min");
    FindAtNumber(dm, mw, "min", m);
    MinutesOfBoth(dh + " " + word, h, m);
  }

  /** Concatenation regrouped around the separating spaces. */
  lemma Regroup(a: string, b: string, c: string, d: string)
    ensures a + " " + b + " " + c + " " + d == a + " " + (b + " " + (c + " " + d))
    ensures " " + (b + " " + (c + " " + d)) == (" " + b + " ") + (c + " " + d)
  {
  }

  /** A text that starts with a digit and has no upper-case letter reads as its matches say. */
  lemma ParseOfLowerDigitText(t: string)
    requires t != [] && IsDigit(t[0]) && NoUpper(t)
    ensures ParseDurationToMinutes(Some(t)) == MinutesOf(t)
  {
    LowerOfLowerCase(t);
    assert !IsWhitespace(t[0]);
    assert t != "Unavailable" by {
      if |t| == 11 {
        assert t[0] != 'U';
      }
    }
  }

  /** "<digits> <minute word>" reads as the number's minutes. */
  lemma ParseMinutesText(d: string, mw: string, n: nat)
    requires d != [] && AllDigits(d) && DigitsValue(d) == n && UnitWord(mw, "min", "hour")
    ensures ParseDurationToMinutes(Some(d + " " + mw)) == Some(n)
  {
    DigitsNoUpper(d);
    NoUpperAppend(d, " ");
    NoUpperAppend(d + " ", mw);
    assert (d + " " + mw)[0] == d[0];
    ParseOfLowerDigitText(d + " " + mw);
    MinutesOnly(d, mw, n);
  }

  /** "<digits> <hour word>" reads as the number's hours in minutes. */
  lemma ParseHoursText(d: string, hw: string, n: nat)
    requires d != [] && AllDigits(d) && DigitsValue(d) == n && UnitWord(hw, "hour", "min")
    ensures ParseDurationToMinutes(Some(d + " " + hw)) == Some(n * 60)
  {
    DigitsNoUpper(d);
    NoUpperAppend(d, " ");
    NoUpperAppend(d + " ", hw);
    assert (d + " " + hw)[0] == d[0];
    ParseOfLowerDigitText(d + " " + hw);
    HoursOnly(d, hw, n);
  }

  /** "<digits> <hour word> <digits> <minute word>" passes the guard as it is. */
  lemma GuardOfHoursMinutesText(dh: string, hw: string, dm: string, mw: string)
    requires dh != [] && AllDigits(dh) && UnitWord(hw, "hour", "min")
    requires AllDigits(dm) && UnitWord(mw, "min", "hour")
    ensures var t := dh + " " + hw + " " + dm + " " + mw;
      ParseDurationToMinutes(Some(t)) == MinutesOf(t)
  {
    var t := dh + " " + hw + " " + dm + " " + mw;
    DigitsNoUpper(dh);
    DigitsNoUpper(dm);
    NoUpperAppend(dh, " ");
    NoUpperAppend(dh + " ", hw);
    NoUpperAppend(dh + " " + hw, " ");
    NoUpperAppend(dh + " " + hw + " ", dm);
    NoUpperAppend(dh + " " + hw + " " + dm, " ");
    NoUpperAppend(dh + " " + hw + " " + dm + " ", mw);
    assert t[0] == dh[0];
    ParseOfLowerDigitText(t);
  }

  /** "<digits> <hour word> <digits> <minute word>" reads as hours * 60 + minutes. */
  lemma ParseHoursMinutesText(dh: string, hw: string, dm: string, mw: string, h: nat, m: nat)
    requires dh != [] && AllDigits(dh) && UnitWord(hw, "hour", "min") && DigitsValue(dh) == h
    requires dm != [] && AllDigits(dm) && UnitWord(mw, "min", "hour") && DigitsValue(dm) == m
    ensures ParseDurationToMinutes(Some(dh + " " + hw + " " + dm + " " + mw)) == Some(h * 60 + m)
  {
    GuardOfHoursMinutesText(dh, hw, dm, mw);
    HoursAndMinutes(dh, hw, dm, mw, h, m);
  }

  /** "N min(s)" reads as N minutes, for every N. */
  lemma MinutesRoundTrip(n: nat, mw: string)
    requires MinWord(mw)
    ensures ParseDurationToMinutes(Some(NatToString(n) + " " + mw)) == Some(n)
  {
    MinWordFacts(mw);
    DigitsValueOfNatToString(n);
    ParseMinutesText(NatToString(n), mw, n);
  }

  /** "H hour(s)" reads as H * 60 minutes, for every H. */
  lemma HoursRoundTrip(h: nat, hw: string)
    requires HourWord(hw)
    ensures ParseDurationToMinutes(Some(NatToString(h) + " " + hw)) == Some(h * 60)
  {
    HourWordFacts(hw);
    DigitsValueOfNatToString(h);
    ParseHoursText(NatToString(h), hw, h);
  }

  /** "H hour(s) M min(s)" reads as H * 60 + M minutes, for every H and M. */
  lemma HoursMinutesRoundTrip(h: nat, hw: string, m: nat, mw: string)
    requires HourWord(hw) && MinWord(mw)
    ensures ParseDurationToMinutes(Some(NatToString(h) + " " + hw + " " + NatToString(m) + " " + mw)) == Some(h * 60 + m)
  {
    HourWordFacts(hw);
    MinWordFacts(mw);
    DigitsValueOfNatToString(h);
    DigitsValueOfNatToString(m);
    ParseHoursMinutesText(NatToString(h), hw, NatToString(m), mw, h, m);
  }

  /** calculateTrafficDelay: the in-traffic minutes less the usual minutes. */
  function CalculateTrafficDelay(duration: string, durationInTraffic: Option<string>): (r: Option<int>)
    ensures r.Some? <==>
      && Truthy(durationInTraffic)
      && ParseDurationToMinutes(Some(duration)).Some?
      && ParseDurationToMinutes(durationInTraffic).Some?
    ensures r.Some? ==>
      r.value == ParseDurationToMinutes(durationInTraffic).value - ParseDurationToMinutes(Some(duration)).value
  {
    if !Truthy(durationInTraffic) then None
    else
      var usual := ParseDurationToMinutes(Some(duration));
      var actual := ParseDurationToMinutes(durationInTraffic);
      if usual.None? || actual.None? then None else Some(actual.value - usual.value)
  }

  /** No delay when traffic leaves the duration as it is. */
  lemma SameDurationNoDelay(duration: string)
    requires ParseDurationToMinutes(Some(duration)).Some?
    ensures CalculateTrafficDelay(duration, Some(duration)) == Some(0)
  {
  }

  /** getTrafficColor. */
  function GetTrafficColor(delayMinutes: Option<int>): (c: string)
    ensures c == TEXT_PRIMARY <==> delayMinutes.None?
    ensures c == TRAFFIC_NORMAL <==> delayMinutes.Some? && delayMinutes.value <= 1
    ensures c == TEXT_SECONDARY <==> delayMinutes.Some? && 1 < delayMinutes.value <= 5
    ensures c == TRAFFIC_RED <==> delayMinutes.Some? && delayMinutes.value > 5
  {
    match delayMinutes
    case None => TEXT_PRIMARY
    case Some(d) =>
      if d <= 1 then TRAFFIC_NORMAL
      else if d <= 5 then TEXT_SECONDARY
      else TRAFFIC_RED
  }

  /** getTrafficBackground. */
  function GetTrafficBackground(delayMinutes: Option<int>): (c: string)
    ensures c == StatusBackground(Neutral) <==> delayMinutes.None?
    ensures c == StatusBackground(Normal) <==> delayMinutes.Some? && delayMinutes.value <= 1
    ensures c == StatusBackground(Caution) <==> delayMinutes.Some? && 1 < delayMinutes.value <= 5
    ensures c == StatusBackground(Alert) <==> delayMinutes.Some? && delayMinutes.value > 5
  {
    match delayMinutes
    case None => StatusBackground(Neutral)
    case Some(d) =>
      if d <= 1 then StatusBackground(Normal)
      else if d <= 5 then StatusBackground(Caution)
      else StatusBackground(Alert)
  }

  /** The colour and the background classify every delay the same way. */
  lemma ColorAndBackgroundAgree(delayMinutes: Option<int>)
    ensures GetTrafficColor(delayMinutes) == TEXT_PRIMARY <==> GetTrafficBackground(delayMinutes) == StatusBackground(Neutral)
    ensures GetTrafficColor(delayMinutes) == TRAFFIC_NORMAL <==> GetTrafficBackground(delayMinutes) == StatusBackground(Normal)
    ensures GetTrafficColor(delayMinutes) == TEXT_SECONDARY <==> GetTrafficBackground(delayMinutes) == StatusBackground(Caution)
    ensures GetTrafficColor(delayMinutes) == TRAFFIC_RED <==> GetTrafficBackground(delayMinutes) == StatusBackground(Alert)
  {
  }

  /** The rank of a traffic colour: on time, slowed, delayed. */
  function Severity(c: string): nat {
    if c == TRAFFIC_NORMAL then 0 else if c == TEXT_SECONDARY then 1 else if c == TRAFFIC_RED then 2 else 0
  }

  /** A longer delay is never shown as less severe. */
  lemma TrafficColorMonotone(a: int, b: int)
    requires a <= b
    ensures Severity(GetTrafficColor(Some(a))) <= Severity(GetTrafficColor(Some(b)))
  {
  }

  /** The first example of the duration format: an hour and five minutes. */
  lemma HoursMinutesExample()
    ensures ParseDurationToMinutes(Some("1 hour 5 mins")) == Some(65)
  {
    assert "1" + " " + "hour" + " " + "5" + " " + "mins" == "1 hour 5 mins";
    HourWordFacts("hour");
    MinWordFacts("mins");
    assert DigitsValue("1") == 1 && DigitsValue("5") == 5;
    ParseHoursMinutesText("1", "hour", "5", "mins", 1, 5);
  }

  /** The second example of the duration format: ten minutes. */
  lemma MinutesExample()
    ensures ParseDurationToMinutes(Some("10 mins")) == Some(10)
  {
    assert "10" + " " + "mins" == "10 mins";
    MinWordFacts("mins");
    assert DigitsValue("10") == 10;
    ParseMinutesText("10", "mins", 10);
  }

  /** The hour-only example of the duration format: one hour. */
  lemma HoursExample()
    ensures ParseDurationToMinutes(Some("1 hour")) == Some(60)
  {
    assert "1" + " " + "hour" == "1 hour";
    HourWordFacts("hour");
    assert DigitsValue("1") == 1;
    ParseHoursText("1", "hour", 1);
  }
}
