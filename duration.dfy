/**
 * Duration tokens in the style of ISO 8601 (section 4.4.3.2), such as "PT1H30M", turned into
 * a number of minutes: `get_minutes` and `transform_time_to_minutes` of main.py.
 *
 * The parser drops the two-character designator ("PT") and matches the regular expression
 * (?:(\d+)H)?(?:(\d+)M)? at the start of what is left. Here that expression is a scanner:
 * a greedy run of digits followed by the unit letter, or nothing at all.
 *
 * The example lemmas take their literal input through a parameter fixed by `requires`
 * (`requires time == "PT1H30M"`) rather than writing the literal in the `ensures`: with the
 * literal in the `ensures` the verifier unfolds the whole scanner on it, at a far higher cost.
 */
module Duration {
  import opened Wrappers
  import opened Tables

  /** The ASCII decimal digits; `\d` is taken to match only these. */
  predicate IsDigit(c: char)
  {
    '0' <= c <= '9'
  }

  predicate IsDigits(s: string)
  {
    forall i :: 0 <= i < |s| ==> IsDigit(s[i])
  }

  function DigitValue(c: char): (v: nat)
    requires IsDigit(c)
    ensures v < 10
  {
    c as int - '0' as int
  }

  function DigitChar(v: nat): (c: char)
    requires v < 10
    ensures IsDigit(c) && DigitValue(c) == v
  {
    ('0' as int + v) as char
  }

  function Pow10(k: nat): (p: nat)
    ensures p >= 1
  {
    if k == 0 then 1 else 10 * Pow10(k - 1)
  }

  /**
   * Python's `int` applied to a string of decimal digits; leading zeros are allowed. A string
   * of k digits is worth less than 10^k, and at least 10^(k-1) when it does not start with '0'.
   */
  function DecimalValue(s: string): (v: nat)
    requires IsDigits(s)
    ensures v < Pow10(|s|)
    ensures s != [] && s[0] != '0' ==> v >= Pow10(|s| - 1)
  {
    if s == [] then 0
    else
      var init := s[..|s| - 1];
      var v := DecimalValue(init) * 10 + DigitValue(s[|s| - 1]);
      assert v < Pow10(|s|) by {
        assert DecimalValue(init) <= Pow10(|init|) - 1;
        assert v <= (Pow10(|init|) - 1) * 10 + 9;
      }
      assert s[0] != '0' ==> v >= Pow10(|s| - 1) by {
        if |s| > 1 && s[0] != '0' {
          assert init[0] == s[0];
          assert DecimalValue(init) >= Pow10(|init| - 1);
          assert DecimalValue(init) * 10 >= Pow10(|init| - 1) * 10;
        }
      }
      v
  }

  /** The decimal spelling of n without leading zeros, as Python's `str` writes it. */
  function Decimal(n: nat): (s: string)
    ensures s != [] && IsDigits(s)
  {
    if n < 10 then [DigitChar(n)] else Decimal(n / 10) + [DigitChar(n % 10)]
  }

  /** Reading back a written number gives the number. */
  lemma {:induction false} DecimalRoundTrip(n: nat)
    ensures DecimalValue(Decimal(n)) == n
  {
    if n >= 10 {
      var s := Decimal(n);
      DecimalRoundTrip(n / 10);
      assert s[..|s| - 1] == Decimal(n / 10);
    }
  }

  /** The length of the longest run of digits at the start of s: what a greedy `\d+` consumes. */
  function DigitRun(s: string): (k: nat)
    ensures k <= |s|
    ensures IsDigits(s[..k])
    ensures k < |s| ==> !IsDigit(s[k])
  {
    if s != [] && IsDigit(s[0]) then
      var k := 1 + DigitRun(s[1..]);
      assert s[..k] == [s[0]] + s[1..][..k - 1];
      k
    else 0
  }

  /** No digit prefix of s is longer than its digit run. */
  lemma {:induction false} DigitRunMaximal(s: string, j: nat)
    requires j <= |s| && IsDigits(s[..j])
    ensures j <= DigitRun(s)
  {
    if j > 0 {
      assert s[..j][0] == s[0];
      assert s[1..][..j - 1] == s[..j][1..];
      DigitRunMaximal(s[1..], j - 1);
    }
  }

  /** The digit run of a digit string followed by a non-digit (or by nothing) is that string. */
  lemma DigitRunOf(d: string, tail: string)
    requires IsDigits(d)
    requires tail == [] || !IsDigit(tail[0])
    ensures DigitRun(d + tail) == |d|
  {
    var s := d + tail;
    assert s[..|d|] == d;
    DigitRunMaximal(s, |d|);
    if |d| < |s| {
      assert s[|d|] == tail[0];
    }
  }

  /** The first k characters of s are digits and the next one is unit. */
  predicate GroupEndsAt(s: string, unit: char, k: nat)
  {
    0 < k < |s| && IsDigits(s[..k]) && s[k] == unit
  }

  /** `(\d+)<unit>` matches at the start of s: some non-empty run of digits is followed by unit. */
  ghost predicate LeadsWith(s: string, unit: char)
  {
    exists k: nat :: GroupEndsAt(s, unit, k)
  }

  /** A digit run followed by unit can only be the whole digit run: `\d+` backtracks in vain. */
  lemma GroupEndIsRun(s: string, unit: char)
    requires !IsDigit(unit)
    ensures forall j: nat :: GroupEndsAt(s, unit, j) ==> j == DigitRun(s)
  {
    forall j: nat | GroupEndsAt(s, unit, j)
      ensures j == DigitRun(s)
    {
      DigitRunMaximal(s, j);
    }
  }

  /**
   * The optional group `(?:(\d+)<unit>)?` tried at the start of s: the captured digits when the
   * group takes part, None when it is skipped. The captured digits and the unit are what the
   * group consumes.
   */
  function MatchGroup(s: string, unit: char): (g: Option<string>)
    requires !IsDigit(unit)
    ensures g.Some? ==> g.value != [] && IsDigits(g.value) && |g.value| < |s|
    ensures g.Some? ==> s[..|g.value| + 1] == g.value + [unit]
    ensures g.None? <==> !LeadsWith(s, unit)
  {
    var k := DigitRun(s);
    GroupEndIsRun(s, unit);
    if 0 < k < |s| && s[k] == unit then
      assert s[..k + 1] == s[..k] + [unit];
      assert GroupEndsAt(s, unit, k);
      Some(s[..k])
    else
      None
  }

  /** What the text a group consumed looks like: the digits and the unit, or nothing. */
  function Spelled(g: Option<string>, unit: char): string
  {
    if g.Some? then g.value + [unit] else []
  }

  /** The result of `re.match` with (?:(\d+)H)?(?:(\d+)M)?: the two groups and where the match ends. */
  datatype DurationMatch = DurationMatch(hours: Option<string>, minutes: Option<string>, end: nat)

  /**
   * Matching the duration pattern at the start of s. The pattern accepts the empty string, so
   * a match always exists; the matched text is exactly the hours group followed by the minutes
   * group, and a group is skipped only when it cannot match where it stands.
   */
  function MatchDuration(s: string): (m: DurationMatch)
    ensures m.end <= |s| && s[..m.end] == Spelled(m.hours, 'H') + Spelled(m.minutes, 'M')
    ensures m.hours.Some? ==> m.hours.value != [] && IsDigits(m.hours.value)
    ensures m.minutes.Some? ==> m.minutes.value != [] && IsDigits(m.minutes.value)
    ensures m.hours.None? <==> !LeadsWith(s, 'H')
    ensures m.minutes.None? <==> !LeadsWith(s[|Spelled(m.hours, 'H')|..], 'M')
  {
    var h := MatchGroup(s, 'H');
    var hText := Spelled(h, 'H');
    var p := |hText|;
    assert s[..p] == hText;
    var rest := s[p..];
    var mi := MatchGroup(rest, 'M');
    var mText := Spelled(mi, 'M');
    var q := |mText|;
    assert rest[..q] == mText;
    assert s[..p + q] == s[..p] + rest[..q];
    DurationMatch(h, mi, p + q)
  }

  /**
   * `int(match.group(n) or 0)`: a skipped group counts as zero, and a captured group of k
   * digits counts as less than 10^k.
   */
  function GroupValue(g: Option<string>): (v: nat)
    requires g.Some? ==> IsDigits(g.value)
    ensures g.None? ==> v == 0
    ensures g.Some? ==> v < Pow10(|g.value|)
  {
    if g.Some? then DecimalValue(g.value) else 0
  }

  /** Python's `time[2:]`: empty when the string is shorter than two characters. */
  function DropDesignator(time: string): (rest: string)
    ensures |time| >= 2 ==> time == time[..2] + rest
    ensures |time| < 2 ==> rest == []
  {
    if |time| >= 2 then time[2..] else []
  }

  /**
   * `get_minutes`: -1 for a string of exactly two characters (a bare "PT"); otherwise the
   * hours and minutes read from the front of the text after the designator, as hours*60 +
   * minutes. The branch of the source that returns -1 when the pattern does not match cannot
   * be reached, because the pattern always matches.
   */
  function GetMinutes(time: string): (r: int)
    ensures r == -1 <==> |time| == 2
    ensures |time| != 2 ==> r >= 0
  {
    if |time| == 2 then -1
    else
      var m := MatchDuration(DropDesignator(time));
      GroupValue(m.hours) * 60 + GroupValue(m.minutes)
  }

  /** A group whose digits are followed by its unit captures exactly those digits. */
  lemma MatchGroupTaken(d: string, unit: char, tail: string)
    requires d != [] && IsDigits(d) && !IsDigit(unit)
    ensures MatchGroup(d + [unit] + tail, unit) == Some(d)
  {
    var s := d + [unit] + tail;
    DigitRunOf(d, [unit] + tail);
    assert s == d + ([unit] + tail);
    assert s[..|d|] == d;
  }

  /** A group whose digits are followed by another letter is skipped. */
  lemma MatchGroupSkipped(d: string, unit: char, other: char, tail: string)
    requires d != [] && IsDigits(d) && !IsDigit(unit) && !IsDigit(other) && other != unit
    ensures MatchGroup(d + [other] + tail, unit) == None
  {
    var s := d + [other] + tail;
    DigitRunOf(d, [other] + tail);
    assert s == d + ([other] + tail);
  }

  /** The text after the designator decides the count, once the string is not two characters. */
  lemma GetMinutesOfRest(designator: string, s: string)
    requires |designator| == 2 && s != []
    ensures GetMinutes(designator + s)
      == GroupValue(MatchDuration(s).hours) * 60 + GroupValue(MatchDuration(s).minutes)
  {
    assert DropDesignator(designator + s) == s;
  }

  /** "<designator><h>H<m>M<anything>" is h hours and m minutes; whatever follows is ignored. */
  lemma HoursAndMinutes(designator: string, h: string, m: string, tail: string)
    requires |designator| == 2
    requires h != [] && IsDigits(h) && m != [] && IsDigits(m)
    ensures GetMinutes(designator + h + "H" + m + "M" + tail) == DecimalValue(h) * 60 + DecimalValue(m)
  {
    var rest := m + "M" + tail;
    var s := h + "H" + rest;
    assert designator + h + "H" + m + "M" + tail == designator + s;
    MatchGroupTaken(h, 'H', rest);
    assert s[|h| + 1..] == rest;
    MatchGroupTaken(m, 'M', tail);
    GetMinutesOfRest(designator, s);
  }

  /**
   * "<designator><h>H<tail>" is h hours when tail does not start with a minutes group:
   * for example "PT2H", and "PT1H5S" where the seconds are ignored.
   */
  lemma HoursOnly(designator: string, h: string, tail: string)
    requires |designator| == 2
    requires h != [] && IsDigits(h)
    requires !LeadsWith(tail, 'M')
    ensures GetMinutes(designator + h + "H" + tail) == DecimalValue(h) * 60
  {
    var s := h + "H" + tail;
    assert designator + h + "H" + tail == designator + s;
    MatchGroupTaken(h, 'H', tail);
    assert s[|h| + 1..] == tail;
    GetMinutesOfRest(designator, s);
  }

  /** "<designator><m>M<anything>" is m minutes: the hours group is skipped. */
  lemma MinutesOnly(designator: string, m: string, tail: string)
    requires |designator| == 2
    requires m != [] && IsDigits(m)
    ensures GetMinutes(designator + m + "M" + tail) == DecimalValue(m)
  {
    var s := m + "M" + tail;
    assert designator + m + "M" + tail == designator + s;
    MatchGroupSkipped(m, 'H', 'M', tail);
    MatchGroupTaken(m, 'M', tail);
    assert s == m + ['M'] + tail;
    assert s[0..] == s;
    assert MatchDuration(s).hours == None && MatchDuration(s).minutes == Some(m);
    GetMinutesOfRest(designator, s);
  }

  /**
   * A string that is not two characters long and has no hours or minutes group after the
   * designator is zero minutes: for example "PT30S", "" and "P".
   */
  lemma NoGroups(time: string)
    requires |time| != 2
    requires !LeadsWith(DropDesignator(time), 'H') && !LeadsWith(DropDesignator(time), 'M')
    ensures GetMinutes(time) == 0
  {
  }

  /** Every duration written in the "PT<h>H<m>M" form is read back as h*60 + m minutes. */
  lemma {:induction false} WrittenDurationRoundTrip(h: nat, m: nat)
    ensures GetMinutes("PT" + Decimal(h) + "H" + Decimal(m) + "M") == h * 60 + m
    ensures GetMinutes("PT" + Decimal(h) + "H") == h * 60
    ensures GetMinutes("PT" + Decimal(m) + "M") == m
  {
    DecimalRoundTrip(h);
    DecimalRoundTrip(m);
    HoursAndMinutes("PT", Decimal(h), Decimal(m), "");
    assert "PT" + Decimal(h) + "H" + Decimal(m) + "M" + "" == "PT" + Decimal(h) + "H" + Decimal(m) + "M";
    HoursOnly("PT", Decimal(h), "");
    assert "PT" + Decimal(h) + "H" + "" == "PT" + Decimal(h) + "H";
    MinutesOnly("PT", Decimal(m), "");
    assert "PT" + Decimal(m) + "M" + "" == "PT" + Decimal(m) + "M";
  }

  /** The worked examples of the source's documentation and pattern. */
  lemma ExampleHoursAndMinutes(time: string)
    requires time == "PT1H30M"
    ensures GetMinutes(time) == 90
  {
    assert time == "PT" + "1" + "H" + "30" + "M" + "";
    HoursAndMinutes("PT", "1", "30", "");
  }

  lemma ExampleMinutes(time: string)
    requires time == "PT45M"
    ensures GetMinutes(time) == 45
  {
    assert time == "PT" + "45" + "M" + "";
    MinutesOnly("PT", "45", "");
  }

  lemma ExampleHours(time: string)
    requires time == "PT2H"
    ensures GetMinutes(time) == 120
  {
    assert time == "PT" + "2" + "H" + "";
    HoursOnly("PT", "2", "");
  }

  lemma ExampleShortStrings()
    ensures GetMinutes("PT") == -1
    ensures GetMinutes("") == 0
    ensures GetMinutes("P") == 0
  {
  }

  /** Seconds are not part of the pattern: they neither count nor stop the hours from counting. */
  lemma ExampleHoursThenSeconds(time: string)
    requires time == "PT1H5S"
    ensures GetMinutes(time) == 60
  {
    assert !LeadsWith("5S", 'M') by {
      assert "5S"[..1] == "5";
    }
    assert time == "PT" + "1" + "H" + "5S";
    HoursOnly("PT", "1", "5S");
  }

  lemma ExampleSecondsOnly(time: string)
    requires time == "PT30S"
    ensures GetMinutes(time) == 0
  {
    assert DropDesignator(time) == "30S";
    assert !LeadsWith("30S", 'H') && !LeadsWith("30S", 'M') by {
      assert "30S"[..1] == "3" && "30S"[..2] == "30";
    }
    NoGroups(time);
  }

  /** `get_minutes` applied to every element, in order. */
  function MinutesOf(times: seq<string>): (r: seq<int>)
  {
    if times == [] then [] else MinutesOf(times[..|times| - 1]) + [GetMinutes(times[|times| - 1])]
  }

  lemma {:induction false} MinutesOfAt(times: seq<string>)
    ensures |MinutesOf(times)| == |times|
    ensures forall i :: 0 <= i < |times| ==> MinutesOf(times)[i] == GetMinutes(times[i])
  {
    if times != [] {
      var init := times[..|times| - 1];
      MinutesOfAt(init);
      var last := GetMinutes(times[|times| - 1]);
      assert MinutesOf(times) == MinutesOf(init) + [last];
      forall i | 0 <= i < |times|
        ensures MinutesOf(times)[i] == GetMinutes(times[i])
      {
        if i < |init| {
          assert times[i] == init[i];
        }
      }
    }
  }

  /**
   * `transform_time_to_minutes`: one minute count per element of the Series, in its order,
   * under a fresh default index.
   */
  method TransformTimeToMinutes(time: Series<string>) returns (r: Series<int>)
    ensures r.index == RangeIndex(|time.values|)
    ensures |r.values| == |time.values|
    ensures forall i :: 0 <= i < |time.values| ==> r.values[i] == GetMinutes(time.values[i])
  {
    var newTime: seq<int> := [];
    var i := 0;
    while i < |time.values|
      invariant 0 <= i <= |time.values|
      invariant newTime == MinutesOf(time.values[..i])
    {
      assert time.values[..i + 1][..i] == time.values[..i];
      newTime := newTime + [GetMinutes(time.values[i])];
      i := i + 1;
    }
    assert time.values[..i] == time.values;
    MinutesOfAt(time.values);
    r := FromList(newTime);
  }
}
