/**
 * The two display helpers of the application: `seconds_to_time_str`, which
 * renders a number of seconds as "1h 6min 7s", and `repetitions_to_str`,
 * which renders a repetition count as "15 times".
 *
 * The rendering is given a partner, `ParseTimeStr`, that reads such a string
 * back; the round trip shows that the rendering of a non-negative duration
 * loses nothing.
 */
module Utils {
  import opened Wrappers
  import opened Text

  /**
   * `minutes, sec = divmod(seconds, 60)` then `hours, minutes = divmod(minutes, 60)`.
   * Python's divmod floors; with a positive divisor that is Dafny's `/` and `%`.
   */
  function HoursMinutesSeconds(seconds: int): (hms: (int, int, int))
    ensures hms.0 * 3600 + hms.1 * 60 + hms.2 == seconds
    ensures 0 <= hms.1 < 60 && 0 <= hms.2 < 60
    ensures seconds >= 0 ==> hms.0 >= 0
    ensures 0 <= seconds < 360000 ==> hms.0 < 100
  {
    var minutes := seconds / 60;
    var sec := seconds % 60;
    (minutes / 60, minutes % 60, sec)
  }

  /** The `parts` list: one entry per non-zero component, in the order h, min, s. */
  function Parts(hours: int, minutes: int, sec: int): (r: seq<string>)
    ensures |r| == (if hours != 0 then 1 else 0) + (if minutes != 0 then 1 else 0) + (if sec != 0 then 1 else 0)
    ensures hours != 0 ==> r[0] == IntToString(hours) + "h"
    ensures minutes != 0 ==> r[if hours != 0 then 1 else 0] == IntToString(minutes) + "min"
    ensures sec != 0 ==> r[|r| - 1] == IntToString(sec) + "s"
  {
    var a, b, c := Component(hours, "h"), Component(minutes, "min"), Component(sec, "s");
    ConcatOfSingles(a, b, c);
    a + b + c
  }

  /** Where the entries of three lists of at most one entry each end up in their concatenation. */
  lemma ConcatOfSingles(a: seq<string>, b: seq<string>, c: seq<string>)
    requires |a| <= 1 && |b| <= 1 && |c| <= 1
    ensures var r := a + b + c;
            && |r| == |a| + |b| + |c|
            && (|a| == 1 ==> r[0] == a[0])
            && (|b| == 1 ==> r[|a|] == b[0])
            && (|c| == 1 ==> r[|r| - 1] == c[0])
  {
  }

  /** One entry such as "6min" for a non-zero component, none for zero. */
  function Component(k: int, unit: string): (r: seq<string>)
    ensures |r| == if k != 0 then 1 else 0
    ensures k != 0 ==> r[0] == IntToString(k) + unit
  {
    if k != 0 then [IntToString(k) + unit] else []
  }

  /** `" ".join(parts)`. */
  function Join(parts: seq<string>): string
  {
    if |parts| == 0 then ""
    else if |parts| == 1 then parts[0]
    else parts[0] + " " + Join(parts[1..])
  }

  /** No leading, no trailing and no doubled space. */
  predicate WellSpaced(r: string)
  {
    && (|r| > 0 ==> r[0] != ' ' && r[|r| - 1] != ' ')
    && forall i :: 0 <= i < |r| - 1 ==> !(r[i] == ' ' && r[i + 1] == ' ')
  }

  predicate Word(w: string)
  {
    |w| > 0 && ' ' !in w
  }

  /** `seconds_to_time_str`: zero seconds gives the empty string. */
  function SecondsToTimeStr(seconds: int): (r: string)
    ensures r == "" <==> seconds == 0
    ensures WellSpaced(r)
    ensures var hms := HoursMinutesSeconds(seconds);
            seconds != 0 ==> Split(r) == Parts(hms.0, hms.1, hms.2)
  {
    var hms := HoursMinutesSeconds(seconds);
    var parts := Parts(hms.0, hms.1, hms.2);
    PartsAreWords(hms.0, hms.1, hms.2);
    JoinWellSpaced(parts);
    if parts != [] then SplitJoin(parts); Join(parts) else Join(parts)
  }

  lemma PartsAreWords(hours: int, minutes: int, sec: int)
    ensures forall i :: 0 <= i < |Parts(hours, minutes, sec)| ==> Word(Parts(hours, minutes, sec)[i])
    ensures Parts(hours, minutes, sec) == [] <==> hours == 0 && minutes == 0 && sec == 0
  {
    var a, b, c := Component(hours, "h"), Component(minutes, "min"), Component(sec, "s");
    ComponentIsWord(hours, "h");
    ComponentIsWord(minutes, "min");
    ComponentIsWord(sec, "s");
    WordsAppend(a, b);
    WordsAppend(a + b, c);
  }

  /** A component is a single word, present exactly when the count is not zero. */
  lemma ComponentIsWord(k: int, unit: string)
    requires |unit| > 0 && ' ' !in unit
    ensures Component(k, unit) == [] <==> k == 0
    ensures forall i :: 0 <= i < |Component(k, unit)| ==> Word(Component(k, unit)[i])
  {
    if k != 0 {
      var d := IntToString(k);
      assert forall j :: 0 <= j < |d + unit| ==> (d + unit)[j] == if j < |d| then d[j] else unit[j - |d|];
    }
  }

  lemma WordsAppend(a: seq<string>, b: seq<string>)
    requires forall i :: 0 <= i < |a| ==> Word(a[i])
    requires forall i :: 0 <= i < |b| ==> Word(b[i])
    ensures forall i :: 0 <= i < |a + b| ==> Word((a + b)[i])
    ensures a + b == [] <==> a == [] && b == []
  {
  }

  /** Joining words with single spaces never yields a stray or doubled space. */
  lemma {:induction false} JoinWellSpaced(parts: seq<string>)
    requires forall i :: 0 <= i < |parts| ==> Word(parts[i])
    ensures WellSpaced(Join(parts))
    ensures Join(parts) == "" <==> parts == []
    ensures parts != [] ==> |Join(parts)| > 0 && Join(parts)[0] == parts[0][0]
  {
    if |parts| > 1 {
      JoinWellSpaced(parts[1..]);
      var a, b := parts[0], Join(parts[1..]);
      var r := a + " " + b;
      assert r == Join(parts);
      forall i | 0 <= i < |r| - 1
        ensures !(r[i] == ' ' && r[i + 1] == ' ')
      {
        if i < |a| - 1 {
          assert r[i] == a[i];
        } else if i == |a| - 1 {
          assert r[i] == a[|a| - 1] && a[|a| - 1] in a;
        } else if i == |a| {
          assert r[i + 1] == b[0];
        } else {
          assert r[i] == b[i - |a| - 1] && r[i + 1] == b[i - |a|];
        }
      }
      assert r[0] == a[0] && a[0] in a;
      assert r[|r| - 1] == b[|b| - 1];
    } else if |parts| == 1 {
      assert parts[0][0] in parts[0];
      assert parts[0][|parts[0]| - 1] in parts[0];
    }
  }

  /** `repetitions_to_str`: the count, a space, and "times" only for more than one. */
  function RepetitionsToStr(reps: int): (r: string)
    ensures |r| > |IntToString(reps)| + 1
    ensures r[..|IntToString(reps)| + 1] == IntToString(reps) + " "
    ensures (|r| >= 5 && r[|r| - 5..] == "times") <==> reps > 1
    ensures reps > 1 ==> r[|IntToString(reps)| + 1..] == "times"
    ensures reps <= 1 ==> r[|IntToString(reps)| + 1..] == "time"
  {
    var time := if reps > 1 then "times" else "time";
    var r := IntToString(reps) + " " + time;
    assert r[..|IntToString(reps)| + 1] == IntToString(reps) + " ";
    assert reps <= 1 ==> r[|r| - 5] == ' ';
    assert r[|IntToString(reps)| + 1..] == time;
    r
  }

  /** Different counts never read alike: the count is everything before the first space. */
  lemma RepetitionsInjective(a: int, b: int)
    requires RepetitionsToStr(a) == RepetitionsToStr(b)
    ensures a == b
  {
    var da, db := IntToString(a), IntToString(b);
    PrefixBeforeSpace(da, RepetitionsToStr(a)[|da| + 1..], db, RepetitionsToStr(b)[|db| + 1..]);
    IntToStringInjective(a, b);
  }

  /** Two space-free words followed by a space and anything agree when the whole strings do. */
  lemma PrefixBeforeSpace(a: string, x: string, b: string, y: string)
    requires ' ' !in a && ' ' !in b
    requires a + " " + x == b + " " + y
    ensures a == b
  {
    var r := a + " " + x;
    FirstSpaceAfterWord(a, x);
    FirstSpaceAfterWord(b, y);
    assert a == r[..|a|] == b;
  }

  /** The position of the first space, or the length when there is none. */
  function FirstSpace(s: string): (p: nat)
    ensures p <= |s|
  {
    if s == [] || s[0] == ' ' then 0 else 1 + FirstSpace(s[1..])
  }

  lemma {:induction false} FirstSpaceAfterWord(a: string, x: string)
    requires ' ' !in a
    ensures FirstSpace(a + " " + x) == |a|
  {
    if a != [] {
      assert (a + " " + x)[0] == a[0] && a[0] in a;
      assert (a + " " + x)[1..] == a[1..] + " " + x;
      FirstSpaceAfterWord(a[1..], x);
    }
  }

  /** A rendered integer starts with a minus sign exactly when it is negative. */
  lemma SignChar(i: int)
    ensures IntToString(i)[0] == '-' <==> i < 0
  {
    if i >= 0 {
      assert IsDigit(NatToString(i)[0]);
    }
  }

  lemma IntToStringInjective(a: int, b: int)
    requires IntToString(a) == IntToString(b)
    ensures a == b
  {
    SignChar(a);
    SignChar(b);
    if a >= 0 {
      assert ParseDigits(NatToString(a)) == a && ParseDigits(NatToString(b)) == b;
    } else {
      assert ParseDigits(NatToString(-a)) == -a && ParseDigits(NatToString(-b)) == -b;
    }
  }

  // ---------------------------------------------------------------------
  // A reader for the rendered strings: the partner of SecondsToTimeStr.
  // ---------------------------------------------------------------------

  /** `s.split(" ")`. */
  function Split(s: string): (r: seq<string>)
    ensures |r| >= 1
  {
    if s == [] then [[]]
    else if s[0] == ' ' then [[]] + Split(s[1..])
    else
      var rest := Split(s[1..]);
      [[s[0]] + rest[0]] + rest[1..]
  }

  function DigitPrefixLength(t: string): (p: nat)
    ensures p <= |t|
  {
    if t == [] || !IsDigit(t[0]) then 0 else 1 + DigitPrefixLength(t[1..])
  }

  lemma {:induction false} DigitPrefixIsDigits(t: string)
    ensures AllDigits(t[..DigitPrefixLength(t)])
  {
    if t != [] && IsDigit(t[0]) {
      DigitPrefixIsDigits(t[1..]);
      assert t[..DigitPrefixLength(t)] == [t[0]] + t[1..][..DigitPrefixLength(t[1..])];
    }
  }

  function UnitSeconds(unit: string): Option<int>
  {
    if unit == "h" then Some(3600)
    else if unit == "min" then Some(60)
    else if unit == "s" then Some(1)
    else None
  }

  /** One component such as "6min": a decimal number followed by its unit. */
  function ParseToken(t: string): Option<int>
  {
    var p := DigitPrefixLength(t);
    DigitPrefixIsDigits(t);
    if p == 0 then None
    else
      match UnitSeconds(t[p..])
      case None => None
      case Some(w) => Some(ParseDigits(t[..p]) * w)
  }

  function SumTokens(ts: seq<string>): Option<int>
  {
    if ts == [] then Some(0)
    else
      match (ParseToken(ts[0]), SumTokens(ts[1..]))
      case (Some(a), Some(b)) => Some(a + b)
      case _ => None
  }

  /** Reads back a string in the format of SecondsToTimeStr. */
  function ParseTimeStr(r: string): Option<int>
  {
    if r == "" then Some(0) else SumTokens(Split(r))
  }

  lemma {:induction false} SplitWord(a: string)
    requires ' ' !in a
    ensures Split(a) == [a]
  {
    if a != [] {
      assert a[0] in a;
      assert forall c :: c in a[1..] ==> c in a;
      SplitWord(a[1..]);
      assert [a[0]] + a[1..] == a;
    }
  }

  lemma {:induction false} SplitAfterWord(a: string, b: string)
    requires ' ' !in a
    ensures Split(a + " " + b) == [a] + Split(b)
  {
    if a == [] {
      assert a + " " + b == [' '] + b;
      assert (a + " " + b)[1..] == b;
    } else {
      assert a[0] in a;
      assert forall c :: c in a[1..] ==> c in a;
      SplitAfterWord(a[1..], b);
      assert (a + " " + b)[1..] == a[1..] + " " + b;
      assert [a[0]] + a[1..] == a;
    }
  }

  /** Splitting undoes joining, as long as no part is empty or holds a space. */
  lemma {:induction false} SplitJoin(parts: seq<string>)
    requires parts != []
    requires forall i :: 0 <= i < |parts| ==> Word(parts[i])
    ensures Split(Join(parts)) == parts
  {
    if |parts| == 1 {
      SplitWord(parts[0]);
    } else {
      SplitJoin(parts[1..]);
      SplitAfterWord(parts[0], Join(parts[1..]));
      assert [parts[0]] + parts[1..] == parts;
    }
  }

  lemma {:induction false} DigitPrefixOfNumber(d: string, u: string)
    requires AllDigits(d)
    requires u != [] && !IsDigit(u[0])
    ensures DigitPrefixLength(d + u) == |d|
  {
    if d != [] {
      assert (d + u)[1..] == d[1..] + u;
      DigitPrefixOfNumber(d[1..], u);
    } else {
      assert d + u == u;
    }
  }

  lemma TokenValue(k: nat, unit: string, w: int)
    requires UnitSeconds(unit) == Some(w)
    ensures ParseToken(NatToString(k) + unit) == Some(k * w)
  {
    var d := NatToString(k);
    DigitPrefixOfNumber(d, unit);
    assert (d + unit)[..|d|] == d;
    assert (d + unit)[|d|..] == unit;
  }

  lemma {:induction false} SumTokensAppend(a: seq<string>, b: seq<string>)
    ensures SumTokens(a + b) ==
      match (SumTokens(a), SumTokens(b))
      case (Some(x), Some(y)) => Some(x + y)
      case _ => None
  {
    if a == [] {
      assert a + b == b;
    } else {
      assert (a + b)[1..] == a[1..] + b;
      SumTokensAppend(a[1..], b);
    }
  }

  /** A present component contributes its value, an absent one nothing. */
  lemma ComponentSum(k: nat, unit: string, w: int)
    requires UnitSeconds(unit) == Some(w)
    ensures SumTokens(Component(k, unit)) == Some(k * w)
  {
    if k != 0 {
      var t := IntToString(k) + unit;
      TokenValue(k, unit, w);
      assert [t][1..] == [];
    }
  }

  /** Two lists that both read back add up. */
  lemma SumTokensBoth(a: seq<string>, b: seq<string>, x: int, y: int)
    requires SumTokens(a) == Some(x) && SumTokens(b) == Some(y)
    ensures SumTokens(a + b) == Some(x + y)
  {
    SumTokensAppend(a, b);
  }

  lemma SumTokensThree(a: seq<string>, b: seq<string>, c: seq<string>, x: int, y: int, z: int)
    requires SumTokens(a) == Some(x) && SumTokens(b) == Some(y) && SumTokens(c) == Some(z)
    ensures SumTokens(a + b + c) == Some(x + y + z)
  {
    SumTokensBoth(a, b, x, y);
    SumTokensBoth(a + b, c, x + y, z);
  }

  /** The three units the rendering uses. */
  lemma UnitsKnown()
    ensures UnitSeconds("h") == Some(3600) && UnitSeconds("min") == Some(60) && UnitSeconds("s") == Some(1)
  {
  }

  lemma SumOfParts(hours: nat, minutes: nat, sec: nat)
    ensures SumTokens(Parts(hours, minutes, sec)) == Some(hours * 3600 + minutes * 60 + sec)
  {
    UnitsKnown();
    ComponentSum(hours, "h", 3600);
    ComponentSum(minutes, "min", 60);
    ComponentSum(sec, "s", 1);
    SumTokensThree(Component(hours, "h"), Component(minutes, "min"), Component(sec, "s"),
                   hours * 3600, minutes * 60, sec * 1);
  }

  /** Reading back the rendering of a non-negative number of seconds gives that number. */
  lemma TimeStrRoundTrip(seconds: nat)
    ensures ParseTimeStr(SecondsToTimeStr(seconds)) == Some(seconds)
  {
    if seconds != 0 {
      var hms := HoursMinutesSeconds(seconds);
      SumOfParts(hms.0, hms.1, hms.2);
    }
  }

  /** Two different non-negative durations never render alike. */
  lemma TimeStrInjective(a: nat, b: nat)
    requires SecondsToTimeStr(a) == SecondsToTimeStr(b)
    ensures a == b
  {
    TimeStrRoundTrip(a);
    TimeStrRoundTrip(b);
  }

  /** The expected outputs of the repository's unit tests. */
  lemma TimeStrExamples()
    ensures SecondsToTimeStr(3967) == "1h 6min 7s"
    ensures SecondsToTimeStr(367) == "6min 7s"
    ensures SecondsToTimeStr(3607) == "1h 7s"
    ensures SecondsToTimeStr(7) == "7s"
  {
    DigitsOneSixSeven();
    HoursMinutesAndSeconds();
    MinutesAndSeconds();
    HoursAndSeconds();
    assert HoursMinutesSeconds(7) == (0, 0, 7);
    assert Parts(0, 0, 7) == ["7s"];
  }

  lemma DigitsOneSixSeven()
    ensures IntToString(1) == "1" && IntToString(6) == "6" && IntToString(7) == "7"
    ensures "1" + "h" == "1h" && "6" + "min" == "6min" && "7" + "s" == "7s"
  {
    assert NatToString(1) == "1" && NatToString(6) == "6" && NatToString(7) == "7";
  }

  lemma HoursMinutesAndSeconds()
    ensures SecondsToTimeStr(3967) == "1h 6min 7s"
  {
    DigitsOneSixSeven();
    assert HoursMinutesSeconds(3967) == (1, 6, 7);
    assert Parts(1, 6, 7) == ["1h", "6min", "7s"];
  }

  lemma MinutesAndSeconds()
    ensures SecondsToTimeStr(367) == "6min 7s"
  {
    DigitsOneSixSeven();
    assert HoursMinutesSeconds(367) == (0, 6, 7);
    assert Parts(0, 6, 7) == ["6min", "7s"];
  }

  lemma HoursAndSeconds()
    ensures SecondsToTimeStr(3607) == "1h 7s"
  {
    DigitsOneSixSeven();
    assert HoursMinutesSeconds(3607) == (1, 0, 7);
    assert Parts(1, 0, 7) == ["1h", "7s"];
  }
}
