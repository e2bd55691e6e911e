/**
 * The input validators of the exercise form: `IsEmptyValidator` rejects an
 * empty field, `TimeValidator` checks an "HH:MM:SS" duration typed into the
 * masked input (whose template admits only digits at the field positions).
 */
module Validators {
  import opened Text
  import Routines
  import Utils

  datatype ValidationResult = Success | Failure(message: string)

  /** `IsEmptyValidator.validate`. */
  function IsEmptyValidate(value: string): (r: ValidationResult)
    ensures r.Success? <==> |value| != 0
    ensures r.Failure? ==> r.message == "Empty Input"
  {
    if |value| != 0 then Success else Failure("Empty Input")
  }

  /** `value.replace(":", "")`. */
  function RemoveColons(s: string): (r: string)
    ensures ':' !in r
    ensures |r| <= |s|
  {
    if s == [] then []
    else (if s[0] == ':' then [] else [s[0]]) + RemoveColons(s[1..])
  }

  /**
   * What `int(...)` needs: once the input is long enough to be checked, the
   * minutes and seconds positions hold digits.
   */
  predicate FieldsAreDigits(value: string)
  {
    var cleaned := RemoveColons(value);
    |cleaned| >= 6 ==> forall k :: 2 <= k < 6 ==> IsDigit(cleaned[k])
  }

  /** `int(cleaned[i:i + 2])` on two digits. */
  function Field(cleaned: string, i: nat): nat
    requires i + 2 <= |cleaned| && IsDigit(cleaned[i]) && IsDigit(cleaned[i + 1])
  {
    ParseDigits(cleaned[i..i + 2])
  }

  /** `TimeValidator.validate`, its checks in the source's order. */
  function TimeValidate(value: string): (r: ValidationResult)
    requires FieldsAreDigits(value)
    ensures r.Success? ==> |RemoveColons(value)| >= 6
    ensures r.Failure? ==>
              r.message in {"Input too short", "Minutes must be 00-59", "Seconds must be 00-59"}
  {
    var cleaned := RemoveColons(value);
    if |cleaned| < 6 then Failure("Input too short")
    else if Field(cleaned, 2) > 59 then Failure("Minutes must be 00-59")
    else if Field(cleaned, 4) > 59 then Failure("Seconds must be 00-59")
    else Success
  }

  /** Accepted exactly when at least six characters remain and both fields are below 60. */
  lemma TimeValidateAccepts(value: string)
    requires FieldsAreDigits(value)
    ensures var c := RemoveColons(value);
      TimeValidate(value) == Success <==>
        |c| >= 6 && Field(c, 2) <= 59 && Field(c, 4) <= 59
  {
  }

  /** The length check comes first, then minutes, then seconds. */
  lemma TimeValidateMessages(value: string)
    requires FieldsAreDigits(value)
    ensures var c := RemoveColons(value);
      && (|c| < 6 <==> TimeValidate(value) == Failure("Input too short"))
      && (|c| >= 6 && Field(c, 2) > 59 <==>
            TimeValidate(value) == Failure("Minutes must be 00-59"))
      && (|c| >= 6 && Field(c, 2) <= 59 && Field(c, 4) > 59 <==>
            TimeValidate(value) == Failure("Seconds must be 00-59"))
  {
  }

  lemma {:induction false} RemoveColonsAppend(a: string, b: string)
    ensures RemoveColons(a + b) == RemoveColons(a) + RemoveColons(b)
  {
    if a == [] {
      assert a + b == b;
    } else {
      assert (a + b)[1..] == a[1..] + b;
      RemoveColonsAppend(a[1..], b);
    }
  }

  lemma RemoveLeadingColon(b: string)
    ensures RemoveColons(":" + b) == RemoveColons(b)
  {
    assert (":" + b)[0] == ':' && (":" + b)[1..] == b;
  }

  /** Inserting a colon anywhere changes neither the cleaned text nor the verdict. */
  lemma ColonInsensitive(a: string, b: string)
    requires FieldsAreDigits(a + b)
    ensures FieldsAreDigits(a + ":" + b)
    ensures TimeValidate(a + ":" + b) == TimeValidate(a + b)
  {
    var cb := ":" + b;
    assert a + ":" + b == a + cb;
    RemoveColonsAppend(a, cb);
    RemoveLeadingColon(b);
    RemoveColonsAppend(a, b);
  }

  /**
   * The hours field and anything past the sixth character are not checked:
   * changing them keeps the verdict.
   */
  lemma HoursUnchecked(value: string, other: string)
    requires FieldsAreDigits(value)
    requires var c, d := RemoveColons(value), RemoveColons(other);
      |c| >= 6 && |d| >= 6 && c[2..6] == d[2..6]
    ensures FieldsAreDigits(other)
    ensures TimeValidate(other) == TimeValidate(value)
  {
    var c, d := RemoveColons(value), RemoveColons(other);
    assert forall k :: 2 <= k < 6 ==> c[k] == c[2..6][k - 2] == d[2..6][k - 2] == d[k];
    assert c[2..4] == c[2..6][..2] && d[2..4] == d[2..6][..2];
    assert c[4..6] == c[2..6][2..] && d[4..6] == d[2..6][2..];
  }

  /** Removing the colons of three colon-free fields joined by colons concatenates them. */
  lemma RemoveColonsOfJoin(hh: string, mm: string, ss: string)
    requires ':' !in hh && ':' !in mm && ':' !in ss
    ensures RemoveColons(hh + ":" + mm + ":" + ss) == hh + mm + ss
  {
    NoColonsKept(hh);
    NoColonsKept(mm);
    NoColonsKept(ss);
    ColonJoin(mm, ss);
    ColonJoin(hh, mm + ":" + ss);
    Regroup(hh, mm, ss);
  }

  lemma Regroup(a: string, b: string, c: string)
    ensures a + ":" + b + ":" + c == a + ":" + (b + ":" + c)
    ensures a + (b + c) == a + b + c
  {
  }

  /** A colon-free prefix is kept, and the colon after it dropped. */
  lemma ColonJoin(a: string, b: string)
    requires RemoveColons(a) == a
    ensures RemoveColons(a + ":" + b) == a + RemoveColons(b)
  {
    assert a + ":" + b == a + (":" + b);
    RemoveColonsAppend(a, ":" + b);
    RemoveLeadingColon(b);
  }

  /** The form fills the masked input with an exercise's mask string, which always passes. */
  lemma MaskStringIsValid(duration: nat)
    requires duration < 360000
    ensures FieldsAreDigits(Routines.DurationMaskString(duration))
    ensures TimeValidate(Routines.DurationMaskString(duration)) == Success
  {
    var hms := Utils.HoursMinutesSeconds(duration);
    var hh, mm, ss := Pad2(hms.0), Pad2(hms.1), Pad2(hms.2);
    assert Routines.DurationMaskString(duration) == hh + ":" + mm + ":" + ss;
    assert hh[0] != ':' && hh[1] != ':' && mm[0] != ':' && mm[1] != ':';
    assert ss[0] != ':' && ss[1] != ':';
    assert ':' !in hh && ':' !in mm && ':' !in ss;
    RemoveColonsOfJoin(hh, mm, ss);
    var c := hh + mm + ss;
    assert c[2..4] == mm && c[4..6] == ss;
  }

  lemma {:induction false} NoColonsKept(s: string)
    requires ':' !in s
    ensures RemoveColons(s) == s
  {
    if s != [] {
      assert s[0] in s;
      assert forall ch :: ch in s[1..] ==> ch in s;
      NoColonsKept(s[1..]);
      assert [s[0]] + s[1..] == s;
    }
  }
}
