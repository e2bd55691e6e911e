/**
 * The workout data: an exercise is either timed (a duration in seconds) or
 * counted (a number of repetitions); a routine is a named, ordered list of
 * exercises, edited in place by appending and by replacing one entry.
 */
module Routines {
  import opened Wrappers
  import opened Text
  import Utils

  /** `DurationExercise` and `RepetitionExercise`, both carrying a name. */
  datatype Exercise =
    | Duration(name: string, duration: int)
    | Repetition(name: string, repetitions: int)

  /**
   * `DurationExercise.duration_mask_string`: "HH:MM:SS", each field at least
   * two characters wide, the hours field growing beyond two digits when needed.
   */
  function DurationMaskString(duration: int): (r: string)
    ensures |r| >= 8 && r[|r| - 3] == ':' && r[|r| - 6] == ':'
    ensures AllDigits(r[|r| - 5..|r| - 3]) && ParseDigits(r[|r| - 5..|r| - 3]) < 60
    ensures AllDigits(r[|r| - 2..]) && ParseDigits(r[|r| - 2..]) < 60
    ensures 0 <= duration < 360000 ==> |r| == 8
  {
    var hms := Utils.HoursMinutesSeconds(duration);
    var hh, mm, ss := Pad2(hms.0), Pad2(hms.1), Pad2(hms.2);
    JoinedFields(hh, mm, ss);
    hh + ":" + mm + ":" + ss
  }

  /** Where the fields sit in a string of the form "H..H:MM:SS". */
  lemma JoinedFields(hh: string, mm: string, ss: string)
    requires |mm| == 2 && |ss| == 2
    ensures var r := hh + ":" + mm + ":" + ss;
            && |r| == |hh| + 6 && r[|r| - 3] == ':' && r[|r| - 6] == ':'
            && r[..|r| - 6] == hh && r[|r| - 5..|r| - 3] == mm && r[|r| - 2..] == ss
  {
    var r := hh + ":" + mm + ":" + ss;
    assert r[..|r| - 6] == hh;
    assert r[|r| - 5..|r| - 3] == mm;
    assert r[|r| - 2..] == ss;
  }

  /** Reads "H..H:MM:SS" back into seconds: the partner of DurationMaskString. */
  function ParseMask(r: string): Option<int>
  {
    if |r| >= 8 && r[|r| - 3] == ':' && r[|r| - 6] == ':'
       && AllDigits(r[..|r| - 6]) && AllDigits(r[|r| - 5..|r| - 3]) && AllDigits(r[|r| - 2..])
    then Some(ClockSeconds(ParseDigits(r[..|r| - 6]), ParseDigits(r[|r| - 5..|r| - 3]),
                           ParseDigits(r[|r| - 2..])))
    else None
  }

  function ClockSeconds(hours: int, minutes: int, sec: int): int
  {
    hours * 3600 + minutes * 60 + sec
  }

  /** ParseMask reads the three fields of a joined mask string. */
  lemma ParseJoinedFields(hh: string, mm: string, ss: string)
    requires |hh| >= 2 && |mm| == 2 && |ss| == 2
    requires AllDigits(hh) && AllDigits(mm) && AllDigits(ss)
    ensures ParseMask(hh + ":" + mm + ":" + ss)
            == Some(ClockSeconds(ParseDigits(hh), ParseDigits(mm), ParseDigits(ss)))
  {
    var r := hh + ":" + mm + ":" + ss;
    assert |r| == |hh| + 6;
    assert r[|r| - 3] == ':' && r[|r| - 6] == ':';
    assert r[..|r| - 6] == hh;
    assert r[|r| - 5..|r| - 3] == mm;
    assert r[|r| - 2..] == ss;
    assert AllDigits(r[..|r| - 6]) && AllDigits(r[|r| - 5..|r| - 3]) && AllDigits(r[|r| - 2..]);
    assert ParseMask(r) == Some(ClockSeconds(ParseDigits(hh), ParseDigits(mm), ParseDigits(ss)));
  }

  /** The mask string of a non-negative duration reads back as that duration. */
  lemma MaskRoundTrip(duration: nat)
    ensures ParseMask(DurationMaskString(duration)) == Some(duration)
  {
    var hms := Utils.HoursMinutesSeconds(duration);
    ParseJoinedFields(Pad2(hms.0), Pad2(hms.1), Pad2(hms.2));
  }

  /** The fields of the mask string are the hours, minutes and seconds of the duration. */
  lemma MaskFields(duration: nat)
    ensures var r := DurationMaskString(duration);
      && AllDigits(r[..|r| - 6])
      && ParseDigits(r[..|r| - 6]) * 3600 + ParseDigits(r[|r| - 5..|r| - 3]) * 60
         + ParseDigits(r[|r| - 2..]) == duration
  {
    MaskRoundTrip(duration);
  }

  /** `Routine`: its exercises are edited in place. */
  class Routine {
    var name: string
    var exercises: seq<Exercise>

    /** `Routine(name, exercises=None)`: a missing or empty list becomes an empty one. */
    constructor (name: string, exercises: Option<seq<Exercise>>)
      ensures this.name == name
      ensures this.exercises == if exercises.Some? then exercises.value else []
    {
      this.name := name;
      this.exercises := if exercises.Some? && exercises.value != [] then exercises.value else [];
    }

    /** Appends at the end; the earlier exercises keep their order. */
    method AddExercise(exercise: Exercise)
      modifies this
      ensures exercises == old(exercises) + [exercise]
      ensures name == old(name)
    {
      exercises := exercises + [exercise];
    }

    /**
     * `self.exercises[idx] = new_exercise`: Python accepts an index from
     * -len to len - 1, a negative one counting from the end.
     */
    method ReplaceExercise(newExercise: Exercise, idx: int)
      requires 0 <= idx + |exercises| && idx < |exercises|
      modifies this
      ensures exercises == old(exercises)[PythonIndex(idx, |old(exercises)|) := newExercise]
      ensures name == old(name)
    {
      exercises := exercises[PythonIndex(idx, |exercises|) := newExercise];
    }
  }

  /** The position a Python list index designates. */
  function PythonIndex(idx: int, length: nat): (i: nat)
    requires 0 <= idx + length && idx < length
    ensures i < length
    ensures idx >= 0 ==> i == idx
    ensures idx < 0 ==> length - i == -idx
  {
    if idx < 0 then idx + length else idx
  }
}
