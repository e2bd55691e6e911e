/**
 * The editor's controller: it holds the routine being edited (possibly
 * none) and applies each edit to that routine's exercise list in place,
 * saving the routines after every edit it performs. A save is recorded as
 * the list it wrote for the edited routine; the file itself is not modelled.
 */
module RoutineControl {
  import opened Routines

  /** `list.pop(i)` on a valid position: the entry at `i` goes, the tail moves left by one. */
  function RemoveAt(s: seq<Exercise>, i: nat): (r: seq<Exercise>)
    requires i < |s|
    ensures |r| == |s| - 1
    ensures forall j :: 0 <= j < i ==> r[j] == s[j]
    ensures forall j :: i <= j < |r| ==> r[j] == s[j + 1]
  {
    s[..i] + s[i + 1..]
  }

  /** Removing an entry loses exactly that entry: it and what remains make up the old list. */
  lemma RemoveAtPermutes(s: seq<Exercise>, i: nat)
    requires i < |s|
    ensures multiset(RemoveAt(s, i)) + multiset{s[i]} == multiset(s)
  {
    assert s == s[..i] + [s[i]] + s[i + 1..];
  }

  /** Putting the removed entry back where it was restores the list. */
  lemma RemoveAtReinsert(s: seq<Exercise>, i: nat)
    requires i < |s|
    ensures RemoveAt(s, i)[..i] + [s[i]] + RemoveAt(s, i)[i..] == s
  {
    var r := RemoveAt(s, i);
    assert r[..i] == s[..i];
    assert r[i..] == s[i + 1..];
  }

  /** `RoutineController`: the routine being edited, and the lists saved so far. */
  class RoutineController {
    var routine: Routine?
    var saves: seq<seq<Exercise>>

    /** `__init__`: no routine yet. */
    constructor ()
      ensures routine == null && saves == []
    {
      routine := null;
      saves := [];
    }

    /** `set_routine`. */
    method SetRoutine(r: Routine?)
      modifies this
      ensures routine == r && saves == old(saves)
    {
      routine := r;
    }

    /** `get_routine_name`: there must be a routine. */
    method GetRoutineName() returns (name: string)
      requires routine != null
      ensures name == routine.name
    {
      name := routine.name;
    }

    /** `get_exercises`: there must be a routine. */
    method GetExercises() returns (exercises: seq<Exercise>)
      requires routine != null
      ensures exercises == routine.exercises
    {
      exercises := routine.exercises;
    }

    /** `add_exercise`: appends and saves once; without a routine nothing happens. */
    method AddExercise(exercise: Exercise)
      modifies this, routine
      ensures routine == old(routine)
      ensures old(routine) == null ==> saves == old(saves)
      ensures old(routine) != null ==>
                && routine.exercises == old(routine.exercises) + [exercise]
                && routine.name == old(routine.name)
                && saves == old(saves) + [routine.exercises]
    {
      if routine != null {
        routine.AddExercise(exercise);
        saves := saves + [routine.exercises];
      }
    }

    /**
     * `remove_exercise`: only an index below the length passes the guard;
     * a negative one counts from the end, and one below `-len` would make
     * `pop` raise.
     */
    method RemoveExercise(idx: int)
      requires routine != null && idx < |routine.exercises| ==> 0 <= idx + |routine.exercises|
      modifies this, routine
      ensures routine == old(routine)
      ensures old(routine) == null || idx >= |old(routine.exercises)| ==>
                && saves == old(saves)
                && (routine != null ==> routine.exercises == old(routine.exercises) && routine.name == old(routine.name))
      ensures old(routine) != null && idx < |old(routine.exercises)| ==>
                && routine.exercises == RemoveAt(old(routine.exercises), PythonIndex(idx, |old(routine.exercises)|))
                && routine.name == old(routine.name)
                && saves == old(saves) + [routine.exercises]
    {
      if routine != null && idx < |routine.exercises| {
        routine.exercises := RemoveAt(routine.exercises, PythonIndex(idx, |routine.exercises|));
        saves := saves + [routine.exercises];
      }
    }

    /** `update_exercise`: the same guard as removal; only that entry changes. */
    method UpdateExercise(idx: int, exercise: Exercise)
      requires routine != null && idx < |routine.exercises| ==> 0 <= idx + |routine.exercises|
      modifies this, routine
      ensures routine == old(routine)
      ensures old(routine) == null || idx >= |old(routine.exercises)| ==>
                && saves == old(saves)
                && (routine != null ==> routine.exercises == old(routine.exercises) && routine.name == old(routine.name))
      ensures old(routine) != null && idx < |old(routine.exercises)| ==>
                && routine.exercises == old(routine.exercises)[PythonIndex(idx, |old(routine.exercises)|) := exercise]
                && routine.name == old(routine.name)
                && saves == old(saves) + [routine.exercises]
    {
      if routine != null && idx < |routine.exercises| {
        routine.exercises := routine.exercises[PythonIndex(idx, |routine.exercises|) := exercise];
        saves := saves + [routine.exercises];
      }
    }

    /** `replace_exercise`: unguarded, so the index must be one Python accepts. */
    method ReplaceExercise(exercise: Exercise, idx: int)
      requires routine != null ==> 0 <= idx + |routine.exercises| && idx < |routine.exercises|
      modifies this, routine
      ensures routine == old(routine)
      ensures old(routine) == null ==> saves == old(saves)
      ensures old(routine) != null ==>
                && routine.exercises == old(routine.exercises)[PythonIndex(idx, |old(routine.exercises)|) := exercise]
                && routine.name == old(routine.name)
                && saves == old(saves) + [routine.exercises]
    {
      if routine != null {
        routine.ReplaceExercise(exercise, idx);
        saves := saves + [routine.exercises];
      }
    }

    /** `reorder_exercises`: the list becomes the given one, whatever it holds. */
    method ReorderExercises(newOrder: seq<Exercise>)
      modifies this, routine
      ensures routine == old(routine)
      ensures old(routine) == null ==> saves == old(saves)
      ensures old(routine) != null ==>
                && routine.exercises == newOrder
                && routine.name == old(routine.name)
                && saves == old(saves) + [newOrder]
    {
      if routine != null {
        routine.exercises := newOrder;
        saves := saves + [newOrder];
      }
    }
  }
}
