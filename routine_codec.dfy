/**
 * How routines are stored: `RoutineEncoder.default` turns each domain object
 * into a record tagged with a `__type__` field, and `RoutineDecoder.object_hook`
 * turns every decoded record carrying a known tag back into an object.
 *
 * Values are modelled at the level of Python objects, lists and dicts; the
 * text form of JSON is not modelled. `Dump` is the traversal `json.dump`
 * performs with the encoder, `Load` the one `json.load` performs with the
 * hook (innermost records first).
 */
module RoutineCodec {
  import opened Wrappers
  import opened Routines

  /** The Python values that cross the storage boundary. */
  datatype Value =
    | Str(s: string)
    | Int(i: int)
    | List(items: seq<Value>)
    | Dict(entries: map<string, Value>)
    | DurationObj(name: Value, duration: Value)
    | RepetitionObj(name: Value, repetitions: Value)
    | RoutineObj(name: Value, exercises: Value)

  const TypeKey: string := "__type__"

  predicate IsObject(v: Value)
  {
    v.DurationObj? || v.RepetitionObj? || v.RoutineObj?
  }

  /** A tree JSON can hold: strings, integers, lists and dicts only. */
  predicate IsJson(v: Value)
  {
    match v
    case Str(_) => true
    case Int(_) => true
    case List(items) => forall i :: 0 <= i < |items| ==> IsJson(items[i])
    case Dict(m) => forall k :: k in m ==> IsJson(m[k])
    case _ => false
  }

  /** No dict anywhere inside `v` uses the tag key as an ordinary key. */
  predicate NoTypeKey(v: Value)
  {
    match v
    case Str(_) => true
    case Int(_) => true
    case List(items) => forall i :: 0 <= i < |items| ==> NoTypeKey(items[i])
    case Dict(m) => TypeKey !in m && forall k :: k in m ==> NoTypeKey(m[k])
    case DurationObj(n, d) => NoTypeKey(n) && NoTypeKey(d)
    case RepetitionObj(n, r) => NoTypeKey(n) && NoTypeKey(r)
    case RoutineObj(n, es) => NoTypeKey(n) && NoTypeKey(es)
  }

  /**
   * `RoutineEncoder.default`: each domain object becomes a tagged record
   * carrying exactly its fields; any other value is refused (the `TypeError`
   * of the base encoder is `None`).
   */
  function Default(v: Value): (r: Option<map<string, Value>>)
    ensures r.Some? <==> IsObject(v)
    ensures r.Some? ==> TypeKey in r.value && |r.value.Keys| == 3
    ensures v.RoutineObj? ==> r == Some(map[TypeKey := Str("Routine"), "name" := v.name, "exercises" := v.exercises])
    ensures v.DurationObj? ==> r == Some(map[TypeKey := Str("DurationExercise"), "name" := v.name, "duration" := v.duration])
    ensures v.RepetitionObj? ==> r == Some(map[TypeKey := Str("RepetitionExercise"), "name" := v.name, "repetitions" := v.repetitions])
  {
    match v
    case RoutineObj(n, es) =>
      var m := map[TypeKey := Str("Routine"), "name" := n, "exercises" := es];
      assert m.Keys == {TypeKey, "name", "exercises"};
      Some(m)
    case DurationObj(n, d) =>
      var m := map[TypeKey := Str("DurationExercise"), "name" := n, "duration" := d];
      assert m.Keys == {TypeKey, "name", "duration"};
      Some(m)
    case RepetitionObj(n, reps) =>
      var m := map[TypeKey := Str("RepetitionExercise"), "name" := n, "repetitions" := reps];
      assert m.Keys == {TypeKey, "name", "repetitions"};
      Some(m)
    case _ => None
  }

  /**
   * `RoutineDecoder.object_hook`: a record with a known tag becomes its
   * object; a missing field raises `KeyError` (`None`); a record without the
   * tag, or with an unknown one, is returned as it is.
   */
  function ObjectHook(m: map<string, Value>): (r: Option<Value>)
    ensures TypeKey !in m ==> r == Some(Dict(m))
    ensures TypeKey in m && m[TypeKey] !in {Str("Routine"), Str("DurationExercise"), Str("RepetitionExercise")}
            ==> r == Some(Dict(m))
    ensures r.None? <==>
              (TypeKey in m &&
                 ((m[TypeKey] == Str("Routine") && !("name" in m && "exercises" in m))
                  || (m[TypeKey] == Str("DurationExercise") && !("name" in m && "duration" in m))
                  || (m[TypeKey] == Str("RepetitionExercise") && !("name" in m && "repetitions" in m))))
    ensures r.Some? && IsObject(r.value) ==>
              var rec := Default(r.value).value;
              rec.Keys <= m.Keys && forall k :: k in rec ==> rec[k] == m[k]
  {
    if TypeKey in m then
      if m[TypeKey] == Str("Routine") then
        if "name" in m && "exercises" in m then Some(RoutineObj(m["name"], m["exercises"])) else None
      else if m[TypeKey] == Str("DurationExercise") then
        if "name" in m && "duration" in m then Some(DurationObj(m["name"], m["duration"])) else None
      else if m[TypeKey] == Str("RepetitionExercise") then
        if "name" in m && "repetitions" in m then Some(RepetitionObj(m["name"], m["repetitions"])) else None
      else Some(Dict(m))
    else Some(Dict(m))
  }

  /** The hook undoes the encoder on every domain object. */
  lemma HookUndoesDefault(v: Value)
    requires IsObject(v)
    ensures ObjectHook(Default(v).value) == Some(v)
  {
  }

  /** The tree `json.dump` writes: objects replaced, at every depth, by their records. */
  function Dump(v: Value): (r: Value)
    ensures IsJson(r)
  {
    match v
    case Str(_) => v
    case Int(_) => v
    case List(items) => List(seq(|items|, i requires 0 <= i < |items| => Dump(items[i])))
    case Dict(m) => Dict(map k | k in m :: Dump(m[k]))
    case RoutineObj(n, es) =>
      Dict(map[TypeKey := Str("Routine"), "name" := Dump(n), "exercises" := Dump(es)])
    case DurationObj(n, d) =>
      Dict(map[TypeKey := Str("DurationExercise"), "name" := Dump(n), "duration" := Dump(d)])
    case RepetitionObj(n, reps) =>
      Dict(map[TypeKey := Str("RepetitionExercise"), "name" := Dump(n), "repetitions" := Dump(reps)])
  }

  /** Dumping the fields of a three-field tagged record, one by one. */
  lemma DumpFields(tag: string, k1: string, x1: Value, k2: string, x2: Value)
    requires k1 != k2 && k1 != TypeKey && k2 != TypeKey
    ensures var m := map[TypeKey := Str(tag), k1 := x1, k2 := x2];
            (map k | k in m :: Dump(m[k])) == map[TypeKey := Str(tag), k1 := Dump(x1), k2 := Dump(x2)]
  {
    var m := map[TypeKey := Str(tag), k1 := x1, k2 := x2];
    var d := map k | k in m :: Dump(m[k]);
    var e := map[TypeKey := Str(tag), k1 := Dump(x1), k2 := Dump(x2)];
    assert d.Keys == e.Keys;
    assert d[TypeKey] == e[TypeKey] && d[k1] == e[k1] && d[k2] == e[k2];
  }

  /** Dump writes, for each object, the record Default gives, its fields dumped in turn. */
  lemma DumpUsesDefault(v: Value)
    requires IsObject(v)
    ensures Dump(v) == Dict(map k | k in Default(v).value :: Dump(Default(v).value[k]))
  {
    match v
    case RoutineObj(n, es) => DumpFields("Routine", "name", n, "exercises", es);
    case DurationObj(n, d) => DumpFields("DurationExercise", "name", n, "duration", d);
    case RepetitionObj(n, reps) => DumpFields("RepetitionExercise", "name", n, "repetitions", reps);
  }

  /** What `json.load` with the hook builds from a JSON tree; `None` when the hook raises. */
  function Load(v: Value): (r: Option<Value>)
    ensures !v.List? && !v.Dict? ==> r == Some(v)
  {
    match v
    case List(items) =>
      if forall i :: 0 <= i < |items| ==> Load(items[i]).Some? then
        Some(List(seq(|items|, i requires 0 <= i < |items| && Load(items[i]).Some? => Load(items[i]).value)))
      else None
    case Dict(m) =>
      if forall k :: k in m ==> Load(m[k]).Some? then
        ObjectHook(map k | k in m :: Load(m[k]).value)
      else None
    case _ => Some(v)
  }

  /** A list loads exactly when every item does, item by item. */
  lemma LoadListItems(items: seq<Value>)
    ensures Load(List(items)).Some? <==> forall i :: 0 <= i < |items| ==> Load(items[i]).Some?
    ensures Load(List(items)).Some? ==>
              var r := Load(List(items)).value;
              && r.List? && |r.items| == |items|
              && forall i :: 0 <= i < |items| ==> Some(r.items[i]) == Load(items[i])
  {
  }

  /**
   * A dict loads only when all its values do; without the tag key the hook
   * returns it as a dict with the same keys, each value loaded.
   */
  lemma LoadDictEntries(m: map<string, Value>)
    ensures Load(Dict(m)).Some? ==> forall k :: k in m ==> Load(m[k]).Some?
    ensures TypeKey !in m && Load(Dict(m)).Some? ==>
              var r := Load(Dict(m)).value;
              && r.Dict? && r.entries.Keys == m.Keys
              && forall k :: k in m ==> Some(r.entries[k]) == Load(m[k])
  {
    if forall k :: k in m ==> Load(m[k]).Some? {
      var l := map k | k in m :: Load(m[k]).value;
      assert Load(Dict(m)) == ObjectHook(l);
    }
  }

  /**
   * Loading what was dumped gives back the same value, provided no dict of
   * the caller's already used the tag key.
   */
  lemma {:induction false} LoadDump(v: Value)
    requires NoTypeKey(v)
    ensures Load(Dump(v)) == Some(v)
  {
    match v
    case Str(_) =>
    case Int(_) =>
    case List(items) =>
      forall i | 0 <= i < |items|
        ensures Load(Dump(items[i])) == Some(items[i])
      {
        LoadDump(items[i]);
      }
      LoadDumpList(items);
    case Dict(m) =>
      forall k | k in m
        ensures Load(Dump(m[k])) == Some(m[k])
      {
        LoadDump(m[k]);
      }
      LoadDumpDict(m);
    case RoutineObj(n, es) =>
      LoadDump(n);
      LoadDump(es);
      LoadDumpRoutineObj(n, es);
    case DurationObj(n, d) =>
      LoadDump(n);
      LoadDump(d);
      LoadDumpDurationObj(n, d);
    case RepetitionObj(n, reps) =>
      LoadDump(n);
      LoadDump(reps);
      LoadDumpRepetitionObj(n, reps);
  }

  /** A dumped routine loads back once both of its fields do. */
  lemma LoadDumpRoutineObj(n: Value, x: Value)
    requires Load(Dump(n)) == Some(n) && Load(Dump(x)) == Some(x)
    ensures Load(Dump(RoutineObj(n, x))) == Some(RoutineObj(n, x))
  {
    assert Dump(RoutineObj(n, x)) == Dict(map[TypeKey := Str("Routine"), "name" := Dump(n), "exercises" := Dump(x)]);
    LoadTagged(Str("Routine"), "name", Dump(n), n, "exercises", Dump(x), x);
    HookUndoesDefault(RoutineObj(n, x));
  }

  /** A dumped timed exercise loads back once both of its fields do. */
  lemma LoadDumpDurationObj(n: Value, x: Value)
    requires Load(Dump(n)) == Some(n) && Load(Dump(x)) == Some(x)
    ensures Load(Dump(DurationObj(n, x))) == Some(DurationObj(n, x))
  {
    assert Dump(DurationObj(n, x)) == Dict(map[TypeKey := Str("DurationExercise"), "name" := Dump(n), "duration" := Dump(x)]);
    LoadTagged(Str("DurationExercise"), "name", Dump(n), n, "duration", Dump(x), x);
    HookUndoesDefault(DurationObj(n, x));
  }

  /** A dumped counted exercise loads back once both of its fields do. */
  lemma LoadDumpRepetitionObj(n: Value, x: Value)
    requires Load(Dump(n)) == Some(n) && Load(Dump(x)) == Some(x)
    ensures Load(Dump(RepetitionObj(n, x))) == Some(RepetitionObj(n, x))
  {
    assert Dump(RepetitionObj(n, x)) == Dict(map[TypeKey := Str("RepetitionExercise"), "name" := Dump(n), "repetitions" := Dump(x)]);
    LoadTagged(Str("RepetitionExercise"), "name", Dump(n), n, "repetitions", Dump(x), x);
    HookUndoesDefault(RepetitionObj(n, x));
  }

  /** A dumped list loads back once each of its items does. */
  lemma LoadDumpList(items: seq<Value>)
    requires forall i :: 0 <= i < |items| ==> Load(Dump(items[i])) == Some(items[i])
    ensures Load(Dump(List(items))) == Some(List(items))
  {
    var dumped := seq(|items|, i requires 0 <= i < |items| => Dump(items[i]));
    assert Dump(List(items)) == List(dumped);
    assert forall i :: 0 <= i < |dumped| ==> Load(dumped[i]) == Some(items[i]);
    var loaded := seq(|dumped|, i requires 0 <= i < |dumped| && Load(dumped[i]).Some? => Load(dumped[i]).value);
    assert loaded == items;
  }

  /** A dumped untagged dict loads back once each of its values does. */
  lemma LoadDumpDict(m: map<string, Value>)
    requires TypeKey !in m
    requires forall k :: k in m ==> Load(Dump(m[k])) == Some(m[k])
    ensures Load(Dump(Dict(m))) == Some(Dict(m))
  {
    var dumped := map k | k in m :: Dump(m[k]);
    assert Dump(Dict(m)) == Dict(dumped);
    assert forall k :: k in dumped ==> Load(dumped[k]) == Some(m[k]);
    var loaded := map k | k in dumped :: Load(dumped[k]).value;
    assert loaded.Keys == m.Keys;
    assert loaded == m;
  }

  /** Loading a three-field tagged record loads its two fields, then applies the hook. */
  lemma LoadTagged(tag: Value, k1: string, d1: Value, v1: Value, k2: string, d2: Value, v2: Value)
    requires tag.Str? && k1 != k2 && k1 != TypeKey && k2 != TypeKey
    requires Load(d1) == Some(v1) && Load(d2) == Some(v2)
    ensures Load(Dict(map[TypeKey := tag, k1 := d1, k2 := d2]))
            == ObjectHook(map[TypeKey := tag, k1 := v1, k2 := v2])
  {
    var m := map[TypeKey := tag, k1 := d1, k2 := d2];
    LoadedFields(tag, k1, d1, v1, k2, d2, v2);
    var l := map k | k in m :: Load(m[k]).value;
    assert l == map[TypeKey := tag, k1 := v1, k2 := v2];
  }

  /** The fields of a three-field tagged record, loaded one by one. */
  lemma LoadedFields(tag: Value, k1: string, d1: Value, v1: Value, k2: string, d2: Value, v2: Value)
    requires tag.Str? && k1 != k2 && k1 != TypeKey && k2 != TypeKey
    requires Load(d1) == Some(v1) && Load(d2) == Some(v2)
    ensures var m := map[TypeKey := tag, k1 := d1, k2 := d2];
            && (forall k :: k in m ==> Load(m[k]).Some?)
            && (map k | k in m :: Load(m[k]).value) == map[TypeKey := tag, k1 := v1, k2 := v2]
  {
    var m := map[TypeKey := tag, k1 := d1, k2 := d2];
    FieldsLoad(tag, k1, d1, v1, k2, d2, v2);
    var l := map k | k in m :: Load(m[k]).value;
    assert l.Keys == {TypeKey, k1, k2};
    assert l[TypeKey] == tag && l[k1] == v1 && l[k2] == v2;
    ThreeKeyMap(l, TypeKey, k1, k2);
  }

  /** Every field of a three-field tagged record loads, the tag to itself. */
  lemma FieldsLoad(tag: Value, k1: string, d1: Value, v1: Value, k2: string, d2: Value, v2: Value)
    requires tag.Str? && k1 != k2 && k1 != TypeKey && k2 != TypeKey
    requires Load(d1) == Some(v1) && Load(d2) == Some(v2)
    ensures var m := map[TypeKey := tag, k1 := d1, k2 := d2];
            && (forall k :: k in m ==> Load(m[k]).Some?)
            && m[TypeKey] == tag && m[k1] == d1 && m[k2] == d2 && Load(tag) == Some(tag)
  {
    var m := map[TypeKey := tag, k1 := d1, k2 := d2];
    assert Load(tag) == Some(tag);
    assert m.Keys == {TypeKey, k1, k2};
  }

  /** A map with exactly three keys is the display of its three entries. */
  lemma ThreeKeyMap(l: map<string, Value>, a: string, b: string, c: string)
    requires l.Keys == {a, b, c}
    ensures l == map[a := l[a], b := l[b], c := l[c]]
  {
  }

  /** The value a stored exercise has before encoding. */
  function ExerciseValue(e: Exercise): Value
  {
    match e
    case Duration(n, d) => DurationObj(Str(n), Int(d))
    case Repetition(n, r) => RepetitionObj(Str(n), Int(r))
  }

  /** The value a stored routine has before encoding. */
  function RoutineValue(name: string, exercises: seq<Exercise>): Value
  {
    RoutineObj(Str(name), List(seq(|exercises|, i requires 0 <= i < |exercises| => ExerciseValue(exercises[i]))))
  }

  /** Saving a list of routines and loading it back yields the same routines. */
  lemma RoutinesRoundTrip(routines: seq<(string, seq<Exercise>)>)
    ensures var v := List(seq(|routines|, i requires 0 <= i < |routines| =>
                               RoutineValue(routines[i].0, routines[i].1)));
            Load(Dump(v)) == Some(v)
  {
    var v := List(seq(|routines|, i requires 0 <= i < |routines| =>
                       RoutineValue(routines[i].0, routines[i].1)));
    forall i | 0 <= i < |routines|
      ensures NoTypeKey(RoutineValue(routines[i].0, routines[i].1))
    {
      var exs := routines[i].1;
      assert forall j :: 0 <= j < |exs| ==> NoTypeKey(ExerciseValue(exs[j]));
    }
    LoadDump(v);
  }
}
