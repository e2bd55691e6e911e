/**
 * The training screen: it walks through a routine's exercises, one at a
 * time, with a break between consecutive exercises. A timed exercise is
 * shown as a countdown `Timer`, a counted one as the repetition widget with
 * its "Finished" button. Finishing (or skipping) an exercise counts it,
 * moves the progress bar and shows the break timer; the break timer's end
 * (or a skip during the break) hides it and mounts the next exercise. Once
 * every exercise has been counted the screen returns to the routine view.
 *
 * `Session` and `Apply` give the behaviour on values; the class `TrainView`
 * performs it in place and owns the break timer.
 */
module Training {
  import opened Routines
  import Timers

  /** The break timer's duration, a constant of the screen. */
  const BreakDuration: real := 7.0

  /** The exercise widget on screen: none, a countdown, or the repetition widget. */
  datatype Widget = NoWidget | TimerWidget(title: string, duration: int) | RepWidget(exercise: Exercise)

  /** What the screen shows the user, in order. */
  datatype Output =
    | Mounted(widget: Widget)
    | BreakShown
    | BreakHidden
    | Progress(percent: real)
    | LeftSession

  /**
   * The screen's state: `cursor` exercises taken from the iterator so far,
   * `completed` exercises counted, whether the break timer is shown, the
   * exercise widget and what has been shown.
   */
  datatype Session = Session(
    exercises: seq<Exercise>,
    cursor: nat,
    completed: nat,
    breakShown: bool,
    widget: Widget,
    trace: seq<Output>)

  /** The messages and key presses the screen reacts to. */
  datatype Event =
    | ExerciseEnded   // `TimeDisplay.Ended` from the exercise timer
    | RepsFinished    // the "reps-finished" button
    | BreakEnded      // `TimeDisplay.Ended` from the break timer
    | Skip            // the "s" key

  /** The widget `handle_next_exercise` mounts for an exercise. */
  function WidgetFor(e: Exercise): (w: Widget)
    ensures e.Duration? <==> w.TimerWidget?
    ensures w.TimerWidget? ==> w.title == e.name && w.duration == e.duration
    ensures w.RepWidget? ==> w.exercise == e
  {
    match e
    case Duration(name, duration) => TimerWidget(name, duration)
    case Repetition(_, _) => RepWidget(e)
  }

  /** The progress bar's value: the share of exercises counted, in percent. */
  function Percent(completed: nat, total: nat): (p: real)
    requires total > 0
    ensures completed == 0 ==> p == 0.0
    ensures completed == total ==> p == 100.0
  {
    var c, t := completed as real, total as real;
    DivEnds(c, t);
    (c / t) * 100.0
  }

  lemma DivEnds(c: real, t: real)
    requires 0.0 <= c && 0.0 < t
    ensures c == t ==> c / t == 1.0
    ensures c == 0.0 ==> c / t == 0.0
  {
  }

  /** `__init__`: nothing taken from the iterator, nothing counted. */
  function Init(exercises: seq<Exercise>): Session
  {
    Session(exercises, 0, 0, false, NoWidget, [])
  }

  /**
   * `handle_next_exercise`: removes the exercise widget, then mounts the
   * widget of the next exercise, or leaves the screen when there is none.
   */
  function HandleNext(s: Session): (r: Session)
    requires s.cursor <= |s.exercises|
    ensures r.exercises == s.exercises
    ensures r.completed == s.completed && r.breakShown == s.breakShown
    ensures s.cursor == |s.exercises| ==>
              r.cursor == s.cursor && r.widget == NoWidget && r.trace == s.trace + [LeftSession]
    ensures s.cursor < |s.exercises| ==>
              && r.cursor == s.cursor + 1
              && r.widget == WidgetFor(s.exercises[s.cursor])
              && r.trace == s.trace + [Mounted(r.widget)]
  {
    var cleared := s.(widget := NoWidget);
    if s.cursor == |s.exercises| then cleared.(trace := s.trace + [LeftSession])
    else
      var w := WidgetFor(s.exercises[s.cursor]);
      cleared.(cursor := s.cursor + 1, widget := w, trace := s.trace + [Mounted(w)])
  }

  /** `update_progress`: counts one more exercise, unguarded, and moves the bar. */
  function CountExercise(s: Session): (r: Session)
    requires |s.exercises| > 0
    ensures r.completed == s.completed + 1
    ensures r.trace == s.trace + [Progress(Percent(r.completed, |s.exercises|))]
    ensures r == s.(completed := r.completed, trace := r.trace)
  {
    var c := s.completed + 1;
    s.(completed := c, trace := s.trace + [Progress(Percent(c, |s.exercises|))])
  }

  /**
   * `start_break_timer`: leaves the screen when every exercise is counted;
   * otherwise removes the exercise widget and shows the break timer.
   */
  function StartBreak(s: Session): (r: Session)
    ensures s.completed == |s.exercises| ==> r == s.(trace := s.trace + [LeftSession])
    ensures s.completed != |s.exercises| ==>
              r == s.(widget := NoWidget, breakShown := true, trace := s.trace + [BreakShown])
  {
    if s.completed == |s.exercises| then s.(trace := s.trace + [LeftSession])
    else s.(widget := NoWidget, breakShown := true, trace := s.trace + [BreakShown])
  }

  /** Hiding the break timer. */
  function HideBreak(s: Session): Session
  {
    s.(breakShown := false, trace := s.trace + [BreakHidden])
  }

  /** Whether an event counts the current exercise: both "done" events, and a skip outside a break. */
  predicate Counts(s: Session, e: Event)
  {
    e.ExerciseEnded? || e.RepsFinished? || (e.Skip? && !s.breakShown)
  }

  /** A routine to walk through, and a cursor within it. */
  predicate WellFormed(s: Session)
  {
    |s.exercises| > 0 && s.cursor <= |s.exercises|
  }

  /** The screen's reaction to one event; it only ever appends to what was shown. */
  function Apply(s: Session, e: Event): (r: Session)
    requires WellFormed(s)
    ensures WellFormed(r) && r.exercises == s.exercises
    ensures |r.trace| > |s.trace| && r.trace[..|s.trace|] == s.trace
  {
    if Counts(s, e) then StartBreak(CountExercise(s))
    else HandleNext(HideBreak(s))
  }

  predicate Left(s: Session)
  {
    LeftSession in s.trace
  }

  /** The value the progress bar shows: the last one set, zero before any. */
  function LastProgress(trace: seq<Output>): real
  {
    if trace == [] then 0.0
    else if trace[|trace| - 1].Progress? then trace[|trace| - 1].percent
    else LastProgress(trace[..|trace| - 1])
  }

  /**
   * The counting invariant of a mounted screen. While it has not left:
   * during a break, exactly the exercises taken have been counted and one
   * remains; outside a break, the exercise on screen is the one taken last
   * and it is not counted yet. The screen has left exactly when everything
   * is counted, and it has left at most once.
   */
  ghost predicate Inv(s: Session)
  {
    && WellFormed(s)
    && s.completed <= s.cursor
    && (Left(s) <==> s.completed == |s.exercises|)
    && multiset(s.trace)[LeftSession] <= 1
    && LastProgress(s.trace) == Percent(s.completed, |s.exercises|)
    && (!Left(s) && s.breakShown ==>
          s.cursor == s.completed < |s.exercises| && s.widget == NoWidget)
    && (!Left(s) && !s.breakShown ==>
          s.cursor == s.completed + 1 && s.widget == WidgetFor(s.exercises[s.cursor - 1]))
  }

  /**
   * The events the running screen can receive: the exercise timer's end
   * while that timer is on screen, the "Finished" button while the
   * repetition widget is, the break timer's end while the break is shown,
   * and the skip key at any time.
   */
  predicate Deliverable(s: Session, e: Event)
  {
    && !Left(s)
    && (e.ExerciseEnded? ==> !s.breakShown && s.widget.TimerWidget?)
    && (e.RepsFinished? ==> !s.breakShown && s.widget.RepWidget?)
    && (e.BreakEnded? ==> s.breakShown)
  }

  /** The screen once mounted: the first exercise is on screen. */
  function Started(exercises: seq<Exercise>): (s: Session)
    requires |exercises| > 0
    ensures s.cursor == 1 && s.completed == 0 && !s.breakShown
    ensures s.widget == WidgetFor(exercises[0]) && s.trace == [Mounted(s.widget)]
  {
    HandleNext(Init(exercises))
  }

  lemma LastProgressAppend(trace: seq<Output>, o: Output)
    ensures LastProgress(trace + [o]) == if o.Progress? then o.percent else LastProgress(trace)
  {
    assert (trace + [o])[..|trace + [o]| - 1] == trace;
  }

  lemma StartedInv(exercises: seq<Exercise>)
    requires |exercises| > 0
    ensures Inv(Started(exercises))
  {
    var s := Started(exercises);
    assert s.trace == [Mounted(s.widget)];
    LastProgressAppend([], Mounted(s.widget));
  }

  /** Each event counts at most one exercise, and exactly one when it counts. */
  lemma ApplyCounts(s: Session, e: Event)
    requires |s.exercises| > 0 && s.cursor <= |s.exercises|
    ensures Apply(s, e).completed == s.completed + (if Counts(s, e) then 1 else 0)
  {
  }

  /** The exercise timer's end and the "Finished" button are handled the same way. */
  lemma DoneEventsAgree(s: Session)
    requires |s.exercises| > 0 && s.cursor <= |s.exercises|
    ensures Apply(s, ExerciseEnded) == Apply(s, RepsFinished)
  {
  }

  /** Every deliverable event keeps the counting invariant. */
  lemma InvPreserved(s: Session, e: Event)
    requires Inv(s) && Deliverable(s, e)
    ensures Inv(Apply(s, e))
  {
    if Counts(s, e) {
      CountingKeepsInv(s, e);
    } else {
      BreakEndKeepsInv(s);
    }
  }

  /** Counting the exercise on screen either shows the break or, after the last one, leaves. */
  lemma CountingKeepsInv(s: Session, e: Event)
    requires Inv(s) && Deliverable(s, e) && Counts(s, e)
    ensures Inv(Apply(s, e))
  {
    var total := |s.exercises|;
    assert !s.breakShown && s.cursor == s.completed + 1;
    var u := CountExercise(s);
    var p := Progress(Percent(u.completed, total));
    assert u.trace == s.trace + [p];
    LastProgressAppend(s.trace, p);
    assert LeftSession !in u.trace;
    assert multiset(u.trace)[LeftSession] == 0;
    var r := Apply(s, e);
    if u.completed == total {
      assert r.trace == u.trace + [LeftSession];
      LastProgressAppend(u.trace, LeftSession);
    } else {
      assert r.trace == u.trace + [BreakShown];
      LastProgressAppend(u.trace, BreakShown);
      assert !Left(r);
    }
  }

  /** Ending the break (by its timer or by a skip) mounts the next exercise. */
  lemma BreakEndKeepsInv(s: Session)
    requires Inv(s) && !Left(s) && s.breakShown
    ensures Inv(Apply(s, BreakEnded)) && Apply(s, Skip) == Apply(s, BreakEnded)
    ensures var r := Apply(s, BreakEnded);
            !Left(r) && !r.breakShown && r.completed == s.completed
  {
    var total := |s.exercises|;
    assert s.cursor == s.completed < total;
    var h := HideBreak(s);
    LastProgressAppend(s.trace, BreakHidden);
    var m := Mounted(WidgetFor(s.exercises[s.cursor]));
    LastProgressAppend(h.trace, m);
    var r := Apply(s, BreakEnded);
    assert r.trace == h.trace + [m];
    assert LeftSession !in r.trace;
  }

  /** The screen's reaction to a sequence of events. */
  function Run(s: Session, events: seq<Event>): (r: Session)
    requires WellFormed(s)
    ensures WellFormed(r) && r.exercises == s.exercises
    decreases |events|
  {
    if events == [] then s
    else Run(Apply(s, events[0]), events[1..])
  }

  /** Every event of the sequence is deliverable in the state it reaches. */
  predicate DeliverableRun(s: Session, events: seq<Event>)
    requires WellFormed(s)
    decreases |events|
  {
    events == [] ||
    (Deliverable(s, events[0]) && DeliverableRun(Apply(s, events[0]), events[1..]))
  }

  /** The invariant holds after every deliverable sequence of events. */
  lemma {:induction false} RunInv(s: Session, events: seq<Event>)
    requires Inv(s) && DeliverableRun(s, events)
    ensures Inv(Run(s, events))
    ensures |Run(s, events).trace| >= |s.trace| && Run(s, events).trace[..|s.trace|] == s.trace
    decreases |events|
  {
    RunExtendsTrace(s, events);
    if events != [] {
      InvPreserved(s, events[0]);
      RunInv(Apply(s, events[0]), events[1..]);
    }
  }

  /** A run only appends to what was shown. */
  lemma {:induction false} RunExtendsTrace(s: Session, events: seq<Event>)
    requires WellFormed(s)
    ensures |Run(s, events).trace| >= |s.trace| && Run(s, events).trace[..|s.trace|] == s.trace
    decreases |events|
  {
    if events != [] {
      var t := Apply(s, events[0]);
      RunExtendsTrace(t, events[1..]);
      var r := Run(t, events[1..]);
      assert r.trace[..|s.trace|] == r.trace[..|t.trace|][..|s.trace|];
    }
  }

  /**
   * From mounting on, the screen leaves exactly once it has counted all
   * exercises, never twice, and its progress bar then shows 100.
   */
  lemma SessionEndsExactlyOnce(exercises: seq<Exercise>, events: seq<Event>)
    requires |exercises| > 0
    requires DeliverableRun(Started(exercises), events)
    ensures var r := Run(Started(exercises), events);
            && (Left(r) <==> r.completed == |exercises|)
            && multiset(r.trace)[LeftSession] <= 1
            && r.completed <= |exercises|
            && (Left(r) ==> LastProgress(r.trace) == 100.0)
  {
    StartedInv(exercises);
    RunInv(Started(exercises), events);
  }

  /** A break's end hides the break and mounts the next exercise, uncounted. */
  lemma BreakEndAdvances(s: Session)
    requires Inv(s) && Deliverable(s, BreakEnded)
    ensures var r := Apply(s, BreakEnded);
            && r.cursor == s.cursor + 1 && r.completed == s.completed && !r.breakShown
            && r.widget == WidgetFor(s.exercises[s.cursor])
            && r.trace == s.trace + [BreakHidden, Mounted(r.widget)]
  {
  }

  /**
   * The break timer is not stopped when a skip ends the break early; were
   * its `Ended` still delivered while the next exercise is on screen, that
   * exercise would be dropped without being counted and the invariant lost.
   */
  lemma StaleBreakEndSkipsExercise(s: Session)
    requires Inv(s) && !Left(s) && !s.breakShown && s.cursor < |s.exercises|
    ensures var r := Apply(s, BreakEnded);
            && r.completed == s.completed
            && r.cursor == s.completed + 2
            && !Inv(r)
  {
    var r := Apply(s, BreakEnded);
    LastProgressAppend(s.trace, BreakHidden);
    assert !Left(r) by {
      assert r.trace == s.trace + [BreakHidden, Mounted(r.widget)];
    }
  }

  /** An exercise is on screen, taken but not yet counted, outside a break. */
  predicate OnExercise(s: Session)
  {
    && WellFormed(s) && !Left(s) && !s.breakShown
    && s.completed < |s.exercises| && s.cursor == s.completed + 1
  }

  /** Outside a break, every state the invariant allows has an exercise on screen. */
  lemma InvOnExercise(s: Session)
    requires Inv(s) && !Left(s) && !s.breakShown
    ensures OnExercise(s)
  {
  }

  /** Skipping the last exercise counts it and leaves. */
  lemma SkipLast(s: Session)
    requires OnExercise(s) && s.completed + 1 == |s.exercises|
    ensures Deliverable(s, Skip)
    ensures Left(Apply(s, Skip)) && Apply(s, Skip).completed == |s.exercises|
  {
  }

  /**
   * Skipping any other exercise counts it and shows the break; skipping
   * the break then puts the next exercise on screen.
   */
  lemma SkipRoundStep(s: Session)
    requires OnExercise(s) && s.completed + 1 < |s.exercises|
    ensures var t := Apply(s, Skip);
            var u := Apply(t, BreakEnded);
            && Deliverable(s, Skip) && t.breakShown && Deliverable(t, BreakEnded)
            && OnExercise(u) && u.completed == s.completed + 1
            && u.exercises == s.exercises
  {
    var t := Apply(s, Skip);
    assert t.trace == s.trace + [Progress(Percent(s.completed + 1, |s.exercises|)), BreakShown];
    var u := Apply(t, BreakEnded);
    assert u.trace == t.trace + [BreakHidden, Mounted(u.widget)];
  }

  /** Skipping an exercise and then its break, `n` times. */
  function SkipRound(n: nat): (events: seq<Event>)
    ensures |events| == 2 * n
  {
    if n == 0 then [] else [Skip, BreakEnded] + SkipRound(n - 1)
  }

  lemma SkipRoundUnfold(k: nat)
    requires k >= 1
    ensures SkipRound(k) + [Skip] == [Skip] + ([BreakEnded] + (SkipRound(k - 1) + [Skip]))
  {
    assert SkipRound(k) == [Skip, BreakEnded] + SkipRound(k - 1);
  }

  /**
   * The user can always finish: with an exercise on screen, skipping every
   * remaining exercise and break is a run the screen accepts, and it ends
   * in leaving after the last exercise is counted.
   */
  lemma {:induction false} SkippingFinishes(s: Session)
    requires OnExercise(s)
    ensures var events := SkipRound(|s.exercises| - s.completed - 1) + [Skip];
            DeliverableRun(s, events) && Left(Run(s, events))
            && Run(s, events).completed == |s.exercises|
    decreases |s.exercises| - s.completed
  {
    var n := |s.exercises| - s.completed;
    var events := SkipRound(n - 1) + [Skip];
    var t := Apply(s, Skip);
    if n == 1 {
      SkipLast(s);
      assert events == [Skip] + [];
      RunCons(s, Skip, []);
    } else {
      SkipRoundStep(s);
      var u := Apply(t, BreakEnded);
      SkippingFinishes(u);
      var rest := SkipRound(n - 2) + [Skip];
      SkipRoundUnfold(n - 1);
      RunCons(s, Skip, [BreakEnded] + rest);
      RunCons(t, BreakEnded, rest);
    }
  }

  /** Running a sequence that starts with `e`: first `e`, then the rest. */
  lemma RunCons(s: Session, e: Event, rest: seq<Event>)
    requires WellFormed(s)
    ensures Run(s, [e] + rest) == Run(Apply(s, e), rest)
    ensures DeliverableRun(s, [e] + rest) <==> Deliverable(s, e) && DeliverableRun(Apply(s, e), rest)
  {
    assert ([e] + rest)[0] == e && ([e] + rest)[1..] == rest;
  }

  /**
   * `TrainView`: the screen, holding the routine's exercises, its counters,
   * the break timer (created hidden, with the constant break duration) and
   * the exercise widget on screen.
   */
  class TrainView {
    const exercises: seq<Exercise>
    const totalExercises: nat
    const breakTimer: Timers.Timer
    var cursor: nat
    var completedExercises: nat
    var breakShown: bool
    var widget: Widget
    var trace: seq<Output>

    function Abs(): Session
      reads this
    {
      Session(exercises, cursor, completedExercises, breakShown, widget, trace)
    }

    ghost predicate Valid()
      reads this, breakTimer, breakTimer.display
    {
      && totalExercises == |exercises| > 0
      && cursor <= |exercises|
      && breakTimer.durationTime == BreakDuration
      && breakTimer.Valid()
    }

    /** `__init__` and `compose` at instant `now`; the routine is never empty here. */
    constructor (routineExercises: seq<Exercise>, now: real)
      requires |routineExercises| > 0
      ensures Abs() == Init(routineExercises)
      ensures totalExercises == |routineExercises|
      ensures fresh(breakTimer) && fresh(breakTimer.display)
      ensures breakTimer.title == "Break" && !breakTimer.started
      ensures breakTimer.display.State() == Timers.Mount(BreakDuration, now)
      ensures Valid()
    {
      exercises := routineExercises;
      totalExercises := |routineExercises|;
      cursor := 0;
      completedExercises := 0;
      breakShown := false;
      widget := NoWidget;
      trace := [];
      breakTimer := new Timers.Timer("Break", BreakDuration, now);
    }

    /** `on_mount`. */
    method OnMount()
      requires Valid()
      modifies this
      ensures Abs() == HandleNext(old(Abs()))
      ensures Valid()
    {
      HandleNextExercise();
    }

    /** `handle_next_exercise`. */
    method HandleNextExercise()
      requires Valid()
      modifies this
      ensures Abs() == HandleNext(old(Abs()))
      ensures Valid()
    {
      widget := NoWidget;
      if cursor == |exercises| {
        trace := trace + [LeftSession];
        return;
      }
      var e := exercises[cursor];
      cursor := cursor + 1;
      widget := WidgetFor(e);
      trace := trace + [Mounted(widget)];
    }

    /** `update_progress`. */
    method UpdateProgress()
      requires Valid()
      modifies this
      ensures Abs() == CountExercise(old(Abs()))
      ensures Valid()
    {
      completedExercises := completedExercises + 1;
      trace := trace + [Progress(Percent(completedExercises, totalExercises))];
    }

    /** `start_break_timer`: the break timer is reset, not started. */
    method StartBreakTimer()
      requires Valid()
      modifies this, breakTimer, breakTimer.display
      ensures Abs() == StartBreak(old(Abs()))
      ensures old(completedExercises) == totalExercises ==>
                && breakTimer.display.State() == old(breakTimer.display.State())
                && breakTimer.display.posted == old(breakTimer.display.posted)
                && breakTimer.started == old(breakTimer.started)
      ensures old(completedExercises) != totalExercises ==>
                && breakTimer.display.State() == Timers.ResetStep(old(breakTimer.display.State()), BreakDuration).next
                && breakTimer.display.posted == old(breakTimer.display.posted)
                && breakTimer.started == old(breakTimer.started)
      ensures Valid()
    {
      if totalExercises == completedExercises {
        trace := trace + [LeftSession];
        return;
      }
      widget := NoWidget;
      var _ := breakTimer.ResetTimer();
      breakShown := true;
      trace := trace + [BreakShown];
    }

    /** `exercise_timer_ended`. */
    method ExerciseTimerEnded()
      requires Valid()
      modifies this, breakTimer, breakTimer.display
      ensures Abs() == Apply(old(Abs()), ExerciseEnded)
      ensures BreakResetBy(old(Abs()), ExerciseEnded, old(breakTimer.display.State()), breakTimer.display.State())
      ensures breakTimer.started == old(breakTimer.started)
      ensures breakTimer.display.posted == old(breakTimer.display.posted)
      ensures Valid()
    {
      UpdateProgress();
      StartBreakTimer();
    }

    /** `on_button_pressed`: only the "reps-finished" button concerns the screen. */
    method OnButtonPressed(id: string)
      requires Valid()
      modifies this, breakTimer, breakTimer.display
      ensures id == "reps-finished" ==>
                && Abs() == Apply(old(Abs()), RepsFinished)
                && BreakResetBy(old(Abs()), RepsFinished, old(breakTimer.display.State()), breakTimer.display.State())
      ensures id != "reps-finished" ==>
                Abs() == old(Abs()) && breakTimer.display.State() == old(breakTimer.display.State())
      ensures breakTimer.started == old(breakTimer.started)
      ensures breakTimer.display.posted == old(breakTimer.display.posted)
      ensures Valid()
    {
      if id == "reps-finished" {
        UpdateProgress();
        StartBreakTimer();
      }
    }

    /** `break_timer_ended`: the break timer itself is left as its end left it. */
    method BreakTimerEnded()
      requires Valid()
      modifies this
      ensures Abs() == Apply(old(Abs()), BreakEnded)
      ensures Valid()
    {
      breakShown := false;
      trace := trace + [BreakHidden];
      HandleNextExercise();
    }

    /** `action_skip_exercise`: a skip during the break does not stop the break timer. */
    method ActionSkipExercise()
      requires Valid()
      modifies this, breakTimer, breakTimer.display
      ensures Abs() == Apply(old(Abs()), Skip)
      ensures BreakResetBy(old(Abs()), Skip, old(breakTimer.display.State()), breakTimer.display.State())
      ensures breakTimer.started == old(breakTimer.started)
      ensures breakTimer.display.posted == old(breakTimer.display.posted)
      ensures Valid()
    {
      if !breakShown {
        UpdateProgress();
        StartBreakTimer();
      } else {
        BreakTimerEnded();
      }
    }

    /**
     * The break timer's interval fires at `now`; if its countdown ends, the
     * `Ended` message is handled at once.
     */
    method BreakTimerTick(now: real) returns (ended: bool)
      requires Valid()
      modifies this, breakTimer, breakTimer.display
      ensures breakTimer.display.State() == Timers.TickStep(old(breakTimer.display.State()), now).next
      ensures breakTimer.display.posted
              == old(breakTimer.display.posted) + Timers.TickStep(old(breakTimer.display.State()), now).posted
      ensures ended <==> Timers.Ended in Timers.TickStep(old(breakTimer.display.State()), now).posted
      ensures breakTimer.started == (old(breakTimer.started) && !ended)
      ensures Abs() == if ended then Apply(old(Abs()), BreakEnded) else old(Abs())
      ensures Valid()
    {
      ended := breakTimer.Tick(now);
      if ended {
        BreakTimerEnded();
      }
    }
  }

  /**
   * How a counting event treats the break timer: reset to the break
   * duration when the break is shown, untouched otherwise.
   */
  predicate BreakResetBy(s: Session, e: Event, before: Timers.Display, after: Timers.Display)
  {
    if Counts(s, e) && s.completed + 1 != |s.exercises| then
      after == Timers.ResetStep(before, BreakDuration).next
    else after == before
  }
}
