/**
 * The countdown widget. A `TimeDisplay` counts down from `time_left`,
 * measured from the `start_time` of the last start; a 1/60-second interval,
 * running only between start and stop, refreshes the shown value
 * `time_to_display`. The shown value is reactive: its watcher runs only when
 * an assignment changes it, and on reaching zero it pauses the interval,
 * takes the "started" style off the enclosing `Timer`, plays the end sound
 * and posts `Ended`.
 *
 * Time is a parameter (`now`, the value `monotonic()` would return); the
 * interval is the `Tick` operation, which the event loop calls.
 */
module Timers {

  /** What the display emits: the two sounds and the `Ended` message, in order. */
  datatype TimerEvent = StartSound | EndSound | Ended

  /**
   * The state of a display: `startTime` and `timeLeft` as in the source,
   * `shown` for `time_to_display`, `running` when the interval is not paused.
   */
  datatype Display = Display(startTime: real, timeLeft: real, shown: real, running: bool)

  /** The new state of a display and what it emitted meanwhile. */
  datatype Step = Step(next: Display, posted: seq<TimerEvent>)

  function Max0(x: real): (r: real)
    ensures r >= 0.0 && r >= x
    ensures r == x || r == 0.0
  {
    if x < 0.0 then 0.0 else x
  }

  /**
   * Assigning `v` to the reactive `time_to_display`: the watcher runs only
   * when the value changes, and ends the countdown when it becomes zero.
   */
  function ShowStep(d: Display, v: real): (s: Step)
    ensures s.next.shown == v
    ensures s.next.startTime == d.startTime && s.next.timeLeft == d.timeLeft
    ensures Ended in s.posted <==> d.shown != v && v == 0.0
    ensures s.posted == [] || s.posted == [EndSound, Ended]
    ensures s.next.running <==> d.running && Ended !in s.posted
  {
    if v == d.shown then Step(d, [])
    else if v == 0.0 then Step(d.(shown := v, running := false), [EndSound, Ended])
    else Step(d.(shown := v), [])
  }

  /** `__init__` then `on_mount`: the duration is shown without running the watcher, paused. */
  function Mount(duration: real, now: real): Display
  {
    Display(now, duration, duration, false)
  }

  /** `update_time`: what remains of `timeLeft` since the last start, never below zero. */
  function UpdateTimeStep(d: Display, now: real): (s: Step)
    ensures 0.0 <= s.next.shown
    ensures s.next.shown >= d.timeLeft - (now - d.startTime)
    ensures now >= d.startTime && d.timeLeft >= 0.0 ==> s.next.shown <= d.timeLeft
  {
    ShowStep(d, Max0(d.timeLeft - (now - d.startTime)))
  }

  /** One firing of the interval: nothing happens while it is paused. */
  function TickStep(d: Display, now: real): (s: Step)
    ensures !d.running ==> s == Step(d, [])
    ensures d.running ==> s == UpdateTimeStep(d, now)
  {
    if d.running then UpdateTimeStep(d, now) else Step(d, [])
  }

  /** `start`: restarts the clock from `now`, resumes the interval and plays the start sound. */
  function StartStep(d: Display, now: real): (s: Step)
    ensures s.next.running && s.next.startTime == now
    ensures s.next.timeLeft == d.timeLeft && s.next.shown == d.shown
    ensures s.posted == [StartSound]
  {
    Step(d.(startTime := now, running := true), [StartSound])
  }

  /**
   * `stop`: pauses the interval, charges the time since the last start to
   * `timeLeft` (unclamped) and shows what remains.
   */
  function StopStep(d: Display, now: real): (s: Step)
    ensures !s.next.running
    ensures s.next.timeLeft == d.timeLeft - (now - d.startTime)
    ensures s.next.shown == s.next.timeLeft
    ensures s.next.startTime == d.startTime
    ensures Ended in s.posted <==> s.next.timeLeft == 0.0 && d.shown != 0.0
  {
    var paused := d.(running := false, timeLeft := d.timeLeft - (now - d.startTime));
    ShowStep(paused, paused.timeLeft)
  }

  /**
   * `reset` (with the enclosing timer's duration) and the display half of
   * `change_duration_time`: both `timeLeft` and the shown value become
   * `duration`; the interval is left as it was.
   */
  function ResetStep(d: Display, duration: real): (s: Step)
    ensures s.next.timeLeft == duration && s.next.shown == duration
    ensures s.next.startTime == d.startTime
    ensures Ended !in s.posted ==> s.next.running == d.running
    ensures Ended in s.posted <==> duration == 0.0 && d.shown != 0.0
  {
    ShowStep(d.(timeLeft := duration), duration)
  }

  /** Several firings of the interval, at the given instants, in order. */
  function TickAll(d: Display, times: seq<real>): Step
    decreases |times|
  {
    if times == [] then Step(d, [])
    else
      var s := TickStep(d, times[0]);
      var rest := TickAll(s.next, times[1..]);
      Step(rest.next, s.posted + rest.posted)
  }

  /** A running display whose time is up ends on the next firing of the interval. */
  lemma NaturalEnd(d: Display, now: real)
    requires d.running && d.shown != 0.0
    requires now - d.startTime >= d.timeLeft
    ensures TickStep(d, now).posted == [EndSound, Ended]
    ensures !TickStep(d, now).next.running && TickStep(d, now).next.shown == 0.0
  {
  }

  /** Before its time is up a running display keeps running and shows the time remaining. */
  lemma CountingDown(d: Display, now: real)
    requires d.running && now - d.startTime < d.timeLeft
    ensures TickStep(d, now).posted == []
    ensures TickStep(d, now).next.running
    ensures TickStep(d, now).next.shown == d.timeLeft - (now - d.startTime)
  {
  }

  /** A paused display ignores the interval entirely. */
  lemma {:induction false} PausedStaysPut(d: Display, times: seq<real>)
    requires !d.running
    ensures TickAll(d, times) == Step(d, [])
    decreases |times|
  {
    if times != [] {
      PausedStaysPut(d, times[1..]);
    }
  }

  /** However often the interval fires, a display posts `Ended` at most once. */
  lemma {:induction false} AtMostOneEnded(d: Display, times: seq<real>)
    ensures multiset(TickAll(d, times).posted)[Ended] <= 1
    decreases |times|
  {
    if times != [] {
      var s := TickStep(d, times[0]);
      if Ended in s.posted {
        PausedStaysPut(s.next, times[1..]);
        assert TickAll(d, times).posted == [EndSound, Ended];
      } else {
        AtMostOneEnded(s.next, times[1..]);
        assert s.posted == [];
        assert TickAll(d, times).posted == TickAll(s.next, times[1..]).posted;
      }
    }
  }

  /**
   * A display mounted with zero time never ends by itself: it already shows
   * zero, so the watcher never runs once started.
   */
  lemma {:induction false} ZeroDurationNeverEnds(d: Display, times: seq<real>)
    requires d.timeLeft == 0.0 && d.shown == 0.0
    requires forall i :: 0 <= i < |times| ==> times[i] >= d.startTime
    ensures TickAll(d, times) == Step(d, [])
    decreases |times|
  {
    if times != [] {
      assert TickStep(d, times[0]) == Step(d, []);
      ZeroDurationNeverEnds(d, times[1..]);
    }
  }

  /** Starting a fresh zero-length timer leaves it running forever without `Ended`. */
  lemma ZeroTimerNeverEnds(mounted: real, started: real, times: seq<real>)
    requires forall i :: 0 <= i < |times| ==> times[i] >= started
    ensures var d := StartStep(Mount(0.0, mounted), started).next;
            Ended !in TickAll(d, times).posted && TickAll(d, times).next.running
  {
    ZeroDurationNeverEnds(StartStep(Mount(0.0, mounted), started).next, times);
  }

  /**
   * Pausing and resuming: the time spent stopped does not count, the time
   * spent running before the stop does.
   */
  lemma StopThenStartResumes(d: Display, stopAt: real, resumeAt: real, now: real)
    requires d.running && stopAt - d.startTime < d.timeLeft && d.shown != 0.0
    ensures var stopped := StopStep(d, stopAt).next;
            var resumed := StartStep(stopped, resumeAt).next;
            TickStep(resumed, now).next.shown
              == Max0(d.timeLeft - (stopAt - d.startTime) - (now - resumeAt))
  {
  }

  /** Starting again while running forgets the time elapsed since the earlier start. */
  lemma StartTwice(d: Display, first: real, second: real)
    ensures StartStep(StartStep(d, first).next, second).next == StartStep(d, second).next
    ensures StartStep(StartStep(d, first).next, second).next.timeLeft == d.timeLeft
  {
  }

  /** Stopping twice charges the time since the last start twice. */
  lemma StopTwice(d: Display, first: real, second: real)
    ensures var once := StopStep(d, first).next;
            StopStep(once, second).next.timeLeft
              == d.timeLeft - (first - d.startTime) - (second - d.startTime)
  {
  }

  /**
   * Resetting while running keeps the interval running against the old
   * start: the next firing shows the duration minus the time since that start.
   */
  lemma ResetWhileRunning(d: Display, duration: real, now: real)
    requires d.running && duration != 0.0
    ensures ResetStep(d, duration).next.running
    ensures TickStep(ResetStep(d, duration).next, now).next.shown == Max0(duration - (now - d.startTime))
  {
  }

  /**
   * Running out does not touch `timeLeft`: starting again after `Ended`
   * counts down the same time left as before.
   */
  lemma RestartAfterEnd(d: Display, endAt: real, restartAt: real, now: real)
    requires d.running && d.shown != 0.0 && endAt - d.startTime >= d.timeLeft
    ensures var ended := TickStep(d, endAt).next;
            && ended.timeLeft == d.timeLeft
            && TickStep(StartStep(ended, restartAt).next, now).next.shown
               == Max0(d.timeLeft - (now - restartAt))
  {
  }

  /** `TimeDisplay`: the countdown itself, with the log of what it emitted. */
  class TimeDisplay {
    const durationTime: real
    var startTime: real
    var timeLeft: real
    var timeToDisplay: real
    var running: bool
    var posted: seq<TimerEvent>

    function State(): Display
      reads this
    {
      Display(startTime, timeLeft, timeToDisplay, running)
    }

    /** Construction and mounting at instant `now`. */
    constructor (durationTime: real, now: real)
      ensures this.durationTime == durationTime
      ensures State() == Mount(durationTime, now)
      ensures posted == []
    {
      this.durationTime := durationTime;
      startTime := now;
      timeLeft := durationTime;
      timeToDisplay := durationTime;
      running := false;
      posted := [];
    }

    /** `update_time`, when the interval fires. */
    method Tick(now: real) returns (ended: bool)
      modifies this
      ensures State() == TickStep(old(State()), now).next
      ensures posted == old(posted) + TickStep(old(State()), now).posted
      ensures ended <==> Ended in TickStep(old(State()), now).posted
    {
      if running {
        var v := Max0(timeLeft - (now - startTime));
        ended := Show(v);
      } else {
        ended := false;
      }
    }

    /** The reactive assignment to `time_to_display` and its watcher. */
    method Show(v: real) returns (ended: bool)
      modifies this
      ensures State() == ShowStep(old(State()), v).next
      ensures posted == old(posted) + ShowStep(old(State()), v).posted
      ensures ended <==> Ended in ShowStep(old(State()), v).posted
    {
      ended := false;
      if v != timeToDisplay {
        timeToDisplay := v;
        if v == 0.0 {
          running := false;
          posted := posted + [EndSound, Ended];
          ended := true;
        }
      }
    }

    method Start(now: real)
      modifies this
      ensures State() == StartStep(old(State()), now).next
      ensures posted == old(posted) + [StartSound]
    {
      startTime := now;
      running := true;
      posted := posted + [StartSound];
    }

    method Stop(now: real) returns (ended: bool)
      modifies this
      ensures State() == StopStep(old(State()), now).next
      ensures posted == old(posted) + StopStep(old(State()), now).posted
      ensures ended <==> Ended in StopStep(old(State()), now).posted
    {
      running := false;
      timeLeft := timeLeft - (now - startTime);
      ended := Show(timeLeft);
    }

    /** `reset`, given the enclosing timer's `duration_time`; also used by `change_duration_time`. */
    method Reset(duration: real) returns (ended: bool)
      modifies this
      ensures State() == ResetStep(old(State()), duration).next
      ensures posted == old(posted) + ResetStep(old(State()), duration).posted
      ensures ended <==> Ended in ResetStep(old(State()), duration).posted
    {
      timeLeft := duration;
      ended := Show(duration);
    }
  }

  /** The buttons of a timer. */
  datatype ButtonId = StartButton | StopButton | ResetButton | OtherButton

  /**
   * `Timer`: a titled countdown holding its display; `started` is the
   * "started" style class.
   */
  class Timer {
    const title: string
    var durationTime: real
    var started: bool
    const display: TimeDisplay

    /** The "started" style is on whenever the countdown runs. */
    predicate Valid()
      reads this, display
    {
      display.running ==> started
    }

    /** Construction, composition and mounting at instant `now`. */
    constructor (title: string, durationTime: real, now: real)
      ensures this.title == title && this.durationTime == durationTime && !started
      ensures fresh(display)
      ensures display.State() == Mount(durationTime, now) && display.posted == []
      ensures Valid()
    {
      this.title := title;
      this.durationTime := durationTime;
      started := false;
      display := new TimeDisplay(durationTime, now);
    }

    /** `change_duration_time`. */
    method ChangeDurationTime(newTime: real) returns (ended: bool)
      requires Valid()
      modifies this, display
      ensures durationTime == newTime
      ensures display.State() == ResetStep(old(display.State()), newTime).next
      ensures display.posted == old(display.posted) + ResetStep(old(display.State()), newTime).posted
      ensures ended <==> Ended in ResetStep(old(display.State()), newTime).posted
      ensures started == (old(started) && !ended)
      ensures Valid()
    {
      durationTime := newTime;
      ended := display.Reset(newTime);
      if ended {
        started := false;
      }
    }

    /** `on_button_pressed`: start, stop and reset act on the display; other buttons do nothing. */
    method OnButtonPressed(id: ButtonId, now: real) returns (ended: bool)
      requires Valid()
      modifies this, display
      ensures durationTime == old(durationTime)
      ensures id == StartButton ==>
                && display.State() == StartStep(old(display.State()), now).next
                && display.posted == old(display.posted) + [StartSound]
                && started && !ended
      ensures id == StopButton ==>
                && display.State() == StopStep(old(display.State()), now).next
                && display.posted == old(display.posted) + StopStep(old(display.State()), now).posted
                && !started && (ended <==> Ended in StopStep(old(display.State()), now).posted)
      ensures id == ResetButton ==>
                && display.State() == ResetStep(old(display.State()), old(durationTime)).next
                && display.posted == old(display.posted) + ResetStep(old(display.State()), old(durationTime)).posted
                && (ended <==> Ended in ResetStep(old(display.State()), old(durationTime)).posted)
                && started == (old(started) && !ended)
      ensures id == OtherButton ==>
                && display.State() == old(display.State()) && display.posted == old(display.posted)
                && started == old(started) && !ended
      ensures Valid()
    {
      ended := false;
      match id
      case StartButton =>
        display.Start(now);
        started := true;
      case StopButton =>
        ended := display.Stop(now);
        started := false;
      case ResetButton =>
        ended := display.Reset(durationTime);
        if ended {
          started := false;
        }
      case OtherButton =>
    }

    /** `start_timer`, which runs `_start_timer_safe` after the next refresh, at instant `now`. */
    method StartTimer(now: real)
      requires Valid()
      modifies this, display
      ensures durationTime == old(durationTime) && started
      ensures display.State() == StartStep(old(display.State()), now).next
      ensures display.posted == old(display.posted) + [StartSound]
      ensures Valid()
    {
      display.Start(now);
      started := true;
    }

    /** `stop_timer`: unlike the stop button it leaves the "started" style unless the display ends. */
    method StopTimer(now: real) returns (ended: bool)
      requires Valid()
      modifies this, display
      ensures durationTime == old(durationTime)
      ensures display.State() == StopStep(old(display.State()), now).next
      ensures display.posted == old(display.posted) + StopStep(old(display.State()), now).posted
      ensures ended <==> Ended in StopStep(old(display.State()), now).posted
      ensures started == (old(started) && !ended)
      ensures Valid()
    {
      ended := display.Stop(now);
      if ended {
        started := false;
      }
    }

    /** `reset_timer`. */
    method ResetTimer() returns (ended: bool)
      requires Valid()
      modifies this, display
      ensures durationTime == old(durationTime)
      ensures display.State() == ResetStep(old(display.State()), old(durationTime)).next
      ensures display.posted == old(display.posted) + ResetStep(old(display.State()), old(durationTime)).posted
      ensures ended <==> Ended in ResetStep(old(display.State()), old(durationTime)).posted
      ensures started == (old(started) && !ended)
      ensures Valid()
    {
      ended := display.Reset(durationTime);
      if ended {
        started := false;
      }
    }

    /** The display's interval fires; the watcher takes the style off if the countdown ends. */
    method Tick(now: real) returns (ended: bool)
      requires Valid()
      modifies this, display
      ensures durationTime == old(durationTime)
      ensures display.State() == TickStep(old(display.State()), now).next
      ensures display.posted == old(display.posted) + TickStep(old(display.State()), now).posted
      ensures ended <==> Ended in TickStep(old(display.State()), now).posted
      ensures started == (old(started) && !ended)
      ensures Valid()
    {
      ended := display.Tick(now);
      if ended {
        started := false;
      }
    }
  }
}
