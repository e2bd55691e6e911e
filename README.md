# Timero in Dafny

Timero is a terminal workout tracker. A routine is a named list of
exercises. Each exercise is either timed (a duration in seconds) or counted
(a number of repetitions). A training session walks through a routine: a
countdown for each timed exercise, a "Finished" button for each counted one,
and a break timer between exercises.

This project models the parts of Timero that hold its logic:

- **`Training`** (`train_view.dfy`): the training screen `TrainView`.
  - `Session` is the screen's state as a value, and `Apply` its reaction to
    one event.
  - The events are: the exercise timer's end, the "Finished" button, the
    break timer's end, and the skip key.
  - The class `TrainView` carries these out in place and owns the break
    timer.
  - The lemmas give the counting invariant and its preservation, show that
    the session ends exactly once, and show that skipping always finishes.
- **`Timers`** (`timer.dfy`): the countdown widgets `TimeDisplay` and
  `Timer`.
  - Their state is a `Display`, and the `…Step` functions give each
    operation on values.
  - The two classes perform those operations in place.
  - Time is a parameter `now`: the value the monotonic clock would return.
  - The 60 Hz interval is the `Tick` operation.
- **`Routines`**, **`RoutineCodec`** and **`RoutineControl`**
  (`routine.dfy`, `routine_codec.dfy`, `routine_controller.dfy`):
  - the exercise and routine data, and the "HH:MM:SS" mask string;
  - the `__type__`-tagged encoding and decoding used to store routines;
  - the controller that edits the current routine's exercise list.
- **`SettingsStore`** (`settings.dfy`): the settings map. It starts from
  the defaults and is overridden by the settings file.
- **`Utils`** and **`Validators`** (`utils.dfy`, `validators.dfy`): the
  display helpers `seconds_to_time_str` and `repetitions_to_str`, and the
  input validators.
- **`Text`** and **`Wrappers`**: decimal rendering of integers (the
  f-string formats the source uses), and `Option`.

Two partner readers are added. `Utils.ParseTimeStr` and
`Routines.ParseMask` read rendered strings back. They exist so that the
round trips can be stated and proved.

## Model

| member | source | states |
|---|---|---|
| Utils.HoursMinutesSeconds | src/utils.py:1-3 | the two floor divmods: hours*3600 + minutes*60 + sec equals the input; minutes and seconds lie in 0..59; hours are non-negative for a non-negative input, and below 100 under 360000 s |
| Utils.SecondsToTimeStr | src/utils.py:1-12 | the result is empty exactly for 0 seconds; it never has a leading, trailing or doubled space; for a non-zero input its space-separated words are exactly the parts |
| Utils.Parts | src/utils.py:4-10 | one entry per non-zero component, in the order hours ("<h>h"), minutes ("<m>min"), seconds ("<s>s"); nothing for a zero component |
| Utils.PartsAreWords | src/utils.py:4-10 | each part is a non-empty word without spaces; there are no parts exactly when all three components are zero |
| Utils.JoinWellSpaced | src/utils.py:12 | joining words with single spaces gives a well-spaced string, empty exactly when there are no words |
| Utils.TimeStrRoundTrip | src/utils.py:1-12 | reading back the rendering of any n ≥ 0 gives n (the order and the omission of zero components are stated by SecondsToTimeStr and Parts) |
| Utils.TimeStrInjective | src/utils.py:1-12 | two different non-negative durations never render alike |
| Utils.TimeStrExamples | tests/utils_test.py:4-21 | 3967 → "1h 6min 7s", 367 → "6min 7s", 3607 → "1h 7s", 7 → "7s" |
| Utils.RepetitionsToStr | src/utils.py:15-17 | the count, then a space, then "times" when reps > 1 and "time" otherwise (0, 1 and negative counts) |
| Utils.RepetitionsInjective | src/utils.py:15-17 | different counts never render alike: the count is everything before the first space |
| Validators.IsEmptyValidate | src/validators.py:4-8 | success exactly for a non-empty input; the failure message is "Empty Input" |
| Validators.RemoveColons | src/validators.py:13 | no colon is left, and nothing grows |
| Validators.TimeValidate | src/validators.py:11-28 | the verdict is success or one of the three failure messages; success needs at least 6 characters without colons |
| Validators.TimeValidateAccepts | src/validators.py:11-28 | success exactly when at least 6 characters remain without colons and the minutes [2:4] and seconds [4:6] are both ≤ 59 |
| Validators.TimeValidateMessages | src/validators.py:15-26 | "Input too short" exactly below 6 characters; otherwise "Minutes must be 00-59" exactly when the minutes exceed 59; otherwise "Seconds must be 00-59" exactly when the seconds do |
| Validators.ColonInsensitive | src/validators.py:13 | inserting a colon anywhere leaves the verdict unchanged |
| Validators.HoursUnchecked | src/validators.py:18-28 | two inputs that both keep at least 6 characters without colons, and agree on cleaned characters 2..5, get the same verdict: the hours and anything past the sixth character are unchecked |
| Validators.MaskStringIsValid | src/validators.py:11-28 | the mask string of every duration below 100 hours passes the time validator |
| Text.Pad2 | src/routine.py:19-21 | `f"{x:02}"`: at least two characters; for x ≥ 0 all digits with value x; exactly two for 0 ≤ x < 100 |
| Routines.DurationMaskString | src/routine.py:14-22 | three colon-separated fields; minutes and seconds are two digits each, with value below 60; exactly 8 characters for 0 ≤ duration < 360000 |
| Routines.MaskRoundTrip | src/routine.py:14-22 | reading the mask string back gives the duration, for every duration ≥ 0 |
| Routines.MaskFields | src/routine.py:15-16 | h*3600 + m*60 + s read from the fields equals the duration |
| Routines.Routine.constructor | src/routine.py:32-34 | a missing or empty exercise list becomes an empty list |
| Routines.Routine.AddExercise | src/routine.py:36-37 | appends at the end; earlier exercises and the name are unchanged |
| Routines.Routine.ReplaceExercise | src/routine.py:39-40 | only the position the (possibly negative) Python index designates changes; the index must be in range |
| Routines.PythonIndex | src/routine.py:39-40 | a Python index in -len..len-1 designates a valid position; a negative one counts from the end |
| RoutineCodec.Default | src/routine.py:43-63 | each of the three domain objects becomes a record with `__type__` and exactly its two fields; anything else is refused |
| RoutineCodec.ObjectHook | src/routine.py:70-80 | a record without `__type__`, or with an unknown tag, is returned unchanged; a known tag with a missing field fails; a decoded object's encoding is contained in the record |
| RoutineCodec.HookUndoesDefault | src/routine.py:43-80 | the decoder hook turns every encoded object back into that object |
| RoutineCodec.Dump | src/routine.py:83-86 | what is written holds only strings, integers, lists and dicts |
| RoutineCodec.DumpUsesDefault | src/routine.py:43-63 | every object is written as the record the encoder gives, its fields written in turn |
| RoutineCodec.Load | src/routine.py:88-90 | `json.load` with the hook: strings and integers load as themselves |
| RoutineCodec.LoadListItems | src/routine.py:88-90 | a list loads exactly when every item does, and then item by item into a list of the same length |
| RoutineCodec.LoadDictEntries | src/routine.py:88-90 | a dict loads only when every value does, and a dict without the type tag keeps its keys with each value loaded |
| RoutineCodec.LoadDump | src/routine.py:70-80 | loading what was written gives back the same value, provided no dict of the user's already uses the `__type__` key |
| RoutineCodec.RoutinesRoundTrip | src/routine.py:83-90 | saving a list of routines and loading it back yields the same routines |
| RoutineControl.RemoveAt | src/routine_controller.py:29-32 | `pop(i)`: one entry fewer; the entries before i are unchanged; those after it move left by one |
| RoutineControl.RemoveAtPermutes | src/routine_controller.py:29-32 | the removed entry and the remaining list make up exactly the old list |
| RoutineControl.RemoveAtReinsert | src/routine_controller.py:29-32 | inserting the removed entry back at i restores the old list |
| RoutineControl.RoutineController.constructor | src/routine_controller.py:11-13 | no routine is set and nothing is saved |
| RoutineControl.RoutineController.SetRoutine | src/routine_controller.py:15-16 | the given routine becomes the current one |
| RoutineControl.RoutineController.GetRoutineName | src/routine_controller.py:18-19 | the current routine's name; a routine must be set |
| RoutineControl.RoutineController.GetExercises | src/routine_controller.py:21-22 | the current routine's list; a routine must be set |
| RoutineControl.RoutineController.AddExercise | src/routine_controller.py:24-27 | with a routine: appends and saves once; without one: nothing changes and nothing is saved |
| RoutineControl.RoutineController.RemoveExercise | src/routine_controller.py:29-32 | removes exactly the designated entry and saves, when a routine is set and idx < len; otherwise the list, the name and the saves are unchanged |
| RoutineControl.RoutineController.UpdateExercise | src/routine_controller.py:34-37 | replaces only the designated entry and saves, under the same guard; otherwise the list, the name and the saves are unchanged |
| RoutineControl.RoutineController.ReplaceExercise | src/routine_controller.py:39-42 | unguarded replacement, so the index must be in range; saves once |
| RoutineControl.RoutineController.ReorderExercises | src/routine_controller.py:44-49 | the list becomes exactly the given sequence; saves once |
| SettingsStore.DefaultSettings | src/settings.py:7-12 | exactly four keys: show_breaks, auto_start_breaks and auto_start_exercises are true; break_duration is 10 |
| SettingsStore.Update | src/settings.py:24 | `dict.update`: every loaded key takes the loaded value; every other key keeps its own; the keys are the union |
| SettingsStore.Lookup | src/settings.py:35-36 | `get(k, d)`: the stored value when k is present, else d |
| SettingsStore.Settings.Get | src/settings.py:35-36 | the stored value of the key when present, else the given default |
| SettingsStore.LoadedOverridesDefaults | src/settings.py:14-26 | keys in the file win; default keys absent from the file keep their defaults; other keys are absent |
| SettingsStore.Settings.constructor | src/settings.py:14-26 | the defaults, updated by the loaded map when it could be read, else exactly the defaults; nothing is saved |
| SettingsStore.Settings.Set | src/settings.py:38-40 | only key k changes; the whole map is then saved |
| SettingsStore.Settings.ResetToDefaults | src/settings.py:42-44 | the settings become the defaults and are saved |
| SettingsStore.SetThenReset | src/settings.py:38-44 | a set followed by a reset leaves exactly the defaults, so a set never alters the defaults |
| Timers.ShowStep | src/widgets/timer.py:58-64 | the reactive assignment: `Ended` and the end sound are posted exactly when the shown value changes to 0, and the interval then pauses; otherwise only the value changes |
| Timers.UpdateTimeStep | src/widgets/timer.py:53-56 | the shown value is never negative, never below time_left minus the time since start, and never above a non-negative time_left when now ≥ start_time |
| Timers.TickStep | src/widgets/timer.py:45-56 | the paused interval does nothing; a running one updates the time |
| Timers.StartStep | src/widgets/timer.py:66-70 | re-stamps start_time, resumes the interval and plays the start sound; time_left and the shown value are unchanged |
| Timers.StopStep | src/widgets/timer.py:72-76 | pauses; subtracts now - start_time from time_left without clamping, and shows it; `Ended` exactly when this reaches 0 from a non-zero display |
| Timers.ResetStep | src/widgets/timer.py:78-81 | time_left and the shown value become the duration; the interval is not paused unless the reset ends the countdown |
| Timers.NaturalEnd | src/widgets/timer.py:53-63 | once its time is up, a running display ends on the next tick: it posts [end sound, `Ended`], shows 0 and pauses |
| Timers.CountingDown | src/widgets/timer.py:53-56 | before its time is up, a running display keeps running and shows time_left - (now - start_time) |
| Timers.PausedStaysPut | src/widgets/timer.py:45-48 | a paused display ignores any number of ticks |
| Timers.AtMostOneEnded | src/widgets/timer.py:58-63 | over any sequence of ticks, `Ended` is posted at most once |
| Timers.ZeroDurationNeverEnds | src/widgets/timer.py:53-64 | a display already showing 0 with nothing left never changes under ticks |
| Timers.ZeroTimerNeverEnds | src/widgets/timer.py:45-64 | a zero-length timer, once started, runs forever without posting `Ended`: the watcher never sees a change |
| Timers.StopThenStartResumes | src/widgets/timer.py:66-76 | stop then start resumes: the time spent stopped does not count, and the time run before the stop does |
| Timers.StartTwice | src/widgets/timer.py:66-70 | a second start discards the time elapsed since the first one |
| Timers.StopTwice | src/widgets/timer.py:72-76 | a second stop charges the time since the last start a second time |
| Timers.ResetWhileRunning | src/widgets/timer.py:78-81 | a reset keeps running against the old start_time: the next tick shows the duration minus the time since that start |
| Timers.RestartAfterEnd | src/widgets/timer.py:53-70 | running out leaves time_left untouched, so starting again counts down the same time again |
| Timers.TimeDisplay.constructor | src/widgets/timer.py:34-51 | mounted: time_left and the shown value are the duration; the interval is paused; nothing is posted |
| Timers.TimeDisplay.Tick | src/widgets/timer.py:53-56 | performs TickStep in place, appending what it posts |
| Timers.TimeDisplay.Show | src/widgets/timer.py:58-64 | performs ShowStep in place |
| Timers.TimeDisplay.Start | src/widgets/timer.py:66-70 | performs StartStep in place |
| Timers.TimeDisplay.Stop | src/widgets/timer.py:72-76 | performs StopStep in place |
| Timers.TimeDisplay.Reset | src/widgets/timer.py:78-81 | performs ResetStep in place, given the owning timer's duration |
| Timers.Timer.constructor | src/widgets/timer.py:87-90 | title and duration are stored; the display is mounted with the duration; not started |
| Timers.Timer.ChangeDurationTime | src/widgets/timer.py:92-96 | the duration, time_left and the shown value all become t, so a later reset restores t |
| Timers.Timer.OnButtonPressed | src/widgets/timer.py:98-108 | start: starts the display and sets "started"; stop: stops it and clears "started"; reset: resets it to the timer's duration; other buttons do nothing; "started" stays on while the display runs |
| Timers.Timer.StartTimer | src/widgets/timer.py:122-128 | starts the display and sets "started" |
| Timers.Timer.StopTimer | src/widgets/timer.py:130-132 | stops the display; unlike the stop button it leaves "started" on unless the display ends |
| Timers.Timer.ResetTimer | src/widgets/timer.py:134-136 | resets the display to the timer's current duration |
| Timers.Timer.Tick | src/widgets/timer.py:58-61 | when a tick ends the countdown, the watcher clears the "started" style of the owning timer |
| Training.WidgetFor | src/screens/train_view.py:50-59 | a timed exercise gets a Timer titled with its name and duration; a counted one gets the repetition widget |
| Training.Percent | src/screens/train_view.py:38-40 | completed / total * 100: 0 with nothing counted, 100 with everything counted |
| Training.HandleNext | src/screens/train_view.py:42-59 | removes the exercise widget; mounts the next exercise's widget and advances the cursor; when exhausted, leaves the screen; the routine and the count are kept |
| Training.CountExercise | src/screens/train_view.py:36-40 | completed grows by exactly one, unguarded, and the bar shows completed/total*100 |
| Training.StartBreak | src/screens/train_view.py:27-34 | leaves exactly when completed == total; otherwise removes the exercise widget and shows the break |
| Training.Apply | src/screens/train_view.py:82-104 | every event keeps the routine and the cursor bound, and only appends to what was shown |
| Training.Started | src/screens/train_view.py:15-20 | after construction and mounting: cursor past the first exercise, nothing counted, the first exercise's widget on screen |
| Training.StartedInv | src/screens/train_view.py:79-80 | the counting invariant holds once mounted |
| Training.ApplyCounts | src/screens/train_view.py:82-104 | each event counts at most one exercise: exactly one for the timer's end, the "Finished" button and a skip outside a break |
| Training.DoneEventsAgree | src/screens/train_view.py:82-96 | the exercise timer's end and "reps-finished" are handled identically |
| Training.InvPreserved | src/screens/train_view.py:27-104 | every deliverable event keeps the invariant: break shown ⇒ cursor == completed < total; break hidden ⇒ cursor == completed + 1 with that exercise on screen; completed ≤ total; left ⇔ completed == total, and at most once; the bar shows completed/total*100 |
| Training.CountingKeepsInv | src/screens/train_view.py:82-101 | counting an exercise shows the break, or after the last one leaves, and keeps the invariant |
| Training.BreakEndKeepsInv | src/screens/train_view.py:87-104 | ending a break, by its timer or by a skip, mounts the next exercise uncounted and keeps the invariant |
| Training.RunInv | src/screens/train_view.py:27-104 | the invariant holds after any deliverable sequence of events |
| Training.SessionEndsExactlyOnce | src/screens/train_view.py:27-40 | in every deliverable run from mounting: left ⇔ completed == total, never twice, completed ≤ total, and the bar shows 100 on leaving |
| Training.BreakEndAdvances | src/screens/train_view.py:87-90 | the break's end hides the break and mounts the next exercise without counting |
| Training.StaleBreakEndSkipsExercise | src/screens/train_view.py:98-104 | a skip leaves the break timer running; if its `Ended` arrives after the next exercise is on screen, that exercise is dropped uncounted and the invariant breaks |
| Training.InvOnExercise | src/screens/train_view.py:42-59 | outside a break, the invariant means an exercise is on screen, taken but not counted |
| Training.SkipLast | src/screens/train_view.py:98-101 | skipping the last exercise counts it and leaves at once |
| Training.SkipRoundStep | src/screens/train_view.py:98-104 | skipping another exercise counts it and shows the break; skipping the break puts the next exercise on screen |
| Training.SkippingFinishes | src/screens/train_view.py:98-104 | from any exercise on screen, skipping everything is an accepted run that leaves after exactly the remaining exercises are counted |
| Training.TrainView.constructor | src/screens/train_view.py:15-20 | cursor at the first exercise, total = number of exercises, completed = 0; a hidden break timer "Break" of 7 s (lines 69-75); the routine must not be empty (src/widgets/routine_widget.py:238-246) |
| Training.TrainView.OnMount | src/screens/train_view.py:79-80 | performs HandleNext |
| Training.TrainView.HandleNextExercise | src/screens/train_view.py:42-59 | performs HandleNext in place |
| Training.TrainView.UpdateProgress | src/screens/train_view.py:36-40 | performs CountExercise in place |
| Training.TrainView.StartBreakTimer | src/screens/train_view.py:27-34 | performs StartBreak; when the break is shown, the break timer is reset to 7 s and not started; when leaving, it is untouched |
| Training.TrainView.ExerciseTimerEnded | src/screens/train_view.py:82-85 | counts the exercise, then shows the break or leaves; the break timer is reset to 7 s only when the break is shown, posts nothing and its "started" style is unchanged |
| Training.TrainView.OnButtonPressed | src/screens/train_view.py:92-96 | "reps-finished" does the same as the exercise timer's end; other buttons leave the screen as it was; the break timer posts nothing and its "started" style is unchanged |
| Training.TrainView.BreakTimerEnded | src/screens/train_view.py:87-90 | hides the break and advances, whether or not the break was shown |
| Training.TrainView.ActionSkipExercise | src/screens/train_view.py:98-104 | outside a break: counts and starts the break; during one: hides it and advances, leaving the break timer as it is; in neither case does the break timer post anything or change its "started" style |
| Training.TrainView.BreakTimerTick | src/screens/train_view.py:87-90 | the break timer ticks, appending what it posts; a tick that ends it clears its "started" style and delivers `Ended` to the screen at once; otherwise the screen is unchanged |

## Left out

- Reading and writing files is not modelled: `save_routines`/`load_routines` (src/routine.py:83-90), `Settings._load_settings` file access and `save_settings`, and `RoutineController.load_routines`/`_save_routines`. A save is recorded as an appended entry. What a load produced is an input.
- The JSON text format is not modelled: `RoutineCodec` works on the Python values that `json.dump` and `json.load` traverse.
- A settings file holding JSON that is neither an object nor a list of key-value pairs makes `dict.update` raise, and a list of pairs is accepted by it. Neither case is modelled: the constructor's input is a map or nothing.
- `Setting` has cases only for booleans, integers and strings: JSON floats, null, lists and objects as setting values are not modelled. `RoutineCodec.Value` has no case for floats, booleans or null, which routines never hold.
- Printed error messages are left out, and so is sound playback: the start and end sounds are events in the display's log.
- Textual plumbing (reactive attributes, `set_interval`, `post_message`, CSS classes, `mount`, `query_one`, `call_after_refresh`) is replaced by explicit methods and a `now` parameter.
  - Posted messages are delivered at once.
  - `start_timer`'s refresh-deferred call runs at the instant passed to it.
  - The "started" CSS class is a boolean.
  - The break timer's "hide" class is the session's `breakShown`.
- Validators.TimeValidateAccepts: stated for inputs whose minute and second positions hold digits (`FieldsAreDigits`), which is what the masked input delivers. Python's `int` also accepts a sign or surrounding whitespace there ("00-500" reads minutes -5 and passes); signed or padded fields are not modelled, and other non-digit fields, where `int` raises `ValueError`, are not modelled either.
- Training.Percent: only the two ends (0 and 100) are stated; the strict bounds in between involve real division that the model does not reason about.
- `TimeDisplay._format_time` is left out: it is floating-point text formatting. Time is `real`, so floating-point rounding is not modelled.
- Training.TrainView.HandleNextExercise: an exercise timer on screen is represented by its title and duration (`Widget`). Its countdown is the `Timer` class. Its `Ended` is the `ExerciseTimerEnded` event. The break timer is a real `Timer` object.
- Training.InvPreserved: proved for deliverable events only. The break timer's `Ended` is assumed to arrive only while the break is shown. `StaleBreakEndSkipsExercise` shows what happens otherwise.
- The progress bar's `update` call is recorded as a `Progress` output.
- Aliasing is not modelled: `reorder_exercises` stores the caller's list object, and the app's list of routines shares routine objects with the controller. Lists are values here.
- Settings are never read by the training screen in the code, so show-breaks, auto-start and a configurable break duration are not modelled. The break lasts the constant 7 seconds, and no timer starts by itself.
- In these places the code behaves in ways a reader might not expect; the model follows the code:
  - a skip during a break does not stop the break timer;
  - `update_progress` has no guard against exceeding the total (the invariant shows it is never exceeded in deliverable runs);
  - the progress percentage is not rounded;
  - `stop` does not clamp time_left at 0;
  - repeated `start`/`stop` calls are not no-ops (`StartTwice`, `StopTwice`).
- Screens and widgets without logic beyond composition and navigation are not part of this model. These are the home, routine selection, routine view, create-routine, manager and settings screens, and the exercise list, exercise input, masked input, repetition and training-end widgets. `src/widgets/_timer.py` and `src/screens/timer_view.py` are earlier versions of the timer and sequencer that the app does not use, and are not part of this model either.
