# Posture monitor: the per-frame posture step, modelled in Dafny

The posture monitor reads webcam frames and gets body landmarks from an
external pose model. For each frame with a detected pose it decides whether
posture is bad and emits an audible beep, at most once per cooldown window.
It comes in two front ends:

- **Web dashboard** (`web_app.py`). The streaming loop `gen_frames` classifies
  each pose into an ordered list of reasons (`LOOKING UP`, `SLOUCHING`,
  `LEANING`). It walks a health score that saturates within [0, 100], sets a
  status string and a quality string, and gates the beep behind a 2.0 s
  cooldown. The `/stats` route serves a snapshot of that state.
- **Desktop window** (`core_engine.py`). The main loop classifies by the
  shoulder-to-ear angle alone, against the band [70, 140]. It shows
  `SLOUCH DETECTED!` or `GOOD POSTURE` and uses the same debouncer.

The model treats the pose model's output and the clock as inputs:

- the vertical angle is a `real`;
- the shoulder positions are pixel coordinates, as `real`;
- "landmarks present" is a constructor of the frame datatype;
- the wall-clock time is a `real` that comes with each frame;
- the beep is a `bool` result of each step.

The model is organised in four modules:

- `Debounce` (`debounce.dfy`): the beep rule the two loops share. `Replay`
  runs a sequence of frames through it, and lemmas prove the temporal
  contract of the beeps it emits.
- `WebApp` (`web_app.dfy`): the classifier, the status and quality strings,
  the score, and the per-frame transition `Next` with its run `Trace`. The
  class `PostureMonitor` holds the fields the loop reassigns (`score`,
  `status`, `quality`, `lastBeep`). Its methods are `Step` (one frame), `Run`
  (the loop, which stops at the first failed camera read) and `Stats` (the
  endpoint's snapshot).
- `CoreEngine` (`core_engine.dfy`): the desktop classifier and the class
  `DesktopMonitor`, whose only state is `lastBeepTime`. Its methods are `Step`
  (one frame read) and `Run` (the loop, which skips failed reads).
- `Variants` (`variants.dfy`): how the two angle policies relate.

A beep needs strictly more than the cooldown since the last beep
(`now - last > 2.0`, web_app.py:95, core_engine.py:64). The two loops treat a
failed camera read differently: the web loop ends (`break`) and the desktop
loop skips the frame (`continue`).

Verifying the debouncer showed that the beep spacing does not depend on the
clock being monotone. The last-beep time moves only when a beep fires. A
beep needs `now > last + 2.0`, so every emitted beep is more than 2 s later
than every earlier one, whatever order the other clock readings come in.
The spacing lemmas therefore carry no precondition on time.

## Model

| member | source | states |
|---|---|---|
| Debounce.ReplaySpaced | web_app.py:94-97 | Any two beeps of a run, in emission order, are more than the cooldown apart. Every beep is more than the cooldown after the starting last-beep time. The final last-beep time is the most recent beep, or the starting value if nothing beeped. No ordering of clock readings is needed. |
| Debounce.ReplayBeepsAreBadEvents | web_app.py:87-97 | Every emitted beep is the clock reading of some frame that was bad. |
| Debounce.QuietReplay | web_app.py:94-103 | A run in which every bad frame is within the cooldown of the starting last-beep time emits no beep and leaves the last-beep time unchanged. This includes a run with no bad frame. |
| Debounce.FirstBadEventBeeps | core_engine.py:63-67 | Suppose every earlier bad frame is within the cooldown of the starting last-beep time. Then the first bad frame more than the cooldown past it beeps. It is the only beep, and the last-beep time becomes its time. |
| WebApp.Classify | web_app.py:64-84 | The reason list built by appending, rule by rule, equals the reference list: every rule that applies, in rule order. The bad flag is set exactly when that list is non-empty. |
| WebApp.ReasonsMatchRules | web_app.py:65-84 | LOOKING UP is reported iff angle < 75. SLOUCHING is reported iff angle > 135. LEANING is reported iff the absolute y-difference of the shoulders exceeds 0.08 times their absolute x-difference. The frame is bad iff one of the three holds. |
| WebApp.ReasonsOrderedAndExclusive | web_app.py:69-84 | Reasons appear in the order LOOKING UP, SLOUCHING, LEANING, each at most once. There are at most two of them, and LOOKING UP never appears with SLOUCHING. |
| WebApp.JoinLabelsInjective | web_app.py:88 | The comma-space join of the labels determines the reason list: equal joins mean equal lists. |
| WebApp.StatusTextInjective | web_app.py:87-102 | Two classifications set the same status string iff they found the same reasons. So `PERFECT FORM` never equals a warning, and a warning identifies its reasons. |
| WebApp.NextKeepsWellFormed | web_app.py:86-103 | One frame keeps the invariant: the score stays in [0, 100]. Quality is `Good` with the waiting or perfect status, and `Poor` with a `WARNING: ` status. |
| WebApp.TraceKeepsWellFormed | web_app.py:86-103 | The same invariant holds after any sequence of frames. |
| WebApp.ScoreStaysInRange | web_app.py:89-101 | Starting from score 100, the score stays within [0, 100] after any sequence of good, bad and pose-less frames. |
| WebApp.TraceAlarm | web_app.py:94-97 | The beeps of a web run and its final last-beep time are exactly what the debouncer emits for the run's bad frames with a 2.0 s cooldown. |
| WebApp.BeepsSpaced | web_app.py:94-97 | Any two beeps of a web run are more than 2.0 s apart. The first is more than 2.0 s after the starting last-beep time. |
| WebApp.BeepsOnlyOnBadFrames | web_app.py:87-97 | Every beep of a web run happens at the time of a frame with a non-empty reason list. |
| WebApp.BadRunScore | web_app.py:89 | From a non-negative score, n bad frames leave the score at max(0, score - 2n). |
| WebApp.GoodRunScore | web_app.py:99-102 | n good frames leave the score at min(100, score + n) and the status at `PERFECT FORM`, and they emit no beep. |
| WebApp.NoPoseRunIsInvisible | web_app.py:56 | Frames without pose landmarks leave score, status, quality and last-beep time unchanged, and emit no beep. |
| WebApp.ClassificationScenarios | web_app.py:64-102 | Angle 150, shoulder width 100 and tilt 20 give [SLOUCHING, LEANING] and the status `WARNING: SLOUCHING, LEANING`. Angle 100, width 100 and tilt 5 give no reasons, and a score of 99 moves to 100 with `PERFECT FORM`, `Good` and no beep. |
| WebApp.PostureMonitor.constructor | web_app.py:11-14 | Initial state: score 100, status `WAITING`, quality `Good`, last beep at 0. The invariant holds. |
| WebApp.PostureMonitor.Step | web_app.py:55-103 | No pose: nothing changes and no beep. With a pose, if bad: score max(0, score-2), status `WARNING: ` plus the joined reasons, quality `Poor`, and a beep iff now - lastBeep > 2.0, which sets lastBeep to now. If good: score min(100, score+1), `PERFECT FORM`, `Good`, no beep, lastBeep unchanged. The invariant is kept and the step agrees with `Next`. |
| WebApp.PostureMonitor.Stats | web_app.py:137-143 | The snapshot's score is in [0, 100] and its quality is exactly `Good` or `Poor`. Its status is non-empty, and it is a warning iff the quality is `Poor`. |
| WebApp.PostureMonitor.Run | web_app.py:38-41 | The loop handles captures up to the first failed read and stops there. The new state and the beep times equal `Trace` over the frames handled, and the beeps are more than 2.0 s apart. |
| CoreEngine.ReadFailuresSkipped | core_engine.py:36-38 | A failed read, wherever it falls in the capture sequence, contributes no frame. |
| CoreEngine.SlouchBeepsSpaced | core_engine.py:63-67 | Any two desktop beeps are more than `beep_cooldown` (2.0 s) apart, and the first is more than 2.0 s after the starting last-beep time. |
| CoreEngine.GoodFramesSilent | core_engine.py:70-72 | Frames in good posture, or without landmarks, never beep and never move `last_beep_time`. |
| CoreEngine.FirstSlouchBeeps | core_engine.py:63-67 | With `last_beep_time` starting at 0, slouched frames up to the 2.0 s mark stay silent, and the first slouched frame after it beeps. It is then the only beep. |
| CoreEngine.DesktopMonitor.constructor | core_engine.py:16-17 | `last_beep_time` starts at 0. |
| CoreEngine.DesktopMonitor.Step | core_engine.py:48-72 | No landmarks: no text, no beep, time unchanged. Otherwise the overlay is the status text: `SLOUCH DETECTED!` iff angle < 70 or angle > 140, else `GOOD POSTURE`. It beeps iff slouched and now - last > 2.0, and a beep sets the time to now. This is the debouncer's decision. |
| CoreEngine.DesktopMonitor.Run | core_engine.py:35-38 | The loop skips failed reads. The beeps and final last-beep time equal the debouncer's output over the frames read. There is one overlay per frame read, in order. Each is that frame's status text, or no text when the frame has no landmarks. The beeps are more than 2.0 s apart. |
| Variants.AnglePoliciesCompared | core_engine.py:58 | Every desktop slouch (outside [70, 140]) is a web angle fault. The angles only the web rules reject are exactly [70, 75) and (135, 140]. |

## Left out

- `calculate_angle` (arctangent in floating point) is not part of this model. The vertical angle is an input of each frame.
- Camera opening, the fallback to device 1, and reading pixels are external I/O. A frame read is an input: either a failed read or the frame's landmarks.
- The pose-landmark model (MediaPipe) is external machine learning. Its output is an input: no pose, or the angle and the two shoulder points.
- Drawing is display only and changes no state: the skeleton, the overlay rectangle, the text, and the health bar with its float and `int()` pixel arithmetic. The desktop overlay's status text is kept as a step output.
- JPEG encoding, the MJPEG multipart framing, and the frames `gen_frames` yields are web plumbing.
- The Flask routes `/` and `/video_feed`, the server start-up, and the dashboard page with its 20-point chart are web plumbing and UI. `/stats` is modelled as `Stats`.
- `winsound.Beep` is a foreign call. It is the `beep` result of each step. Its frequency and duration (1000 Hz for 200 ms on the web, 500 ms on the desktop) are not modelled.
- `time.time()` is the clock. Each frame carries its reading as `now`. The source reads the clock only on bad frames, which makes no difference because only bad frames use it.
- The desktop loop's end (`cap.isOpened()`, the `q` key) is external. The desktop `Run` handles the finite sequence of captures it is given.
- The bare `except: pass` blocks catch nothing that the modelled logic can raise, so there is nothing to represent.
- Several `/video_feed` clients race on the shared globals. That is concurrency: the model has one sequential owner of the state.
- Coordinates, angles and `0.08 * shoulder_width` are exact reals, not IEEE doubles. Rounding at the thresholds is not modelled.
