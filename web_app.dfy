/** The browser-dashboard variant of the posture monitor: one frame step of
    the streaming loop classifies the pose into an ordered list of reasons,
    walks a saturating health score, derives the status and quality strings
    the stats endpoint reports, and gates an audible beep behind a 2-second
    cooldown. The vertical shoulder-to-ear angle and the clock reading are
    inputs of each frame. */
module WebApp {
  import opened Debounce

  // Fixed thresholds of the classifier and the alert.
  const LimitAngleLow: real := 75.0
  const LimitAngleHigh: real := 135.0
  const LeanFraction: real := 0.08
  const BeepCooldown: real := 2.0

  // The health score: starts full, loses 2 per bad frame, regains 1 per good frame.
  const MaxScore: int := 100
  const BadPenalty: int := 2
  const GoodReward: int := 1

  const WaitingStatus: string := "WAITING"
  const PerfectStatus: string := "PERFECT FORM"
  const WarningPrefix: string := "WARNING: "
  const Separator: string := ", "
  const GoodQuality: string := "Good"
  const PoorQuality: string := "Poor"

  /** A landmark scaled to pixel coordinates. */
  datatype Point = Point(x: real, y: real)

  /** What one frame's landmarks contribute: the vertical angle between the
      left shoulder and the left ear, and both shoulders. */
  datatype Pose = Pose(verticalAngle: real, leftShoulder: Point, rightShoulder: Point)

  datatype Landmarks = NoPose | Detected(pose: Pose)

  /** One processed frame: its landmarks and the wall-clock time it was handled at. */
  datatype Frame = Frame(landmarks: Landmarks, now: real)

  /** The result of reading the camera: a frame, or a failed read. */
  datatype Capture = ReadFailed | Captured(frame: Frame)

  datatype Reason = LookingUp | Slouching | Leaning

  function Label(r: Reason): string
  {
    match r
    case LookingUp => "LOOKING UP"
    case Slouching => "SLOUCHING"
    case Leaning => "LEANING"
  }

  /** Position of a reason's rule in the classifier. */
  function Rank(r: Reason): nat
  {
    match r
    case LookingUp => 0
    case Slouching => 1
    case Leaning => 2
  }

  function Abs(x: real): real
  {
    if x < 0.0 then -x else x
  }

  function Max(a: int, b: int): int
  {
    if a < b then b else a
  }

  function Min(a: int, b: int): int
  {
    if a < b then a else b
  }

  function ShoulderWidth(p: Pose): real
  {
    Abs(p.leftShoulder.x - p.rightShoulder.x)
  }

  function ShoulderTilt(p: Pose): real
  {
    Abs(p.leftShoulder.y - p.rightShoulder.y)
  }

  /** The rule that makes reason `r` apply to pose `p`. */
  predicate Applies(r: Reason, p: Pose)
  {
    match r
    case LookingUp => p.verticalAngle < LimitAngleLow
    case Slouching => p.verticalAngle > LimitAngleHigh
    case Leaning => ShoulderTilt(p) > LeanFraction * ShoulderWidth(p)
  }

  /** The rules in the order the classifier tests them. */
  const RuleOrder: seq<Reason> := [LookingUp, Slouching, Leaning]

  /** The rules of `rules` that apply to `p`, keeping their order. */
  function Select(rules: seq<Reason>, p: Pose): seq<Reason>
    decreases |rules|
  {
    if rules == [] then []
    else (if Applies(rules[0], p) then [rules[0]] else []) + Select(rules[1..], p)
  }

  /** Reference definition of the reason list: every rule that applies, in rule order. */
  function Reasons(p: Pose): seq<Reason>
  {
    Select(RuleOrder, p)
  }

  predicate InRuleOrder(rs: seq<Reason>)
  {
    forall i, j :: 0 <= i < j < |rs| ==> Rank(rs[i]) < Rank(rs[j])
  }

  /** The classifier as the frame loop runs it: derive the shoulder metrics,
      then test the three rules one after another, appending a reason for
      each rule that fires. */
  method Classify(p: Pose) returns (isBad: bool, reasons: seq<Reason>)
    ensures reasons == Reasons(p)
    ensures isBad <==> reasons != []
  {
    var width := Abs(p.leftShoulder.x - p.rightShoulder.x);
    var tilt := Abs(p.leftShoulder.y - p.rightShoulder.y);
    var limitLean := LeanFraction * width;
    isBad := false;
    reasons := [];
    if p.verticalAngle < LimitAngleLow {
      reasons := reasons + [LookingUp];
      isBad := true;
    }
    if p.verticalAngle > LimitAngleHigh {
      reasons := reasons + [Slouching];
      isBad := true;
    }
    if tilt > limitLean {
      reasons := reasons + [Leaning];
      isBad := true;
    }
    assert RuleOrder[1..][1..][1..] == [];
  }

  lemma {:induction false} SelectMembers(rules: seq<Reason>, p: Pose)
    ensures forall r :: r in Select(rules, p) <==> r in rules && Applies(r, p)
    decreases |rules|
  {
    if rules != [] {
      SelectMembers(rules[1..], p);
      assert rules == [rules[0]] + rules[1..];
    }
  }

  lemma {:induction false} SelectKeepsOrder(rules: seq<Reason>, p: Pose)
    requires InRuleOrder(rules)
    ensures InRuleOrder(Select(rules, p))
    decreases |rules|
  {
    if rules != [] {
      var rest := rules[1..];
      SelectKeepsOrder(rest, p);
      SelectMembers(rest, p);
      var tail := Select(rest, p);
      forall r | r in tail
        ensures Rank(rules[0]) < Rank(r)
      {
        var k :| 0 <= k < |rest| && rest[k] == r;
        assert rules[k + 1] == r;
      }
    }
  }

  /** Each reason is reported exactly when its rule holds, and the frame is
      bad exactly when one of the three rules holds. */
  lemma ReasonsMatchRules(p: Pose)
    ensures LookingUp in Reasons(p) <==> p.verticalAngle < 75.0
    ensures Slouching in Reasons(p) <==> p.verticalAngle > 135.0
    ensures Leaning in Reasons(p) <==>
      Abs(p.leftShoulder.y - p.rightShoulder.y) > 0.08 * Abs(p.leftShoulder.x - p.rightShoulder.x)
    ensures Reasons(p) != [] <==>
      p.verticalAngle < 75.0 || p.verticalAngle > 135.0 ||
      Abs(p.leftShoulder.y - p.rightShoulder.y) > 0.08 * Abs(p.leftShoulder.x - p.rightShoulder.x)
  {
    SelectMembers(RuleOrder, p);
    if Reasons(p) != [] {
      assert Reasons(p)[0] in Reasons(p);
    }
  }

  /** Reasons come in the order LOOKING UP, SLOUCHING, LEANING, each at most
      once, and LOOKING UP never appears together with SLOUCHING. */
  lemma ReasonsOrderedAndExclusive(p: Pose)
    ensures InRuleOrder(Reasons(p))
    ensures |Reasons(p)| <= 2
    ensures !(LookingUp in Reasons(p) && Slouching in Reasons(p))
  {
    SelectKeepsOrder(RuleOrder, p);
    ReasonsMatchRules(p);
    AtMostTwoReasons(Reasons(p));
  }

  /** An ordered list without both angle reasons has at most two entries. */
  lemma AtMostTwoReasons(rs: seq<Reason>)
    requires InRuleOrder(rs)
    requires !(LookingUp in rs && Slouching in rs)
    ensures |rs| <= 2
  {
    if |rs| > 2 {
      FirstTwoOfThree(rs);
      assert false;
    }
  }

  lemma FirstTwoOfThree(rs: seq<Reason>)
    requires InRuleOrder(rs)
    requires |rs| > 2
    ensures rs[0] == LookingUp && rs[1] == Slouching
  {
    assert Rank(rs[0]) < Rank(rs[1]) < Rank(rs[2]);
  }

  /** The comma-space join of the reasons' labels. */
  function JoinLabels(rs: seq<Reason>): string
    decreases |rs|
  {
    if rs == [] then ""
    else if |rs| == 1 then Label(rs[0])
    else Label(rs[0]) + Separator + JoinLabels(rs[1..])
  }

  function WarningStatus(rs: seq<Reason>): string
  {
    WarningPrefix + JoinLabels(rs)
  }

  /** The status text a classified frame sets. */
  function StatusText(rs: seq<Reason>): string
  {
    if rs == [] then PerfectStatus else WarningStatus(rs)
  }

  function QualityText(rs: seq<Reason>): string
  {
    if rs == [] then GoodQuality else PoorQuality
  }

  /** A warning status: the prefix followed by at least one label. */
  predicate IsWarning(status: string)
  {
    |status| > |WarningPrefix| && status[..|WarningPrefix|] == WarningPrefix
  }

  lemma {:induction false} JoinLabelsShape(rs: seq<Reason>)
    ensures rs == [] <==> JoinLabels(rs) == ""
    ensures rs != [] ==>
      |JoinLabels(rs)| >= |Label(rs[0])| && JoinLabels(rs)[..|Label(rs[0])|] == Label(rs[0])
  {
    if rs != [] {
      assert |Label(rs[0])| > 0;
    }
  }

  /** The first two letters tell the labels apart. */
  lemma LabelsDistinct(a: Reason, b: Reason)
    requires Label(a)[..2] == Label(b)[..2]
    ensures a == b
  {
    assert Label(a)[0] == Label(b)[0] && Label(a)[1] == Label(b)[1];
  }

  /** The joined text determines the list of reasons. */
  lemma {:induction false} JoinLabelsInjective(a: seq<Reason>, b: seq<Reason>)
    requires JoinLabels(a) == JoinLabels(b)
    ensures a == b
    decreases |a|
  {
    JoinLabelsShape(a);
    JoinLabelsShape(b);
    if a != [] && b != [] {
      var la, lb := Label(a[0]), Label(b[0]);
      var s := JoinLabels(a);
      assert la[..2] == s[..2] == lb[..2];
      LabelsDistinct(a[0], b[0]);
      var n := |la|;
      if |a| > 1 && |b| > 1 {
        assert s == la + Separator + JoinLabels(a[1..]);
        assert s == la + Separator + JoinLabels(b[1..]);
        assert JoinLabels(a[1..]) == s[n + 2..] == JoinLabels(b[1..]);
        JoinLabelsInjective(a[1..], b[1..]);
        assert a == [a[0]] + a[1..] && b == [b[0]] + b[1..];
      }
    }
  }

  /** Two classifications set the same status exactly when they found the same reasons. */
  lemma StatusTextInjective(a: seq<Reason>, b: seq<Reason>)
    ensures StatusText(a) == StatusText(b) <==> a == b
  {
    if StatusText(a) == StatusText(b) {
      if a != [] && b != [] {
        assert JoinLabels(a) == StatusText(a)[|WarningPrefix|..];
        assert JoinLabels(b) == StatusText(b)[|WarningPrefix|..];
        JoinLabelsInjective(a, b);
      }
    }
  }

  /** The state the frame loop keeps between frames. */
  datatype MonitorState = MonitorState(score: int, status: string, quality: string, lastBeep: real)

  const Initial: MonitorState := MonitorState(MaxScore, WaitingStatus, GoodQuality, 0.0)

  /** The invariant of the loop's state: the score is within [0, 100], and the
      quality agrees with the status (Good with the waiting or perfect status,
      Poor with a warning). */
  predicate WellFormed(s: MonitorState)
  {
    && 0 <= s.score <= MaxScore
    && ((s.quality == GoodQuality && (s.status == WaitingStatus || s.status == PerfectStatus))
        || (s.quality == PoorQuality && IsWarning(s.status)))
  }

  datatype StepResult = StepResult(state: MonitorState, beep: bool)

  /** Specification of one frame step. */
  function Next(s: MonitorState, f: Frame): StepResult
  {
    match f.landmarks
    case NoPose => StepResult(s, false)
    case Detected(p) =>
      var rs := Reasons(p);
      if rs != [] then
        var d := Decide(true, f.now, s.lastBeep, BeepCooldown);
        StepResult(MonitorState(Max(0, s.score - BadPenalty), StatusText(rs), QualityText(rs), d.lastBeep), d.beep)
      else
        StepResult(MonitorState(Min(MaxScore, s.score + GoodReward), StatusText(rs), QualityText(rs), s.lastBeep), false)
  }

  /** The state after a sequence of frames and the times of the beeps emitted on the way. */
  datatype History = History(state: MonitorState, beeps: seq<real>)

  function Trace(s: MonitorState, frames: seq<Frame>): History
    decreases |frames|
  {
    if frames == [] then History(s, [])
    else
      var before := Trace(s, frames[..|frames| - 1]);
      var f := frames[|frames| - 1];
      var r := Next(before.state, f);
      History(r.state, before.beeps + (if r.beep then [f.now] else []))
  }

  /** Whether a frame holds a pose the classifier finds bad. */
  predicate BadFrame(f: Frame)
  {
    f.landmarks.Detected? && Reasons(f.landmarks.pose) != []
  }

  predicate GoodFrame(f: Frame)
  {
    f.landmarks.Detected? && Reasons(f.landmarks.pose) == []
  }

  function Events(frames: seq<Frame>): (es: seq<Event>)
    ensures |es| == |frames|
    ensures forall i :: 0 <= i < |frames| ==> es[i] == Event(BadFrame(frames[i]), frames[i].now)
  {
    seq(|frames|, i requires 0 <= i < |frames| => Event(BadFrame(frames[i]), frames[i].now))
  }

  /** The frames of the captures that were read, in order. */
  function Frames(caps: seq<Capture>): seq<Frame>
    decreases |caps|
  {
    if caps == [] then []
    else
      var c := caps[|caps| - 1];
      Frames(caps[..|caps| - 1]) + (if c.Captured? then [c.frame] else [])
  }

  lemma FramesAppend(caps: seq<Capture>, c: Capture)
    ensures Frames(caps + [c]) == Frames(caps) + (if c.Captured? then [c.frame] else [])
  {
    assert (caps + [c])[..|caps|] == caps;
  }

  lemma TraceAppend(s: MonitorState, frames: seq<Frame>, f: Frame)
    ensures var before := Trace(s, frames);
      var r := Next(before.state, f);
      Trace(s, frames + [f]) == History(r.state, before.beeps + (if r.beep then [f.now] else []))
  {
    assert (frames + [f])[..|frames|] == frames;
  }

  /** One more handled capture extends the run by one frame step. */
  lemma TraceExtends(s: MonitorState, caps: seq<Capture>, i: nat, before: MonitorState,
                     after: MonitorState, beep: bool, beeps: seq<real>)
    requires i < |caps| && caps[i].Captured?
    requires Trace(s, Frames(caps[..i])) == History(before, beeps)
    requires Next(before, Frame(caps[i].frame.landmarks, caps[i].frame.now)) == StepResult(after, beep)
    ensures Trace(s, Frames(caps[..i + 1])) == History(after, beeps + (if beep then [caps[i].frame.now] else []))
  {
    assert caps[..i + 1] == caps[..i] + [caps[i]];
    FramesAppend(caps[..i], caps[i]);
    TraceAppend(s, Frames(caps[..i]), caps[i].frame);
  }

  lemma NextKeepsWellFormed(s: MonitorState, f: Frame)
    requires WellFormed(s)
    ensures WellFormed(Next(s, f).state)
  {
    if BadFrame(f) {
      JoinLabelsShape(Reasons(f.landmarks.pose));
    }
  }

  /** WellFormed is an invariant of every run of frames. */
  lemma {:induction false} TraceKeepsWellFormed(s: MonitorState, frames: seq<Frame>)
    requires WellFormed(s)
    ensures WellFormed(Trace(s, frames).state)
    decreases |frames|
  {
    if frames != [] {
      TraceKeepsWellFormed(s, frames[..|frames| - 1]);
      NextKeepsWellFormed(Trace(s, frames[..|frames| - 1]).state, frames[|frames| - 1]);
    }
  }

  /** From the initial state the score stays within [0, 100] whatever the frames. */
  lemma ScoreStaysInRange(frames: seq<Frame>)
    ensures 0 <= Trace(Initial, frames).state.score <= 100
  {
    TraceKeepsWellFormed(Initial, frames);
  }

  /** The beeps of a run are exactly what the debouncer emits for its bad
      frames, and it leaves the same last-beep time. */
  lemma {:induction false} TraceAlarm(s: MonitorState, frames: seq<Frame>)
    ensures Replay(s.lastBeep, BeepCooldown, Events(frames)) == Alarm(Trace(s, frames).beeps, Trace(s, frames).state.lastBeep)
    decreases |frames|
  {
    if frames != [] {
      var init := frames[..|frames| - 1];
      TraceAlarm(s, init);
      assert Events(frames)[..|frames| - 1] == Events(init);
    }
  }

  /** Any two beeps of a run are more than 2 seconds apart, and the first
      comes more than 2 seconds after the starting last-beep time. */
  lemma BeepsSpaced(s: MonitorState, frames: seq<Frame>)
    ensures Spaced(Trace(s, frames).beeps, 2.0)
    ensures forall i :: 0 <= i < |Trace(s, frames).beeps| ==> Trace(s, frames).beeps[i] - s.lastBeep > 2.0
  {
    TraceAlarm(s, frames);
    ReplaySpaced(s.lastBeep, BeepCooldown, Events(frames));
    var beeps := Trace(s, frames).beeps;
    assert beeps == Replay(s.lastBeep, BeepCooldown, Events(frames)).beeps;
    forall i | 0 <= i < |beeps|
      ensures beeps[i] - s.lastBeep > 2.0
    {
      assert beeps[i] == Replay(s.lastBeep, BeepCooldown, Events(frames)).beeps[i];
    }
  }

  /** Some frame found bad was handled at time `t`. */
  ghost predicate BadFrameAt(frames: seq<Frame>, t: real)
  {
    exists k :: 0 <= k < |frames| && BadFrame(frames[k]) && frames[k].now == t
  }

  /** Every beep of a run happens at the time of a frame found bad. */
  lemma BeepsOnlyOnBadFrames(s: MonitorState, frames: seq<Frame>)
    ensures forall i :: 0 <= i < |Trace(s, frames).beeps| ==> BadFrameAt(frames, Trace(s, frames).beeps[i])
  {
    TraceAlarm(s, frames);
    var es := Events(frames);
    ReplayBeepsAreBadEvents(s.lastBeep, BeepCooldown, es);
    var beeps := Trace(s, frames).beeps;
    forall i | 0 <= i < |beeps|
      ensures BadFrameAt(frames, beeps[i])
    {
      assert BadEventAt(es, beeps[i]);
      var k :| 0 <= k < |es| && es[k].bad && es[k].now == beeps[i];
      assert BadFrame(frames[k]) && frames[k].now == beeps[i];
    }
  }

  /** A run of bad frames takes 2 points per frame off the score, down to 0. */
  lemma {:induction false} BadRunScore(s: MonitorState, frames: seq<Frame>)
    requires s.score >= 0
    requires forall k :: 0 <= k < |frames| ==> BadFrame(frames[k])
    ensures Trace(s, frames).state.score == Max(0, s.score - 2 * |frames|)
    decreases |frames|
  {
    if frames != [] {
      var init := frames[..|frames| - 1];
      BadRunScore(s, init);
      var f := frames[|frames| - 1];
      assert BadFrame(f);
      assert |init| == |frames| - 1;
      assert Trace(s, frames).state.score == Max(0, Trace(s, init).state.score - 2);
    }
  }

  /** A run of good frames adds 1 point per frame to the score, up to 100. */
  lemma {:induction false} GoodRunScore(s: MonitorState, frames: seq<Frame>)
    requires s.score <= MaxScore
    requires forall k :: 0 <= k < |frames| ==> GoodFrame(frames[k])
    ensures Trace(s, frames).state.score == Min(100, s.score + |frames|)
    ensures frames != [] ==> Trace(s, frames).state.status == "PERFECT FORM"
    ensures Trace(s, frames).beeps == []
    decreases |frames|
  {
    if frames != [] {
      GoodRunScore(s, frames[..|frames| - 1]);
    }
  }

  /** Frames without pose landmarks change nothing and emit nothing. */
  lemma {:induction false} NoPoseRunIsInvisible(s: MonitorState, frames: seq<Frame>)
    requires forall k :: 0 <= k < |frames| ==> frames[k].landmarks.NoPose?
    ensures Trace(s, frames) == History(s, [])
    decreases |frames|
  {
    if frames != [] {
      NoPoseRunIsInvisible(s, frames[..|frames| - 1]);
    }
  }

  /** Two worked frames: a slouched and tilted pose, and an upright level one. */
  lemma ClassificationScenarios()
    ensures var p := Pose(150.0, Point(200.0, 300.0), Point(300.0, 320.0));
      Reasons(p) == [Slouching, Leaning] && StatusText(Reasons(p)) == "WARNING: SLOUCHING, LEANING"
    ensures var p := Pose(100.0, Point(200.0, 300.0), Point(300.0, 305.0));
      Reasons(p) == [] && Next(MonitorState(99, WaitingStatus, GoodQuality, 0.0), Frame(Detected(p), 5.0))
        == StepResult(MonitorState(100, "PERFECT FORM", "Good", 0.0), false)
  {
    var bad := Pose(150.0, Point(200.0, 300.0), Point(300.0, 320.0));
    assert RuleOrder[1..] == [Slouching, Leaning] && RuleOrder[1..][1..] == [Leaning];
    assert Reasons(bad) == [Slouching, Leaning];
    assert [Slouching, Leaning][1..] == [Leaning];
  }

  /** The read-only view the stats endpoint serves. */
  datatype Snapshot = Snapshot(score: int, quality: string, status: string)

  /** The loop's state, owned by a single sequential frame loop. */
  class PostureMonitor {
    var score: int
    var status: string
    var quality: string
    var lastBeep: real

    function State(): MonitorState
      reads this
    {
      MonitorState(score, status, quality, lastBeep)
    }

    predicate Valid()
      reads this
    {
      WellFormed(State())
    }

    constructor ()
      ensures Valid() && State() == Initial
    {
      score := MaxScore;
      status := WaitingStatus;
      quality := GoodQuality;
      lastBeep := 0.0;
    }

    /** One frame of the loop; returns whether a beep is emitted. */
    method Step(landmarks: Landmarks, now: real) returns (beep: bool)
      requires Valid()
      modifies this
      ensures Valid()
      ensures Next(old(State()), Frame(landmarks, now)) == StepResult(State(), beep)
      ensures landmarks.NoPose? ==> State() == old(State()) && !beep
      ensures landmarks.Detected? ==>
        var rs := Reasons(landmarks.pose);
        && score == (if rs != [] then Max(0, old(score) - 2) else Min(100, old(score) + 1))
        && status == (if rs != [] then "WARNING: " + JoinLabels(rs) else "PERFECT FORM")
        && quality == (if rs != [] then "Poor" else "Good")
        && (beep <==> rs != [] && now - old(lastBeep) > 2.0)
        && lastBeep == (if beep then now else old(lastBeep))
    {
      ghost var s0 := State();
      beep := false;
      if landmarks.Detected? {
        var isBad, reasons := Classify(landmarks.pose);
        if isBad {
          status := WarningPrefix + JoinLabels(reasons);
          score := Max(0, score - BadPenalty);
          quality := PoorQuality;
          if now - lastBeep > BeepCooldown {
            beep := true;
            lastBeep := now;
          }
        } else {
          status := PerfectStatus;
          score := Min(MaxScore, score + GoodReward);
          quality := GoodQuality;
        }
      }
      NextKeepsWellFormed(s0, Frame(landmarks, now));
    }

    /** The stats endpoint: a snapshot of the state, with the schema the
        dashboard relies on. */
    function Stats(): (r: Snapshot)
      reads this
      requires Valid()
      ensures 0 <= r.score <= 100
      ensures r.quality == "Good" || r.quality == "Poor"
      ensures r.status != []
      ensures r.quality == "Poor" <==> IsWarning(r.status)
    {
      assert PerfectStatus[..|WarningPrefix|][0] != WarningPrefix[0];
      Snapshot(score, quality, status)
    }

    /** The frame loop: handles captures in order and stops at the first
        failed read. Returns how many captures were handled and the times of
        the beeps emitted. */
    method Run(caps: seq<Capture>) returns (processed: nat, beeps: seq<real>)
      requires Valid()
      modifies this
      ensures Valid()
      ensures processed <= |caps|
      ensures forall k :: 0 <= k < processed ==> caps[k].Captured?
      ensures processed < |caps| ==> caps[processed].ReadFailed?
      ensures Trace(old(State()), Frames(caps[..processed])) == History(State(), beeps)
      ensures Spaced(beeps, BeepCooldown)
    {
      ghost var s0 := State();
      processed, beeps := 0, [];
      while processed < |caps| && caps[processed].Captured?
        invariant Valid()
        invariant processed <= |caps|
        invariant forall k :: 0 <= k < processed ==> caps[k].Captured?
        invariant Trace(s0, Frames(caps[..processed])) == History(State(), beeps)
      {
        var f := caps[processed].frame;
        ghost var before := State();
        var beep := Step(f.landmarks, f.now);
        TraceExtends(s0, caps, processed, before, State(), beep, beeps);
        if beep {
          beeps := beeps + [f.now];
        }
        processed := processed + 1;
      }
      BeepsSpaced(s0, Frames(caps[..processed]));
    }
  }
}
