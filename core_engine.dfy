/** The desktop-window variant of the posture monitor: each frame with pose
    landmarks is classified by the shoulder-to-ear angle alone, against the
    band [70, 140] degrees, and a slouched frame beeps through the same
    2-second debouncer. Only the last-beep time survives from one frame to
    the next; the status text is an overlay drawn on the frame. */
module CoreEngine {
  import opened Debounce

  const AngleLow: real := 70.0
  const AngleHigh: real := 140.0
  const BeepCooldown: real := 2.0

  const SlouchStatus: string := "SLOUCH DETECTED!"
  const GoodStatus: string := "GOOD POSTURE"

  /** What the landmark model yields for one frame: nothing, or the angle
      between the left shoulder and the left ear. */
  datatype Observation = NoPose | Angle(degrees: real)

  /** One frame that was read: its observation and the clock reading it was handled at. */
  datatype Frame = Frame(obs: Observation, now: real)

  /** The result of reading the camera: a frame, or a failed read. */
  datatype Capture = ReadFailed | Captured(frame: Frame)

  /** The text drawn on a frame: none without landmarks, otherwise the status. */
  datatype Overlay = NoText | Text(status: string)

  predicate IsSlouch(angle: real)
  {
    angle < AngleLow || angle > AngleHigh
  }

  function Status(angle: real): string
  {
    if IsSlouch(angle) then SlouchStatus else GoodStatus
  }

  /** The text a loop iteration draws on a frame it read: the status when
      landmarks were found, nothing otherwise. */
  function OverlayOf(f: Frame): Overlay
  {
    if f.obs.Angle? then Text(Status(f.obs.degrees)) else NoText
  }

  /** A frame the classifier finds slouched. */
  predicate SlouchFrame(f: Frame)
  {
    f.obs.Angle? && IsSlouch(f.obs.degrees)
  }

  function Events(frames: seq<Frame>): (es: seq<Event>)
    ensures |es| == |frames|
    ensures forall i :: 0 <= i < |frames| ==> es[i] == Event(SlouchFrame(frames[i]), frames[i].now)
  {
    seq(|frames|, i requires 0 <= i < |frames| => Event(SlouchFrame(frames[i]), frames[i].now))
  }

  /** The frames that were read, in order; failed reads are skipped. */
  function Frames(caps: seq<Capture>): seq<Frame>
    decreases |caps|
  {
    if caps == [] then []
    else
      var c := caps[|caps| - 1];
      Frames(caps[..|caps| - 1]) + (if c.Captured? then [c.frame] else [])
  }

  /** Specification of a run: the beeps and the final last-beep time. */
  function Alarms(lastBeep: real, frames: seq<Frame>): Alarm
  {
    Replay(lastBeep, BeepCooldown, Events(frames))
  }

  lemma FramesAppend(caps: seq<Capture>, c: Capture)
    ensures Frames(caps + [c]) == Frames(caps) + (if c.Captured? then [c.frame] else [])
  {
    assert (caps + [c])[..|caps|] == caps;
  }

  lemma {:induction false} FramesConcat(a: seq<Capture>, b: seq<Capture>)
    ensures Frames(a + b) == Frames(a) + Frames(b)
    decreases |b|
  {
    if b != [] {
      var init := b[..|b| - 1];
      var c := b[|b| - 1];
      var tail := if c.Captured? then [c.frame] else [];
      FramesConcat(a, init);
      assert a + b == (a + init) + [c];
      assert b == init + [c];
      calc {
        Frames(a + b);
      == { FramesAppend(a + init, c); }
        Frames(a + init) + tail;
      ==
        (Frames(a) + Frames(init)) + tail;
      == { FramesAppend(init, c); }
        Frames(a) + Frames(b);
      }
    } else {
      assert a + b == a;
    }
  }

  /** A failed read is skipped: it contributes no frame, wherever it falls. */
  lemma ReadFailuresSkipped(a: seq<Capture>, b: seq<Capture>)
    ensures Frames(a + [ReadFailed] + b) == Frames(a + b)
  {
    FramesConcat(a + [ReadFailed], b);
    FramesConcat(a, b);
    FramesAppend(a, ReadFailed);
  }

  /** One more handled frame extends the run by one debouncer decision. */
  lemma AlarmsExtend(lastBeep: real, caps: seq<Capture>, i: nat, before: real, after: real,
                     beep: bool, beeps: seq<real>)
    requires i < |caps|
    requires Alarms(lastBeep, Frames(caps[..i])) == Alarm(beeps, before)
    requires caps[i].ReadFailed? ==> after == before && !beep
    requires caps[i].Captured? ==>
      Decide(SlouchFrame(caps[i].frame), caps[i].frame.now, before, BeepCooldown) == Decision(beep, after)
    ensures Alarms(lastBeep, Frames(caps[..i + 1])) == Alarm(beeps + (if beep then [caps[i].frame.now] else []), after)
  {
    assert caps[..i + 1] == caps[..i] + [caps[i]];
    FramesAppend(caps[..i], caps[i]);
    var fs := Frames(caps[..i]);
    if caps[i].Captured? {
      var f := caps[i].frame;
      var es := Events(fs + [f]);
      assert es[..|fs|] == Events(fs);
      assert es[|fs|] == Event(SlouchFrame(f), f.now);
      var a := Replay(lastBeep, BeepCooldown, es[..|fs|]);
      assert Alarms(lastBeep, fs + [f]) == Replay(lastBeep, BeepCooldown, es);
      assert a == Alarm(beeps, before);
    } else {
      assert Frames(caps[..i + 1]) == fs;
    }
  }

  /** Any two beeps are more than 2 seconds apart, and the first comes more
      than 2 seconds after the starting last-beep time. */
  lemma SlouchBeepsSpaced(lastBeep: real, frames: seq<Frame>)
    ensures Spaced(Alarms(lastBeep, frames).beeps, 2.0)
    ensures forall i :: 0 <= i < |Alarms(lastBeep, frames).beeps| ==>
      Alarms(lastBeep, frames).beeps[i] - lastBeep > 2.0
  {
    ReplaySpaced(lastBeep, BeepCooldown, Events(frames));
  }

  /** Frames in good posture or without landmarks never beep and never move
      the last-beep time. */
  lemma GoodFramesSilent(lastBeep: real, frames: seq<Frame>)
    requires forall k :: 0 <= k < |frames| ==> !SlouchFrame(frames[k])
    ensures Alarms(lastBeep, frames) == Alarm([], lastBeep)
  {
    QuietReplay(lastBeep, BeepCooldown, Events(frames));
  }

  /** With the last-beep time starting at 0, the first slouched frame handled
      after the 2-second mark beeps; slouched frames before that mark do not. */
  lemma FirstSlouchBeeps(frames: seq<Frame>, k: nat)
    requires k < |frames|
    requires forall j :: 0 <= j < k ==> SlouchFrame(frames[j]) ==> frames[j].now <= 2.0
    requires SlouchFrame(frames[k]) && frames[k].now > 2.0
    ensures Alarms(0.0, frames[..k + 1]).beeps == [frames[k].now]
  {
    var es := Events(frames);
    FirstBadEventBeeps(0.0, BeepCooldown, es, k);
    assert Events(frames[..k + 1]) == es[..k + 1];
  }

  /** The program's persistent state: the time of the last beep. */
  class DesktopMonitor {
    var lastBeepTime: real

    constructor ()
      ensures lastBeepTime == 0.0
    {
      lastBeepTime := 0.0;
    }

    /** The body of the loop for a frame that was read: returns the text
        drawn on it and whether a beep is emitted. */
    method Step(f: Frame) returns (overlay: Overlay, beep: bool)
      modifies this
      ensures Decide(SlouchFrame(f), f.now, old(lastBeepTime), BeepCooldown) == Decision(beep, lastBeepTime)
      ensures f.obs.NoPose? ==> overlay == NoText && !beep && lastBeepTime == old(lastBeepTime)
      ensures f.obs.Angle? ==>
        && overlay == Text(Status(f.obs.degrees))
        && (IsSlouch(f.obs.degrees) <==> f.obs.degrees < 70.0 || f.obs.degrees > 140.0)
        && (beep <==> IsSlouch(f.obs.degrees) && f.now - old(lastBeepTime) > 2.0)
        && lastBeepTime == (if beep then f.now else old(lastBeepTime))
    {
      overlay, beep := NoText, false;
      if f.obs.Angle? {
        var angle := f.obs.degrees;
        var status: string;
        if angle < AngleLow || angle > AngleHigh {
          status := SlouchStatus;
          if f.now - lastBeepTime > BeepCooldown {
            beep := true;
            lastBeepTime := f.now;
          }
        } else {
          status := GoodStatus;
        }
        overlay := Text(status);
      }
    }

    /** The main loop over the captures the camera delivers: a failed read
        is skipped, every other frame goes through Step. Returns the overlay
        of each frame read and the times of the beeps emitted. */
    method Run(caps: seq<Capture>) returns (overlays: seq<Overlay>, beeps: seq<real>)
      modifies this
      ensures Alarms(old(lastBeepTime), Frames(caps)) == Alarm(beeps, lastBeepTime)
      ensures |overlays| == |Frames(caps)|
      ensures forall k :: 0 <= k < |overlays| ==> overlays[k] == OverlayOf(Frames(caps)[k])
      ensures Spaced(beeps, BeepCooldown)
    {
      ghost var start := lastBeepTime;
      overlays, beeps := [], [];
      var i := 0;
      while i < |caps|
        invariant 0 <= i <= |caps|
        invariant Alarms(start, Frames(caps[..i])) == Alarm(beeps, lastBeepTime)
        invariant |overlays| == |Frames(caps[..i])|
        invariant forall k :: 0 <= k < |overlays| ==> overlays[k] == OverlayOf(Frames(caps[..i])[k])
      {
        assert caps[..i + 1] == caps[..i] + [caps[i]];
        FramesAppend(caps[..i], caps[i]);
        if caps[i].ReadFailed? {
          AlarmsExtend(start, caps, i, lastBeepTime, lastBeepTime, false, beeps);
          i := i + 1;
          continue;
        }
        var f := caps[i].frame;
        ghost var before := lastBeepTime;
        var overlay, beep := Step(f);
        AlarmsExtend(start, caps, i, before, lastBeepTime, beep, beeps);
        overlays := overlays + [overlay];
        if beep {
          beeps := beeps + [f.now];
        }
        i := i + 1;
      }
      assert caps[..i] == caps;
      SlouchBeepsSpaced(start, Frames(caps));
    }
  }
}
