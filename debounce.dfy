/** The beep debouncer that both front ends share: on a bad frame a beep is
    emitted only when strictly more than `cooldown` seconds have passed since
    the last emitted beep, and emitting one moves the last-beep time to the
    frame's clock reading. A good frame never beeps and never moves it. */
module Debounce {

  /** One frame as the debouncer sees it: was posture bad, and the clock reading. */
  datatype Event = Event(bad: bool, now: real)

  /** The decision for one frame: beep or not, and the last-beep time afterwards. */
  datatype Decision = Decision(beep: bool, lastBeep: real)

  /** The beeps emitted over a run of frames, in order, and the last-beep time at its end. */
  datatype Alarm = Alarm(beeps: seq<real>, lastBeep: real)

  function Decide(bad: bool, now: real, lastBeep: real, cooldown: real): Decision
  {
    if bad && now - lastBeep > cooldown then Decision(true, now) else Decision(false, lastBeep)
  }

  /** Feeds the events, oldest first, through the debouncer. */
  function Replay(lastBeep: real, cooldown: real, events: seq<Event>): Alarm
    decreases |events|
  {
    if events == [] then Alarm([], lastBeep)
    else
      var before := Replay(lastBeep, cooldown, events[..|events| - 1]);
      var e := events[|events| - 1];
      var d := Decide(e.bad, e.now, before.lastBeep, cooldown);
      Alarm(before.beeps + (if d.beep then [e.now] else []), d.lastBeep)
  }

  /** Any two beeps, taken in the order they were emitted, lie more than `cooldown` apart. */
  predicate Spaced(beeps: seq<real>, cooldown: real)
  {
    forall i, j :: 0 <= i < j < |beeps| ==> beeps[j] - beeps[i] > cooldown
  }

  /** The debouncer's temporal contract: every beep comes more than `cooldown`
      after the starting last-beep time and after every earlier beep, and the
      last-beep time is the most recent beep, if there was one. No ordering of
      the clock readings is needed. */
  lemma {:induction false} ReplaySpaced(lastBeep: real, cooldown: real, events: seq<Event>)
    requires cooldown >= 0.0
    ensures Spaced(Replay(lastBeep, cooldown, events).beeps, cooldown)
    ensures forall i :: 0 <= i < |Replay(lastBeep, cooldown, events).beeps| ==>
      Replay(lastBeep, cooldown, events).beeps[i] - lastBeep > cooldown
    ensures var a := Replay(lastBeep, cooldown, events);
      if a.beeps == [] then a.lastBeep == lastBeep else a.lastBeep == a.beeps[|a.beeps| - 1]
    decreases |events|
  {
    if events != [] {
      var init := events[..|events| - 1];
      var e := events[|events| - 1];
      ReplaySpaced(lastBeep, cooldown, init);
      var before := Replay(lastBeep, cooldown, init);
      var d := Decide(e.bad, e.now, before.lastBeep, cooldown);
      if d.beep {
        var n := |before.beeps|;
        assert before.lastBeep >= lastBeep;
        forall i | 0 <= i < n
          ensures e.now - before.beeps[i] > cooldown
        {
          assert before.beeps[i] <= before.lastBeep by {
            if i < n - 1 {
              assert before.beeps[n - 1] - before.beeps[i] > cooldown;
            }
          }
        }
      }
    }
  }

  /** Some bad event carries clock reading `t`. */
  ghost predicate BadEventAt(events: seq<Event>, t: real)
  {
    exists k :: 0 <= k < |events| && events[k].bad && events[k].now == t
  }

  /** Every beep is the clock reading of some bad event. */
  lemma {:induction false} ReplayBeepsAreBadEvents(lastBeep: real, cooldown: real, events: seq<Event>)
    ensures forall i :: 0 <= i < |Replay(lastBeep, cooldown, events).beeps| ==>
      BadEventAt(events, Replay(lastBeep, cooldown, events).beeps[i])
    decreases |events|
  {
    if events != [] {
      var init := events[..|events| - 1];
      var e := events[|events| - 1];
      ReplayBeepsAreBadEvents(lastBeep, cooldown, init);
      var before := Replay(lastBeep, cooldown, init);
      var a := Replay(lastBeep, cooldown, events);
      var d := Decide(e.bad, e.now, before.lastBeep, cooldown);
      assert a.beeps == before.beeps + (if d.beep then [e.now] else []);
      forall i | 0 <= i < |a.beeps|
        ensures BadEventAt(events, a.beeps[i])
      {
        if i < |before.beeps| {
          assert a.beeps[i] == before.beeps[i];
          assert BadEventAt(init, before.beeps[i]);
          var k :| 0 <= k < |init| && init[k].bad && init[k].now == before.beeps[i];
          assert events[k] == init[k];
        } else {
          assert events[|events| - 1].bad && events[|events| - 1].now == a.beeps[i];
        }
      }
    }
  }

  /** A run whose bad events all fall within the cooldown after the starting
      last-beep time (in particular, a run with no bad event) emits nothing
      and leaves the last-beep time where it was. */
  lemma {:induction false} QuietReplay(lastBeep: real, cooldown: real, events: seq<Event>)
    requires forall k :: 0 <= k < |events| ==> events[k].bad ==> events[k].now - lastBeep <= cooldown
    ensures Replay(lastBeep, cooldown, events) == Alarm([], lastBeep)
    decreases |events|
  {
    if events != [] {
      QuietReplay(lastBeep, cooldown, events[..|events| - 1]);
    }
  }

  /** The first bad event past the cooldown since the starting last-beep time
      beeps; earlier bad events, still within the cooldown, do not. */
  lemma FirstBadEventBeeps(lastBeep: real, cooldown: real, events: seq<Event>, k: nat)
    requires k < |events|
    requires forall j :: 0 <= j < k ==> events[j].bad ==> events[j].now - lastBeep <= cooldown
    requires events[k].bad && events[k].now - lastBeep > cooldown
    ensures Replay(lastBeep, cooldown, events[..k + 1]) == Alarm([events[k].now], events[k].now)
  {
    QuietReplay(lastBeep, cooldown, events[..k]);
    assert events[..k + 1][..k] == events[..k];
  }
}
