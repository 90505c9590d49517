/** The push-up counter: a two-variable state machine advanced once per video frame.
    Pose estimation and the geometry that turns landmarks into an elbow angle, a
    nose-to-wrist distance and a torso ratio are not modelled; their results are
    the fields of a `Frame`. */
module Tracker {

  /** What one video frame yields: no pose at all, or the visibility scores of the
      left shoulder, elbow and wrist and the three live metrics. */
  datatype Frame =
    | NoPose
    | Pose(shoulderVis: real, elbowVis: real, wristVis: real,
           angle: real, noseWrist: real, torsoRatio: real)

  const MinVisibility: real := 0.4
  const PlankRatio: real := 0.85
  const BottomAngle: real := 80.0
  const BottomReach: real := 0.42
  const TopAngle: real := 160.0
  const TopReach: real := 0.75

  /** All three tracked joints are seen with enough confidence. */
  predicate Visible(f: Frame)
  {
    f.Pose? && f.shoulderVis > MinVisibility && f.elbowVis > MinVisibility && f.wristVis > MinVisibility
  }

  /** Visible, and the torso is short relative to the shoulders: a plank, not standing. */
  predicate InPlank(f: Frame)
  {
    Visible(f) && f.torsoRatio < PlankRatio
  }

  /** Elbow bent and head down near the hands. */
  predicate AtBottom(f: Frame)
  {
    f.Pose? && f.angle <= BottomAngle && f.noseWrist < BottomReach
  }

  /** Arm straight with the head still over the hands. */
  predicate AtTop(f: Frame)
  {
    f.Pose? && f.angle >= TopAngle && f.noseWrist < TopReach
  }

  /** A frame that arms the counter. */
  predicate Arms(f: Frame)
  {
    InPlank(f) && AtBottom(f)
  }

  /** A frame that disarms the counter: standing, out of frame, or back at the top. */
  predicate Disarms(f: Frame)
  {
    (f.Pose? && !InPlank(f)) || (InPlank(f) && AtTop(f))
  }

  /** The bottom and top positions exclude each other, since 80 < 160. */
  lemma BottomIsNotTop(f: Frame)
    ensures !(AtBottom(f) && AtTop(f))
  {
  }

  /** The counter's state: repetitions so far, and 1 when the last position seen was the bottom. */
  datatype State = State(count: int, direction: int)

  const Start: State := State(0, 0)

  predicate ValidState(s: State)
  {
    s.count >= 0 && (s.direction == 0 || s.direction == 1)
  }

  /** One frame's effect, stated case by case. */
  function Next(s: State, f: Frame): (r: State)
    ensures ValidState(s) ==> ValidState(r)
    // a frame adds at most one repetition and never takes one away
    ensures r.count == s.count || r.count == s.count + 1
    // a repetition is counted exactly on a plank top frame while armed, which disarms
    ensures r.count == s.count + 1 <==> InPlank(f) && AtTop(f) && s.direction == 1
    ensures r.count == s.count + 1 ==> r.direction == 0
    // no landmarks: nothing changes
    ensures f.NoPose? ==> r == s
    // standing or out of frame: disarm, keep the count
    ensures f.Pose? && !InPlank(f) ==> r == State(s.count, 0)
    // plank bottom: arm, keep the count
    ensures Arms(f) ==> r == State(s.count, 1)
    // a plank frame that neither arms nor counts (mid-way, or a top while unarmed) changes nothing
    ensures InPlank(f) && !AtBottom(f) && !(AtTop(f) && s.direction == 1) ==> r == s
    // the counter is armed afterwards only if this frame armed it or it was armed and not disarmed
    ensures r.direction == 1 ==> Arms(f) || (s.direction == 1 && !Disarms(f))
  {
    if f.NoPose? then s
    else if !InPlank(f) then State(s.count, 0)
    else if AtBottom(f) then State(s.count, 1)
    else if AtTop(f) && s.direction == 1 then State(s.count + 1, 0)
    else s
  }

  /** The state after a sequence of frames, starting from `Start`. */
  function Run(frames: seq<Frame>): State
  {
    if frames == [] then Start
    else Next(Run(frames[..|frames| - 1]), frames[|frames| - 1])
  }

  /** The number of arming frames in `frames`. */
  function Armings(frames: seq<Frame>): nat
  {
    if frames == [] then 0
    else Armings(frames[..|frames| - 1]) + (if Arms(frames[|frames| - 1]) then 1 else 0)
  }

  /** Every reachable state is valid, and at most one repetition is counted per frame. */
  lemma {:induction false} RunIsValid(frames: seq<Frame>)
    ensures ValidState(Run(frames))
    ensures Run(frames).count <= |frames|
  {
    if frames != [] {
      RunIsValid(frames[..|frames| - 1]);
    }
  }

  /** Each counted repetition, and a pending armed state, used up a distinct arming frame. */
  lemma {:induction false} CountBoundedByArmings(frames: seq<Frame>)
    ensures Run(frames).count + Run(frames).direction <= Armings(frames)
  {
    if frames != [] {
      var init := frames[..|frames| - 1];
      CountBoundedByArmings(init);
      RunIsValid(init);
    }
  }

  /** The count never decreases as frames arrive. */
  lemma {:induction false} CountNeverDecreases(frames: seq<Frame>, k: nat)
    requires k <= |frames|
    ensures Run(frames[..k]).count <= Run(frames).count
  {
    if k < |frames| {
      var init := frames[..|frames| - 1];
      assert init[..k] == frames[..k];
      CountNeverDecreases(init, k);
    } else {
      assert frames[..k] == frames;
    }
  }

  /** An armed counter was armed by some earlier frame, and no frame since has disarmed it. */
  lemma {:induction false} ArmedSinceArming(frames: seq<Frame>)
    requires Run(frames).direction == 1
    ensures exists j :: 0 <= j < |frames| && Arms(frames[j]) &&
                        forall m :: j < m < |frames| ==> !Disarms(frames[m])
  {
    var n := |frames|;
    var init := frames[..n - 1];
    if !Arms(frames[n - 1]) {
      ArmedSinceArming(init);
      var j :| 0 <= j < |init| && Arms(init[j]) &&
               forall m :: j < m < |init| ==> !Disarms(init[m]);
      assert Arms(frames[j]);
      assert forall m :: j < m < n ==> !Disarms(frames[m]) by {
        forall m | j < m < n ensures !Disarms(frames[m]) {
          if m < n - 1 { assert frames[m] == init[m]; }
        }
      }
    }
  }

  /** The state after the first `k + 1` frames is one step on from the state after `k`. */
  lemma RunPrefixStep(frames: seq<Frame>, k: nat)
    requires k < |frames|
    ensures Run(frames[..k + 1]) == Next(Run(frames[..k]), frames[k])
  {
    var upTo := frames[..k + 1];
    assert upTo[..|upTo| - 1] == frames[..k];
    assert upTo[|upTo| - 1] == frames[k];
  }

  /** Every counted repetition was preceded by an arming (bottom) frame with no
      standing, out-of-frame or top frame in between. */
  lemma RepetitionFollowsArming(frames: seq<Frame>, k: nat)
    requires k < |frames|
    requires Run(frames[..k + 1]).count > Run(frames[..k]).count
    ensures exists j :: 0 <= j < k && Arms(frames[j]) &&
                        forall m :: j < m < k ==> !Disarms(frames[m])
  {
    var before := frames[..k];
    RunPrefixStep(frames, k);
    ArmedSinceArming(before);
    var j :| 0 <= j < |before| && Arms(before[j]) &&
             forall m :: j < m < |before| ==> !Disarms(before[m]);
    assert Arms(frames[j]);
    forall m | j < m < k ensures !Disarms(frames[m]) {
      assert frames[m] == before[m];
    }
  }

  /** Once armed, the counter stays armed until a disarming frame arrives. */
  lemma {:induction false} StaysArmed(frames: seq<Frame>, j: nat, k: nat)
    requires j < k <= |frames|
    requires Arms(frames[j])
    requires forall m :: j < m < k ==> !Disarms(frames[m])
    ensures Run(frames[..k]).direction == 1
  {
    RunPrefixStep(frames, k - 1);
    if k - 1 > j {
      StaysArmed(frames, j, k - 1);
    }
  }

  /** An arming frame, then no disarming frame, then a plank top frame: that top frame
      counts one repetition. */
  lemma ArmingThenTopCounts(frames: seq<Frame>, j: nat, k: nat)
    requires j < k < |frames|
    requires Arms(frames[j])
    requires forall m :: j < m < k ==> !Disarms(frames[m])
    requires InPlank(frames[k]) && AtTop(frames[k])
    ensures Run(frames[..k + 1]).count == Run(frames[..k]).count + 1
  {
    StaysArmed(frames, j, k);
    RunPrefixStep(frames, k);
  }

  /** The counter of `tracker.py`, whose two module-level variables the frame loop updates in place. */
  class PushupCounter {
    var count: int
    var direction: int

    ghost predicate Valid()
      reads this
    {
      ValidState(State(count, direction))
    }

    function Snapshot(): State
      reads this
    {
      State(count, direction)
    }

    constructor ()
      ensures Valid() && Snapshot() == Start
    {
      count := 0;
      direction := 0;
    }

    /** The body of the frame loop: the visibility check, the plank check, then the
        bottom check and the top check, in that order. */
    method ProcessFrame(f: Frame)
      requires Valid()
      modifies this
      ensures Valid() && Snapshot() == Next(old(Snapshot()), f)
    {
      if f.Pose? {
        if f.shoulderVis > MinVisibility && f.elbowVis > MinVisibility && f.wristVis > MinVisibility {
          if f.torsoRatio < PlankRatio {
            if f.angle <= BottomAngle && f.noseWrist < BottomReach {
              direction := 1;
            }
            if f.angle >= TopAngle && f.noseWrist < TopReach {
              if direction == 1 {
                count := count + 1;
                direction := 0;
              }
            }
          } else {
            direction := 0;
          }
        } else {
          direction := 0;
        }
      }
    }
  }

  /** The whole capture loop: a fresh counter fed every frame until the video ends. */
  method Track(frames: seq<Frame>) returns (count: int)
    ensures count == Run(frames).count
    ensures 0 <= count <= |frames|
    ensures count <= Armings(frames)
  {
    var counter := new PushupCounter();
    var i := 0;
    while i < |frames|
      invariant 0 <= i <= |frames|
      invariant counter.Valid() && counter.Snapshot() == Run(frames[..i])
    {
      counter.ProcessFrame(frames[i]);
      assert frames[..i + 1][..i] == frames[..i];
      i := i + 1;
    }
    assert frames[..i] == frames;
    count := counter.count;
    RunIsValid(frames);
    CountBoundedByArmings(frames);
  }
}
