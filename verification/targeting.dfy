/**
 * Target acquisition: while aiming, find the ball the cue ball would strike
 * first along the hit line. The plane geometry that measures each ball
 * against the hit line is abstracted into one Measure per ball.
 */
module Targeting {
  import opened Wrappers
  import Rack
  import opened Table

  /**
   * What the geometry reports for one ball: the distance from its centre to
   * the nearest point of the hit line, whether that nearest point lies on the
   * hit segment, and the distance from its centre to the cue ball's centre.
   */
  datatype Measure = Measure(hitLineDistance: real, onSegment: bool, cueBallDistance: real)

  /** The chosen ball (by index into the ball group) with the two distances recorded for it. */
  datatype Target = Target(index: nat, cueBallDistance: real, hitLineDistance: real)

  /** Centre-to-centre distance at which two balls touch: two radii. */
  const ContactDistance: real := (2 * Rack.Radius) as real

  /** The cue ball could strike this ball by travelling along the hit line. */
  predicate Reachable(m: Measure)
  {
    m.hitLineDistance < ContactDistance && m.onSegment
  }

  /** Ball k is a candidate: not the cue ball, and reachable. */
  predicate Eligible(t: Balls, ms: seq<Measure>, k: int)
    requires |ms| == |t|
  {
    0 <= k < |t| && !t[k].isCue && Reachable(ms[k])
  }

  /**
   * Among the first n balls, k is the one the scan keeps: eligible, strictly
   * closer to the cue ball than every earlier eligible ball, and no farther
   * than every later one.
   */
  predicate ChosenAmong(t: Balls, ms: seq<Measure>, n: int, k: int)
    requires |ms| == |t| && n <= |t|
  {
    && 0 <= k < n
    && Eligible(t, ms, k)
    && (forall j :: 0 <= j < k && Eligible(t, ms, j) ==> ms[k].cueBallDistance < ms[j].cueBallDistance)
    && (forall j :: k < j < n && Eligible(t, ms, j) ==> ms[k].cueBallDistance <= ms[j].cueBallDistance)
  }

  predicate Chosen(t: Balls, ms: seq<Measure>, k: int)
    requires |ms| == |t|
  {
    ChosenAmong(t, ms, |t|, k)
  }

  /**
   * The scan over the ball group. It skips the cue ball and keeps a ball when
   * it is reachable and strictly closer to the cue ball than the best so far
   * (no best so far stands for an infinite shortest distance).
   */
  method SelectTarget(t: Balls, ms: seq<Measure>) returns (r: Option<Target>)
    requires |ms| == |t|
    ensures r.None? <==> forall k :: 0 <= k < |t| ==> !Eligible(t, ms, k)
    ensures r.Some? ==> Chosen(t, ms, r.value.index)
    ensures r.Some? ==> r.value.cueBallDistance == ms[r.value.index].cueBallDistance
    ensures r.Some? ==> r.value.hitLineDistance == ms[r.value.index].hitLineDistance
  {
    r := None;
    for k := 0 to |t|
      invariant r.None? <==> forall j :: 0 <= j < k ==> !Eligible(t, ms, j)
      invariant r.Some? ==> ChosenAmong(t, ms, k, r.value.index)
      invariant r.Some? ==> r.value.cueBallDistance == ms[r.value.index].cueBallDistance
      invariant r.Some? ==> r.value.hitLineDistance == ms[r.value.index].hitLineDistance
    {
      if t[k].isCue {
        assert !Eligible(t, ms, k);
        continue;
      }
      var m := ms[k];
      if m.hitLineDistance < ContactDistance && m.onSegment
        && (r.None? || m.cueBallDistance < r.value.cueBallDistance)
      {
        assert Eligible(t, ms, k);
        r := Some(Target(k, m.cueBallDistance, m.hitLineDistance));
      } else {
        assert r.None? ==> !Eligible(t, ms, k);
      }
    }
  }

  /** At most one ball satisfies the selection rule, so the scan's answer is determined by it. */
  lemma ChosenUnique(t: Balls, ms: seq<Measure>, a: int, b: int)
    requires |ms| == |t|
    requires Chosen(t, ms, a) && Chosen(t, ms, b)
    ensures a == b
  {
  }

  /** The chosen ball is never the cue ball and is no farther than any eligible ball. */
  lemma ChosenIsNearest(t: Balls, ms: seq<Measure>, k: int)
    requires |ms| == |t|
    requires Chosen(t, ms, k)
    ensures !t[k].isCue
    ensures forall j :: 0 <= j < |t| && Eligible(t, ms, j) ==> ms[k].cueBallDistance <= ms[j].cueBallDistance
  {
  }

  /** A ball whose centre is exactly two radii from the hit line is never chosen. */
  lemma TangentBallNotChosen(t: Balls, ms: seq<Measure>, k: int)
    requires |ms| == |t| && 0 <= k < |t|
    requires ms[k].hitLineDistance == ContactDistance
    ensures !Chosen(t, ms, k)
  {
  }

  /** Of two eligible balls at different cue-ball distances, the farther one is not chosen. */
  lemma CloserBallWins(t: Balls, ms: seq<Measure>, a: int, b: int)
    requires |ms| == |t|
    requires Eligible(t, ms, a) && Eligible(t, ms, b)
    requires ms[a].cueBallDistance < ms[b].cueBallDistance
    ensures !Chosen(t, ms, b)
  {
  }

  /** On equal cue-ball distances the earlier ball in the group wins. */
  lemma EarlierBallWinsTie(t: Balls, ms: seq<Measure>, a: int, b: int)
    requires |ms| == |t|
    requires a < b && Eligible(t, ms, a) && Eligible(t, ms, b)
    requires ms[a].cueBallDistance == ms[b].cueBallDistance
    ensures !Chosen(t, ms, b)
  {
  }

  /**
   * The contact point is computed with sqrt((2 radius)^2 - d^2) for the chosen
   * ball's hit-line distance d; the strict eligibility test keeps that radicand positive.
   */
  lemma ChordRadicandPositive(t: Balls, ms: seq<Measure>, k: int)
    requires |ms| == |t|
    requires Chosen(t, ms, k)
    requires ms[k].hitLineDistance >= 0.0
    ensures ContactDistance * ContactDistance - ms[k].hitLineDistance * ms[k].hitLineDistance > 0.0
  {
    var d := ms[k].hitLineDistance;
    assert 0.0 <= d < 18.0;
    assert d * d <= d * 18.0;
    assert d * 18.0 < 18.0 * 18.0;
  }
}
