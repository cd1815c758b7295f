/**
 * The balls on the table and the pocket rule. A ball's identity is its id:
 * the racked balls carry their running numbers 1..15 and the cue ball carries 0.
 */
module Table {
  import opened Wrappers
  import opened Geometry
  import Rack

  datatype Ball = Ball(id: nat, pos: Point, vel: Point, isCue: bool)

  /** The ball group, in the order the balls were added to it. */
  type Balls = seq<Ball>

  /** Where the cue ball starts and where it returns after being pocketed. */
  const CueSpot: Point := Point(240.0, 190.0)

  const CueId: nat := 0

  const Still: Point := Origin

  predicate UniqueIds(t: Balls)
  {
    forall a, b :: 0 <= a < b < |t| ==> t[a].id != t[b].id
  }

  /** Exactly one ball is the cue ball. */
  predicate OneCue(t: Balls)
  {
    exists c :: 0 <= c < |t| && CueAt(t, c)
  }

  /** The ball at index c is the cue ball and no other ball is. */
  predicate CueAt(t: Balls, c: int)
  {
    0 <= c < |t| && t[c].isCue && forall k :: 0 <= k < |t| && t[k].isCue ==> k == c
  }

  predicate WellFormed(t: Balls)
  {
    UniqueIds(t) && OneCue(t)
  }

  /** Index of the ball with the given id, if it is still on the table. */
  function Find(t: Balls, id: nat): (r: Option<nat>)
    ensures r.Some? ==> r.value < |t| && t[r.value].id == id
    ensures r.None? ==> forall k :: 0 <= k < |t| ==> t[k].id != id
  {
    if |t| == 0 then None
    else if t[|t| - 1].id == id then Some(|t| - 1)
    else Find(t[..|t| - 1], id)
  }

  /** The table right after the rack is built: the fifteen object balls, then the cue ball. */
  function InitialTable(): (t: Balls)
  {
    var rack := Rack.Layout(Rack.Rows);
    seq(|rack|, k requires 0 <= k < |rack| =>
      Ball(rack[k].number, Point(rack[k].x as real, rack[k].y as real), Still, false))
    + [Ball(CueId, CueSpot, Still, true)]
  }

  /**
   * A ball touched a pocket. The cue ball is stopped and put back on its spot;
   * any other ball leaves the table. An id no longer on the table changes nothing.
   */
  function Pocket(t: Balls, id: nat): (r: Balls)
    requires UniqueIds(t)
    ensures UniqueIds(r)
    ensures (forall k :: 0 <= k < |t| ==> t[k].id != id) ==> r == t
    ensures forall k :: 0 <= k < |t| && t[k].id == id && t[k].isCue ==>
      |r| == |t| && r[k] == Ball(id, CueSpot, Still, true)
      && forall m :: 0 <= m < |t| && m != k ==> r[m] == t[m]
    ensures forall k :: 0 <= k < |t| && t[k].id == id && !t[k].isCue ==>
      |r| == |t| - 1 && r == t[..k] + t[k + 1..]
  {
    match Find(t, id)
    case None => t
    case Some(k) =>
      if t[k].isCue then t[k := t[k].(pos := CueSpot, vel := Still)]
      else t[..k] + t[k + 1..]
  }

  /** The initial table holds the fifteen numbered balls at their rack spots and one cue ball at its spot. */
  lemma InitialTableWellFormed()
    ensures WellFormed(InitialTable())
    ensures |InitialTable()| == Rack.BallCount + 1
    ensures forall k :: 0 <= k < Rack.BallCount ==> InitialTable()[k].id == k + 1 && !InitialTable()[k].isCue
    ensures InitialTable()[Rack.BallCount] == Ball(CueId, CueSpot, Still, true)
  {
    var t := InitialTable();
    assert |Rack.Layout(Rack.Rows)| == 15;
    forall k | 0 <= k < 15
      ensures t[k].id == k + 1 && !t[k].isCue
    {
      assert t[k].id == Rack.Layout(Rack.Rows)[k].number;
    }
    assert t[15].isCue;
    assert CueAt(t, 15);
  }

  /** Pocketing keeps the table well formed; in particular the cue ball is never removed. */
  lemma PocketKeepsWellFormed(t: Balls, id: nat)
    requires WellFormed(t)
    ensures WellFormed(Pocket(t, id))
    ensures |Pocket(t, id)| >= |t| - 1
  {
    var c :| CueAt(t, c);
    match Find(t, id)
    case None =>
      assert CueAt(Pocket(t, id), c);
    case Some(k) =>
      if t[k].isCue {
        ResetKeepsCue(t, c);
      } else {
        RemoveKeepsCue(t, c, k);
      }
  }

  /** Putting the cue ball back on its spot leaves it the only cue ball. */
  lemma ResetKeepsCue(t: Balls, c: int)
    requires CueAt(t, c)
    ensures CueAt(t[c := t[c].(pos := CueSpot, vel := Still)], c)
  {
  }

  /** Removing an object ball shifts the cue ball's index down by at most one. */
  lemma RemoveKeepsCue(t: Balls, c: int, k: int)
    requires CueAt(t, c) && 0 <= k < |t| && k != c
    ensures CueAt(t[..k] + t[k + 1..], if c < k then c else c - 1)
  {
    var r := t[..k] + t[k + 1..];
    forall m | 0 <= m < |r|
      ensures r[m] == if m < k then t[m] else t[m + 1]
    {
    }
  }
}
