/**
 * Pointer input and the motion flag. A press arms a drag, moves stretch it,
 * a release fires the cue ball, and a per-tick scan of ball speeds decides
 * whether the table is still moving; input is ignored while it is.
 */
module Controls {
  import opened Geometry

  /** A ball faster than this counts as moving. */
  const MotionThreshold: real := 0.1

  /** Shot speed per unit of drag length. */
  const SpeedScale: real := 0.1

  /**
   * moving: the motion flag; pointerDown: a drag is in progress;
   * drag: press point to latest pointer position; aim: angle of the hit line,
   * which fixes the direction of the next shot.
   */
  datatype Session = Session(moving: bool, pointerDown: bool, drag: Line, aim: real)

  /** A shot: its direction, and its speed given as a square (speed = drag length times the scale). */
  datatype Shot = Shot(angle: real, speedSq: real)

  /**
   * Input and simulation events. PointerMove carries the angle the hit line
   * takes when this move re-aims; Tick carries every ball's current speed.
   */
  datatype Event =
    | PointerDown(at: Point)
    | PointerMove(at: Point, angle: real)
    | PointerUp
    | Tick(speeds: seq<real>)

  /**
   * What a handler did. Aimed means the hit line was re-aimed and target
   * acquisition runs; Dragged means only the drag was stretched.
   */
  datatype Reaction = Ignored | Pressed | Dragged | Aimed | Fired(shot: Shot) | Updated

  datatype Step = Step(next: Session, reaction: Reaction)

  /** The run of a sequence of events: the final session and the shots fired on the way. */
  datatype Trace = Trace(final: Session, shots: seq<Shot>)

  /** At scene start: nothing moves, no drag, an empty hit line of angle 0. */
  const Start: Session := Session(false, false, Line(Origin, Origin), 0.0)

  /** Some ball is faster than the threshold. */
  predicate InMotion(speeds: seq<real>)
  {
    exists i :: 0 <= i < |speeds| && speeds[i] > MotionThreshold
  }

  /** Square of the speed a drag gives to the cue ball. */
  function ShotSpeedSq(drag: Line): (r: real)
    ensures r >= 0.0
  {
    LengthSqNonneg(drag);
    SpeedScale * SpeedScale * LengthSq(drag)
  }

  /** Press: ignored while moving; otherwise starts a drag of zero length at the press point. */
  function OnPointerDown(s: Session, p: Point): (r: Step)
    ensures s.moving ==> r == Step(s, Ignored)
    ensures !s.moving ==> r.reaction == Pressed && r.next.pointerDown
    ensures !s.moving ==> r.next.drag.start == p && r.next.drag.end == p
    ensures !s.moving ==> r.next.moving == s.moving && r.next.aim == s.aim
  {
    if s.moving then Step(s, Ignored)
    else Step(s.(pointerDown := true, drag := Line(p, p)), Pressed)
  }

  /**
   * Move: ignored while moving. Otherwise the drag's end follows the pointer;
   * without a press in progress the hit line is also re-aimed.
   */
  function OnPointerMove(s: Session, p: Point, angle: real): (r: Step)
    ensures s.moving ==> r == Step(s, Ignored)
    ensures !s.moving ==> r.next.drag == Line(s.drag.start, p)
    ensures r.next.moving == s.moving && r.next.pointerDown == s.pointerDown
    ensures r.reaction == Aimed <==> !s.moving && !s.pointerDown
    ensures r.next.aim == (if r.reaction == Aimed then angle else s.aim)
  {
    if s.moving then Step(s, Ignored)
    else if s.pointerDown then Step(s.(drag := Line(s.drag.start, p)), Dragged)
    else Step(s.(drag := Line(s.drag.start, p), aim := angle), Aimed)
  }

  /**
   * Release: acts only when a press is in progress, whether or not the table
   * moves; it ends the drag, raises the motion flag and fires along the hit line.
   */
  function OnPointerUp(s: Session): (r: Step)
    ensures r.reaction.Fired? <==> s.pointerDown
    ensures !s.pointerDown ==> r == Step(s, Ignored)
    ensures s.pointerDown ==> !r.next.pointerDown && r.next.moving
    ensures r.next.drag == s.drag && r.next.aim == s.aim
    ensures r.reaction.Fired? ==> r.reaction.shot.angle == s.aim
    ensures r.reaction.Fired? ==> r.reaction.shot.speedSq == SpeedScale * SpeedScale * LengthSq(s.drag)
    ensures r.reaction.Fired? ==> r.reaction.shot.speedSq >= 0.0
  {
    if s.pointerDown then
      Step(s.(pointerDown := false, moving := true), Fired(Shot(s.aim, ShotSpeedSq(s.drag))))
    else Step(s, Ignored)
  }

  /** The per-tick scan, with its early exit at the first fast ball. */
  method RestScan(speeds: seq<real>) returns (moving: bool)
    ensures moving <==> exists i :: 0 <= i < |speeds| && speeds[i] > MotionThreshold
    ensures !moving ==> forall i :: 0 <= i < |speeds| ==> speeds[i] <= MotionThreshold
  {
    moving := false;
    var i := 0;
    while i < |speeds|
      invariant 0 <= i <= |speeds|
      invariant forall k :: 0 <= k < i ==> speeds[k] <= MotionThreshold
    {
      if speeds[i] > MotionThreshold {
        moving := true;
        break;
      }
      i := i + 1;
    }
  }

  /** Tick: the motion flag becomes the result of the speed scan; nothing else changes. */
  function OnTick(s: Session, speeds: seq<real>): (r: Step)
    ensures r.next.moving <==> exists i :: 0 <= i < |speeds| && speeds[i] > MotionThreshold
    ensures r.next.pointerDown == s.pointerDown && r.next.drag == s.drag && r.next.aim == s.aim
    ensures r.reaction == Updated
  {
    Step(s.(moving := InMotion(speeds)), Updated)
  }

  /** The tick handler's motion flag is exactly what the early-exit scan reports. */
  method TickRunsScan(s: Session, speeds: seq<real>) returns (moving: bool)
    ensures moving == OnTick(s, speeds).next.moving
  {
    moving := RestScan(speeds);
  }

  function Handle(s: Session, e: Event): (r: Step)
  {
    match e
    case PointerDown(p) => OnPointerDown(s, p)
    case PointerMove(p, a) => OnPointerMove(s, p, a)
    case PointerUp => OnPointerUp(s)
    case Tick(speeds) => OnTick(s, speeds)
  }

  function ShotsOf(reaction: Reaction): (shots: seq<Shot>)
  {
    if reaction.Fired? then [reaction.shot] else []
  }

  /** Events handled in delivery order, one at a time. */
  function Run(s: Session, evs: seq<Event>): (tr: Trace)
    decreases |evs|
  {
    if evs == [] then Trace(s, [])
    else
      var st := Handle(s, evs[0]);
      var rest := Run(st.next, evs[1..]);
      Trace(rest.final, ShotsOf(st.reaction) + rest.shots)
  }

  predicate NoTicks(evs: seq<Event>)
  {
    forall i :: 0 <= i < |evs| ==> !evs[i].Tick?
  }

  predicate AllMoves(evs: seq<Event>)
  {
    forall i :: 0 <= i < |evs| ==> evs[i].PointerMove?
  }

  /** Where the pointer is after the given moves, starting from p. */
  function LastAt(p: Point, moves: seq<Event>): (q: Point)
    requires AllMoves(moves)
  {
    if moves == [] then p else moves[|moves| - 1].at
  }

  /**
   * While the table moves and no tick clears the flag, no event re-aims or
   * changes the drag, and at most one shot fires: the release of a press that
   * was already in progress.
   */
  lemma {:induction false} MotionGatesInput(s: Session, evs: seq<Event>)
    requires s.moving && NoTicks(evs)
    ensures Run(s, evs).final.moving
    ensures Run(s, evs).final.drag == s.drag && Run(s, evs).final.aim == s.aim
    ensures |Run(s, evs).shots| <= (if s.pointerDown then 1 else 0)
    ensures !s.pointerDown ==> Run(s, evs) == Trace(s, [])
    decreases |evs|
  {
    if evs != [] {
      var st := Handle(s, evs[0]);
      assert NoTicks(evs[1..]);
      MotionGatesInput(st.next, evs[1..]);
      if evs[0].PointerUp? && s.pointerDown {
        assert !st.next.pointerDown;
      } else {
        assert st == Step(s, Ignored);
      }
    }
  }

  /** During a press, moves only carry the drag's end along; the release then fires from that drag. */
  lemma {:induction false} DragFollowsPointer(u: Session, moves: seq<Event>)
    requires u.pointerDown && !u.moving && AllMoves(moves)
    ensures Run(u, moves + [PointerUp])
      == Run(u.(drag := Line(u.drag.start, LastAt(u.drag.end, moves))), [PointerUp])
    decreases |moves|
  {
    if moves == [] {
      assert moves + [PointerUp] == [PointerUp];
      assert u.drag == Line(u.drag.start, u.drag.end);
    } else {
      var st := Handle(u, moves[0]);
      assert (moves + [PointerUp])[0] == moves[0];
      assert (moves + [PointerUp])[1..] == moves[1..] + [PointerUp];
      assert AllMoves(moves[1..]);
      DragFollowsPointer(st.next, moves[1..]);
      if moves[1..] == [] {
        assert LastAt(u.drag.end, moves) == moves[0].at;
      } else {
        assert LastAt(st.next.drag.end, moves[1..]) == LastAt(u.drag.end, moves);
      }
    }
  }

  /**
   * A complete gesture from rest, press at p, any moves, release, fires exactly
   * one shot along the current hit line, with speed the drag length from p to
   * the last pointer position times the scale, and leaves the table moving.
   */
  lemma ShotFromDrag(s: Session, p: Point, moves: seq<Event>)
    requires !s.moving && AllMoves(moves)
    ensures Run(s, [PointerDown(p)] + moves + [PointerUp]).shots
      == [Shot(s.aim, SpeedScale * SpeedScale * LengthSq(Line(p, LastAt(p, moves))))]
    ensures Run(s, [PointerDown(p)] + moves + [PointerUp]).final.moving
    ensures !Run(s, [PointerDown(p)] + moves + [PointerUp]).final.pointerDown
  {
    var evs := [PointerDown(p)] + moves + [PointerUp];
    var u := OnPointerDown(s, p).next;
    assert evs[0] == PointerDown(p);
    assert evs[1..] == moves + [PointerUp];
    DragFollowsPointer(u, moves);
  }

  /** Pressing and releasing without moving fires a shot of zero speed. */
  lemma StillReleaseHasZeroSpeed(s: Session, p: Point)
    requires !s.moving
    ensures Run(s, [PointerDown(p), PointerUp]).shots == [Shot(s.aim, 0.0)]
  {
    ShotFromDrag(s, p, []);
    assert [PointerDown(p)] + [] + [PointerUp] == [PointerDown(p), PointerUp];
    DegenerateLengthZero(Line(p, p));
  }

  /** From scene start, pulling back 40 units from the cue spot fires at speed 4 = 40 * 0.1 along angle 0. */
  lemma PullBackForty()
    ensures Run(Start, [PointerDown(Point(240.0, 190.0)), PointerMove(Point(200.0, 190.0), 0.0), PointerUp]).shots
      == [Shot(0.0, 4.0 * 4.0)]
  {
  }

  /** A tick in which every speed is at most the threshold, exactly 0.1 included, re-enables pressing. */
  lemma SettledTickReenablesInput(s: Session, speeds: seq<real>, p: Point)
    requires forall i :: 0 <= i < |speeds| ==> speeds[i] <= MotionThreshold
    ensures !Handle(s, Tick(speeds)).next.moving
    ensures Handle(Handle(s, Tick(speeds)).next, PointerDown(p)).reaction == Pressed
  {
  }
}
