/**
 * The opening rack: fifteen numbered object balls laid out row by row in a
 * triangle whose apex points at the cue ball, each tinted by its number.
 */
module Rack {

  /** Radius shared by every ball on the table. */
  const Radius: int := 9

  /** Rows of the triangle; row i holds i + 1 balls. */
  const Rows: nat := 5

  /** Number of object balls in a full rack. */
  const BallCount: nat := 15

  /** Centre of the apex ball. */
  const ApexX: int := 450
  const ApexY: int := 190

  /** The three tints, as 24-bit RGB colours. */
  const Dark: int := 0x202033
  const Blue: int := 0x249fde
  const Yellow: int := 0xffd541

  datatype RackBall = RackBall(number: nat, x: int, y: int, tint: int)

  /** Tint of the ball with running number n: ball 5 is dark, other even numbers blue, odd yellow. */
  function Tint(n: nat): (c: int)
    ensures c == Dark <==> n == 5
    ensures c == Blue <==> n % 2 == 0
    ensures c == Yellow <==> n % 2 == 1 && n != 5
  {
    if n == 5 then Dark else if n % 2 == 0 then Blue else Yellow
  }

  /** Number of balls in the first i rows. */
  function Tri(i: nat): (n: nat)
  {
    if i == 0 then 0 else Tri(i - 1) + i
  }

  /** Multiples of the radius and of the diameter, as linear terms. */
  lemma ScaleByRadius(i: int)
    ensures i * Radius == 9 * i
    ensures i * Radius * 2 == 18 * i
  {
  }

  /** Reference placement: the ball in row i, position j of that row. */
  function BallAt(i: nat, j: nat): (b: RackBall)
  {
    var n := Tri(i) + j + 1;
    RackBall(n, ApexX + i * Radius * 2, ApexY - i * Radius + j * Radius * 2, Tint(n))
  }

  /** The balls of row i, from top (smallest y) to bottom. */
  function RowBalls(i: nat): (r: seq<RackBall>)
    ensures |r| == i + 1
  {
    seq(i + 1, j requires 0 <= j <= i => BallAt(i, j))
  }

  /** The first `rows` rows of the rack, in the order they are laid down. */
  function Layout(rows: nat): (r: seq<RackBall>)
    ensures |r| == Tri(rows)
    ensures forall k :: 0 <= k < |r| ==> r[k].number == k + 1
  {
    if rows == 0 then [] else Layout(rows - 1) + RowBalls(rows - 1)
  }

  /** The rack-building loop: rows left to right, balls top to bottom within a row. */
  method BuildRack() returns (rack: seq<RackBall>)
    ensures rack == Layout(Rows)
    ensures |rack| == BallCount
    ensures forall k :: 0 <= k < |rack| ==> rack[k].number == k + 1 && rack[k].tint == Tint(k + 1)
  {
    rack := [];
    var n := 1;
    for i := 0 to Rows
      invariant rack == Layout(i)
      invariant n == Tri(i) + 1
    {
      rack, n := LayRow(rack, i, n);
    }
    assert Tri(Rows) == 15;
    forall k | 0 <= k < |rack|
      ensures rack[k].tint == Tint(k + 1)
    {
      RackTint(Rows, k);
    }
  }

  /** The inner loop for row i: its x is fixed, y starts at the top and steps down one diameter per ball. */
  method LayRow(rack: seq<RackBall>, i: nat, n0: nat) returns (rack': seq<RackBall>, n: nat)
    requires n0 == Tri(i) + 1
    ensures rack' == rack + RowBalls(i)
    ensures n == Tri(i + 1) + 1
  {
    ScaleByRadius(i);
    var x := ApexX + i * Radius * 2;
    var y := ApexY - i * Radius;
    rack', n := rack, n0;
    for j := 0 to i + 1
      invariant rack' == rack + RowBalls(i)[..j]
      invariant n == Tri(i) + j + 1
      invariant y == ApexY - 9 * i + 18 * j
    {
      ScaleByRadius(j);
      assert RowBalls(i)[..j + 1] == RowBalls(i)[..j] + [BallAt(i, j)];
      rack' := rack' + [RackBall(n, x, y, Tint(n))];
      y := y + Radius * 2;
      n := n + 1;
    }
    assert RowBalls(i)[..i + 1] == RowBalls(i);
  }

  /** Ball j of row i lands at index Tri(i) + j of the layout and has the reference placement. */
  lemma {:induction false} LayoutCell(rows: nat, i: nat, j: nat)
    requires j <= i < rows
    ensures Tri(i) + j < |Layout(rows)|
    ensures Layout(rows)[Tri(i) + j] == BallAt(i, j)
    decreases rows
  {
    if i < rows - 1 {
      LayoutCell(rows - 1, i, j);
    } else {
      assert Layout(rows) == Layout(rows - 1) + RowBalls(rows - 1);
    }
  }

  /** Every ball of the built rack sits at x = 450 + 18 i, y = 190 - 9 i + 18 j for its row i and slot j. */
  lemma RackPlacement(i: nat, j: nat)
    requires j <= i < Rows
    ensures Tri(i) + j < BallCount
    ensures Layout(Rows)[Tri(i) + j].number == Tri(i) + j + 1
    ensures Layout(Rows)[Tri(i) + j].x == 450 + 18 * i
    ensures Layout(Rows)[Tri(i) + j].y == 190 - 9 * i + 18 * j
  {
    LayoutCell(Rows, i, j);
  }

  /** Exactly one ball of the rack is dark: ball 5, the middle of row 2, on the line y = 190. */
  lemma DarkBallIsFive()
    ensures forall k :: 0 <= k < |Layout(Rows)| ==> (Layout(Rows)[k].tint == Dark <==> k == 4)
    ensures Layout(Rows)[4] == RackBall(5, 486, 190, Dark)
  {
    LayoutCell(Rows, 2, 1);
    forall k | 0 <= k < |Layout(Rows)|
      ensures Layout(Rows)[k].tint == Tint(k + 1)
    {
      RackTint(Rows, k);
    }
  }

  /** The tint of every laid ball is the tint of its number. */
  lemma {:induction false} RackTint(rows: nat, k: nat)
    requires k < |Layout(rows)|
    ensures Layout(rows)[k].tint == Tint(k + 1)
    decreases rows
  {
    var prefix := Layout(rows - 1);
    if k < |prefix| {
      RackTint(rows - 1, k);
    } else {
      var j := k - |prefix|;
      assert Layout(rows)[k] == RowBalls(rows - 1)[j] == BallAt(rows - 1, j);
    }
  }

  /** Squared distance between two ball centres. */
  function CentreDistSq(a: RackBall, b: RackBall): (d: int)
  {
    (b.x - a.x) * (b.x - a.x) + (b.y - a.y) * (b.y - a.y)
  }

  /** No two rack balls overlap: distinct cells are at least one diameter apart. */
  lemma RackBallsDoNotOverlap(i1: nat, j1: nat, i2: nat, j2: nat)
    requires j1 <= i1 < Rows && j2 <= i2 < Rows
    requires i1 != i2 || j1 != j2
    ensures CentreDistSq(BallAt(i1, j1), BallAt(i2, j2)) >= (2 * Radius) * (2 * Radius)
  {
    var p, q := BallAt(i1, j1), BallAt(i2, j2);
    var a, b := i2 - i1, j2 - j1;
    ScaleByRadius(i1);
    ScaleByRadius(i2);
    ScaleByRadius(j1);
    ScaleByRadius(j2);
    assert q.x - p.x == 18 * a;
    assert q.y - p.y == 18 * b - 9 * a;
    CellOffsetsApart(a, b);
  }

  /** Cell offsets (a, b) != (0, 0) move a centre by at least one diameter, 18. */
  lemma CellOffsetsApart(a: int, b: int)
    requires a != 0 || b != 0
    ensures (18 * a) * (18 * a) + (18 * b - 9 * a) * (18 * b - 9 * a) >= 324
  {
    var dx, dy := 18 * a, 18 * b - 9 * a;
    SquareAtLeastOne(a);
    SquareAtLeastOne(b);
    if a != 0 {
      assert dx * dx == 324 * (a * a);
      assert dy * dy >= 0;
    } else {
      assert dy * dy == 324 * (b * b);
    }
  }

  /** A non-zero integer's square is at least 1. */
  lemma SquareAtLeastOne(t: int)
    ensures t != 0 ==> t * t >= 1
    ensures t * t >= 0
  {
    if t < 0 {
      assert t * t == (-t) * (-t);
    }
  }
}
