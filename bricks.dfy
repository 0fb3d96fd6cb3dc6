/**
 * The brick field: the 4 x 10 grid createBricks lays out, the active flag
 * each brick's body carries, and the operations on that flag (disable one
 * brick, count the active ones, re-enable them all).
 */
module BrickField {

  const Rows: int := 4
  const Cols: int := 10
  const Padding: int := 10
  const OffsetX: int := 60
  const OffsetY: int := 100
  /** The size of the brick texture. */
  const BrickWidth: int := 64
  const BrickHeight: int := 32
  /** The size of the game world. */
  const WorldWidth: int := 800
  const WorldHeight: int := 600

  /** A brick's top-left corner (its origin is set to 0) and whether its body is enabled. */
  datatype Brick = Brick(x: int, y: int, active: bool)

  /** The left edge of the bricks in column `c`. */
  function ColumnX(c: int): int {
    c * (BrickWidth + Padding) + OffsetX
  }

  /** The top edge of the bricks in row `r`. */
  function RowY(r: int): int {
    r * (BrickHeight + Padding) + OffsetY
  }

  /** Rows * Cols bricks, the one at index i in row i / Cols and column i % Cols. */
  ghost predicate OnGrid(s: seq<Brick>) {
    && |s| == Rows * Cols
    && forall i :: 0 <= i < |s| ==> s[i].x == ColumnX(i % Cols) && s[i].y == RowY(i / Cols)
  }

  ghost predicate AllActive(s: seq<Brick>) {
    forall i :: 0 <= i < |s| ==> s[i].active
  }

  /** The two bricks' 64 x 32 rectangles share some area. */
  predicate Overlap(a: Brick, b: Brick) {
    && a.x < b.x + BrickWidth && b.x < a.x + BrickWidth
    && a.y < b.y + BrickHeight && b.y < a.y + BrickHeight
  }

  /**
   * createBricks: row by row, column by column, one active brick per grid
   * cell, appended to the group in that order.
   */
  method CreateBricks() returns (bricks: seq<Brick>)
    ensures |bricks| == Rows * Cols == 40
    ensures forall i :: 0 <= i < |bricks| ==> bricks[i] == Brick(ColumnX(i % Cols), RowY(i / Cols), true)
  {
    bricks := [];
    for r := 0 to Rows
      invariant |bricks| == r * Cols
      invariant forall i :: 0 <= i < |bricks| ==> bricks[i] == Brick(ColumnX(i % Cols), RowY(i / Cols), true)
    {
      for c := 0 to Cols
        invariant |bricks| == r * Cols + c
        invariant forall i :: 0 <= i < |bricks| ==> bricks[i] == Brick(ColumnX(i % Cols), RowY(i / Cols), true)
      {
        var x := (c * (BrickWidth + Padding)) + OffsetX;
        var y := (r * (BrickHeight + Padding)) + OffsetY;
        bricks := bricks + [Brick(x, y, true)];
      }
    }
  }

  /** The grid has exactly one brick for each (row, column): the one at index row * Cols + column. */
  lemma GridCell(s: seq<Brick>, r: int, c: int)
    requires OnGrid(s) && 0 <= r < Rows && 0 <= c < Cols
    ensures 0 <= r * Cols + c < |s|
    ensures s[r * Cols + c].x == 60 + 74 * c && s[r * Cols + c].y == 100 + 42 * r
  {
  }

  /** No two bricks of the grid share a position or overlap: 74 > 64 across, 42 > 32 down. */
  lemma NoTwoBricksOverlap(s: seq<Brick>, i: int, j: int)
    requires OnGrid(s) && 0 <= i < |s| && 0 <= j < |s| && i != j
    ensures (s[i].x, s[i].y) != (s[j].x, s[j].y)
    ensures !Overlap(s[i], s[j])
  {
  }

  /** Every brick of the grid lies wholly inside the 800 x 600 world, above its middle. */
  lemma GridInsideWorld(s: seq<Brick>, i: int)
    requires OnGrid(s) && 0 <= i < |s|
    ensures 0 <= s[i].x && s[i].x + BrickWidth <= WorldWidth
    ensures 0 <= s[i].y && s[i].y + BrickHeight <= WorldHeight / 2
  {
  }

  /** The number of bricks whose body is enabled (Phaser's countActive). */
  function CountActive(s: seq<Brick>): (n: nat)
    ensures n <= |s|
  {
    if s == [] then 0 else (if s[0].active then 1 else 0) + CountActive(s[1..])
  }

  /** No brick is active exactly when the count is zero. */
  lemma {:induction false} CountActiveZero(s: seq<Brick>)
    ensures CountActive(s) == 0 <==> forall i :: 0 <= i < |s| ==> !s[i].active
  {
    if s != [] {
      CountActiveZero(s[1..]);
      assert forall i :: 1 <= i < |s| ==> s[i] == s[1..][i - 1];
    }
  }

  /** When every brick is active the count is the size of the field. */
  lemma {:induction false} CountAllActive(s: seq<Brick>)
    requires AllActive(s)
    ensures CountActive(s) == |s|
  {
    if s != [] {
      assert AllActive(s[1..]) by {
        forall i | 0 <= i < |s[1..]| ensures s[1..][i].active {
          assert s[1..][i] == s[i + 1];
        }
      }
      CountAllActive(s[1..]);
    }
  }

  /** disableBody on brick i: that brick's body off, every other brick as it was. */
  function Deactivate(s: seq<Brick>, i: int): (r: seq<Brick>)
    requires 0 <= i < |s|
    ensures |r| == |s|
    ensures !r[i].active && r[i].x == s[i].x && r[i].y == s[i].y
    ensures forall j :: 0 <= j < |s| && j != i ==> r[j] == s[j]
  {
    s[i := s[i].(active := false)]
  }

  /** Disabling a brick lowers the count by one if it was active, and leaves it alone if not. */
  lemma {:induction false} CountAfterDeactivate(s: seq<Brick>, i: int)
    requires 0 <= i < |s|
    ensures CountActive(Deactivate(s, i)) == CountActive(s) - (if s[i].active then 1 else 0)
  {
    var t := Deactivate(s, i);
    if i == 0 {
      assert t[1..] == s[1..];
    } else {
      assert t[1..] == Deactivate(s[1..], i - 1);
      CountAfterDeactivate(s[1..], i - 1);
    }
  }

  /** enableBody on every brick, each at its own position. */
  function Reactivate(s: seq<Brick>): (r: seq<Brick>)
    ensures |r| == |s|
    ensures forall j :: 0 <= j < |s| ==> r[j].active && r[j].x == s[j].x && r[j].y == s[j].y
  {
    seq(|s|, i requires 0 <= i < |s| => s[i].(active := true))
  }

  /** Re-enabling keeps the layout, and afterwards all Rows * Cols bricks are active. */
  lemma ReactivateRestoresField(s: seq<Brick>)
    requires OnGrid(s)
    ensures OnGrid(Reactivate(s)) && AllActive(Reactivate(s))
    ensures CountActive(Reactivate(s)) == Rows * Cols
  {
    CountAllActive(Reactivate(s));
  }
}
