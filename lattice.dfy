/** The wall: a 20 x 40 lattice of anchored balls stored row-major at index
    row * 40 + col, and the arithmetic of its neighbourhood pass. The pass
    visits every centre cell (y, x) with y in [2, 17] and x in [2, 37] and,
    for every offset (j, i) in [-2, 2]^2, adds the position of the ball at
    (y + j, x + i) to that same ball's `diff`. A ball is therefore hit once
    for every centre whose 5 x 5 window contains it; `Hits` counts these. */
module Lattice {
  import opened Vectors
  import opened Particles

  const Rows: int := 20
  const Cols: int := 40
  const Size: int := Rows * Cols
  /** Half-width of the window, and width of the border of non-centre cells. */
  const Margin: int := 2
  const BallRadius: real := 5.0

  function Row(k: int): int {
    k / Cols
  }

  function Col(k: int): int {
    k % Cols
  }

  /** Row-major indexing is a bijection between the grid and [0, Size). */
  lemma IndexRoundTrip(r: int, c: int)
    requires 0 <= r < Rows && 0 <= c < Cols
    ensures 0 <= r * Cols + c < Size
    ensures Row(r * Cols + c) == r && Col(r * Cols + c) == c
  {
  }

  lemma IndexOfCell(k: int)
    requires 0 <= k < Size
    ensures 0 <= Row(k) < Rows && 0 <= Col(k) < Cols
    ensures k == Row(k) * Cols + Col(k)
  {
  }

  /** Where the ball at index k rests: ((col - 20) 10, (row - 20) 10, 0). */
  function Anchor(k: int): V3 {
    V3((Col(k) - 20) as real * BallRadius * 2.0, (Row(k) - 20) as real * BallRadius * 2.0, 0.0)
  }

  /** The ball NewSimulation places at index k, created at time `now`. */
  function InitialBall(k: int, now: int): PState {
    Created(Anchor(k), now).(radius := BallRadius)
  }

  function InitialLattice(now: int): (r: seq<PState>)
    ensures |r| == Size
  {
    seq(Size, k => InitialBall(k, now))
  }

  /** The layout: the ball at row r, column c rests at
      ((c - 20) 10, (r - 20) 10, 0) with radius 5, at rest and unflagged,
      and no two balls share an anchor. */
  lemma InitialLayout(r: int, c: int, now: int)
    requires 0 <= r < Rows && 0 <= c < Cols
    ensures var b := InitialLattice(now)[r * Cols + c];
            b.anchor == b.pos == V3((c - 20) as real * 10.0, (r - 20) as real * 10.0, 0.0)
            && b.radius == 5.0 && b.velocity == Zero && b.diff == Zero && !b.deleteFlag
  {
    IndexRoundTrip(r, c);
  }

  lemma AnchorsDistinct(k1: int, k2: int)
    requires 0 <= k1 < Size && 0 <= k2 < Size && k1 != k2
    ensures Anchor(k1) != Anchor(k2)
  {
    IndexOfCell(k1);
    IndexOfCell(k2);
  }

  /** Every cell a window around a centre touches is on the grid, and its
      index is below Size: the two bounds checks of the pass always pass. */
  lemma WindowInBounds(y: int, x: int, j: int, i: int)
    requires Margin <= y < Rows - Margin && Margin <= x < Cols - Margin
    requires -Margin <= j <= Margin && -Margin <= i <= Margin
    ensures 0 <= y + j < Rows && 0 <= x + i < Cols
    ensures 0 <= (y + j) * Cols + (x + i) < Size
  {
  }

  /** `a` lies in the window of a centre at `centre` (along one axis). */
  predicate Within(a: int, centre: int) {
    -Margin <= a - centre <= Margin
  }

  /** How many centres n in [lo, hi) have `a` within their window. */
  function Near(a: int, lo: int, hi: int): nat
    decreases hi - lo
  {
    if hi <= lo then 0 else Near(a, lo, hi - 1) + (if Within(a, hi - 1) then 1 else 0)
  }

  function Max(a: int, b: int): int {
    if a < b then b else a
  }

  function Min(a: int, b: int): int {
    if a < b then a else b
  }

  /** The count of centres is the length of the overlap of [lo, hi) with
      [a - 2, a + 2]. */
  lemma {:induction false} NearClosedForm(a: int, lo: int, hi: int)
    ensures Near(a, lo, hi) == Max(0, Min(hi, a + Margin + 1) - Max(lo, a - Margin))
    decreases hi - lo
  {
    if hi > lo {
      NearClosedForm(a, lo, hi - 1);
    }
  }

  /** How many times the pass adds a ball's own position to its `diff`. */
  function Hits(k: int): nat {
    Near(Row(k), Margin, Rows - Margin) * Near(Col(k), Margin, Cols - Margin)
  }

  /** Along one axis of length `len`, a coordinate 2 or more cells from both
      ends of the centre range is hit by all 5 centres; the first and last
      coordinates by exactly one; every coordinate by at least one. */
  lemma AxisHits(a: int, len: int)
    requires 2 * Margin + 1 <= len && 0 <= a < len
    ensures 1 <= Near(a, Margin, len - Margin) <= 5
    ensures Near(a, Margin, len - Margin) == 5 <==> 2 * Margin <= a < len - 2 * Margin
    ensures (a == 0 || a == len - 1) ==> Near(a, Margin, len - Margin) == 1
  {
    NearClosedForm(a, Margin, len - Margin);
  }

  /** The window count of every cell: 25 exactly in the interior rows 4..15
      and columns 4..35, 1 at each corner, and never zero, so the outer
      border is not spared. */
  lemma HitsValues(k: int)
    requires 0 <= k < Size
    ensures 1 <= Hits(k) <= 25
    ensures Hits(k) == 25 <==> 4 <= Row(k) <= 15 && 4 <= Col(k) <= 35
    ensures (Row(k) == 0 || Row(k) == Rows - 1) && (Col(k) == 0 || Col(k) == Cols - 1) ==> Hits(k) == 1
  {
    IndexOfCell(k);
    var nr, nc := Near(Row(k), Margin, Rows - Margin), Near(Col(k), Margin, Cols - Margin);
    AxisHits(Row(k), Rows);
    AxisHits(Col(k), Cols);
    assert nr * nc <= 5 * nc <= 25;
  }

  /** A ball after the pass has added its own position to `diff` n times. */
  function Accumulated(s: PState, n: nat): PState {
    s.(diff := s.diff.Plus(s.pos.Scaled(n as real)))
  }

  /** One more hit. */
  lemma AccumulatedStep(s: PState, n: nat)
    ensures Surrounded(Accumulated(s, n), Accumulated(s, n).pos) == Accumulated(s, n + 1)
  {
  }

  /** The whole lattice after UpdateWallBalls: the pass, then Gravity,
      ModuleGravity and Move on every ball. */
  function Updated(balls: seq<PState>): (r: seq<PState>)
    requires |balls| == Size
    ensures |r| == Size
  {
    seq(Size, k requires 0 <= k < Size => Relaxed(Accumulated(balls[k], Hits(k))))
  }

  /** After an update every ball's `diff` is back to zero and its anchor,
      radius, timestamp and flag are kept. */
  lemma UpdatedKeepsIdentity(balls: seq<PState>, k: int)
    requires |balls| == Size && 0 <= k < Size
    ensures Updated(balls)[k].diff == Zero
    ensures Updated(balls)[k].anchor == balls[k].anchor
    ensures Updated(balls)[k].radius == balls[k].radius
    ensures Updated(balls)[k].t == balls[k].t
  {
    RelaxedKeepsIdentity(Accumulated(balls[k], Hits(k)));
  }

  /** Because each ball accumulates its own absolute position, a ball lying
      still on its anchor on the floor plane is pushed away from the origin:
      after being hit n times and relaxed it moves with velocity (n / 24) anchor
      and sits at anchor plus that velocity.
      A lattice with no forces at all therefore does not stay at rest. */
  lemma RestingBallDrifts(b: PState, n: nat)
    requires b.pos == b.anchor && b.pos.z == 0.0 && b.velocity == Zero && b.diff == Zero
    ensures Relaxed(Accumulated(b, n)).velocity == b.anchor.Scaled(n as real).Scaled(1.0 / 24.0)
    ensures Relaxed(Accumulated(b, n)).pos == b.anchor.Plus(Relaxed(Accumulated(b, n)).velocity)
  {
    AccumulatedAtRest(b, n);
    RelaxAtAnchor(b.(diff := b.anchor.Scaled(n as real)));
  }

  /** A ball on its anchor with an empty accumulator gathers n copies of
      the anchor. */
  lemma AccumulatedAtRest(b: PState, n: nat)
    requires b.pos == b.anchor && b.diff == Zero
    ensures Accumulated(b, n) == b.(diff := b.anchor.Scaled(n as real))
  {
    ZeroPlus(b.anchor.Scaled(n as real));
  }

  /** Relaxing a still ball on its anchor, on or above the floor, moves it
      by exactly its `diff` divided by 24. */
  lemma RelaxAtAnchor(a: PState)
    requires a.pos == a.anchor && a.pos.z >= 0.0 && a.velocity == Zero
    ensures Relaxed(a).velocity == a.diff.Scaled(1.0 / 24.0)
    ensures Relaxed(a).pos == a.anchor.Plus(a.diff.Scaled(1.0 / 24.0))
  {
    GravityPulls(a);
    ModuleGravityThenMove(a);
  }

  // The counts the pass has reached part-way through its four loops. The
  // centre rows [2, y) are done; in row y the centres [2, x) are done; in
  // the window of (y, x) the rows below y + j are done; in row y + j the
  // columns below x + i are done.

  function CountRows(k: int, y: int): nat {
    Near(Row(k), Margin, y) * Near(Col(k), Margin, Cols - Margin)
  }

  function CountCols(k: int, y: int, x: int): nat {
    CountRows(k, y) + (if Within(Row(k), y) then Near(Col(k), Margin, x) else 0)
  }

  function CountWindow(k: int, y: int, x: int, j: int): nat {
    CountCols(k, y, x) + (if Within(Col(k), x) && -Margin <= Row(k) - y < j then 1 else 0)
  }

  function CountCell(k: int, y: int, x: int, j: int, i: int): nat {
    CountWindow(k, y, x, j) + (if Row(k) == y + j && -Margin <= Col(k) - x < i then 1 else 0)
  }

  lemma CountStart(k: int)
    ensures CountRows(k, Margin) == 0
  {
  }

  lemma CountEnd(k: int)
    ensures CountRows(k, Rows - Margin) == Hits(k)
  {
  }

  lemma CountRowDone(k: int, y: int)
    requires y >= Margin
    ensures CountCols(k, y, Margin) == CountRows(k, y)
    ensures CountCols(k, y, Cols - Margin) == CountRows(k, y + 1)
  {
    var nc := Near(Col(k), Margin, Cols - Margin);
    assert Near(Row(k), Margin, y + 1) == Near(Row(k), Margin, y) + (if Within(Row(k), y) then 1 else 0);
    assert (Near(Row(k), Margin, y) + 1) * nc == Near(Row(k), Margin, y) * nc + nc;
  }

  lemma CountCentreDone(k: int, y: int, x: int)
    requires x >= Margin
    ensures CountWindow(k, y, x, -Margin) == CountCols(k, y, x)
    ensures CountWindow(k, y, x, Margin + 1) == CountCols(k, y, x + 1)
  {
    assert Near(Col(k), Margin, x + 1) == Near(Col(k), Margin, x) + (if Within(Col(k), x) then 1 else 0);
  }

  lemma CountWindowRowDone(k: int, y: int, x: int, j: int)
    requires -Margin <= j
    ensures CountCell(k, y, x, j, -Margin) == CountWindow(k, y, x, j)
    ensures CountCell(k, y, x, j, Margin + 1) == CountWindow(k, y, x, j + 1)
  {
  }

  /** Visiting cell (y + j, x + i) adds one to its own count and to no
      other cell's. */
  lemma CountCellStep(k: int, y: int, x: int, j: int, i: int)
    requires 0 <= k < Size && 0 <= y + j < Rows && 0 <= x + i < Cols && -Margin <= i
    ensures CountCell(k, y, x, j, i + 1)
         == CountCell(k, y, x, j, i) + (if k == (y + j) * Cols + (x + i) then 1 else 0)
  {
    IndexOfCell(k);
    IndexRoundTrip(y + j, x + i);
  }
}
