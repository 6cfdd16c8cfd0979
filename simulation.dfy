/** The simulation: an 800-ball wall lattice, a list of short-lived force
    particles, the gesture vectors read from the body tracker and the three
    affine maps that carry sensor points into the scene. Every per-frame
    step is a method proved to leave the particles in exactly the state that
    a pure function of their old states describes. */
module SimulationModel {
  import opened Vectors
  import opened Particles
  import opened Affines
  import opened Lattice
  import opened Forces

  /** What the body tracker reports for one joint: its position and, for a
      hand, the hand-state code. */
  datatype Joint = Joint(pos: V3, state: int)

  /** The joints the simulation reads in one frame. */
  datatype Skeleton = Skeleton(
    spineBase: Joint,
    spineMid: Joint,
    spineShoulder: Joint,
    shoulderRight: Joint,
    handRight: Joint,
    handLeft: Joint)

  /** The tracker's code for an open hand. */
  const HandStateOpen: int := 2

  // ---------------------------------------------------------------------
  // Calibration

  /** The arc-cosine argument: half the spine-base depth, capped at 1 from
      above only. */
  function TiltArg(bz: real): (r: real)
    ensures r <= 1.0 && r <= bz / 2.0
    ensures r == 1.0 || r == bz / 2.0
  {
    var tmp := bz / 2.0;
    if tmp > 1.0 then 1.0 else tmp
  }

  /** The rotation calibration installs. */
  function Tilt(skel: Skeleton, f: RealFns): Affine {
    RotateX(f.acos(TiltArg(skel.spineBase.pos.z)), f)
  }

  /** The translation calibration installs: it cancels the y coordinate of
      the ROTATED spine-mid joint. */
  function Levelling(skel: Skeleton, f: RealFns): Affine {
    Translate(0.0, -Tilt(skel, f).Transform(skel.spineMid.pos).y, 0.0)
  }

  const SceneScale: Affine := Scale(100.0, -100.0, -100.0)

  /** After calibration the whole sensor-to-scene map sends the spine-mid
      joint to height zero, and keeps its x coordinate up to the factor 100. */
  lemma CalibrationLevelsSpineMid(skel: Skeleton, f: RealFns)
    ensures var m := Compose(SceneScale, Compose(Levelling(skel, f), Tilt(skel, f))).Transform(skel.spineMid.pos);
            m.y == 0.0 && m.x == 100.0 * skel.spineMid.pos.x
  {
    var p := skel.spineMid.pos;
    var r := Tilt(skel, f);
    ComposeApplies(Levelling(skel, f), r, p);
    ComposeApplies(SceneScale, Compose(Levelling(skel, f), r), p);
    RotateXIsRigid(f.acos(TiltArg(skel.spineBase.pos.z)), f, p);
    assert Levelling(skel, f).Transform(r.Transform(p)).y == 0.0;
  }

  /** The ball created for grid coordinates (x, y), x in [-20, 20) and
      y in [-20, 0), is the lattice ball of index (y + 20) 40 + (x + 20). */
  lemma InitialBallAt(y: int, x: int, now: int)
    requires -20 <= y < 0 && -20 <= x < 20
    ensures var p := V3(x as real * BallRadius * 2.0, y as real * BallRadius * 2.0, 0.0);
            InitialBall((y + 20) * Cols + (x + 20), now) == Created(p, now).(radius := BallRadius)
  {
    IndexRoundTrip(y + 20, x + 20);
  }

  /** NewSimulation's double loop: rows y in [-20, 0), each filled by
      AppendRow. */
  method NewLattice(now: int) returns (balls: seq<Particle>)
    ensures Distinct(balls) && States(balls) == InitialLattice(now)
    ensures forall k :: 0 <= k < |balls| ==> fresh(balls[k])
  {
    balls := [];
    var y := -20;
    while y < 0
      invariant -20 <= y <= 0
      invariant |balls| == (y + 20) * Cols
      invariant Distinct(balls)
      invariant forall k :: 0 <= k < |balls| ==> fresh(balls[k]) && balls[k].State() == InitialBall(k, now)
    {
      balls := AppendRow(balls, y, now);
      y := y + 1;
    }
  }

  /** One pass of NewSimulation's inner loop: the 40 balls of grid row y,
      x running over [-20, 20), appended after the rows above it. */
  method AppendRow(balls: seq<Particle>, y: int, now: int) returns (r: seq<Particle>)
    requires -20 <= y < 0 && |balls| == (y + 20) * Cols && Distinct(balls)
    ensures |r| == |balls| + Cols && r[..|balls|] == balls && Distinct(r)
    ensures forall k :: |balls| <= k < |r| ==> fresh(r[k]) && r[k].State() == InitialBall(k, now)
  {
    r := balls;
    var x := -20;
    while x < 20
      invariant -20 <= x <= 20
      invariant |r| == |balls| + (x + 20) && r[..|balls|] == balls && Distinct(r)
      invariant forall k :: |balls| <= k < |r| ==> fresh(r[k]) && r[k].State() == InitialBall(k, now)
    {
      var p := new Particle(x as real * BallRadius * 2.0, y as real * BallRadius * 2.0, 0.0, now);
      p.Radius := BallRadius;
      InitialBallAt(y, x, now);
      r := r + [p];
      x := x + 1;
    }
  }

  /** MakeForce's spawning loop: when no component of the velocity is
      zero, 50 fresh particles jittered around the hand, each with radius 1
      and the given velocity; otherwise none. */
  method SpawnBurst(hand: V3, d: real, v: V3, rand: nat -> real, now: int) returns (ps: seq<Particle>)
    ensures Distinct(ps) && forall k :: 0 <= k < |ps| ==> fresh(ps[k])
    ensures States(ps) == Burst(hand, d, v, rand, now)
  {
    ps := [];
    ghost var burst := Burst(hand, d, v, rand, now);
    if v.AllNonZero() {
      var i := 0;
      while i < MakeForceNum
        invariant 0 <= i <= MakeForceNum && |ps| == i && Distinct(ps)
        invariant forall k :: 0 <= k < i ==> fresh(ps[k]) && ps[k].State() == burst[k]
      {
        var d2x := d * (rand(3 * i) - 0.5) * 0.05;
        var d2y := d * (rand(3 * i + 1) - 0.5) * 0.05;
        var d2z := d * (rand(3 * i + 2) - 0.5) * 0.05;
        var p := new Particle(hand.x * d2x, hand.y * d2y, hand.z * d2z, now);
        p.Radius := ForceRadius;
        var temp := new Vec(v.x, v.y, v.z);
        p.AddVelocity(temp);
        ZeroPlus(v);
        assert p.State() == burst[i];
        ps := ps + [p];
        i := i + 1;
      }
    }
  }

  /** The states of a concatenation are the concatenated states. */
  lemma StatesAppend(ps: seq<Particle>, qs: seq<Particle>)
    ensures States(ps + qs) == States(ps) + States(qs)
  {
    assert forall k :: 0 <= k < |ps + qs| ==> States(ps + qs)[k] == (States(ps) + States(qs))[k];
  }

  /** The body of a hit in Collision: the elastic impulse, computed on
      fresh vectors from the two velocities, is added to the ball, and the
      force is flagged for deletion. */
  method Strike(ball: Particle, force: Particle)
    requires ball != force
    modifies ball, force
    ensures ball.State() == Pushed(old(ball.State()), Impulse(old(ball.velocity), old(force.velocity)))
    ensures force.State() == old(force.State()).(deleteFlag := true)
  {
    var v1 := new Vec(ball.velocity.x, ball.velocity.y, ball.velocity.z);
    v1.Mult(M1 - M2);
    var v2 := new Vec(force.velocity.x, force.velocity.y, force.velocity.z);
    v2.Mult(2.0 * M2);
    v1.Add(v2);
    v1.Mult(AMass);
    ball.AddVelocity(v1);
    force.deleteFlag := true;
  }

  /** Whether two sequences of particles share no element. */
  ghost predicate Disjoint(ps: seq<Particle>, qs: seq<Particle>) {
    forall i, j :: 0 <= i < |ps| && 0 <= j < |qs| ==> ps[i] != qs[j]
  }

  /** The second loop of Move: the forces at most 5000 ms old at time
      `now`, in order; `m` names which those are. */
  method KeepYoung(fs: seq<Particle>, now: int, ghost m: seq<bool>) returns (kept: seq<Particle>)
    requires |m| == |fs| && forall j :: 0 <= j < |fs| ==> m[j] == (now - fs[j].t <= ForceLifetime)
    ensures kept == Keep(fs, m)
  {
    kept := [];
    var j := 0;
    while j < |fs|
      invariant 0 <= j <= |fs|
      invariant kept == Keep(fs[..j], m[..j])
    {
      if now - fs[j].t <= ForceLifetime {
        kept := kept + [fs[j]];
      }
      KeepStep(fs, m, j);
      j := j + 1;
    }
    assert fs[..j] == fs && m[..j] == m;
  }

  /** The compaction loop of Collision: the unflagged forces, in order;
      `m` names which those are. */
  method KeepUnflagged(fs: seq<Particle>, ghost m: seq<bool>) returns (kept: seq<Particle>)
    requires |m| == |fs| && forall j :: 0 <= j < |fs| ==> m[j] == !fs[j].deleteFlag
    ensures kept == Keep(fs, m)
  {
    kept := [];
    var j := 0;
    while j < |fs|
      invariant 0 <= j <= |fs|
      invariant kept == Keep(fs[..j], m[..j])
    {
      if !fs[j].deleteFlag {
        kept := kept + [fs[j]];
      }
      KeepStep(fs, m, j);
      j := j + 1;
    }
    assert fs[..j] == fs && m[..j] == m;
  }

  /** Testing one more ball: a force is touched by the first i + 1 balls
      when it was touched by the first i or touches ball i. */
  lemma TouchedByStep(balls: seq<PState>, i: int, f: PState)
    requires 0 <= i < |balls|
    ensures TouchedBy(balls[..i + 1], f) <==> TouchedBy(balls[..i], f) || Touching(balls[i].pos, f.pos)
  {
    if Touching(balls[i].pos, f.pos) {
      assert balls[..i + 1][i] == balls[i];
    }
    if TouchedBy(balls[..i + 1], f) && !Touching(balls[i].pos, f.pos) {
      var k :| 0 <= k < i + 1 && Touching(balls[..i + 1][k].pos, f.pos);
      assert balls[..i][k] == balls[k];
    }
    if TouchedBy(balls[..i], f) {
      var k :| 0 <= k < i && Touching(balls[..i][k].pos, f.pos);
      assert balls[..i + 1][k] == balls[k];
    }
  }

  /** One more step of a filter loop. */
  lemma KeepStep<T>(s: seq<T>, m: seq<bool>, j: int)
    requires |m| == |s| && 0 <= j < |s|
    ensures Keep(s[..j + 1], m[..j + 1]) == Keep(s[..j], m[..j]) + (if m[j] then [s[j]] else [])
  {
    assert s[..j + 1][..j] == s[..j] && m[..j + 1][..j] == m[..j];
  }

  /** Filtering particles and then reading their states is filtering the
      states, when every kept particle is in the listed state. */
  lemma {:induction false} KeepStates(ps: seq<Particle>, ss: seq<PState>, m: seq<bool>)
    requires |ps| == |ss| == |m|
    requires forall j :: 0 <= j < |ps| && m[j] ==> ps[j].State() == ss[j]
    ensures States(Keep(ps, m)) == Keep(ss, m)
  {
    if ps != [] {
      var n := |ps| - 1;
      KeepStates(ps[..n], ss[..n], m[..n]);
      StatesAppend(Keep(ps[..n], m[..n]), if m[n] then [ps[n]] else []);
    }
  }

  /** A filtered force list is still a valid one: no particle twice, none
      on the wall, none flagged, when only unflagged forces are kept. */
  lemma {:induction false} KeptValid(walls: seq<Particle>, fs: seq<Particle>, m: seq<bool>)
    requires |m| == |fs| && Distinct(fs) && Disjoint(walls, fs)
    requires forall j :: 0 <= j < |fs| && m[j] ==> !fs[j].deleteFlag
    ensures Distinct(Keep(fs, m)) && Disjoint(walls, Keep(fs, m))
    ensures forall j :: 0 <= j < |Keep(fs, m)| ==> !Keep(fs, m)[j].deleteFlag
  {
    if fs != [] {
      var n := |fs| - 1;
      KeptValid(walls, fs[..n], m[..n]);
      if m[n] {
        KeepMembers(fs[..n], m[..n], fs[n]);
      }
    }
  }

  /** Appending particles that are new to both the wall and the force list
      keeps every particle listed once. */
  lemma Joined(walls: seq<Particle>, fs: seq<Particle>, extra: seq<Particle>)
    requires Distinct(fs) && Distinct(extra) && Disjoint(walls, fs)
    requires Disjoint(walls, extra) && Disjoint(fs, extra)
    ensures Distinct(fs + extra) && Disjoint(walls, fs + extra)
  {
  }

  // ---------------------------------------------------------------------
  // The neighbourhood pass of UpdateWallBalls, one loop per method. Each
  // states the lattice after its loop as the ball states `b0` the pass
  // started from, each with its own position added to `diff` as many times
  // as the pass has visited it so far.

  /** The innermost loop: the cells (y + j, x - 2) .. (y + j, x + 2). Both
      bounds checks of the source are kept; inside the centre range they
      always pass (Lattice.WindowInBounds). */
  method PassWindowRow(balls: seq<Particle>, y: int, x: int, j: int, ghost b0: seq<PState>)
    requires |balls| == Size == |b0| && Distinct(balls)
    requires Margin <= y < Rows - Margin && Margin <= x < Cols - Margin && -Margin <= j <= Margin
    requires forall k :: 0 <= k < Size ==> balls[k].State() == Accumulated(b0[k], CountWindow(k, y, x, j))
    modifies balls
    ensures forall k :: 0 <= k < Size ==> balls[k].State() == Accumulated(b0[k], CountWindow(k, y, x, j + 1))
  {
    forall k | 0 <= k < Size {
      CountWindowRowDone(k, y, x, j);
    }
    var i := -Margin;
    while i <= Margin
      invariant -Margin <= i <= Margin + 1
      invariant forall k :: 0 <= k < Size ==> balls[k].State() == Accumulated(b0[k], CountCell(k, y, x, j, i))
    {
      var row := y + j;
      var col := x + i;
      if row >= 0 && row < Rows && col >= 0 && col < Cols {
        var a := row * Cols + col;
        if a >= 0 && a < |balls| {
          var target := balls[a];
          ghost var n := CountCell(a, y, x, j, i);
          var pos := new Vec(target.X, target.Y, target.Z);
          target.SetAroundModule(pos);
          AccumulatedStep(b0[a], n);
          forall k | 0 <= k < Size {
            CountCellStep(k, y, x, j, i);
          }
        }
      }
      i := i + 1;
    }
  }

  /** The window of one centre (y, x): its five rows in turn. */
  method PassCentre(balls: seq<Particle>, y: int, x: int, ghost b0: seq<PState>)
    requires |balls| == Size == |b0| && Distinct(balls)
    requires Margin <= y < Rows - Margin && Margin <= x < Cols - Margin
    requires forall k :: 0 <= k < Size ==> balls[k].State() == Accumulated(b0[k], CountCols(k, y, x))
    modifies balls
    ensures forall k :: 0 <= k < Size ==> balls[k].State() == Accumulated(b0[k], CountCols(k, y, x + 1))
  {
    forall k | 0 <= k < Size {
      CountCentreDone(k, y, x);
    }
    var j := -Margin;
    while j <= Margin
      invariant -Margin <= j <= Margin + 1
      invariant forall k :: 0 <= k < Size ==> balls[k].State() == Accumulated(b0[k], CountWindow(k, y, x, j))
    {
      PassWindowRow(balls, y, x, j, b0);
      j := j + 1;
    }
  }

  /** One row of centres: (y, 2) .. (y, 37). */
  method PassRow(balls: seq<Particle>, y: int, ghost b0: seq<PState>)
    requires |balls| == Size == |b0| && Distinct(balls)
    requires Margin <= y < Rows - Margin
    requires forall k :: 0 <= k < Size ==> balls[k].State() == Accumulated(b0[k], CountRows(k, y))
    modifies balls
    ensures forall k :: 0 <= k < Size ==> balls[k].State() == Accumulated(b0[k], CountRows(k, y + 1))
  {
    forall k | 0 <= k < Size {
      CountRowDone(k, y);
    }
    var x := Margin;
    while x < Cols - Margin
      invariant Margin <= x <= Cols - Margin
      invariant forall k :: 0 <= k < Size ==> balls[k].State() == Accumulated(b0[k], CountCols(k, y, x))
    {
      PassCentre(balls, y, x, b0);
      x := x + 1;
    }
  }

  /** The whole neighbourhood pass: every ball ends up with its own
      position added to `diff` Hits(k) times. */
  method Pass(balls: seq<Particle>)
    requires |balls| == Size && Distinct(balls)
    modifies balls
    ensures forall k :: 0 <= k < Size ==> balls[k].State() == Accumulated(old(balls[k].State()), Hits(k))
  {
    ghost var b0 := States(balls);
    forall k | 0 <= k < Size {
      CountStart(k);
    }
    var y := Margin;
    while y < Rows - Margin
      invariant Margin <= y <= Rows - Margin
      invariant forall k :: 0 <= k < Size ==> balls[k].State() == Accumulated(b0[k], CountRows(k, y))
    {
      PassRow(balls, y, b0);
      y := y + 1;
    }
    forall k | 0 <= k < Size {
      CountEnd(k);
    }
  }

  /** One ball of the last loop of UpdateWallBalls. */
  method Relax(wb: Particle)
    modifies wb
    ensures wb.State() == Relaxed(old(wb.State()))
  {
    wb.Gravity();
    wb.ModuleGravity();
    wb.Move();
  }

  /** The last loop of UpdateWallBalls: Gravity, ModuleGravity and Move on
      every ball. */
  method RelaxAll(balls: seq<Particle>)
    requires Distinct(balls)
    modifies balls
    ensures forall k :: 0 <= k < |balls| ==> balls[k].State() == Relaxed(old(balls[k].State()))
  {
    ghost var b0 := States(balls);
    var k := 0;
    while k < |balls|
      invariant 0 <= k <= |balls|
      invariant forall m :: 0 <= m < |balls| ==> balls[m].State() == if m < k then Relaxed(b0[m]) else b0[m]
    {
      var wb := balls[k];
      Relax(wb);
      k := k + 1;
    }
  }

  class Simulation {
    var wallBalls: seq<Particle>
    var forces: seq<Particle>

    var rightVec: Vec
    var right: Vec
    var left: Vec
    var spineS: Vec
    var base: Vec
    var shoulderR: Vec

    var rotate: Affine
    var translate: Affine
    var scale: Affine

    /** Between steps: a full lattice, no particle listed twice, no particle
        both a wall ball and a force, and no force still flagged for
        removal. */
    ghost predicate Valid()
      reads this, forces
    {
      Layout() && forall j :: 0 <= j < |forces| ==> !forces[j].deleteFlag
    }

    /** The part of Valid that also holds in the middle of Collision. */
    ghost predicate Layout()
      reads this
    {
      |wallBalls| == Size && Distinct(wallBalls) && Distinct(forces) && Disjoint(wallBalls, forces)
    }

    /** NewSimulation: the lattice filled row by row, row y in [-20, 0) and
        column x in [-20, 20), every ball created at time `now`. */
    constructor (now: int)
      ensures Valid()
      ensures States(wallBalls) == InitialLattice(now) && forces == []
      ensures rotate == Identity() && translate == Identity() && scale == Identity()
      ensures rightVec.Value() == Zero && right.Value() == Zero && left.Value() == Zero
      ensures spineS.Value() == Zero && base.Value() == Zero && shoulderR.Value() == Zero
      ensures fresh(rightVec) && fresh(right) && fresh(left) && fresh(spineS) && fresh(base) && fresh(shoulderR)
      ensures forall k :: 0 <= k < |wallBalls| ==> fresh(wallBalls[k])
    {
      rightVec := new Vec(0.0, 0.0, 0.0);
      right := new Vec(0.0, 0.0, 0.0);
      left := new Vec(0.0, 0.0, 0.0);
      spineS := new Vec(0.0, 0.0, 0.0);
      base := new Vec(0.0, 0.0, 0.0);
      shoulderR := new Vec(0.0, 0.0, 0.0);
      var balls := NewLattice(now);
      wallBalls := balls;
      forces := [];
      rotate := Identity();
      translate := Identity();
      scale := Identity();
    }

    /** Calibration. `updated` is whether the tracker delivered a frame;
        without one nothing changes. */
    method Calibration(updated: bool, skel: Skeleton, f: RealFns)
      modifies this`rotate, this`translate, this`scale
      ensures !updated ==> rotate == old(rotate) && translate == old(translate) && scale == old(scale)
      ensures updated ==> rotate == Tilt(skel, f) && translate == Levelling(skel, f) && scale == SceneScale
    {
      if !updated {
        return;
      }
      var tmp := skel.spineBase.pos.z / 2.0;
      if tmp > 1.0 {
        tmp := 1.0;
      }
      var theta := f.acos(tmp);
      rotate := RotateX(theta, f);
      var m2 := rotate.Transform(skel.spineMid.pos);
      translate := Translate(0.0, -m2.y, 0.0);
      scale := Scale(100.0, -100.0, -100.0);
    }

    /** Recognize: fresh copies of the joints; `rightVec` is reset in place
        and becomes hand minus shoulder only for an open right hand. */
    method Recognize(skel: Skeleton)
      modifies this`right, this`left, this`spineS, this`base, this`shoulderR, rightVec
      ensures fresh(right) && fresh(left) && fresh(spineS) && fresh(base) && fresh(shoulderR)
      ensures right.Value() == skel.handRight.pos && left.Value() == skel.handLeft.pos
      ensures spineS.Value() == skel.spineShoulder.pos && base.Value() == skel.spineBase.pos
      ensures shoulderR.Value() == skel.shoulderRight.pos
      ensures rightVec.Value() == if skel.handRight.state == HandStateOpen
                                  then skel.handRight.pos.Minus(skel.shoulderRight.pos)
                                  else Zero
    {
      var r, l, ss, b, sr := skel.handRight, skel.handLeft, skel.spineShoulder, skel.spineBase, skel.shoulderRight;
      right := new Vec(r.pos.x, r.pos.y, r.pos.z);
      left := new Vec(l.pos.x, l.pos.y, l.pos.z);
      spineS := new Vec(ss.pos.x, ss.pos.y, ss.pos.z);
      base := new Vec(b.pos.x, b.pos.y, b.pos.z);
      shoulderR := new Vec(sr.pos.x, sr.pos.y, sr.pos.z);
      rightVec.Reset();
      if r.state == HandStateOpen {
        rightVec.Sub(right, shoulderR);
      }
    }

    /** TransformPoint: rotate, then translate, then scale; the same as
        applying the single composed map. */
    function TransformPoint(p: V3): V3
      reads this
    {
      scale.Transform(translate.Transform(rotate.Transform(p)))
    }

    /** TransformPoint is the single composed map scale . translate . rotate. */
    lemma TransformPointComposes(p: V3)
      ensures TransformPoint(p) == Compose(scale, Compose(translate, rotate)).Transform(p)
    {
      ComposeApplies(translate, rotate, p);
      ComposeApplies(scale, Compose(translate, rotate), p);
    }

    /** The forces one MakeForce call appends, from the gesture state it
        starts in: the hand and the spread are mapped into the scene, the
        velocity is the mapped gesture vector scaled by 0.4. */
    function Spawned(now: int, rand: nat -> real, f: RealFns): (r: seq<PState>)
      reads this, right, left, base, rightVec
      ensures |r| == 0 || |r| == MakeForceNum
    {
      var hand := TransformPoint(right.Value());
      var leftHand := TransformPoint(left.Value());
      var spineBase := TransformPoint(base.Value());
      var v := TransformPoint(rightVec.Value().Scaled(ForcePowerRate));
      Burst(hand, f.sqrt(SqDist(spineBase, leftHand)), v, rand, now)
    }

    /** MakeForce: scales `rightVec` by 0.4 in place and appends the burst,
        leaving every existing force and every wall ball as it was. The
        three random draws of particle i are rand(3i), rand(3i+1), rand(3i+2). */
    method MakeForce(now: int, rand: nat -> real, f: RealFns)
      requires Valid()
      modifies this`forces, rightVec
      ensures Valid()
      ensures rightVec.Value() == old(rightVec.Value()).Scaled(ForcePowerRate)
      ensures |old(forces)| <= |forces| && forces[..|old(forces)|] == old(forces)
      ensures forall k :: |old(forces)| <= k < |forces| ==> fresh(forces[k])
      ensures States(forces) == old(States(forces)) + old(Spawned(now, rand, f))
      ensures States(wallBalls) == old(States(wallBalls))
    {
      ghost var before := States(forces);
      ghost var spawned := Spawned(now, rand, f);
      var hand := TransformPoint(right.Value());
      var leftHand := TransformPoint(left.Value());
      var spineBase := TransformPoint(base.Value());
      ghost var scaled := rightVec.Value().Scaled(ForcePowerRate);
      rightVec.Mult(ForcePowerRate);
      var v := TransformPoint(rightVec.Value());
      var d := f.sqrt(SqDist(spineBase, leftHand));
      assert spawned == Burst(hand, d, v, rand, now);
      var burst := SpawnBurst(hand, d, v, rand, now);
      assert States(forces) == before;
      StatesAppend(forces, burst);
      Joined(wallBalls, forces, burst);
      forces := forces + burst;
    }

    /** CollisionFlag: the squared distance between the live positions is
        below (5 + 1)^2. */
    function CollisionFlag(ball: Particle, force: Particle): (hit: bool)
      reads ball, force
      ensures hit <==> SqDist(ball.Pos(), force.Pos()) < TouchSq
    {
      var dx := (ball.X - force.X) * (ball.X - force.X);
      var dy := (ball.Y - force.Y) * (ball.Y - force.Y);
      var dz := (ball.Z - force.Z) * (ball.Z - force.Z);
      dx + dy + dz < TouchSq
    }

    /** Collision: every ball is tested against every force in order; a hit
        adds the elastic impulse to the ball and flags the force, which goes
        on being tested against later balls. The flagged forces are then
        dropped, keeping the order of the others. */
    method Collision()
      requires Valid()
      modifies wallBalls, forces, this`forces
      ensures Valid()
      ensures States(wallBalls) == Collided(old(States(wallBalls)), old(States(forces)))
      ensures forces == Keep(old(forces), SurvivorMask(old(States(wallBalls)), old(States(forces))))
      ensures States(forces) == Keep(old(States(forces)), SurvivorMask(old(States(wallBalls)), old(States(forces))))
    {
      ghost var b0 := States(wallBalls);
      ghost var f0 := States(forces);
      CollideAll(wallBalls, forces);
      ghost var mask := SurvivorMask(b0, f0);
      var newForces := KeepUnflagged(forces, mask);
      KeepStates(forces, f0, mask);
      KeptValid(wallBalls, forces, mask);
      forces := newForces;
    }

    /** Collision's double loop: every ball of `balls` against every force
        of `fs`. A ball absorbs the impulses of the forces it touches, in
        order; a force touching any ball ends up flagged. */
    method CollideAll(balls: seq<Particle>, fs: seq<Particle>)
      requires Distinct(balls) && Distinct(fs) && Disjoint(balls, fs)
      modifies balls, fs
      ensures forall k :: 0 <= k < |balls| ==>
                balls[k].State() == Absorbed(old(balls[k].State()), old(States(fs)))
      ensures forall j :: 0 <= j < |fs| ==>
                fs[j].State() == old(fs[j].State()).(deleteFlag := old(fs[j].deleteFlag) || TouchedBy(old(States(balls)), old(fs[j].State())))
    {
      ghost var b0 := States(balls);
      ghost var f0 := States(fs);
      var i := 0;
      while i < |balls|
        invariant 0 <= i <= |balls|
        invariant forall k :: 0 <= k < |balls| ==>
                    balls[k].State() == if k < i then Absorbed(b0[k], f0) else b0[k]
        invariant forall j :: 0 <= j < |fs| ==>
                    fs[j].State() == f0[j].(deleteFlag := f0[j].deleteFlag || TouchedBy(b0[..i], f0[j]))
      {
        CollideBall(balls, fs, i, b0, f0);
        i := i + 1;
      }
      assert b0[..|balls|] == b0;
    }

    /** One pass of Collision's outer loop: ball i of `balls` against every
        force of `fs`, in order. */
    method CollideBall(balls: seq<Particle>, fs: seq<Particle>, i: int, ghost b0: seq<PState>, ghost f0: seq<PState>)
      requires Distinct(balls) && Distinct(fs) && Disjoint(balls, fs)
      requires 0 <= i < |balls| == |b0| && |f0| == |fs|
      requires forall k :: 0 <= k < |balls| ==>
                 balls[k].State() == if k < i then Absorbed(b0[k], f0) else b0[k]
      requires forall j :: 0 <= j < |fs| ==>
                 fs[j].State() == f0[j].(deleteFlag := f0[j].deleteFlag || TouchedBy(b0[..i], f0[j]))
      modifies balls[i], fs
      ensures forall k :: 0 <= k < |balls| ==>
                balls[k].State() == if k <= i then Absorbed(b0[k], f0) else b0[k]
      ensures forall j :: 0 <= j < |fs| ==>
                fs[j].State() == f0[j].(deleteFlag := f0[j].deleteFlag || TouchedBy(b0[..i + 1], f0[j]))
    {
      var ball := balls[i];
      assert ball !in fs;
      var j := 0;
      while j < |fs|
        invariant 0 <= j <= |fs|
        invariant ball.State() == Absorbed(b0[i], f0[..j])
        invariant forall jj :: 0 <= jj < j ==>
                    fs[jj].State() == f0[jj].(deleteFlag := f0[jj].deleteFlag || TouchedBy(b0[..i + 1], f0[jj]))
        invariant forall jj :: j <= jj < |fs| ==> fs[jj].State() == old(fs[jj].State())
      {
        var force := fs[j];
        assert forall jj :: 0 <= jj < |fs| && jj != j ==> fs[jj] != force;
        if CollisionFlag(ball, force) {
          Strike(ball, force);
        }
        TouchedByStep(b0, i, f0[j]);
        assert f0[..j + 1][..j] == f0[..j];
        j := j + 1;
      }
      assert f0[..|fs|] == f0;
      assert forall k :: 0 <= k < |balls| && k != i ==> balls[k] !in fs && balls[k] != ball;
    }

    /** UpdateWallBalls: the neighbourhood pass, then the relaxation of
        every ball. Forces are not touched. */
    method UpdateWallBalls()
      requires Valid()
      modifies wallBalls
      ensures Valid()
      ensures States(wallBalls) == Updated(old(States(wallBalls)))
      ensures States(forces) == old(States(forces))
    {
      assert forall j :: 0 <= j < |forces| ==> forces[j] !in wallBalls;
      ghost var b0 := States(wallBalls);
      Pass(wallBalls);
      RelaxAll(wallBalls);
    }

    /** Move: every force steps by its velocity; then the forces older
        than 5000 ms at time `now` are dropped, the others keeping their
        order. Wall balls are not touched. */
    method Move(now: int)
      requires Valid()
      modifies forces, this`forces
      ensures Valid()
      ensures forces == Keep(old(forces), AliveMask(Stepped(old(States(forces))), now))
      ensures States(forces) == Advanced(old(States(forces)), now)
      ensures States(wallBalls) == old(States(wallBalls))
    {
      assert forall k :: 0 <= k < |wallBalls| ==> wallBalls[k] !in forces;
      StepAll();
      ghost var moved := States(forces);
      ghost var alive := AliveMask(moved, now);
      var newForces := KeepYoung(forces, now, alive);
      KeepStates(forces, moved, alive);
      KeptValid(wallBalls, forces, alive);
      forces := newForces;
    }

    /** The first loop of Move: every force steps by its velocity. */
    method StepAll()
      requires Valid()
      modifies forces
      ensures Valid()
      ensures States(forces) == Stepped(old(States(forces)))
    {
      ghost var f0 := States(forces);
      var j := 0;
      while j < |forces|
        invariant 0 <= j <= |forces| == |f0|
        invariant forall k :: 0 <= k < |forces| ==> forces[k].State() == if k < j then Moved(f0[k]) else f0[k]
      {
        forces[j].Move();
        j := j + 1;
      }
    }
  }
}
