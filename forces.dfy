/** Force particles: short-lived particles spawned from a gesture, tested
    against every wall ball, removed once they touch one or once they are
    older than 5000 ms. This module gives the pure specification of the
    three simulation steps that rebuild the force list: spawning a burst,
    collision with its mark-and-compact, and the move-and-expire step. */
module Forces {
  import opened Vectors
  import opened Particles
  import opened Lattice

  const ForceRadius: real := 1.0
  /** A ball and a force touch when their squared distance is below this. */
  const TouchSq: real := (BallRadius + ForceRadius) * (BallRadius + ForceRadius)
  const M1: real := 1.0
  const M2: real := 1.0
  const AMass: real := 1.0 / (M1 + M2)
  const MakeForceNum: int := 50
  const ForcePowerRate: real := 0.4
  /** Milliseconds a force particle may live. */
  const ForceLifetime: int := 5000

  // ---------------------------------------------------------------------
  // Order-preserving filters

  /** The elements of `s` whose flag in `m` is set, in their original
      order. Built from the back, as an append loop builds it. */
  function Keep<T>(s: seq<T>, m: seq<bool>): (r: seq<T>)
    requires |m| == |s|
    ensures |r| <= |s|
  {
    if s == [] then []
    else Keep(s[..|s| - 1], m[..|m| - 1]) + (if m[|m| - 1] then [s[|s| - 1]] else [])
  }

  /** An element is kept exactly when some position holding it is flagged. */
  lemma {:induction false} KeepMembers<T>(s: seq<T>, m: seq<bool>, x: T)
    requires |m| == |s|
    ensures x in Keep(s, m) <==> exists j :: 0 <= j < |s| && m[j] && s[j] == x
  {
    if s != [] {
      var n := |s| - 1;
      KeepMembers(s[..n], m[..n], x);
      if x in Keep(s[..n], m[..n]) {
        var j :| 0 <= j < n && m[..n][j] && s[..n][j] == x;
        assert m[j] && s[j] == x;
      }
      if j :| 0 <= j < |s| && m[j] && s[j] == x {
        if j < n {
          assert m[..n][j] && s[..n][j] == x;
        }
      }
    }
  }

  /** Filtering a concatenation filters each part: the survivors of an
      earlier element come before those of a later one. */
  lemma {:induction false} KeepAppend<T>(s1: seq<T>, m1: seq<bool>, s2: seq<T>, m2: seq<bool>)
    requires |m1| == |s1| && |m2| == |s2|
    ensures Keep(s1 + s2, m1 + m2) == Keep(s1, m1) + Keep(s2, m2)
    decreases |s2|
  {
    if s2 != [] {
      var n := |s2| - 1;
      assert (s1 + s2)[..|s1 + s2| - 1] == s1 + s2[..n];
      assert (m1 + m2)[..|m1 + m2| - 1] == m1 + m2[..n];
      assert (s1 + s2)[|s1 + s2| - 1] == s2[n] && (m1 + m2)[|m1 + m2| - 1] == m2[n];
      KeepAppend(s1, m1, s2[..n], m2[..n]);
      var tail := if m2[n] then [s2[n]] else [];
      calc {
        Keep(s1 + s2, m1 + m2);
        Keep(s1 + s2[..n], m1 + m2[..n]) + tail;
        Keep(s1, m1) + Keep(s2[..n], m2[..n]) + tail;
        Keep(s1, m1) + (Keep(s2[..n], m2[..n]) + tail);
      }
    } else {
      assert s1 + s2 == s1 && m1 + m2 == m1;
    }
  }

  /** With every flag set nothing is dropped. */
  lemma {:induction false} KeepAll<T>(s: seq<T>, m: seq<bool>)
    requires |m| == |s| && forall j :: 0 <= j < |m| ==> m[j]
    ensures Keep(s, m) == s
  {
    if s != [] {
      KeepAll(s[..|s| - 1], m[..|m| - 1]);
    }
  }

  // ---------------------------------------------------------------------
  // Collision

  /** CollisionFlag: the squared distance is below (5 + 1)^2. */
  predicate Touching(ball: V3, force: V3) {
    SqDist(ball, force) < TouchSq
  }

  /** The touch threshold is (5 + 1)^2 = 36. */
  lemma TouchSqIs36()
    ensures TouchSq == 36.0
  {
  }

  /** The velocity added to a ball hit by a force: the 1-D elastic formula
      ((m1 - m2) vb + 2 m2 vf) / (m1 + m2). */
  function Impulse(vb: V3, vf: V3): V3 {
    vb.Scaled(M1 - M2).Plus(vf.Scaled(2.0 * M2)).Scaled(AMass)
  }

  /** With equal masses the impulse is exactly the force's velocity. */
  lemma ImpulseIsForceVelocity(vb: V3, vf: V3)
    ensures Impulse(vb, vf) == vf
  {
  }

  /** A ball after being tested, in order, against every force of `fs`. */
  function Absorbed(b: PState, fs: seq<PState>): (r: PState)
    ensures r.(velocity := b.velocity) == b
  {
    if fs == [] then b
    else
      var c := Absorbed(b, fs[..|fs| - 1]);
      var f := fs[|fs| - 1];
      if Touching(c.pos, f.pos) then Pushed(c, Impulse(c.velocity, f.velocity)) else c
  }

  /** The sum of the velocities of the forces of `fs` touching point p. */
  function HitSum(p: V3, fs: seq<PState>): V3 {
    if fs == [] then Zero
    else
      var f := fs[|fs| - 1];
      HitSum(p, fs[..|fs| - 1]).Plus(if Touching(p, f.pos) then f.velocity else Zero)
  }

  /** Each ball's velocity gains exactly the sum of the velocities of the
      forces it touches; a force is counted for every ball it touches. */
  lemma {:induction false} AbsorbedAddsHits(b: PState, fs: seq<PState>)
    ensures Absorbed(b, fs).velocity == b.velocity.Plus(HitSum(b.pos, fs))
  {
    if fs != [] {
      var n := |fs| - 1;
      AbsorbedAddsHits(b, fs[..n]);
      var c := Absorbed(b, fs[..n]);
      ImpulseIsForceVelocity(c.velocity, fs[n].velocity);
    }
  }

  /** Every ball after the collision double loop. */
  function Collided(balls: seq<PState>, fs: seq<PState>): (r: seq<PState>)
    ensures |r| == |balls|
  {
    seq(|balls|, i requires 0 <= i < |balls| => Absorbed(balls[i], fs))
  }

  /** Some ball touches force f. */
  predicate TouchedBy(balls: seq<PState>, f: PState) {
    exists i :: 0 <= i < |balls| && Touching(balls[i].pos, f.pos)
  }

  /** Which forces survive the compaction: unflagged and touching no ball. */
  function SurvivorMask(balls: seq<PState>, fs: seq<PState>): (m: seq<bool>)
    ensures |m| == |fs|
  {
    seq(|fs|, j requires 0 <= j < |fs| => !(fs[j].deleteFlag || TouchedBy(balls, fs[j])))
  }

  /** The force list after Collision: exactly the forces touching no ball,
      in their original order, when none was flagged beforehand. */
  lemma SurvivorsExactly(balls: seq<PState>, fs: seq<PState>, f: PState)
    requires forall j :: 0 <= j < |fs| ==> !fs[j].deleteFlag
    ensures f in Keep(fs, SurvivorMask(balls, fs)) <==> f in fs && !TouchedBy(balls, f)
  {
    KeepMembers(fs, SurvivorMask(balls, fs), f);
  }

  // ---------------------------------------------------------------------
  // Move and expiry

  predicate Alive(f: PState, now: int) {
    now - f.t <= ForceLifetime
  }

  /** Every force after one step of its velocity. */
  function Stepped(fs: seq<PState>): (r: seq<PState>)
    ensures |r| == |fs|
  {
    seq(|fs|, j requires 0 <= j < |fs| => Moved(fs[j]))
  }

  /** Which forces are at most ForceLifetime ms old at time `now`. */
  function AliveMask(fs: seq<PState>, now: int): (m: seq<bool>)
    ensures |m| == |fs|
  {
    seq(|fs|, j requires 0 <= j < |fs| => Alive(fs[j], now))
  }

  /** Every force moved, then those older than the lifetime dropped. */
  function Advanced(fs: seq<PState>, now: int): (r: seq<PState>)
    ensures |r| <= |fs|
  {
    Keep(Stepped(fs), AliveMask(Stepped(fs), now))
  }

  /** A force created at time t is kept, moved, exactly while now <= t + 5000,
      and whatever their ages the kept ones keep their order. */
  lemma ForceLifetimeWindow(fs: seq<PState>, now: int, f: PState)
    requires f in fs
    ensures Moved(f) in Advanced(fs, now) <==> now <= f.t + ForceLifetime
  {
    var moved := Stepped(fs);
    KeepMembers(moved, AliveMask(moved, now), Moved(f));
    var j :| 0 <= j < |fs| && fs[j] == f;
    assert moved[j] == Moved(f);
  }

  /** With no force expired, moving keeps every force. */
  lemma NoneExpired(fs: seq<PState>, now: int)
    requires forall j :: 0 <= j < |fs| ==> now <= fs[j].t + ForceLifetime
    ensures Advanced(fs, now) == Stepped(fs)
  {
    KeepAll(Stepped(fs), AliveMask(Stepped(fs), now));
  }

  // ---------------------------------------------------------------------
  // Spawning

  /** One axis of the random offset: d (r - 0.5) 0.05. */
  function Jitter(d: real, r: real): real {
    d * (r - 0.5) * 0.05
  }

  /** The i-th particle of a burst: placed at the hand position multiplied
      componentwise by three fresh draws of jitter, with radius 1 and the
      gesture velocity. `rand` is the stream of random draws in [0, 1). */
  function Spark(hand: V3, d: real, v: V3, rand: nat -> real, i: nat, now: int): PState {
    var jitter := V3(Jitter(d, rand(3 * i)), Jitter(d, rand(3 * i + 1)), Jitter(d, rand(3 * i + 2)));
    Created(hand.Times(jitter), now).(radius := ForceRadius, velocity := v)
  }

  /** The particles MakeForce appends: 50 when no component of the mapped
      velocity is exactly zero, none otherwise; all share the velocity. */
  function Burst(hand: V3, d: real, v: V3, rand: nat -> real, now: int): (r: seq<PState>)
    ensures |r| == if v.AllNonZero() then MakeForceNum else 0
    ensures forall k :: 0 <= k < |r| ==>
              r[k].velocity == v && r[k].radius == ForceRadius && r[k].t == now
              && r[k].diff == Zero && !r[k].deleteFlag
  {
    if v.AllNonZero() then
      seq(MakeForceNum, i requires 0 <= i < MakeForceNum => Spark(hand, d, v, rand, i, now))
    else []
  }
}
