/** Point masses. A particle has a live position (X, Y, Z), an anchor it was
    created at and is pulled back to, a velocity, a `diff` accumulator that
    the lattice pass fills, a radius, a creation time in milliseconds and a
    removal flag. Each update rule is a pure transition on `PState`; the
    `Particle` methods are proved to perform exactly that transition. */
module Particles {
  import opened Vectors

  /** Everything a particle holds, as a value. */
  datatype PState = PState(
    pos: V3,
    radius: real,
    anchor: V3,
    velocity: V3,
    diff: V3,
    t: int,
    deleteFlag: bool)

  /** Strength of the Hookean pull towards the anchor. */
  const GravityRate: real := 0.0005

  /** Half-width of the lattice neighbourhood used by module gravity. */
  const ModuleHalfWidth: real := 2.0

  /** The factor module gravity applies to `diff`: 1 / (4 d (d + 1)). */
  const ModuleRate: real := 1.0 / (4.0 * ModuleHalfWidth * (ModuleHalfWidth + 1.0))

  /** A freshly created particle: at rest on its anchor, zero radius until
      the creator sets one. */
  function Created(p: V3, now: int): PState {
    PState(p, 0.0, p, Zero, Zero, now, false)
  }

  /** Move: step the live position by the velocity, clear `diff`. */
  function Moved(s: PState): PState {
    s.(pos := s.pos.Plus(s.velocity), diff := Zero)
  }

  /** Gravity: below the floor (z < 0) snap back to the anchor and stop;
      otherwise add GravityRate * (anchor - pos) to the velocity. */
  function Gravitated(s: PState): PState {
    if s.pos.z < 0.0 then
      s.(pos := s.anchor, velocity := Zero)
    else
      s.(velocity := s.velocity.Plus(s.anchor.Minus(s.pos).Scaled(GravityRate)))
  }

  /** SetAroundModule: add `v` into `diff`. */
  function Surrounded(s: PState, v: V3): PState {
    s.(diff := s.diff.Plus(v))
  }

  /** ModuleGravity: scale `diff` by ModuleRate and add it to the velocity.
      `diff` keeps the scaled value; Move is what clears it. */
  function ModuleGravitated(s: PState): PState {
    var d := s.diff.Scaled(ModuleRate);
    s.(diff := d, velocity := s.velocity.Plus(d))
  }

  /** AddVelocity: add `v` to the velocity. */
  function Pushed(s: PState, v: V3): PState {
    s.(velocity := s.velocity.Plus(v))
  }

  /** The per-tick relaxation every lattice ball undergoes:
      Gravity, then ModuleGravity, then Move. */
  function Relaxed(s: PState): PState {
    Moved(ModuleGravitated(Gravitated(s)))
  }

  lemma ModuleRateIsOneTwentyFourth()
    ensures ModuleRate == 1.0 / 24.0
  {
  }

  /** Move changes only the live position and `diff`; two moves with an
      unchanged velocity advance the position by twice the velocity. */
  lemma MoveTwice(s: PState)
    ensures Moved(s).pos == s.pos.Plus(s.velocity)
    ensures Moved(s).diff == Zero
    ensures Moved(s).(pos := s.pos, diff := s.diff) == s
    ensures Moved(Moved(s)).pos == s.pos.Plus(s.velocity.Scaled(2.0))
  {
  }

  /** Below the floor, Gravity lands the particle on its anchor at rest,
      whatever velocity it had. */
  lemma GravitySnapsBack(s: PState, w: V3)
    requires s.pos.z < 0.0
    ensures Gravitated(s).pos == s.anchor && Gravitated(s).velocity == Zero
    ensures Gravitated(s.(velocity := w)) == Gravitated(s)
    ensures Gravitated(s).(pos := s.pos, velocity := s.velocity) == s
  {
  }

  /** At or above the floor, Gravity keeps the position and nudges the
      velocity towards the anchor; a particle on its anchor is untouched. */
  lemma GravityPulls(s: PState)
    requires s.pos.z >= 0.0
    ensures Gravitated(s).pos == s.pos
    ensures Gravitated(s).velocity == s.velocity.Plus(s.anchor.Minus(s.pos).Scaled(0.0005))
    ensures Gravitated(s).(velocity := s.velocity) == s
    ensures s.pos == s.anchor ==> Gravitated(s) == s
  {
  }

  /** ModuleGravity scales `diff` by 1/24 and folds it into the velocity
      without clearing it; the Move that follows clears it. */
  lemma ModuleGravityThenMove(s: PState)
    ensures ModuleGravitated(s).diff == s.diff.Scaled(1.0 / 24.0)
    ensures ModuleGravitated(s).velocity == s.velocity.Plus(s.diff.Scaled(1.0 / 24.0))
    ensures ModuleGravitated(s).(diff := s.diff, velocity := s.velocity) == s
    ensures Moved(ModuleGravitated(s)).diff == Zero
  {
  }

  /** Relaxation leaves `diff` at zero and never touches the anchor, the
      radius, the timestamp or the flag. */
  lemma RelaxedKeepsIdentity(s: PState)
    ensures Relaxed(s).diff == Zero
    ensures Relaxed(s).anchor == s.anchor && Relaxed(s).radius == s.radius
    ensures Relaxed(s).t == s.t && Relaxed(s).deleteFlag == s.deleteFlag
  {
  }

  /** A point mass whose fields the update rules change in place. The anchor
      is a `const`: nothing can write it after construction. */
  class Particle {
    var X: real
    var Y: real
    var Z: real
    var Radius: real
    const position: V3
    var velocity: V3
    var diff: V3
    var t: int
    var deleteFlag: bool

    /** The live position. */
    function Pos(): V3
      reads this
    {
      V3(X, Y, Z)
    }

    function State(): PState
      reads this
    {
      PState(V3(X, Y, Z), Radius, position, velocity, diff, t, deleteFlag)
    }

    /** NewParticle; `now` is the creation time in milliseconds. */
    constructor (x: real, y: real, z: real, now: int)
      ensures State() == Created(V3(x, y, z), now)
      ensures position == V3(x, y, z) && velocity == Zero && diff == Zero && !deleteFlag
    {
      X, Y, Z := x, y, z;
      Radius := 0.0;
      position := V3(x, y, z);
      velocity := Zero;
      diff := Zero;
      t := now;
      deleteFlag := false;
    }

    method Move()
      modifies this
      ensures State() == Moved(old(State()))
    {
      X := X + velocity.x;
      Y := Y + velocity.y;
      Z := Z + velocity.z;
      diff := Zero;
    }

    method Gravity()
      modifies this
      ensures State() == Gravitated(old(State()))
    {
      if Z < 0.0 {
        X := position.x;
        Y := position.y;
        Z := position.z;
        velocity := Zero;
      } else {
        var currentPos := V3(X, Y, Z);
        var v := position.Minus(currentPos);
        v := v.Scaled(GravityRate);
        velocity := velocity.Plus(v);
      }
    }

    method SetAroundModule(v: Vec)
      modifies this
      ensures State() == Surrounded(old(State()), old(v.Value()))
    {
      diff := diff.Plus(v.Value());
    }

    method ModuleGravity()
      modifies this
      ensures State() == ModuleGravitated(old(State()))
    {
      var d := 2.0;
      var a := 1.0 / (4.0 * d * (d + 1.0));
      diff := diff.Scaled(a);
      velocity := velocity.Plus(diff);
    }

    method AddVelocity(v: Vec)
      modifies this
      ensures State() == Pushed(old(State()), old(v.Value()))
    {
      velocity := velocity.Plus(v.Value());
    }
  }

  /** The states of a sequence of particles, index by index. */
  ghost function States(ps: seq<Particle>): (r: seq<PState>)
    reads ps
    ensures |r| == |ps|
    ensures forall k :: 0 <= k < |ps| ==> r[k] == ps[k].State()
  {
    seq(|ps|, k requires 0 <= k < |ps| reads ps => ps[k].State())
  }

  /** No particle occurs twice. */
  ghost predicate Distinct(ps: seq<Particle>) {
    forall i, j :: 0 <= i < j < |ps| ==> ps[i] != ps[j]
  }

  /** The worked examples of the unit tests: one move from the origin at
      velocity (1,1,1) reaches (1,1,1), a second (2,2,2); a particle anchored
      at (10,10,10) pushed below the floor comes back to z = 10. */
  lemma ParticleTestExamples()
    ensures var s := Pushed(Created(Zero, 0), V3(1.0, 1.0, 1.0));
            Moved(s).pos == V3(1.0, 1.0, 1.0) && Moved(Moved(s)).pos == V3(2.0, 2.0, 2.0)
    ensures var a := V3(10.0, 10.0, 10.0);
            Gravitated(Created(a, 0).(pos := V3(10.0, 10.0, -5.0))).pos == a
  {
  }
}
