/** The cat store of the 3D plaza: the cat's position and planar
    velocity, and `updatePosition`, which adds the velocity to x and z and
    clamps both into the square [-9, 9]. */
module CatStore {
  import opened RealMath

  datatype Position = Position(x: real, y: real, z: real)
  datatype Velocity = Velocity(x: real, z: real)
  datatype CatState = CatState(position: Position, velocity: Velocity)

  /** Half the side of the walkable square. */
  const Bound: real := 9.0

  /** The store's initial value: half a unit above the origin, at rest. */
  const Initial: CatState := CatState(Position(0.0, 0.5, 0.0), Velocity(0.0, 0.0))

  /** `Math.max(-9, Math.min(9, v))`. */
  function Clamp(v: real): (r: real)
    ensures -Bound <= r <= Bound
    ensures -Bound <= v <= Bound ==> r == v
    ensures v > Bound ==> r == Bound
    ensures v < -Bound ==> r == -Bound
  {
    Max(-Bound, Min(Bound, v))
  }

  predicate InBounds(p: Position) {
    -Bound <= p.x <= Bound && -Bound <= p.z <= Bound
  }

  /** `updatePosition`: one step along the velocity, kept inside the
      square; y and the velocity are left alone. */
  function UpdatePosition(s: CatState): (r: CatState)
    ensures InBounds(r.position)
    ensures r.position.y == s.position.y && r.velocity == s.velocity
    ensures -Bound <= s.position.x + s.velocity.x <= Bound ==> r.position.x == s.position.x + s.velocity.x
    ensures -Bound <= s.position.z + s.velocity.z <= Bound ==> r.position.z == s.position.z + s.velocity.z
  {
    s.(position := Position(
      Clamp(s.position.x + s.velocity.x),
      s.position.y,
      Clamp(s.position.z + s.velocity.z)))
  }

  /** `setPosition`: replaces the position only. */
  function SetPosition(s: CatState, p: Position): (r: CatState)
    ensures r.position == p && r.velocity == s.velocity
  {
    s.(position := p)
  }

  /** `setVelocity` (and `setState({velocity})`): replaces the velocity
      only. */
  function SetVelocity(s: CatState, v: Velocity): (r: CatState)
    ensures r.velocity == v && r.position == s.position
  {
    s.(velocity := v)
  }

  /** The clamp picks the point of [-9, 9] nearest to its argument, and
      clamping twice is clamping once. */
  lemma ClampIsNearest(v: real, w: real)
    requires -Bound <= w <= Bound
    ensures Abs(Clamp(v) - v) <= Abs(w - v)
    ensures Clamp(Clamp(v)) == Clamp(v)
  {
  }

  /** At rest inside the square the cat stays put, and the initial state
      is such a state. */
  lemma RestingCatIsFixed(s: CatState)
    requires InBounds(s.position) && s.velocity == Velocity(0.0, 0.0)
    ensures UpdatePosition(s) == s
    ensures UpdatePosition(Initial) == Initial
  {
  }
}
