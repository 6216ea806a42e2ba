/** The keyboard control of the two 3D cats (`Cat` and `BlackCat`). Both
    latch keys with the shared key latch and, every 16 ms, turn the held
    keys into a velocity: forward sets z to -speed, back sets z to +speed,
    left sets x to -speed, right sets x to +speed, each assignment
    overwriting the previous one. `Cat` uses speed 0.1, `BlackCat` 0.05
    and also raises a walking flag while the velocity is non-zero. Each
    frame the cat's mesh turns to face its heading only while it moves,
    and the walking black cat bobs above its store height. */
module CatControls {
  import opened KeyLatch
  import opened CatStore
  import opened RealMath

  const CatSpeed: real := 0.1
  const BlackCatSpeed: real := 0.05
  /** Height of the black cat's walking bob. */
  const BobHeight: real := 0.05

  predicate ForwardHeld(keys: KeyMap) { Held(keys, "w") || Held(keys, "arrowup") }
  predicate BackHeld(keys: KeyMap) { Held(keys, "s") || Held(keys, "arrowdown") }
  predicate LeftHeld(keys: KeyMap) { Held(keys, "a") || Held(keys, "arrowleft") }
  predicate RightHeld(keys: KeyMap) { Held(keys, "d") || Held(keys, "arrowright") }

  predicate AnyMovementHeld(keys: KeyMap) {
    ForwardHeld(keys) || BackHeld(keys) || LeftHeld(keys) || RightHeld(keys)
  }

  /** `updateVelocity`: the four conditional assignments in source order,
      so back beats forward and right beats left. */
  function UpdateVelocity(keys: KeyMap, speed: real): (v: Velocity)
    ensures BackHeld(keys) ==> v.z == speed
    ensures ForwardHeld(keys) && !BackHeld(keys) ==> v.z == -speed
    ensures !ForwardHeld(keys) && !BackHeld(keys) ==> v.z == 0.0
    ensures RightHeld(keys) ==> v.x == speed
    ensures LeftHeld(keys) && !RightHeld(keys) ==> v.x == -speed
    ensures !LeftHeld(keys) && !RightHeld(keys) ==> v.x == 0.0
  {
    var z0 := 0.0;
    var z1 := if ForwardHeld(keys) then -speed else z0;
    var z2 := if BackHeld(keys) then speed else z1;
    var x0 := 0.0;
    var x1 := if LeftHeld(keys) then -speed else x0;
    var x2 := if RightHeld(keys) then speed else x1;
    Velocity(x2, z2)
  }

  function CatVelocity(keys: KeyMap): Velocity { UpdateVelocity(keys, CatSpeed) }
  function BlackCatVelocity(keys: KeyMap): Velocity { UpdateVelocity(keys, BlackCatSpeed) }

  predicate Moving(v: Velocity) { v.x != 0.0 || v.z != 0.0 }

  /** The black cat's `walkAnimation` flag after a velocity update. */
  predicate WalkAnimation(keys: KeyMap) { Moving(BlackCatVelocity(keys)) }

  /** For a positive speed each component is one of -speed, 0 and speed,
      the velocity is non-zero exactly when some movement key is held, and
      with no key held it is zero. */
  lemma VelocityShape(keys: KeyMap, speed: real)
    requires speed > 0.0
    ensures var v := UpdateVelocity(keys, speed);
            && (v.x == -speed || v.x == 0.0 || v.x == speed)
            && (v.z == -speed || v.z == 0.0 || v.z == speed)
            && (Moving(v) <==> AnyMovementHeld(keys))
            && (Idle(keys) ==> v == Velocity(0.0, 0.0))
  {
  }

  /** The black cat walks exactly when a movement key is held; with no
      key held it stands still and does not walk. */
  lemma WalkIffMovementKey(keys: KeyMap)
    ensures WalkAnimation(keys) <==> AnyMovementHeld(keys)
    ensures Idle(keys) ==> BlackCatVelocity(keys) == Velocity(0.0, 0.0) && !WalkAnimation(keys)
  {
    VelocityShape(keys, BlackCatSpeed);
  }

  /** The mesh's yaw after a frame: the heading (`atan2(vx, vz)`, given
      as a parameter) while moving, else the old yaw. */
  function MeshYaw(current: real, v: Velocity, heading: real): (r: real)
    ensures Moving(v) ==> r == heading
    ensures !Moving(v) ==> r == current
  {
    if Moving(v) then heading else current
  }

  /** The black cat's mesh height: the store's y, raised by
      `|sin(10 t)| * 0.05` while walking (the sine is a parameter). */
  function MeshY(storeY: real, walking: bool, sine: real): (r: real)
    requires -1.0 <= sine <= 1.0
    ensures !walking ==> r == storeY
    ensures storeY <= r <= storeY + BobHeight
  {
    if walking then storeY + Abs(sine) * BobHeight else storeY
  }

  /** One control period and one frame of either cat with no key held:
      the velocity becomes zero, so a cat inside the square stays where it
      is and the black cat's mesh sits at the store's height. */
  lemma IdleCatStaysPut(s: CatState, keys: KeyMap, speed: real, sine: real)
    requires Idle(keys) && InBounds(s.position) && -1.0 <= sine <= 1.0
    ensures var s' := UpdatePosition(SetVelocity(s, UpdateVelocity(keys, speed)));
            && s'.position == s.position
            && MeshY(s'.position.y, WalkAnimation(keys), sine) == s.position.y
  {
    WalkIffMovementKey(keys);
  }
}
