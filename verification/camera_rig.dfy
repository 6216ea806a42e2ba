/** The 3D camera rig: every frame the camera moves 5% of the way toward
    a target ten units behind the cat on z, on the x and z axes only. */
module CameraRig {
  import opened RealMath
  import opened CatStore

  datatype CameraPos = CameraPos(x: real, y: real, z: real)

  /** Fraction of the remaining gap closed per frame. */
  const FollowFactor: real := 0.05
  /** Fraction of the gap left after a frame. */
  const Retained: real := 0.95
  /** Distance of the camera target behind the cat on z. */
  const ZOffset: real := 10.0

  function TargetX(cat: Position): real { cat.x }
  function TargetZ(cat: Position): real { cat.z + ZOffset }

  /** One axis of one frame: `c += (t - c) * 0.05`. The gap to the
      target keeps its sign and shrinks to 0.95 of itself, so the new
      value lies between the old one and the target. */
  function Approach(c: real, t: real): (r: real)
    ensures t - r == Retained * (t - c)
    ensures Min(c, t) <= r <= Max(c, t)
  {
    c + (t - c) * FollowFactor
  }

  /** One frame of the rig. */
  function Follow(cam: CameraPos, cat: Position): (r: CameraPos)
    ensures TargetX(cat) - r.x == Retained * (TargetX(cat) - cam.x)
    ensures TargetZ(cat) - r.z == Retained * (TargetZ(cat) - cam.z)
    ensures Min(cam.x, TargetX(cat)) <= r.x <= Max(cam.x, TargetX(cat))
    ensures Min(cam.z, TargetZ(cat)) <= r.z <= Max(cam.z, TargetZ(cat))
    ensures r.y == cam.y
  {
    CameraPos(Approach(cam.x, TargetX(cat)), cam.y, Approach(cam.z, TargetZ(cat)))
  }

  /** `n` frames of the rig while the cat stands still. */
  function FollowFrames(cam: CameraPos, cat: Position, n: nat): CameraPos
    decreases n
  {
    if n == 0 then cam else Follow(FollowFrames(cam, cat, n - 1), cat)
  }

  /** `n` frames of one axis toward a fixed target. */
  function ApproachFrames(c: real, t: real, n: nat): real
    decreases n
  {
    if n == 0 then c else Approach(ApproachFrames(c, t, n - 1), t)
  }

  function Pow(b: real, n: nat): real
    decreases n
  {
    if n == 0 then 1.0 else b * Pow(b, n - 1)
  }

  /** A power of 0.95 lies in (0, 1] and does not grow with the exponent. */
  lemma {:induction false} RetainedPowBounds(n: nat)
    ensures 0.0 < Pow(Retained, n) <= 1.0
    ensures Pow(Retained, n + 1) <= Pow(Retained, n)
    decreases n
  {
    if n > 0 {
      RetainedPowBounds(n - 1);
    }
  }

  lemma PowStep(n: nat)
    requires n > 0
    ensures Pow(Retained, n) == Retained * Pow(Retained, n - 1)
  {
  }

  /** A gap after `n` frames, each keeping 0.95 of it. This equals
      `Pow(Retained, n) * g` (`ShrunkIsPow`); it is kept as a separate
      recursion so that the per-frame induction stays linear and the one
      nonlinear step is proved on its own. */
  function Shrunk(g: real, n: nat): real
    decreases n
  {
    if n == 0 then g else Retained * Shrunk(g, n - 1)
  }

  /** Shrinking `n` times scales the gap by 0.95^n. */
  lemma {:induction false} ShrunkIsPow(g: real, n: nat)
    ensures Shrunk(g, n) == Pow(Retained, n) * g
    decreases n
  {
    if n > 0 {
      ShrunkIsPow(g, n - 1);
      var p := Pow(Retained, n - 1);
      PowStep(n);
      assert Retained * (p * g) == (Retained * p) * g;
    }
  }

  /** Each frame of one axis shrinks the gap to the target once. */
  lemma {:induction false} ApproachFramesShrink(c: real, t: real, n: nat)
    ensures t - ApproachFrames(c, t, n) == Shrunk(t - c, n)
    decreases n
  {
    if n > 0 {
      ApproachFramesShrink(c, t, n - 1);
    }
  }

  /** After `n` frames the gap on one axis is 0.95^n of the first one. */
  lemma ApproachFramesGap(c: real, t: real, n: nat)
    ensures t - ApproachFrames(c, t, n) == Pow(Retained, n) * (t - c)
  {
    ApproachFramesShrink(c, t, n);
    ShrunkIsPow(t - c, n);
  }

  /** The rig moves the two axes independently and never moves y. */
  lemma {:induction false} FollowFramesAxes(cam: CameraPos, cat: Position, n: nat)
    ensures FollowFrames(cam, cat, n) ==
              CameraPos(ApproachFrames(cam.x, TargetX(cat), n), cam.y, ApproachFrames(cam.z, TargetZ(cat), n))
    decreases n
  {
    if n > 0 {
      FollowFramesAxes(cam, cat, n - 1);
    }
  }

  /** With the cat standing still, after `n` frames both gaps to the
      target are 0.95^n of the first ones, so they shrink toward zero
      without changing sign; y never changes, and a camera at the target
      stays there. */
  lemma FollowFramesGap(cam: CameraPos, cat: Position, n: nat)
    ensures var r := FollowFrames(cam, cat, n);
            && TargetX(cat) - r.x == Pow(Retained, n) * (TargetX(cat) - cam.x)
            && TargetZ(cat) - r.z == Pow(Retained, n) * (TargetZ(cat) - cam.z)
            && r.y == cam.y
    ensures cam.x == TargetX(cat) && cam.z == TargetZ(cat) ==> FollowFrames(cam, cat, n) == cam
  {
    FollowFramesAxes(cam, cat, n);
    ApproachFramesGap(cam.x, TargetX(cat), n);
    ApproachFramesGap(cam.z, TargetZ(cat), n);
  }
}
