/** Real-number helpers: `Math.max`, `Math.min`, `Math.abs`, and distance
    tests without square roots. The source compares
    `Math.sqrt(dx*dx + dy*dy)` with a radius; for a non-negative root and
    a positive radius that is the same as comparing the squared distance
    with the squared radius, which is what the model does. */
module RealMath {

  function Max(a: real, b: real): real { if a < b then b else a }
  function Min(a: real, b: real): real { if a < b then a else b }
  function Abs(a: real): real { if a < 0.0 then -a else a }

  /** Squared planar distance between two points. */
  function SquaredDistance(x1: real, y1: real, x2: real, y2: real): (r: real)
    ensures r >= 0.0
  {
    (x1 - x2) * (x1 - x2) + (y1 - y2) * (y1 - y2)
  }

  /** `d < radius` for the root `d` of `sq` is `sq < radius * radius`: the
      replacement of `Math.sqrt(sq) < radius` is exact. */
  lemma RootBelowIffSquareBelow(d: real, sq: real, radius: real)
    requires d >= 0.0 && radius > 0.0 && d * d == sq
    ensures d < radius <==> sq < radius * radius
  {
    if d < radius {
      var lo, mid, hi := d * d, d * radius, radius * radius;
      assert lo <= mid;
      assert mid < hi;
    } else {
      var lo, mid, hi := radius * radius, radius * d, d * d;
      assert lo <= mid;
      assert mid <= hi;
    }
  }
}
