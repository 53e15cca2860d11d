/** Laser points and the three brightness tests the bridge applies to them. */
module Points {

  datatype Option<+T> = None | Some(value: T)

  /** One laser point; the float channels are modelled as reals. */
  datatype LaserPoint = LaserPoint(
    x: real, y: real, r: real, g: real, b: real, i: real, u1: real, u2: real)

  const DEFAULT_POINT := LaserPoint(0.0, 0.0, 0.0, 0.0, 0.0, 0.0, 0.0, 0.0)

  predicate IsLit(p: LaserPoint) {
    p.i > 0.0 && (p.r > 0.0 || p.g > 0.0 || p.b > 0.0)
  }

  /** The looser test used to look for a cut between shapes: a point may be blank here and still lit. */
  predicate IsBlankForBoundary(p: LaserPoint) {
    p.r + p.g + p.b < 0.01
  }

  predicate IsDark(p: LaserPoint) {
    p.r == 0.0 && p.g == 0.0 && p.b == 0.0
  }

  function CountLit(points: seq<LaserPoint>): nat {
    if points == [] then 0
    else CountLit(points[..|points| - 1]) + if IsLit(points[|points| - 1]) then 1 else 0
  }

  /** The point repeated while there is nothing real to show. */
  function Fallback(last: Option<LaserPoint>): (p: LaserPoint)
    ensures IsDark(p) && !IsLit(p)
    ensures last.Some? ==> p.x == last.value.x && p.y == last.value.y && p.u1 == last.value.u1 && p.u2 == last.value.u2
    ensures p.i == 0.0 && (last.None? ==> p.x == p.y == p.u1 == p.u2 == 0.0)
  {
    match last
    case None => DEFAULT_POINT
    case Some(q) => q.(r := 0.0, g := 0.0, b := 0.0, i := 0.0)
  }

  function Repeat(p: LaserPoint, n: nat): (s: seq<LaserPoint>)
    ensures |s| == n && forall k :: 0 <= k < n ==> s[k] == p
  {
    seq(n, _ => p)
  }

  function Min(a: int, b: int): int { if a <= b then a else b }

  function Max(a: int, b: int): int { if a >= b then a else b }

  function Clamp(v: int, lo: int, hi: int): (r: int)
    requires lo <= hi
    ensures lo <= r <= hi
    ensures lo <= v <= hi ==> r == v
  {
    if v < lo then lo else if v > hi then hi else v
  }
}
