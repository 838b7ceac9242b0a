/** The straight-line planner with midpoint detours (`SimpleCollisionAvoidance`).

    Points are `Geometry.Point`s over the reals, obstacles are points, and the
    planner's `safety_radius` is passed to every operation as `safetyRadius`.
    `math.sqrt` is the parameter `sqrt`, of which only `IsSqrt` is assumed. */
module TrajectoryPlanner {

  import opened Wrappers
  import opened RealMath
  import opened Geometry

  // ---------------------------------------------------------------------------
  // Vector helpers

  /** `_cross_product`: the cross product is perpendicular to both factors. */
  function Cross(a: Point, b: Point): (c: Point)
    ensures Dot(c, a) == 0.0 && Dot(c, b) == 0.0
  {
    Point(a.y * b.z - a.z * b.y, a.z * b.x - a.x * b.z, a.x * b.y - a.y * b.x)
  }

  /** Componentwise division, as in `perpendicular[0] / perpendicular_length`. */
  function DivBy(a: Point, k: real): Point
    requires k != 0.0
  {
    Point(a.x / k, a.y / k, a.z / k)
  }

  lemma NormSqDivBy(a: Point, k: real)
    requires k != 0.0
    ensures NormSq(DivBy(a, k)) * (k * k) == NormSq(a)
  {
    var q := DivBy(a, k);
    assert q.x * k == a.x && q.y * k == a.y && q.z * k == a.z;
    assert q.x * q.x * (k * k) == (q.x * k) * (q.x * k);
    assert q.y * q.y * (k * k) == (q.y * k) * (q.y * k);
    assert q.z * q.z * (k * k) == (q.z * k) * (q.z * k);
  }

  lemma DotDivBy(a: Point, b: Point, k: real)
    requires k != 0.0
    ensures Dot(DivBy(a, k), b) * k == Dot(a, b)
  {
    var q := DivBy(a, k);
    assert q.x * k == a.x && q.y * k == a.y && q.z * k == a.z;
    assert q.x * b.x * k == (q.x * k) * b.x;
    assert q.y * b.y * k == (q.y * k) * b.y;
    assert q.z * b.z * k == (q.z * k) * b.z;
  }

  /** `x * k == n` with `k == n != 0` forces `x == 1`. */
  lemma CancelFactor(x: real, k: real, n: real)
    requires k != 0.0 && x * k == n && k == n
    ensures x == 1.0
  {
    assert x == (x * k) / k;
  }

  // ---------------------------------------------------------------------------
  // Point-to-segment distance (`_point_to_line_distance`)

  /** The projection parameter of `p` on the segment `s`-`e`, clamped to [0, 1]. */
  function ProjectionParam(s: Point, e: Point, p: Point): (t: real)
    requires NormSq(Sub(e, s)) != 0.0
    ensures 0.0 <= t <= 1.0
    ensures var raw := Dot(Sub(p, s), Sub(e, s)) / NormSq(Sub(e, s));
            0.0 <= raw <= 1.0 ==> t == raw
  {
    Clamp(0.0, 1.0, Dot(Sub(p, s), Sub(e, s)) / NormSq(Sub(e, s)))
  }

  /** The point of the segment `s`-`e` that the source measures from: `s` itself
      for a segment of zero length, the clamped projection otherwise. */
  function ClosestPoint(s: Point, e: Point, p: Point): Point
  {
    if NormSq(Sub(e, s)) == 0.0 then s
    else Add(s, Scale(ProjectionParam(s, e, p), Sub(e, s)))
  }

  /** The point at parameter `u` of the segment `s`-`e`. */
  function PointAt(s: Point, e: Point, u: real): Point
  {
    Add(s, Scale(u, Sub(e, s)))
  }

  /** The squared distance from `p` to the segment `s`-`e`. */
  function SegmentDistSq(s: Point, e: Point, p: Point): real
  {
    NormSq(Sub(p, ClosestPoint(s, e, p)))
  }

  /** For `L > 0`, the quadratic `W - 2uD + u^2 L` is smallest over [0, 1] at the
      clamped vertex `t`. */
  lemma ClampedVertexIsMinimal(l: real, d: real, w: real, t: real, u: real)
    requires l > 0.0 && 0.0 <= u <= 1.0 && t == Clamp(0.0, 1.0, d / l)
    ensures w - 2.0 * t * d + t * t * l <= w - 2.0 * u * d + u * u * l
  {
    var raw := d / l;
    assert raw * l == d;
    if raw < 0.0 {
      assert d < 0.0 by {
        var rl := raw * l;
        assert rl < 0.0;
      }
      QuadraticBelowVertex(l, d, u);
    } else if raw > 1.0 {
      assert d > l by {
        var rl := raw * l;
        assert rl > 1.0 * l;
      }
      QuadraticAboveVertex(l, d, u);
    } else {
      QuadraticAtVertex(l, d, t, u);
    }
  }

  /** A vertex left of [0, 1]: the quadratic is smallest at 0. */
  lemma QuadraticBelowVertex(l: real, d: real, u: real)
    requires l > 0.0 && d < 0.0 && 0.0 <= u <= 1.0
    ensures 0.0 <= -2.0 * u * d + u * u * l
  {
    var ud, uul := u * d, u * u * l;
    assert ud <= 0.0;
    assert uul >= 0.0;
  }

  /** A vertex right of [0, 1]: the quadratic is smallest at 1, since the
      difference is `(1 - u)(2d - (1 + u) l) >= 0`. */
  lemma QuadraticAboveVertex(l: real, d: real, u: real)
    requires l > 0.0 && d > l && 0.0 <= u <= 1.0
    ensures -2.0 * d + l <= -2.0 * u * d + u * u * l
  {
    var k := 1.0 - u;
    assert k >= 0.0;
    var m := 2.0 * d - (1.0 + u) * l;
    assert (1.0 + u) * l <= 2.0 * l;
    assert m >= 0.0;
    var km := k * m;
    assert km >= 0.0;
    assert km == (-2.0 * u * d + u * u * l) - (-2.0 * d + l);
  }

  /** A vertex `t` in [0, 1]: the difference is `l (u - t)^2 >= 0`. */
  lemma QuadraticAtVertex(l: real, d: real, t: real, u: real)
    requires l > 0.0 && d == t * l
    ensures -2.0 * t * d + t * t * l <= -2.0 * u * d + u * u * l
  {
    var du := u - t;
    var sq := du * du;
    assert sq >= 0.0;
    var lsq := l * sq;
    assert lsq >= 0.0;
    assert lsq == (-2.0 * u * d + u * u * l) - (-2.0 * t * d + t * t * l);
  }

  /** Moving along the segment is subtracting a multiple of its direction. */
  lemma SubPointAt(s: Point, e: Point, p: Point, u: real)
    ensures Sub(p, PointAt(s, e, u)) == Sub(Sub(p, s), Scale(u, Sub(e, s)))
  {
  }

  /** Along a direction `v` of positive length, `w - t v` is shortest over
      `t` in [0, 1] at the clamped projection parameter. */
  lemma ClampedProjectionIsMinimal(w: Point, v: Point, u: real)
    requires NormSq(v) != 0.0 && 0.0 <= u <= 1.0
    ensures NormSq(Sub(w, Scale(Clamp(0.0, 1.0, Dot(w, v) / NormSq(v)), v))) <= NormSq(Sub(w, Scale(u, v)))
  {
    var t := Clamp(0.0, 1.0, Dot(w, v) / NormSq(v));
    ProjectionQuadraticBound(w, v, t, u);
    NormSqSubScale(w, v, t);
    NormSqSubScale(w, v, u);
  }

  /** `ClampedVertexIsMinimal` for the quadratic `|w - k v|^2` in `k`. */
  lemma ProjectionQuadraticBound(w: Point, v: Point, t: real, u: real)
    requires NormSq(v) != 0.0 && 0.0 <= u <= 1.0 && t == Clamp(0.0, 1.0, Dot(w, v) / NormSq(v))
    ensures NormSq(w) - 2.0 * t * Dot(w, v) + t * t * NormSq(v) <= NormSq(w) - 2.0 * u * Dot(w, v) + u * u * NormSq(v)
  {
    NormSqNonNegative(v);
    ClampedVertexIsMinimal(NormSq(v), Dot(w, v), NormSq(w), t, u);
  }

  /** `SegmentDistSq` is the minimum of the squared distance from `p` over all
      points of the segment. */
  lemma SegmentDistIsMinimal(s: Point, e: Point, p: Point, u: real)
    requires 0.0 <= u <= 1.0
    ensures SegmentDistSq(s, e, p) <= NormSq(Sub(p, PointAt(s, e, u)))
  {
    SubPointAt(s, e, p, u);
    if Sub(e, s) == Point(0.0, 0.0, 0.0) {
      assert Sub(p, PointAt(s, e, u)) == Sub(p, s);
    } else {
      NormSqPositive(Sub(e, s));
      var t := ProjectionParam(s, e, p);
      SubPointAt(s, e, p, t);
      assert SegmentDistSq(s, e, p) == NormSq(Sub(Sub(p, s), Scale(t, Sub(e, s))));
      ClampedProjectionIsMinimal(Sub(p, s), Sub(e, s), u);
    }
  }

  /** For a segment of zero length `SegmentDistSq` is the squared distance to `s`. */
  lemma SegmentDistDegenerate(s: Point, e: Point, p: Point)
    requires NormSq(Sub(e, s)) == 0.0
    ensures SegmentDistSq(s, e, p) == NormSq(Sub(p, s))
  {
  }

  /** `_point_to_line_distance`: the square root of `SegmentDistSq`. */
  function PointToLineDistance(sqrt: real -> real, s: Point, e: Point, p: Point): (d: real)
    requires IsSqrt(sqrt)
    ensures d >= 0.0
  {
    sqrt(SegmentDistSq(s, e, p))
  }

  /** The distance from `p` to the segment is never more than the distance to
      either endpoint, and is the distance to `s` when the segment has zero
      length. */
  lemma PointToLineDistanceBounds(sqrt: real -> real, s: Point, e: Point, p: Point)
    requires IsSqrt(sqrt)
    ensures var d := PointToLineDistance(sqrt, s, e, p);
      && d <= sqrt(NormSq(Sub(p, s))) && d <= sqrt(NormSq(Sub(p, e)))
      && (NormSq(Sub(e, s)) == 0.0 ==> d == sqrt(NormSq(Sub(p, s))))
  {
    SegmentDistIsMinimal(s, e, p, 0.0);
    SegmentDistIsMinimal(s, e, p, 1.0);
    if NormSq(Sub(e, s)) == 0.0 {
      SegmentDistDegenerate(s, e, p);
    }
    assert PointAt(s, e, 0.0) == s;
    assert PointAt(s, e, 1.0) == e;
    SqrtLess(sqrt, NormSq(Sub(p, s)), SegmentDistSq(s, e, p));
    SqrtLess(sqrt, NormSq(Sub(p, e)), SegmentDistSq(s, e, p));
  }

  // ---------------------------------------------------------------------------
  // Clearance (`_is_path_clear`)

  /** No obstacle is strictly closer than `safetyRadius` to the segment `s`-`g`. */
  ghost predicate SegmentClear(sqrt: real -> real, s: Point, g: Point, obstacles: seq<Point>, safetyRadius: real)
    requires IsSqrt(sqrt)
  {
    forall i :: 0 <= i < |obstacles| ==> PointToLineDistance(sqrt, s, g, obstacles[i]) >= safetyRadius
  }

  /** The clearance test needs no square root: an obstacle intrudes exactly when
      the radius is positive and the squared distance is below its square. */
  lemma ClearIffSquared(sqrt: real -> real, s: Point, g: Point, obstacles: seq<Point>, safetyRadius: real)
    requires IsSqrt(sqrt)
    ensures SegmentClear(sqrt, s, g, obstacles, safetyRadius) <==>
            forall i :: 0 <= i < |obstacles| ==>
              !(safetyRadius > 0.0 && SegmentDistSq(s, g, obstacles[i]) < safetyRadius * safetyRadius)
  {
    forall i | 0 <= i < |obstacles|
      ensures PointToLineDistance(sqrt, s, g, obstacles[i]) < safetyRadius <==>
              safetyRadius > 0.0 && SegmentDistSq(s, g, obstacles[i]) < safetyRadius * safetyRadius
    {
      var dsq := SegmentDistSq(s, g, obstacles[i]);
      assert PointToLineDistance(sqrt, s, g, obstacles[i]) == sqrt(dsq);
      assert dsq >= 0.0;
      SqrtLessThan(sqrt, dsq, safetyRadius);
    }
  }

  /** `_is_path_clear`: scans the obstacles and rejects on the first one strictly
      closer than the safety radius; an empty list is always clear. */
  method IsPathClear(sqrt: real -> real, start: Point, goal: Point, obstacles: seq<Point>, safetyRadius: real)
    returns (clear: bool)
    requires IsSqrt(sqrt)
    ensures clear <==> SegmentClear(sqrt, start, goal, obstacles, safetyRadius)
    ensures |obstacles| == 0 ==> clear
  {
    for i := 0 to |obstacles|
      invariant SegmentClear(sqrt, start, goal, obstacles[..i], safetyRadius)
    {
      var distance := PointToLineDistance(sqrt, start, goal, obstacles[i]);
      if distance < safetyRadius {
        return false;
      }
    }
    assert obstacles[..|obstacles|] == obstacles;
    return true;
  }

  // ---------------------------------------------------------------------------
  // Detours (`_find_detour_path`, `_calculate_detour_midpoint`)

  /** The closest-obstacle scan of `_find_detour_path`: the index of the first
      obstacle at minimal distance from the segment, `None` when there is none. */
  method ClosestObstacle(sqrt: real -> real, start: Point, goal: Point, obstacles: seq<Point>)
    returns (closest: Option<nat>)
    requires IsSqrt(sqrt)
    ensures closest.None? <==> |obstacles| == 0
    ensures closest.Some? ==>
      && closest.value < |obstacles|
      && (forall i :: 0 <= i < |obstacles| ==>
            PointToLineDistance(sqrt, start, goal, obstacles[closest.value]) <= PointToLineDistance(sqrt, start, goal, obstacles[i]))
      && (forall i :: 0 <= i < closest.value ==>
            PointToLineDistance(sqrt, start, goal, obstacles[closest.value]) < PointToLineDistance(sqrt, start, goal, obstacles[i]))
  {
    closest := None;
    var minDistance: Option<real> := None;  // None is float('inf')
    for i := 0 to |obstacles|
      invariant closest.None? <==> i == 0
      invariant closest.None? <==> minDistance.None?
      invariant closest.Some? ==>
        && closest.value < i
        && minDistance.value == PointToLineDistance(sqrt, start, goal, obstacles[closest.value])
        && (forall k :: 0 <= k < i ==> minDistance.value <= PointToLineDistance(sqrt, start, goal, obstacles[k]))
        && (forall k :: 0 <= k < closest.value ==> minDistance.value < PointToLineDistance(sqrt, start, goal, obstacles[k]))
    {
      var distance := PointToLineDistance(sqrt, start, goal, obstacles[i]);
      if minDistance.None? || distance < minDistance.value {
        minDistance := Some(distance);
        closest := Some(i);
      }
    }
  }

  /** The unit perpendicular of `_calculate_detour_midpoint` AS WRITTEN: the
      normalised cross product, or, when that vanishes, `(0, 0, 1)` for a goal
      vector with no z part and `(1, 0, 0)` otherwise. */
  function DetourDirectionAsWritten(sqrt: real -> real, goalVec: Point, offsetVec: Point): (u: Point)
    requires IsSqrt(sqrt)
    ensures NormSq(u) == 1.0
  {
    var perpendicular := Cross(goalVec, offsetVec);
    var perpendicularLength := sqrt(NormSq(perpendicular));
    if perpendicularLength == 0.0 then
      (if goalVec.z == 0.0 then Point(0.0, 0.0, 1.0) else Point(1.0, 0.0, 0.0))
    else
      UnitOf(sqrt, perpendicular)
  }

  /** `a` divided by its length, for a nonzero `a` (the normalisation step). */
  function UnitOf(sqrt: real -> real, a: Point): (u: Point)
    requires IsSqrt(sqrt) && sqrt(NormSq(a)) != 0.0
    ensures NormSq(u) == 1.0
  {
    var len := sqrt(NormSq(a));
    var lenSq := len * len;
    NormSqNonNegative(a);
    assert lenSq == NormSq(a);
    SqrtZero(sqrt);
    assert lenSq != 0.0;
    var u := DivBy(a, len);
    var uu := NormSq(u);
    NormSqDivBy(a, len);
    CancelFactor(uu, lenSq, NormSq(a));
    u
  }

  /** Normalising keeps a vector perpendicular to whatever it was perpendicular to. */
  lemma UnitOfPerpendicular(sqrt: real -> real, a: Point, b: Point)
    requires IsSqrt(sqrt) && sqrt(NormSq(a)) != 0.0 && Dot(a, b) == 0.0
    ensures Dot(UnitOf(sqrt, a), b) == 0.0
  {
    var len := sqrt(NormSq(a));
    DotDivBy(a, b, len);
  }

  /** The corrected unit perpendicular: as written, except that when the cross
      product vanishes and the goal vector has both an x and a z part, the
      fallback is the unit vector along `(gz, 0, -gx)`, which is perpendicular. */
  function DetourDirection(sqrt: real -> real, goalVec: Point, offsetVec: Point): (u: Point)
    requires IsSqrt(sqrt)
    ensures NormSq(u) == 1.0
    ensures NormSq(goalVec) != 0.0 ==> Dot(u, goalVec) == 0.0
  {
    var perpendicular := Cross(goalVec, offsetVec);
    var perpendicularLength := sqrt(NormSq(perpendicular));
    if perpendicularLength == 0.0 then
      if goalVec.z == 0.0 then Point(0.0, 0.0, 1.0)
      else if goalVec.x == 0.0 then Point(1.0, 0.0, 0.0)
      else SideUnit(sqrt, goalVec)
    else
      UnitOfPerpendicular(sqrt, perpendicular, goalVec);
      UnitOf(sqrt, perpendicular)
  }

  /** The fallback of the corrected direction: the unit vector along
      `(gz, 0, -gx)`, perpendicular to a goal vector `g` with a z part. */
  function SideUnit(sqrt: real -> real, g: Point): (u: Point)
    requires IsSqrt(sqrt) && g.z != 0.0
    ensures NormSq(u) == 1.0 && Dot(u, g) == 0.0
  {
    var side := Point(g.z, 0.0, -g.x);
    NormSqPositive(side);
    SqrtPositive(sqrt, NormSq(side));
    assert Dot(side, g) == 0.0;
    UnitOfPerpendicular(sqrt, side, g);
    UnitOf(sqrt, side)
  }

  /** The detour point for direction `u`: the clamped projection of the obstacle
      moved by `1.5 * safetyRadius` along `u`; `start` when start equals goal.
      For a unit `u` the point lies `1.5 * safetyRadius` from the projection, and
      its offset is perpendicular to the goal direction whenever `u` is. */
  function DetourPoint(start: Point, goal: Point, obstacle: Point, safetyRadius: real, u: Point): (m: Point)
    ensures NormSq(Sub(goal, start)) == 0.0 ==> m == start
    ensures NormSq(Sub(goal, start)) != 0.0 ==>
      var off := Sub(m, ClosestPoint(start, goal, obstacle));
      && (NormSq(u) == 1.0 ==> NormSq(off) == (1.5 * safetyRadius) * (1.5 * safetyRadius))
      && (Dot(u, Sub(goal, start)) == 0.0 ==> Dot(off, Sub(goal, start)) == 0.0)
  {
    if NormSq(Sub(goal, start)) == 0.0 then start
    else
      var c := safetyRadius * 1.5;
      var m := Add(ClosestPoint(start, goal, obstacle), Scale(c, u));
      assert Sub(m, ClosestPoint(start, goal, obstacle)) == Scale(c, u);
      NormSqScale(c, u);
      assert c == 1.5 * safetyRadius;
      DotScale(c, u, Sub(goal, start));
      m
  }

  /** `_calculate_detour_midpoint` AS WRITTEN: `start` when start equals goal,
      otherwise the clamped projection of the obstacle moved `1.5 * safetyRadius`
      along `DetourDirectionAsWritten`. */
  function DetourMidpointAsWritten(sqrt: real -> real, start: Point, goal: Point, obstacle: Point, safetyRadius: real): (m: Point)
    requires IsSqrt(sqrt)
    ensures start == goal ==> m == start
  {
    var goalVec := Sub(goal, start);
    if NormSq(goalVec) == 0.0 then start
    else
      assert start != goal;
      var projected := ClosestPoint(start, goal, obstacle);
      DetourPoint(start, goal, obstacle, safetyRadius, DetourDirectionAsWritten(sqrt, goalVec, Sub(obstacle, projected)))
  }

  /** The corrected detour midpoint: as written, with `DetourDirection` in
      place of `DetourDirectionAsWritten`. */
  function DetourMidpoint(sqrt: real -> real, start: Point, goal: Point, obstacle: Point, safetyRadius: real): (m: Point)
    requires IsSqrt(sqrt)
    ensures start == goal ==> m == start
  {
    var goalVec := Sub(goal, start);
    if NormSq(goalVec) == 0.0 then start
    else
      assert start != goal;
      var projected := ClosestPoint(start, goal, obstacle);
      DetourPoint(start, goal, obstacle, safetyRadius, DetourDirection(sqrt, goalVec, Sub(obstacle, projected)))
  }

  /** Otherwise the as-written midpoint lies `1.5 * safetyRadius` from the
      projection of the obstacle. */
  lemma DetourMidpointAsWrittenOffset(sqrt: real -> real, start: Point, goal: Point, obstacle: Point, safetyRadius: real)
    requires IsSqrt(sqrt) && start != goal
    ensures var m := DetourMidpointAsWritten(sqrt, start, goal, obstacle, safetyRadius);
            NormSq(Sub(m, ClosestPoint(start, goal, obstacle))) == (1.5 * safetyRadius) * (1.5 * safetyRadius)
  {
    var goalVec := Sub(goal, start);
    NormSqPositive(goalVec);
    var u := DetourDirectionAsWritten(sqrt, goalVec, Sub(obstacle, ClosestPoint(start, goal, obstacle)));
    assert DetourMidpointAsWritten(sqrt, start, goal, obstacle, safetyRadius) == DetourPoint(start, goal, obstacle, safetyRadius, u);
    assert NormSq(u) == 1.0;
  }

  /** Otherwise the corrected midpoint lies `1.5 * safetyRadius` from the
      projection of the obstacle, in a direction perpendicular to the start-goal
      line. */
  lemma DetourMidpointOffset(sqrt: real -> real, start: Point, goal: Point, obstacle: Point, safetyRadius: real)
    requires IsSqrt(sqrt) && start != goal
    ensures var m := DetourMidpoint(sqrt, start, goal, obstacle, safetyRadius);
            && NormSq(Sub(m, ClosestPoint(start, goal, obstacle))) == (1.5 * safetyRadius) * (1.5 * safetyRadius)
            && Dot(Sub(m, ClosestPoint(start, goal, obstacle)), Sub(goal, start)) == 0.0
  {
    var goalVec := Sub(goal, start);
    NormSqPositive(goalVec);
    var u := DetourDirection(sqrt, goalVec, Sub(obstacle, ClosestPoint(start, goal, obstacle)));
    assert DetourMidpoint(sqrt, start, goal, obstacle, safetyRadius) == DetourPoint(start, goal, obstacle, safetyRadius, u);
    assert NormSq(u) == 1.0 && Dot(u, goalVec) == 0.0;
  }

  /** The two directions agree except in the one case the correction changes:
      the cross product has length zero while the goal vector has both an x and
      a z part. */
  lemma DetourDirectionAgrees(sqrt: real -> real, goalVec: Point, offsetVec: Point)
    requires IsSqrt(sqrt)
    requires goalVec.x == 0.0 || goalVec.z == 0.0 || sqrt(NormSq(Cross(goalVec, offsetVec))) != 0.0
    ensures DetourDirection(sqrt, goalVec, offsetVec) == DetourDirectionAsWritten(sqrt, goalVec, offsetVec)
  {
    var perpendicular := Cross(goalVec, offsetVec);
    if sqrt(NormSq(perpendicular)) != 0.0 {
      assert DetourDirection(sqrt, goalVec, offsetVec) == UnitOf(sqrt, perpendicular);
      assert DetourDirectionAsWritten(sqrt, goalVec, offsetVec) == UnitOf(sqrt, perpendicular);
    } else if goalVec.z == 0.0 {
      assert DetourDirection(sqrt, goalVec, offsetVec) == Point(0.0, 0.0, 1.0);
      assert DetourDirectionAsWritten(sqrt, goalVec, offsetVec) == Point(0.0, 0.0, 1.0);
    } else {
      assert DetourDirection(sqrt, goalVec, offsetVec) == Point(1.0, 0.0, 0.0);
      assert DetourDirectionAsWritten(sqrt, goalVec, offsetVec) == Point(1.0, 0.0, 0.0);
    }
  }

  /** The length test of `_calculate_detour_midpoint` fails only for a zero cross
      product. */
  lemma CrossLengthPositive(sqrt: real -> real, goalVec: Point, offsetVec: Point)
    requires IsSqrt(sqrt) && Cross(goalVec, offsetVec) != Point(0.0, 0.0, 0.0)
    ensures sqrt(NormSq(Cross(goalVec, offsetVec))) != 0.0
  {
    NormSqPositive(Cross(goalVec, offsetVec));
    SqrtPositive(sqrt, NormSq(Cross(goalVec, offsetVec)));
  }

  /** Hence the two midpoints agree in every other case. */
  lemma DetourMidpointAgrees(sqrt: real -> real, start: Point, goal: Point, obstacle: Point, safetyRadius: real)
    requires IsSqrt(sqrt)
    requires var goalVec := Sub(goal, start);
      goalVec.x == 0.0 || goalVec.z == 0.0 ||
      sqrt(NormSq(Cross(goalVec, Sub(obstacle, ClosestPoint(start, goal, obstacle))))) != 0.0
    ensures DetourMidpoint(sqrt, start, goal, obstacle, safetyRadius) ==
            DetourMidpointAsWritten(sqrt, start, goal, obstacle, safetyRadius)
  {
    DetourDirectionAgrees(sqrt, Sub(goal, start), Sub(obstacle, ClosestPoint(start, goal, obstacle)));
  }

  /** The as-written fallback is not perpendicular: whenever the obstacle lies
      on the start-goal line (the cross product vanishes) and the goal vector has
      both an x and a z part, the fallback `(1, 0, 0)` is taken and the offset of
      the midpoint from the projection has dot product `1.5 * safetyRadius * x`
      with the goal vector, which is nonzero for a positive radius. */
  lemma DetourMidpointAsWrittenNotPerpendicular(sqrt: real -> real, start: Point, goal: Point, obstacle: Point, safetyRadius: real)
    requires IsSqrt(sqrt)
    requires var goalVec := Sub(goal, start);
      && goalVec.x != 0.0 && goalVec.z != 0.0
      && Cross(goalVec, Sub(obstacle, ClosestPoint(start, goal, obstacle))) == Point(0.0, 0.0, 0.0)
    ensures var m := DetourMidpointAsWritten(sqrt, start, goal, obstacle, safetyRadius);
            Dot(Sub(m, ClosestPoint(start, goal, obstacle)), Sub(goal, start)) == 1.5 * safetyRadius * (goal.x - start.x)
  {
    var goalVec := Sub(goal, start);
    var projected := ClosestPoint(start, goal, obstacle);
    NormSqPositive(goalVec);
    SqrtZero(sqrt);
    var u := DetourDirectionAsWritten(sqrt, goalVec, Sub(obstacle, projected));
    assert u == Point(1.0, 0.0, 0.0);
    var m := DetourPoint(start, goal, obstacle, safetyRadius, u);
    assert DetourMidpointAsWritten(sqrt, start, goal, obstacle, safetyRadius) == m;
    assert Sub(m, projected) == Scale(safetyRadius * 1.5, u);
  }

  /** The case occurs: start (0,0,0), goal (1,0,1) and an obstacle on the segment
      at (0.5,0,0.5) meet the conditions above, and for a radius of 0.3 the dot
      product is 0.45. */
  lemma NotPerpendicularWitness(start: Point, goal: Point, obstacle: Point)
    requires start == Point(0.0, 0.0, 0.0) && goal == Point(1.0, 0.0, 1.0) && obstacle == Point(0.5, 0.0, 0.5)
    ensures var goalVec := Sub(goal, start);
      && goalVec.x != 0.0 && goalVec.z != 0.0
      && Cross(goalVec, Sub(obstacle, ClosestPoint(start, goal, obstacle))) == Point(0.0, 0.0, 0.0)
      && 1.5 * 0.3 * (goal.x - start.x) == 0.45
  {
    WitnessProjection(start, goal, obstacle);
    var offsetVec := Sub(obstacle, ClosestPoint(start, goal, obstacle));
    assert offsetVec == Point(0.0, 0.0, 0.0);
  }

  lemma WitnessProjection(start: Point, goal: Point, obstacle: Point)
    requires start == Point(0.0, 0.0, 0.0) && goal == Point(1.0, 0.0, 1.0) && obstacle == Point(0.5, 0.0, 0.5)
    ensures ClosestPoint(start, goal, obstacle) == obstacle
  {
    var goalVec := Sub(goal, start);
    assert goalVec == Point(1.0, 0.0, 1.0);
    assert NormSq(goalVec) == 2.0;
    assert Dot(Sub(obstacle, start), goalVec) == 1.0;
    var t := ProjectionParam(start, goal, obstacle);
    assert t == 0.5;
    assert Scale(t, goalVec) == Point(0.5, 0.0, 0.5);
  }

  /** Every segment of `path` is clear of every obstacle. */
  ghost predicate PathSafe(sqrt: real -> real, path: seq<Point>, obstacles: seq<Point>, safetyRadius: real)
    requires IsSqrt(sqrt)
  {
    forall i :: 0 <= i < |path| - 1 ==> SegmentClear(sqrt, path[i], path[i + 1], obstacles, safetyRadius)
  }

  /** The splice `detour1[:-1] + detour2` of two safe paths that meet at a shared
      point is safe, starts where `detour1` starts and ends where `detour2` ends. */
  lemma {:induction false} SpliceSafe(sqrt: real -> real, d1: seq<Point>, d2: seq<Point>, obstacles: seq<Point>, safetyRadius: real)
    requires IsSqrt(sqrt)
    requires |d1| >= 2 && |d2| >= 2 && d1[|d1| - 1] == d2[0]
    requires PathSafe(sqrt, d1, obstacles, safetyRadius) && PathSafe(sqrt, d2, obstacles, safetyRadius)
    ensures var p := d1[..|d1| - 1] + d2;
      && |p| >= 3 && p[0] == d1[0] && p[|p| - 1] == d2[|d2| - 1]
      && PathSafe(sqrt, p, obstacles, safetyRadius)
  {
    var p := d1[..|d1| - 1] + d2;
    var n := |d1| - 1;
    forall i | 0 <= i < |p| - 1
      ensures SegmentClear(sqrt, p[i], p[i + 1], obstacles, safetyRadius)
    {
      if i + 1 < n {
        assert p[i] == d1[i] && p[i + 1] == d1[i + 1];
      } else if i + 1 == n {
        assert p[i] == d1[i] && p[i + 1] == d2[0] == d1[i + 1];
      } else {
        assert p[i] == d2[i - n] && p[i + 1] == d2[i - n + 1];
      }
    }
  }

  /** `_find_detour_path`, cut off after `fuel` levels of recursion (the source
      has no bound; `None` stands for the recursion running out). Every path it
      returns runs from `start` to `goal` and every segment of it is clear. */
  method FindDetourPath(sqrt: real -> real, start: Point, goal: Point, obstacles: seq<Point>, safetyRadius: real, fuel: nat)
    returns (path: Option<seq<Point>>)
    requires IsSqrt(sqrt)
    ensures |obstacles| == 0 ==> path == Some([start, goal])
    ensures path.Some? ==>
      && |path.value| >= 2 && path.value[0] == start && path.value[|path.value| - 1] == goal
      && PathSafe(sqrt, path.value, obstacles, safetyRadius)
    decreases fuel
  {
    var closest := ClosestObstacle(sqrt, start, goal, obstacles);
    if closest.None? {
      return Some([start, goal]);
    }
    var midpoint := DetourMidpointAsWritten(sqrt, start, goal, obstacles[closest.value], safetyRadius);
    var clear1 := IsPathClear(sqrt, start, midpoint, obstacles, safetyRadius);
    var clear2 := IsPathClear(sqrt, midpoint, goal, obstacles, safetyRadius);
    if clear1 && clear2 {
      return Some([start, midpoint, goal]);
    }
    if fuel == 0 {
      return None;
    }
    var detour1: Option<seq<Point>> := Some([start, midpoint]);
    if !clear1 {
      detour1 := FindDetourPath(sqrt, start, midpoint, obstacles, safetyRadius, fuel - 1);
    }
    var detour2: Option<seq<Point>> := Some([midpoint, goal]);
    if !clear2 {
      detour2 := FindDetourPath(sqrt, midpoint, goal, obstacles, safetyRadius, fuel - 1);
    }
    if detour1.None? || detour2.None? {
      return None;
    }
    SpliceSafe(sqrt, detour1.value, detour2.value, obstacles, safetyRadius);
    return Some(detour1.value[..|detour1.value| - 1] + detour2.value);
  }

  /** `plan_path`: the direct segment when it is clear, a detour path otherwise. */
  method PlanPath(sqrt: real -> real, start: Point, goal: Point, obstacles: seq<Point>, safetyRadius: real, fuel: nat)
    returns (path: Option<seq<Point>>)
    requires IsSqrt(sqrt)
    ensures SegmentClear(sqrt, start, goal, obstacles, safetyRadius) ==> path == Some([start, goal])
    ensures path.Some? ==>
      && |path.value| >= 2 && path.value[0] == start && path.value[|path.value| - 1] == goal
      && PathSafe(sqrt, path.value, obstacles, safetyRadius)
  {
    var clear := IsPathClear(sqrt, start, goal, obstacles, safetyRadius);
    if clear {
      return Some([start, goal]);
    }
    path := FindDetourPath(sqrt, start, goal, obstacles, safetyRadius, fuel);
  }

  // ---------------------------------------------------------------------------
  // Path metrics (`validate_path`)

  /** The metrics dictionary of `validate_path`; `reason` and `waypoints` are the
      keys present in only one of its two shapes, `minSeparation == None` is
      `float('inf')`. */
  datatype Report = Report(
    valid: bool,
    reason: Option<string>,
    pathLength: real,
    minSeparation: Option<real>,
    success: bool,
    waypoints: Option<nat>)

  function SegmentLength(sqrt: real -> real, a: Point, b: Point): real
    requires IsSqrt(sqrt)
  {
    sqrt(NormSq(Sub(b, a)))
  }

  /** The sum of the segment lengths of `path`. */
  function PathLength(sqrt: real -> real, path: seq<Point>): (len: real)
    requires IsSqrt(sqrt)
    ensures len >= 0.0
    ensures |path| == 2 ==> len == SegmentLength(sqrt, path[0], path[1])
  {
    if |path| < 2 then 0.0
    else PathLength(sqrt, path[..|path| - 1]) + SegmentLength(sqrt, path[|path| - 2], path[|path| - 1])
  }

  /** `min(current, d)` where `None` is infinity. */
  function MinWith(current: Option<real>, d: real): Option<real>
  {
    if current.None? then Some(d) else Some(Min(current.value, d))
  }

  /** The minimum of two values where `None` is infinity. */
  function MinOf(a: Option<real>, b: Option<real>): Option<real>
  {
    if a.None? then b else if b.None? then a else Some(Min(a.value, b.value))
  }

  /** Folding one more distance into a running minimum. */
  lemma MinWithAssociates(a: Option<real>, b: Option<real>, d: real)
    ensures MinWith(MinOf(a, b), d) == MinOf(a, MinWith(b, d))
  {
  }

  /** The least distance from the segment `a`-`b` to any obstacle;
      `None` (infinity) exactly when there is no obstacle. */
  function SegmentSeparation(sqrt: real -> real, a: Point, b: Point, obstacles: seq<Point>): (m: Option<real>)
    requires IsSqrt(sqrt)
    ensures m.None? <==> |obstacles| == 0
  {
    if |obstacles| == 0 then None
    else MinWith(SegmentSeparation(sqrt, a, b, obstacles[..|obstacles| - 1]), PointToLineDistance(sqrt, a, b, obstacles[|obstacles| - 1]))
  }

  /** The separation of a segment is a lower bound of its distance to every
      obstacle. */
  lemma {:induction false} SegmentSeparationLower(sqrt: real -> real, a: Point, b: Point, obstacles: seq<Point>, j: nat)
    requires IsSqrt(sqrt)
    requires j < |obstacles|
    ensures SegmentSeparation(sqrt, a, b, obstacles).Some?
    ensures SegmentSeparation(sqrt, a, b, obstacles).value <= PointToLineDistance(sqrt, a, b, obstacles[j])
  {
    var k := |obstacles| - 1;
    if j < k {
      SegmentSeparationLower(sqrt, a, b, obstacles[..k], j);
      assert obstacles[..k][j] == obstacles[j];
    }
  }

  /** The separation of a segment, when finite, is its distance to obstacle `j`. */
  lemma {:induction false} SegmentSeparationWitness(sqrt: real -> real, a: Point, b: Point, obstacles: seq<Point>)
    returns (j: nat)
    requires IsSqrt(sqrt)
    requires SegmentSeparation(sqrt, a, b, obstacles).Some?
    ensures j < |obstacles| && SegmentSeparation(sqrt, a, b, obstacles).value == PointToLineDistance(sqrt, a, b, obstacles[j])
  {
    var k := |obstacles| - 1;
    var rest := SegmentSeparation(sqrt, a, b, obstacles[..k]);
    var d := PointToLineDistance(sqrt, a, b, obstacles[k]);
    if rest.Some? && rest.value <= d {
      j := SegmentSeparationWitness(sqrt, a, b, obstacles[..k]);
      assert obstacles[..k][j] == obstacles[j];
    } else {
      j := k;
    }
  }

  /** Taking one more obstacle into the segment's separation. */
  lemma SegmentSeparationStep(sqrt: real -> real, a: Point, b: Point, obstacles: seq<Point>, j: nat)
    requires IsSqrt(sqrt)
    requires j < |obstacles|
    ensures SegmentSeparation(sqrt, a, b, obstacles[..j + 1]) ==
            MinWith(SegmentSeparation(sqrt, a, b, obstacles[..j]), PointToLineDistance(sqrt, a, b, obstacles[j]))
  {
    assert obstacles[..j + 1][..j] == obstacles[..j];
  }

  /** The least distance from the first `n` segments of `path` to any obstacle. */
  function SeparationPrefix(sqrt: real -> real, path: seq<Point>, obstacles: seq<Point>, n: nat): Option<real>
    requires IsSqrt(sqrt) && n < |path|
  {
    if n == 0 then None
    else MinOf(SeparationPrefix(sqrt, path, obstacles, n - 1), SegmentSeparation(sqrt, path[n - 1], path[n], obstacles))
  }

  /** Taking one more segment into the separation. */
  lemma SeparationPrefixStep(sqrt: real -> real, path: seq<Point>, obstacles: seq<Point>, i: nat)
    requires IsSqrt(sqrt) && i + 1 < |path|
    ensures SeparationPrefix(sqrt, path, obstacles, i + 1) ==
            MinOf(SeparationPrefix(sqrt, path, obstacles, i), SegmentSeparation(sqrt, path[i], path[i + 1], obstacles))
  {
  }

  /** The separation of the first `n` segments is infinite exactly when there is no
      segment or no obstacle. */
  lemma {:induction false} SeparationPrefixNone(sqrt: real -> real, path: seq<Point>, obstacles: seq<Point>, n: nat)
    requires IsSqrt(sqrt)
    requires n < |path|
    ensures SeparationPrefix(sqrt, path, obstacles, n).None? <==> n == 0 || |obstacles| == 0
  {
    if n > 0 {
      SeparationPrefixNone(sqrt, path, obstacles, n - 1);
    }
  }

  /** The separation of the first `n` segments is a lower bound of every
      segment/obstacle distance among them. */
  lemma {:induction false} SeparationPrefixLower(sqrt: real -> real, path: seq<Point>, obstacles: seq<Point>, n: nat,
                                                 i: nat, j: nat)
    requires IsSqrt(sqrt)
    requires n < |path| && i < n && j < |obstacles|
    ensures SeparationPrefix(sqrt, path, obstacles, n).Some?
    ensures SeparationPrefix(sqrt, path, obstacles, n).value <= PointToLineDistance(sqrt, path[i], path[i + 1], obstacles[j])
  {
    var rest := SeparationPrefix(sqrt, path, obstacles, n - 1);
    var last := SegmentSeparation(sqrt, path[n - 1], path[n], obstacles);
    if i < n - 1 {
      SeparationPrefixLower(sqrt, path, obstacles, n - 1, i, j);
      assert rest.Some?;
    } else {
      SegmentSeparationLower(sqrt, path[n - 1], path[n], obstacles, j);
    }
  }

  /** The separation of the first `n` segments, when finite, is the distance of
      segment `i` to obstacle `j`. */
  lemma {:induction false} SeparationPrefixWitness(sqrt: real -> real, path: seq<Point>, obstacles: seq<Point>, n: nat)
    returns (i: nat, j: nat)
    requires IsSqrt(sqrt)
    requires n < |path| && SeparationPrefix(sqrt, path, obstacles, n).Some?
    ensures i < n && j < |obstacles|
    ensures SeparationPrefix(sqrt, path, obstacles, n).value == PointToLineDistance(sqrt, path[i], path[i + 1], obstacles[j])
  {
    var rest := SeparationPrefix(sqrt, path, obstacles, n - 1);
    var last := SegmentSeparation(sqrt, path[n - 1], path[n], obstacles);
    if rest.Some? && (last.None? || rest.value <= last.value) {
      i, j := SeparationPrefixWitness(sqrt, path, obstacles, n - 1);
    } else {
      i := n - 1;
      j := SegmentSeparationWitness(sqrt, path[n - 1], path[n], obstacles);
    }
  }

  /** The `minSeparation` of `validate_path` for a path of at least two points:
      it stays `float('inf')` exactly when there are no obstacles. */
  function MinSeparation(sqrt: real -> real, path: seq<Point>, obstacles: seq<Point>): (m: Option<real>)
    requires IsSqrt(sqrt) && |path| >= 2
    ensures m.None? <==> |obstacles| == 0
  {
    SeparationPrefixNone(sqrt, path, obstacles, |path| - 1);
    SeparationPrefix(sqrt, path, obstacles, |path| - 1)
  }

  /** `validate_path` declares a path valid exactly when every segment is clear:
      the minimum separation is infinite (no obstacles) or at least the radius. */
  lemma ValidIffSafe(sqrt: real -> real, path: seq<Point>, obstacles: seq<Point>, safetyRadius: real)
    requires IsSqrt(sqrt) && |path| >= 2
    ensures var m := MinSeparation(sqrt, path, obstacles);
            (m.None? || m.value >= safetyRadius) <==> PathSafe(sqrt, path, obstacles, safetyRadius)
  {
    var n := |path| - 1;
    var m := MinSeparation(sqrt, path, obstacles);
    SeparationPrefixNone(sqrt, path, obstacles, n);
    if m.None? {
      assert |obstacles| == 0;
    } else if m.value >= safetyRadius {
      forall i | 0 <= i < n
        ensures SegmentClear(sqrt, path[i], path[i + 1], obstacles, safetyRadius)
      {
        forall j | 0 <= j < |obstacles|
          ensures PointToLineDistance(sqrt, path[i], path[i + 1], obstacles[j]) >= safetyRadius
        {
          SeparationPrefixLower(sqrt, path, obstacles, n, i, j);
        }
      }
    } else {
      var i, j := SeparationPrefixWitness(sqrt, path, obstacles, n);
      assert !SegmentClear(sqrt, path[i], path[i + 1], obstacles, safetyRadius);
    }
  }

  /** The first loop of `validate_path`: the running sum of segment lengths. */
  method SumSegmentLengths(sqrt: real -> real, path: seq<Point>) returns (pathLength: real)
    requires IsSqrt(sqrt) && |path| >= 1
    ensures pathLength == PathLength(sqrt, path)
  {
    pathLength := 0.0;
    for i := 1 to |path|
      invariant pathLength == PathLength(sqrt, path[..i])
    {
      assert path[..i + 1][..i] == path[..i];
      pathLength := pathLength + SegmentLength(sqrt, path[i - 1], path[i]);
    }
    assert path[..|path|] == path;
  }

  /** The nested loops of `validate_path`: the running minimum of the distance
      from every segment to every obstacle. */
  method SmallestSeparation(sqrt: real -> real, path: seq<Point>, obstacles: seq<Point>) returns (minSeparation: Option<real>)
    requires IsSqrt(sqrt) && |path| >= 2
    ensures minSeparation == MinSeparation(sqrt, path, obstacles)
  {
    minSeparation := None;
    for i := 0 to |path| - 1
      invariant minSeparation == SeparationPrefix(sqrt, path, obstacles, i)
    {
      minSeparation := FoldSegmentSeparation(sqrt, path[i], path[i + 1], obstacles, minSeparation);
      SeparationPrefixStep(sqrt, path, obstacles, i);
    }
  }

  /** The inner loop of `validate_path` for one segment `a`-`b`: folds the
      distance to each obstacle into the running minimum `current`. */
  method FoldSegmentSeparation(sqrt: real -> real, a: Point, b: Point, obstacles: seq<Point>, current: Option<real>)
    returns (minSeparation: Option<real>)
    requires IsSqrt(sqrt)
    ensures minSeparation == MinOf(current, SegmentSeparation(sqrt, a, b, obstacles))
  {
    minSeparation := current;
    for j := 0 to |obstacles|
      invariant minSeparation == MinOf(current, SegmentSeparation(sqrt, a, b, obstacles[..j]))
    {
      var distance := PointToLineDistance(sqrt, a, b, obstacles[j]);
      SegmentSeparationStep(sqrt, a, b, obstacles, j);
      MinWithAssociates(current, SegmentSeparation(sqrt, a, b, obstacles[..j]), distance);
      minSeparation := MinWith(minSeparation, distance);
    }
    assert obstacles[..|obstacles|] == obstacles;
  }

  /** `validate_path`: the too-short report for fewer than two points, otherwise
      the path length, the minimum separation and the verdict. */
  method ValidatePath(sqrt: real -> real, path: seq<Point>, obstacles: seq<Point>, safetyRadius: real)
    returns (report: Report)
    requires IsSqrt(sqrt)
    ensures |path| < 2 ==> report == Report(false, Some("Path too short"), 0.0, None, false, None)
    ensures |path| >= 2 ==>
      && report.reason == None && report.waypoints == Some(|path|)
      && report.pathLength == PathLength(sqrt, path)
      && report.minSeparation == MinSeparation(sqrt, path, obstacles)
      && report.valid == report.success
      && (report.valid <==> report.minSeparation.None? || report.minSeparation.value >= safetyRadius)
      && (report.valid <==> PathSafe(sqrt, path, obstacles, safetyRadius))
  {
    if |path| < 2 {
      return Report(false, Some("Path too short"), 0.0, None, false, None);
    }
    var pathLength := SumSegmentLengths(sqrt, path);
    var minSeparation := SmallestSeparation(sqrt, path, obstacles);
    var safe := minSeparation.None? || minSeparation.value >= safetyRadius;
    ValidIffSafe(sqrt, path, obstacles, safetyRadius);
    return Report(safe, None, pathLength, minSeparation, safe, Some(|path|));
  }
}
