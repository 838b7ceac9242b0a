/** `_calculate_formation_positions`: the target points of the line, circle,
    grid and V formations. */
module Formation {

  import opened RealMath
  import opened Geometry

  /** `math.pi`, as the double it is. */
  const Pi: real := 3.141592653589793

  /** The height every formation but the line uses unless told otherwise, and
      the line's fixed height. */
  const DefaultHeight: real := 0.6
  const DefaultSpacing: real := 0.5
  const DefaultRadius: real := 1.0

  /** `parameters.get(key, default)` on the numeric parameters. */
  function Param(parameters: map<string, real>, key: string, default: real): (v: real)
    ensures key in parameters ==> v == parameters[key]
    ensures key !in parameters ==> v == default
  {
    if key in parameters then parameters[key] else default
  }

  // ---------------------------------------------------------------------------
  // One point of each shape

  /** Point `i` of the line: `x = (i - (count - 1) / 2) * spacing` at height 0.6. */
  function LinePoint(count: nat, spacing: real, i: nat): Point
  {
    Point((i as real - (count as real - 1.0) / 2.0) * spacing, 0.0, DefaultHeight)
  }

  /** Point `i` of the circle: angle `2 * pi * i / count`. */
  function CirclePoint(cos: real -> real, sin: real -> real, count: nat, radius: real, height: real, i: nat): Point
    requires count > 0
  {
    var angle := 2.0 * Pi * i as real / count as real;
    Point(radius * cos(angle), radius * sin(angle), height)
  }

  /** `int(math.ceil(math.sqrt(count)))`, computed exactly: the least `c` with
      `c * c >= n`. */
  function CeilSqrt(n: nat): (c: nat)
    ensures c * c >= n
    ensures c > 0 ==> (c - 1) * (c - 1) < n
    ensures n > 0 <==> c > 0
  {
    if n == 0 then 0
    else
      var c := CeilSqrt(n - 1);
      if c * c >= n then c else c + 1
  }

  /** Point `i` of the grid with `cols` columns: row `i // cols`, column
      `i % cols`, both centred. */
  function GridPoint(count: nat, cols: nat, spacing: real, height: real, i: nat): Point
    requires cols > 0
  {
    GridCell(cols, count / cols, spacing, height, i / cols, i % cols)
  }

  /** The grid cell at `row` and `col`, centred on `cols` columns and on the
      `count // cols` full rows. */
  function GridCell(cols: nat, rows: nat, spacing: real, height: real, row: nat, col: nat): Point
  {
    Point((col as real - (cols as real - 1.0) / 2.0) * spacing,
          (row as real - (rows as real - 1.0) / 2.0) * spacing,
          height)
  }

  /** Point `i` of the V: the apex at the origin, then pairs of points at
      `row = (i + 1) // 2`, odd `i` on the positive side, even `i` on the negative. */
  function VPoint(spacing: real, height: real, i: nat): Point
  {
    if i == 0 then Point(0.0, 0.0, height)
    else
      var side := if i % 2 == 1 then 1.0 else -1.0;
      var row := (i + 1) / 2;
      Point(row as real * spacing, side * row as real * spacing * 0.5, height)
  }

  // ---------------------------------------------------------------------------
  // The whole formation

  predicate KnownShape(formation: string)
  {
    formation == "line" || formation == "circle" || formation == "grid" || formation == "vshape"
  }

  /** The `count` points of each shape. */
  function LinePositions(count: nat, spacing: real): (ps: seq<Point>)
    ensures |ps| == count
  {
    seq(count, i requires 0 <= i < count => LinePoint(count, spacing, i))
  }

  function CirclePositions(cos: real -> real, sin: real -> real, count: nat, radius: real, height: real): (ps: seq<Point>)
    ensures |ps| == count
  {
    seq(count, i requires 0 <= i < count => CirclePoint(cos, sin, count, radius, height, i))
  }

  function GridPositions(count: nat, spacing: real, height: real): (ps: seq<Point>)
    ensures |ps| == count
  {
    var cols := CeilSqrt(count);
    seq(count, i requires 0 <= i < count => GridPoint(count, cols, spacing, height, i))
  }

  function VShapePositions(count: nat, spacing: real, height: real): (ps: seq<Point>)
    ensures |ps| == count
  {
    seq(count, i requires 0 <= i < count => VPoint(spacing, height, i))
  }

  /** The positions `_calculate_formation_positions` returns: `count` points for
      a known shape, read with the shape's defaults, and none for any other name. */
  function FormationPositions(cos: real -> real, sin: real -> real, formation: string, count: nat,
                              parameters: map<string, real>): (ps: seq<Point>)
    ensures |ps| == if KnownShape(formation) then count else 0
  {
    var spacing := Param(parameters, "spacing", DefaultSpacing);
    var height := Param(parameters, "height", DefaultHeight);
    if formation == "line" then LinePositions(count, spacing)
    else if formation == "circle" then
      CirclePositions(cos, sin, count, Param(parameters, "radius", DefaultRadius), height)
    else if formation == "grid" then GridPositions(count, spacing, height)
    else if formation == "vshape" then VShapePositions(count, spacing, height)
    else []
  }

  /** `_calculate_formation_positions`: one loop per shape, appending one point
      per drone. */
  method CalculateFormationPositions(cos: real -> real, sin: real -> real, formation: string, count: nat,
                                     parameters: map<string, real>)
    returns (positions: seq<Point>)
    ensures positions == FormationPositions(cos, sin, formation, count, parameters)
  {
    positions := [];
    if formation == "line" {
      var spacing := Param(parameters, "spacing", DefaultSpacing);
      positions := LineLoop(count, spacing);
    } else if formation == "circle" {
      var radius := Param(parameters, "radius", DefaultRadius);
      var height := Param(parameters, "height", DefaultHeight);
      positions := CircleLoop(cos, sin, count, radius, height);
    } else if formation == "grid" {
      var spacing := Param(parameters, "spacing", DefaultSpacing);
      var height := Param(parameters, "height", DefaultHeight);
      positions := GridLoop(count, spacing, height);
    } else if formation == "vshape" {
      var spacing := Param(parameters, "spacing", DefaultSpacing);
      var height := Param(parameters, "height", DefaultHeight);
      positions := VShapeLoop(count, spacing, height);
    }
  }

  method LineLoop(count: nat, spacing: real) returns (positions: seq<Point>)
    ensures positions == LinePositions(count, spacing)
  {
    positions := [];
    for i := 0 to count
      invariant |positions| == i
      invariant forall k :: 0 <= k < i ==> positions[k] == LinePoint(count, spacing, k)
    {
      var x := (i as real - (count as real - 1.0) / 2.0) * spacing;
      positions := positions + [Point(x, 0.0, DefaultHeight)];
    }
  }

  method CircleLoop(cos: real -> real, sin: real -> real, count: nat, radius: real, height: real)
    returns (positions: seq<Point>)
    ensures positions == CirclePositions(cos, sin, count, radius, height)
  {
    positions := [];
    for i := 0 to count
      invariant |positions| == i
      invariant forall k :: 0 <= k < i ==> positions[k] == CirclePoint(cos, sin, count, radius, height, k)
    {
      var angle := 2.0 * Pi * i as real / count as real;
      var x := radius * cos(angle);
      var y := radius * sin(angle);
      positions := positions + [Point(x, y, height)];
    }
  }

  method GridLoop(count: nat, spacing: real, height: real) returns (positions: seq<Point>)
    ensures positions == GridPositions(count, spacing, height)
  {
    var cols := CeilSqrt(count);
    positions := [];
    for i := 0 to count
      invariant |positions| == i
      invariant forall k :: 0 <= k < i ==> positions[k] == GridPoint(count, cols, spacing, height, k)
    {
      var row := i / cols;
      var col := i % cols;
      var x := (col as real - (cols as real - 1.0) / 2.0) * spacing;
      var y := (row as real - ((count / cols) as real - 1.0) / 2.0) * spacing;
      ghost var cell := GridCell(cols, count / cols, spacing, height, row, col);
      assert x == cell.x && y == cell.y && height == cell.z;
      positions := positions + [Point(x, y, height)];
    }
  }

  method VShapeLoop(count: nat, spacing: real, height: real) returns (positions: seq<Point>)
    ensures positions == VShapePositions(count, spacing, height)
  {
    positions := [];
    for i := 0 to count
      invariant |positions| == i
      invariant forall k :: 0 <= k < i ==> positions[k] == VPoint(spacing, height, k)
    {
      if i == 0 {
        positions := positions + [Point(0.0, 0.0, height)];
      } else {
        var side := if i % 2 == 1 then 1.0 else -1.0;
        var row := (i + 1) / 2;
        var x := row as real * spacing;
        var y := side * row as real * spacing * 0.5;
        ghost var p := VPoint(spacing, height, i);
        assert x == p.x && y == p.y && height == p.z;
        positions := positions + [Point(x, y, height)];
      }
    }
  }

  // ---------------------------------------------------------------------------
  // Properties of the shapes

  /** The line is centred on x = 0: points `i` and `count - 1 - i` are mirror
      images, and it always flies at 0.6 m (the `height` parameter is not read). */
  lemma LineSymmetric(count: nat, spacing: real, i: nat)
    requires i < count
    ensures var ps := LinePositions(count, spacing);
      && ps[i].x == -ps[count - 1 - i].x
      && ps[i].y == 0.0 && ps[i].z == 0.6
  {
    var j := count - 1 - i;
    var h := (count as real - 1.0) / 2.0;
    assert j as real - h == -(i as real - h);
    NegateTimes(i as real - h, spacing);
  }

  lemma NegateTimes(a: real, b: real)
    ensures -a * b == -(a * b)
  {
  }

  /** Neighbouring points of the line are `spacing` apart. */
  lemma LineEvenlySpaced(count: nat, spacing: real, i: nat)
    requires i + 1 < count
    ensures var ps := LinePositions(count, spacing);
      ps[i + 1].x - ps[i].x == spacing
  {
    var a := i as real - (count as real - 1.0) / 2.0;
    assert (i + 1) as real - (count as real - 1.0) / 2.0 == a + 1.0;
    assert (a + 1.0) * spacing - a * spacing == spacing;
  }

  /** With a Pythagorean `cos` and `sin`, every circle point lies on the circle of
      the given radius about the vertical axis, at the given height. */
  lemma CircleOnRadius(cos: real -> real, sin: real -> real, count: nat, radius: real, height: real, i: nat)
    requires IsTrig(cos, sin) && i < count
    ensures var p := CirclePositions(cos, sin, count, radius, height)[i];
      && p.x * p.x + p.y * p.y == radius * radius
      && p.z == height
  {
    var angle := 2.0 * Pi * i as real / count as real;
    var c, s := cos(angle), sin(angle);
    assert c * c + s * s == 1.0;
    ScaledPythagoras(radius, c, s);
  }

  lemma ScaledPythagoras(r: real, c: real, s: real)
    requires c * c + s * s == 1.0
    ensures (r * c) * (r * c) + (r * s) * (r * s) == r * r
  {
    var rr := r * r;
    assert (r * c) * (r * c) == rr * (c * c);
    assert (r * s) * (r * s) == rr * (s * s);
    assert rr * (c * c) + rr * (s * s) == rr * (c * c + s * s);
  }

  /** The grid has `ceil(sqrt(count))` columns, which is enough for every drone:
      each point sits in a column below that and in a row below the row count. */
  lemma GridShape(count: nat, i: nat)
    requires i < count
    ensures var cols := CeilSqrt(count);
      && cols > 0 && cols * cols >= count && (cols - 1) * (cols - 1) < count
      && i % cols < cols && i / cols < cols
  {
    var cols := CeilSqrt(count);
    DivBound(i, cols, count);
  }

  /** `i < n <= c * c` puts `i / c` below `c`. */
  lemma DivBound(i: nat, c: nat, n: nat)
    requires c > 0 && i < n <= c * c
    ensures i / c < c
  {
    var q := i / c;
    assert q * c <= i;
    if q >= c {
      MulMono(c, q, c);
      assert false;
    }
  }

  lemma MulMono(a: nat, b: nat, c: nat)
    requires a <= b
    ensures a * c <= b * c
  {
  }

  /** Different drones get different grid points when the spacing is not zero. */
  lemma GridDistinct(count: nat, spacing: real, height: real, i: nat, j: nat)
    requires i < count && j < count && i != j
    requires spacing != 0.0
    ensures var ps := GridPositions(count, spacing, height);
      ps[i] != ps[j]
  {
    var cols := CeilSqrt(count);
    var ps := GridPositions(count, spacing, height);
    assert ps[i] == GridPoint(count, cols, spacing, height, i);
    assert ps[j] == GridPoint(count, cols, spacing, height, j);
    GridPointDistinct(count, cols, spacing, height, i, j);
  }

  lemma GridPointDistinct(count: nat, cols: nat, spacing: real, height: real, i: nat, j: nat)
    requires cols > 0 && i != j && spacing != 0.0
    ensures GridPoint(count, cols, spacing, height, i) != GridPoint(count, cols, spacing, height, j)
  {
    DivModDistinct(i, j, cols);
    if i % cols != j % cols {
      var hc := (cols as real - 1.0) / 2.0;
      TimesCancel((i % cols) as real - hc, (j % cols) as real - hc, spacing);
    } else {
      var hr := ((count / cols) as real - 1.0) / 2.0;
      TimesCancel((i / cols) as real - hr, (j / cols) as real - hr, spacing);
    }
  }

  /** Row and column together tell drones apart. */
  lemma DivModDistinct(i: nat, j: nat, c: nat)
    requires c > 0 && i != j
    ensures i % c != j % c || i / c != j / c
  {
    assert i == (i / c) * c + i % c;
    assert j == (j / c) * c + j % c;
  }

  lemma TimesCancel(a: real, b: real, k: real)
    requires k != 0.0 && a != b
    ensures a * k != b * k
  {
    assert (a - b) * k != 0.0;
  }

  /** The V starts at its apex (0, 0, height); for `k >= 1` drones `2k - 1` and
      `2k` sit at `x = k * spacing`, mirror images in y, `k * spacing / 2` off
      the axis. */
  lemma VShapeMirror(count: nat, spacing: real, height: real, k: nat)
    requires 1 <= k && 2 * k < count
    ensures var ps := VShapePositions(count, spacing, height);
      && ps[0] == Point(0.0, 0.0, height)
      && ps[2 * k - 1].x == ps[2 * k].x == k as real * spacing
      && ps[2 * k - 1].y == -ps[2 * k].y == k as real * spacing * 0.5
  {
    var ps := VShapePositions(count, spacing, height);
    assert ps[2 * k - 1] == VPoint(spacing, height, 2 * k - 1);
    assert ps[2 * k] == VPoint(spacing, height, 2 * k);
    assert (2 * k - 1) % 2 == 1 && (2 * k - 1 + 1) / 2 == k;
    assert (2 * k) % 2 == 0 && (2 * k + 1) / 2 == k;
    var r := k as real;
    assert -1.0 * r * spacing * 0.5 == -(1.0 * r * spacing * 0.5);
  }

  /** Every point of the V, the apex included: drone `i` sits in row
      `(i + 1) // 2` at `x = row * spacing`, half that off the axis in y (to the
      positive side for odd `i`, the negative for even `i`), at `height`. */
  lemma VShapeAt(count: nat, spacing: real, height: real, i: nat)
    requires i < count
    ensures var p := VShapePositions(count, spacing, height)[i];
      && p.x == ((i + 1) / 2) as real * spacing
      && p.y == (if i % 2 == 1 then p.x / 2.0 else -(p.x / 2.0))
      && p.z == height
  {
    var p := VShapePositions(count, spacing, height)[i];
    assert p == VPoint(spacing, height, i);
    if i > 0 {
      var x := ((i + 1) / 2) as real * spacing;
      assert 1.0 * ((i + 1) / 2) as real * spacing * 0.5 == x / 2.0;
      assert -1.0 * ((i + 1) / 2) as real * spacing * 0.5 == -(x / 2.0);
    }
  }
}
