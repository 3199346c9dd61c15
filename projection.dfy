/**
  The geometry of the prism: where the three attractors (icono, indice,
  simbolo) sit, and how a point's attribute values are projected to a
  position (valuesToPosition in main.js).

  Positions are over `real`: main.js's IEEE doubles and its cos/sin
  values are not modelled. The anchors are a parameter of the projection;
  PrismAnchors gives the triangle the application builds, with the one
  irrational coordinate (radius * cos 30 degrees) left as a parameter.
*/
module Projection {

  /** A position in the scene (a three.js Vector3). */
  datatype Vec3 = Vec3(x: real, y: real, z: real)

  /** The three attractor positions, one per key of attractorPositions. */
  datatype Anchors = Anchors(icono: Vec3, indice: Vec3, simbolo: Vec3)

  /**
    The values record of a point: the three slider intensities and the
    two select values, which main.js keeps as strings.
  */
  datatype Values = Values(icono: int, indice: int, simbolo: int, signType: string, logic: string)

  /** Barycentric weights over the three attractors. */
  datatype Weights = Weights(wI: real, wD: real, wS: real)

  const PlaneSize: real := 400.0
  const Radius: real := PlaneSize / 2.0
  const LegisignZ: real := 150.0
  const QualisignZ: real := -150.0

  /**
    The attractor triangle: the points at 150, 30 and 270 degrees on the
    circle of radius PlaneSize / 2 in the z = 0 plane. `h` stands for
    Radius * cos 30 degrees; the y coordinates are exact
    (sin 150 = sin 30 = 1/2, sin 270 = -1, cos 270 = 0, cos 150 = -cos 30).
  */
  function PrismAnchors(h: real): (a: Anchors)
    ensures a.icono.z == 0.0 && a.indice.z == 0.0 && a.simbolo.z == 0.0
    ensures a.icono.x == -a.indice.x && a.icono.y == a.indice.y
    ensures a.simbolo.x == 0.0 && a.simbolo.y == -Radius
    ensures a.icono.y + a.indice.y + a.simbolo.y == 0.0
  {
    Anchors(Vec3(-h, Radius / 2.0, 0.0), Vec3(h, Radius / 2.0, 0.0), Vec3(0.0, -Radius, 0.0))
  }

  predicate OnCircle(p: Vec3, r: real)
  {
    p.z == 0.0 && p.x * p.x + p.y * p.y == r * r
  }

  function SquaredDistance(p: Vec3, q: Vec3): real
  {
    (p.x - q.x) * (p.x - q.x) + (p.y - q.y) * (p.y - q.y) + (p.z - q.z) * (p.z - q.z)
  }

  /**
    With h = Radius * cos 30 degrees (that is, h * h == 3/4 * Radius * Radius),
    the three attractors lie on the circle of radius PlaneSize / 2, the
    triangle is equilateral, and its centroid is the origin.
  */
  lemma PrismAnchorsGeometry(h: real)
    requires h > 0.0 && h * h == 3.0 * Radius * Radius / 4.0
    ensures var a := PrismAnchors(h);
      && OnCircle(a.icono, Radius) && OnCircle(a.indice, Radius) && OnCircle(a.simbolo, Radius)
      && SquaredDistance(a.icono, a.indice) == 3.0 * Radius * Radius
      && SquaredDistance(a.indice, a.simbolo) == 3.0 * Radius * Radius
      && SquaredDistance(a.simbolo, a.icono) == 3.0 * Radius * Radius
      && a.icono.x + a.indice.x + a.simbolo.x == 0.0
      && a.icono.y + a.indice.y + a.simbolo.y == 0.0
  {
    var a := PrismAnchors(h);
    assert SquaredDistance(a.icono, a.indice) == 4.0 * (h * h);
    assert SquaredDistance(a.indice, a.simbolo) == h * h + 9.0 * Radius * Radius / 4.0;
  }

  function IntensitySum(v: Values): int
  {
    v.icono + v.indice + v.simbolo
  }

  /** Every intensity is non-negative, as the sliders guarantee. */
  predicate NonNegative(v: Values)
  {
    v.icono >= 0 && v.indice >= 0 && v.simbolo >= 0
  }

  /** The divisor of the normalisation: the sum, with `|| 1` turning a zero sum into 1. */
  function Divisor(v: Values): (d: int)
    ensures d != 0
  {
    var sum := IntensitySum(v);
    if sum == 0 then 1 else sum
  }

  /** The intensities, each divided by the divisor. */
  function BarycentricWeights(v: Values): (w: Weights)
    ensures NonNegative(v) ==> w.wI >= 0.0 && w.wD >= 0.0 && w.wS >= 0.0
    ensures NonNegative(v) && IntensitySum(v) == 0 ==> w == Weights(0.0, 0.0, 0.0)
  {
    var d := Divisor(v) as real;
    Weights(v.icono as real / d, v.indice as real / d, v.simbolo as real / d)
  }

  /**
    The z coordinate of a sign type. main.js starts from 0 and
    overwrites it with 150 for "Legisign" and with -150 for "Qualisign".
  */
  function ZOffset(signType: string): (z: real)
    ensures z == LegisignZ <==> signType == "Legisign"
    ensures z == QualisignZ <==> signType == "Qualisign"
    ensures z == 0.0 <==> signType != "Legisign" && signType != "Qualisign"
  {
    var z0 := 0.0;
    var z1 := if signType == "Legisign" then LegisignZ else z0;
    if signType == "Qualisign" then QualisignZ else z1
  }

  /** One coordinate of the weighted sum: the icono, indice and simbolo coordinates weighted by w. */
  function Combine(w: Weights, cI: real, cD: real, cS: real): real
  {
    cI * w.wI + cD * w.wD + cS * w.wS
  }

  /** The weighted sum of the anchors in x and y, at height z. */
  function Place(a: Anchors, w: Weights, z: real): Vec3
  {
    Vec3(Combine(w, a.icono.x, a.indice.x, a.simbolo.x), Combine(w, a.icono.y, a.indice.y, a.simbolo.y), z)
  }

  /** valuesToPosition: the anchors weighted by the normalised intensities, in the sign type's plane. */
  function ValuesToPosition(a: Anchors, v: Values): (p: Vec3)
    ensures p.z == ZOffset(v.signType)
    ensures NonNegative(v) && IntensitySum(v) == 0 ==> p.x == 0.0 && p.y == 0.0
  {
    Place(a, BarycentricWeights(v), ZOffset(v.signType))
  }

  /** The intensities of `v` multiplied by `k`. */
  function Scaled(v: Values, k: int): Values
  {
    v.(icono := k * v.icono, indice := k * v.indice, simbolo := k * v.simbolo)
  }

  function Min3(a: real, b: real, c: real): real
  {
    if a <= b && a <= c then a else if b <= c then b else c
  }

  function Max3(a: real, b: real, c: real): real
  {
    if a >= b && a >= c then a else if b >= c then b else c
  }

  /**
    The z coordinate is 150 exactly for "Legisign", -150 exactly for
    "Qualisign" and 0 otherwise, whatever the anchors and the intensities.
  */
  lemma PositionZ(a: Anchors, b: Anchors, v: Values, u: Values)
    requires u.signType == v.signType
    ensures var z := ValuesToPosition(a, v).z;
      && (z == 150.0 <==> v.signType == "Legisign")
      && (z == -150.0 <==> v.signType == "Qualisign")
      && (z == 0.0 <==> v.signType != "Legisign" && v.signType != "Qualisign")
      && z == ValuesToPosition(b, u).z
  {
  }

  /** Whenever the intensities do not sum to 0, the weights sum to 1. */
  lemma WeightsSumToOne(v: Values)
    requires IntensitySum(v) != 0
    ensures var w := BarycentricWeights(v); w.wI + w.wD + w.wS == 1.0
  {
    var d := IntensitySum(v) as real;
    assert v.icono as real / d + v.indice as real / d + v.simbolo as real / d
        == (v.icono as real + v.indice as real + v.simbolo as real) / d;
    assert v.icono as real + v.indice as real + v.simbolo as real == d;
  }

  /** Non-negative intensities with a positive sum give convex weights. */
  lemma ConvexWeights(v: Values)
    requires NonNegative(v) && IntensitySum(v) > 0
    ensures var w := BarycentricWeights(v);
      w.wI >= 0.0 && w.wD >= 0.0 && w.wS >= 0.0 && w.wI + w.wD + w.wS == 1.0
  {
    WeightsSumToOne(v);
  }

  /**
    All intensities zero: the divisor is 1 (no division by zero), every
    weight is 0, and the point sits at (0, 0, z) whatever the anchors.
  */
  lemma ZeroSumPosition(a: Anchors, v: Values)
    requires NonNegative(v) && IntensitySum(v) == 0
    ensures Divisor(v) == 1
    ensures BarycentricWeights(v) == Weights(0.0, 0.0, 0.0)
    ensures ValuesToPosition(a, v) == Vec3(0.0, 0.0, ZOffset(v.signType))
  {
  }

  /** A point whose only nonzero intensity is icono lands on the icono attractor. */
  lemma OnlyIconoOnAnchor(a: Anchors, v: Values)
    requires v.icono != 0 && v.indice == 0 && v.simbolo == 0
    ensures var p := ValuesToPosition(a, v); p.x == a.icono.x && p.y == a.icono.y
  {
    var i := v.icono as real;
    assert Divisor(v) as real == i;
    assert i / i == 1.0;
    assert BarycentricWeights(v) == Weights(1.0, 0.0, 0.0);
  }

  /** A point whose only nonzero intensity is indice lands on the indice attractor. */
  lemma OnlyIndiceOnAnchor(a: Anchors, v: Values)
    requires v.icono == 0 && v.indice != 0 && v.simbolo == 0
    ensures var p := ValuesToPosition(a, v); p.x == a.indice.x && p.y == a.indice.y
  {
    var i := v.indice as real;
    assert Divisor(v) as real == i;
    assert i / i == 1.0;
    assert BarycentricWeights(v) == Weights(0.0, 1.0, 0.0);
  }

  /** A point whose only nonzero intensity is simbolo lands on the simbolo attractor. */
  lemma OnlySimboloOnAnchor(a: Anchors, v: Values)
    requires v.icono == 0 && v.indice == 0 && v.simbolo != 0
    ensures var p := ValuesToPosition(a, v); p.x == a.simbolo.x && p.y == a.simbolo.y
  {
    var i := v.simbolo as real;
    assert Divisor(v) as real == i;
    assert i / i == 1.0;
    assert BarycentricWeights(v) == Weights(0.0, 0.0, 1.0);
  }

  /** Scaling all three intensities by k > 0 leaves the weights and the position unchanged. */
  lemma ScaleInvariant(a: Anchors, v: Values, k: int)
    requires NonNegative(v) && k > 0
    ensures BarycentricWeights(Scaled(v, k)) == BarycentricWeights(v)
    ensures ValuesToPosition(a, Scaled(v, k)) == ValuesToPosition(a, v)
  {
    var u := Scaled(v, k);
    var sum := IntensitySum(v);
    assert IntensitySum(u) == k * sum by {
      assert k * v.icono + k * v.indice + k * v.simbolo == k * (v.icono + v.indice + v.simbolo);
    }
    if sum == 0 {
      assert u == v;
    } else {
      ScaledWeights(v, k);
    }
  }

  lemma ScaledWeights(v: Values, k: int)
    requires k > 0 && IntensitySum(v) != 0 && IntensitySum(Scaled(v, k)) == k * IntensitySum(v)
    ensures BarycentricWeights(Scaled(v, k)) == BarycentricWeights(v)
  {
    var sum := IntensitySum(v);
    assert Divisor(Scaled(v, k)) == k * sum;
    ScaledWeight(v.icono, sum, k);
    ScaledWeight(v.indice, sum, k);
    ScaledWeight(v.simbolo, sum, k);
  }

  lemma ScaledWeight(n: int, d: int, k: int)
    requires d != 0 && k != 0
    ensures (k * n) as real / (k * d) as real == n as real / d as real
  {
    CastProduct(k, n);
    CastProduct(k, d);
    ScaledQuotient(n as real, d as real, k as real);
  }

  lemma CastProduct(k: int, n: int)
    ensures (k * n) as real == k as real * n as real
  {
  }

  lemma ScaledQuotient(n: real, d: real, k: real)
    requires d != 0.0 && k != 0.0
    ensures (k * n) / (k * d) == n / d
  {
    assert (n / d) * (k * d) == k * n;
  }

  lemma MulNonNegative(x: real, y: real)
    requires x >= 0.0 && y >= 0.0
    ensures x * y >= 0.0
  {
  }

  /** A convex combination of a, b, c lies at or above any common lower bound. */
  lemma ConvexAbove(u: real, v: real, w: real, a: real, b: real, c: real, lo: real)
    requires u >= 0.0 && v >= 0.0 && w >= 0.0 && u + v + w == 1.0
    requires lo <= a && lo <= b && lo <= c
    ensures lo <= a * u + b * v + c * w
  {
    MulNonNegative(a - lo, u);
    MulNonNegative(b - lo, v);
    MulNonNegative(c - lo, w);
    assert (a - lo) * u + (b - lo) * v + (c - lo) * w == a * u + b * v + c * w - lo * (u + v + w);
  }

  /** A convex combination of a, b, c lies at or below any common upper bound. */
  lemma ConvexBelow(u: real, v: real, w: real, a: real, b: real, c: real, hi: real)
    requires u >= 0.0 && v >= 0.0 && w >= 0.0 && u + v + w == 1.0
    requires a <= hi && b <= hi && c <= hi
    ensures a * u + b * v + c * w <= hi
  {
    MulNonNegative(hi - a, u);
    MulNonNegative(hi - b, v);
    MulNonNegative(hi - c, w);
    assert (hi - a) * u + (hi - b) * v + (hi - c) * w == hi * (u + v + w) - (a * u + b * v + c * w);
  }

  lemma ConvexBound(w: Weights, a: real, b: real, c: real)
    requires w.wI >= 0.0 && w.wD >= 0.0 && w.wS >= 0.0 && w.wI + w.wD + w.wS == 1.0
    ensures Min3(a, b, c) <= Combine(w, a, b, c) <= Max3(a, b, c)
  {
    ConvexAbove(w.wI, w.wD, w.wS, a, b, c, Min3(a, b, c));
    ConvexBelow(w.wI, w.wD, w.wS, a, b, c, Max3(a, b, c));
  }

  /**
    For slider intensities with a positive sum, the position lies within
    the bounds of the attractor triangle in x and in y.
  */
  lemma WithinAnchorBounds(a: Anchors, v: Values)
    requires NonNegative(v) && IntensitySum(v) > 0
    ensures var p := ValuesToPosition(a, v);
      && Min3(a.icono.x, a.indice.x, a.simbolo.x) <= p.x <= Max3(a.icono.x, a.indice.x, a.simbolo.x)
      && Min3(a.icono.y, a.indice.y, a.simbolo.y) <= p.y <= Max3(a.icono.y, a.indice.y, a.simbolo.y)
  {
    ConvexWeights(v);
    PlaceWithinBounds(a, BarycentricWeights(v), ZOffset(v.signType));
  }

  lemma PlaceWithinBounds(a: Anchors, w: Weights, z: real)
    requires w.wI >= 0.0 && w.wD >= 0.0 && w.wS >= 0.0 && w.wI + w.wD + w.wS == 1.0
    ensures var p := Place(a, w, z);
      && Min3(a.icono.x, a.indice.x, a.simbolo.x) <= p.x <= Max3(a.icono.x, a.indice.x, a.simbolo.x)
      && Min3(a.icono.y, a.indice.y, a.simbolo.y) <= p.y <= Max3(a.icono.y, a.indice.y, a.simbolo.y)
  {
    ConvexBound(w, a.icono.x, a.indice.x, a.simbolo.x);
    ConvexBound(w, a.icono.y, a.indice.y, a.simbolo.y);
  }

  /**
    On the prism's triangle the zero-sum point (0, 0, z) coincides with the
    point of three equal positive intensities: the centroid of the triangle.
  */
  lemma ZeroSumIsCentroid(h: real, v: Values, u: Values)
    requires NonNegative(v) && IntensitySum(v) == 0
    requires u.icono == u.indice == u.simbolo > 0 && u.signType == v.signType
    ensures ValuesToPosition(PrismAnchors(h), v) == ValuesToPosition(PrismAnchors(h), u)
  {
    var third := u.icono as real / (IntensitySum(u) as real);
    assert third * 3.0 == 1.0;
    assert BarycentricWeights(u) == Weights(third, third, third);
  }
}
