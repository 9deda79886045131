/**
  The Cone scene primitive (Cone.h, Cone.cpp): a cone standing on the XZ-plane circle of
  `radius` around `center`, with its apex `height` above the centre, and its ray intersection.
 */
module Cones {
  import opened Vectors

  /**
    The geometry fields of class Cone. Material state (colour, reflectivity, ...) is inherited
    from the scene-object base class and lives in Scene.SceneObject, not here. `theta` is the
    half-angle `atan(radius/height)`; it is used only by `Cone::normal`, which is not part of
    this model.
   */
  datatype Cone = Cone(center: Vec3, radius: real, height: real, theta: real)

  /**
    `theta` agrees with the stored radius and height, for `atanOfRatio(r, h)` standing for the
    float value of `atan(r/h)` (the quotient is infinite when `h` is 0, hence both operands).
   */
  predicate ThetaMatchesShape(k: Cone, atanOfRatio: (real, real) -> real) {
    k.theta == atanOfRatio(k.radius, k.height)
  }

  /** The point `p0 + t * dir` on a ray. */
  function PointAt(p0: Vec3, dir: Vec3, t: real): Vec3 {
    Add(p0, Scale(t, dir))
  }

  /** The slope `r/h` of the cone's side, as lines 29-31 compute it. */
  function Slope(k: Cone): real
    requires k.height != 0.0
  {
    k.radius / k.height
  }

  /**
    The implicit cone relation relative to `center`: zero exactly on the (double) cone
    `x^2 + z^2 = (r/h)^2 (h - y)^2`.
   */
  function ConeRelation(k: Cone, p: Vec3): real
    requires k.height != 0.0
  {
    (p.x - k.center.x) * (p.x - k.center.x) + (p.z - k.center.z) * (p.z - k.center.z)
      - Slope(k) * Slope(k) * (k.height - (p.y - k.center.y)) * (k.height - (p.y - k.center.y))
  }

  /** The apex of the cone. */
  function Apex(k: Cone): Vec3 {
    Vec3(k.center.x, k.center.y + k.height, k.center.z)
  }

  /** A point of the base rim: `radius` along +X from `center`. */
  function Rim(k: Cone): Vec3 {
    Vec3(k.center.x + k.radius, k.center.y, k.center.z)
  }

  /** The cone relation holds at the base rim and at the apex, whatever the fields. */
  lemma RimAndApexOnCone(k: Cone)
    requires k.height != 0.0
    ensures ConeRelation(k, Rim(k)) == 0.0 && ConeRelation(k, Apex(k)) == 0.0
  {
    assert Slope(k) * k.height == k.radius;
  }

  /**
    The constructor `Cone(c, r, h)` (Cone.h:31): stores its arguments unchanged, so the base
    rim passes through `c + (r, 0, 0)` and the apex sits `h` above `c`; `theta` is then
    initialised from the new radius and height, since it is declared after them (Cone.h:23-26).
   */
  function MakeCone(c: Vec3, r: real, h: real, atanOfRatio: (real, real) -> real): (k: Cone)
    ensures k.center == c && k.radius == r && k.height == h
    ensures ThetaMatchesShape(k, atanOfRatio)
    ensures Rim(k) == Vec3(c.x + r, c.y, c.z) && Apex(k) == Vec3(c.x, c.y + h, c.z)
    ensures h != 0.0 ==> ConeRelation(k, Rim(k)) == 0.0 && ConeRelation(k, Apex(k)) == 0.0
  {
    var k := Cone(c, r, h, atanOfRatio(r, h));
    if h != 0.0 then RimAndApexOnCone(k); k else k
  }

  /**
    The default constructor `Cone()` (Cone.h:23-26,29): the unit cone standing on the origin,
    through (1, 0, 0) with its apex at (0, 1, 0), and `theta` the angle for ratio 1/1.
   */
  function UnitCone(atanOfRatio: (real, real) -> real): (k: Cone)
    ensures k.center == Vec3(0.0, 0.0, 0.0) && k.radius == 1.0 && k.height == 1.0
    ensures ThetaMatchesShape(k, atanOfRatio)
    ensures Rim(k) == Vec3(1.0, 0.0, 0.0) && Apex(k) == Vec3(0.0, 1.0, 0.0)
  {
    MakeCone(Vec3(0.0, 0.0, 0.0), 1.0, 1.0, atanOfRatio)
  }

  // ---------------------------------------------------------------------------
  // Cone::intersect (Cone.cpp:15-49)
  // ---------------------------------------------------------------------------

  datatype Quadratic = Quadratic(a: real, b: real, c: real)

  function Eval(q: Quadratic, t: real): real {
    q.a * t * t + q.b * t + q.c
  }

  function Discriminant(q: Quadratic): real {
    q.b * q.b - 4.0 * q.a * q.c
  }

  /** The coefficients of lines 29-31, in the source's own arrangement, with `s` for `r/h`. */
  function Coefficients(k: Cone, p0: Vec3, dir: Vec3): Quadratic
    requires k.height != 0.0
  {
    var (x0, y0, z0) := (p0.x, p0.y, p0.z);
    var (dx, dy, dz) := (dir.x, dir.y, dir.z);
    var (xc, yc, zc) := (k.center.x, k.center.y, k.center.z);
    var (h, s) := (k.height, Slope(k));
    Quadratic(
      dx * dx + dz * dz - dy * dy * s * s,
      2.0 * (dx * x0 - dx * xc + dz * z0 - dz * zc - s * s * (-dy * h + dy * y0 - dy * yc)),
      -s * s * (h - y0 + yc) * (h - y0 + yc) + (x0 - xc) * (x0 - xc) + (z0 - zc) * (z0 - zc))
  }

  /**
    Lines 29-31 are the cone relation expanded in the ray parameter: for every `t`, the
    quadratic at `t` is the cone relation at the ray's point `p0 + t * dir`.
   */
  lemma CoefficientsExpandConeRelation(k: Cone, p0: Vec3, dir: Vec3, t: real)
    requires k.height != 0.0
    ensures Eval(Coefficients(k, p0, dir), t) == ConeRelation(k, PointAt(p0, dir, t))
  {
    var m := Slope(k) * Slope(k);
    var cx := p0.x - k.center.x;
    var cz := p0.z - k.center.z;
    var cy := k.height - p0.y + k.center.y;
    EvalCentred(k, p0, dir, t);
    RelationAlongRay(k, p0, dir, t);
    ExpandRelation(cx, cy, cz, dir.x, dir.y, dir.z, m, t);
  }

  lemma EvalCentred(k: Cone, p0: Vec3, dir: Vec3, t: real)
    requires k.height != 0.0
    ensures var m := Slope(k) * Slope(k);
      var cx := p0.x - k.center.x;
      var cz := p0.z - k.center.z;
      var cy := k.height - p0.y + k.center.y;
      Eval(Coefficients(k, p0, dir), t)
        == (dir.x * dir.x + dir.z * dir.z - m * (dir.y * dir.y)) * t * t
           + 2.0 * (dir.x * cx + dir.z * cz + m * (dir.y * cy)) * t
           + (cx * cx + cz * cz - m * (cy * cy))
  {
    CoefficientsCentred(k, p0, dir);
  }

  lemma RelationAlongRay(k: Cone, p0: Vec3, dir: Vec3, t: real)
    requires k.height != 0.0
    ensures var m := Slope(k) * Slope(k);
      var cx := p0.x - k.center.x;
      var cz := p0.z - k.center.z;
      var cy := k.height - p0.y + k.center.y;
      ConeRelation(k, PointAt(p0, dir, t))
        == (cx + t * dir.x) * (cx + t * dir.x) + (cz + t * dir.z) * (cz + t * dir.z)
           - m * (cy - t * dir.y) * (cy - t * dir.y)
  {
    var p := PointAt(p0, dir, t);
    assert p.x - k.center.x == (p0.x - k.center.x) + t * dir.x;
    assert p.z - k.center.z == (p0.z - k.center.z) + t * dir.z;
    assert k.height - (p.y - k.center.y) == (k.height - p0.y + k.center.y) - t * dir.y;
  }

  /** The source's coefficients, rewritten around the ray origin's offset from the cone. */
  lemma CoefficientsCentred(k: Cone, p0: Vec3, dir: Vec3)
    requires k.height != 0.0
    ensures var m := Slope(k) * Slope(k);
      var cx := p0.x - k.center.x;
      var cz := p0.z - k.center.z;
      var cy := k.height - p0.y + k.center.y;
      Coefficients(k, p0, dir) ==
        Quadratic(dir.x * dir.x + dir.z * dir.z - m * (dir.y * dir.y),
                  2.0 * (dir.x * cx + dir.z * cz + m * (dir.y * cy)),
                  cx * cx + cz * cz - m * (cy * cy))
  {
    CentredA(k, p0, dir);
    CentredB(k, p0, dir);
    CentredC(k, p0, dir);
  }

  lemma CentredA(k: Cone, p0: Vec3, dir: Vec3)
    requires k.height != 0.0
    ensures Coefficients(k, p0, dir).a
      == dir.x * dir.x + dir.z * dir.z - (Slope(k) * Slope(k)) * (dir.y * dir.y)
  {
  }

  lemma CentredB(k: Cone, p0: Vec3, dir: Vec3)
    requires k.height != 0.0
    ensures Coefficients(k, p0, dir).b
      == 2.0 * (dir.x * (p0.x - k.center.x) + dir.z * (p0.z - k.center.z)
                + (Slope(k) * Slope(k)) * (dir.y * (k.height - p0.y + k.center.y)))
  {
  }

  lemma CentredC(k: Cone, p0: Vec3, dir: Vec3)
    requires k.height != 0.0
    ensures Coefficients(k, p0, dir).c
      == (p0.x - k.center.x) * (p0.x - k.center.x) + (p0.z - k.center.z) * (p0.z - k.center.z)
         - (Slope(k) * Slope(k)) * ((k.height - p0.y + k.center.y) * (k.height - p0.y + k.center.y))
  {
  }

  /** The polynomial identity behind the expansion, with `m` for `(r/h)^2`. */
  lemma ExpandRelation(cx: real, cy: real, cz: real, dx: real, dy: real, dz: real, m: real, t: real)
    ensures (cx + t * dx) * (cx + t * dx) + (cz + t * dz) * (cz + t * dz) - m * (cy - t * dy) * (cy - t * dy)
      == (dx * dx + dz * dz - m * (dy * dy)) * t * t + 2.0 * (dx * cx + dz * cz + m * (dy * cy)) * t
         + (cx * cx + cz * cz - m * (cy * cy))
  {
    Square(cx, t * dx);
    Square(cz, t * dz);
    Square(cy, -(t * dy));
  }

  lemma Square(u: real, v: real)
    ensures (u + v) * (u + v) == u * u + 2.0 * u * v + v * v
  {
  }

  /** The discriminant threshold of line 34: narrower discriminants count as a miss. */
  const EPSILON: real := 0.001

  /** The miss value returned by `intersect`. */
  const NO_HIT: real := -1.0

  /** `t1` of line 36 for a given square root `s` of the discriminant. */
  function RootMinus(q: Quadratic, s: real): real
    requires q.a != 0.0
  {
    (-q.b - s) / (2.0 * q.a)
  }

  /** `t2` of line 37. */
  function RootPlus(q: Quadratic, s: real): real
    requires q.a != 0.0
  {
    (-q.b + s) / (2.0 * q.a)
  }

  /**
    The caller's obligation at lines 36-37: `2*a` is nonzero whenever the discriminant is
    accepted and the roots are computed.
   */
  predicate Solvable(q: Quadratic) {
    Discriminant(q) >= EPSILON ==> q.a != 0.0
  }

  /**
    Lines 33-47 for coefficients `q`, a ray starting at height `y0` with vertical direction `dy`,
    and the apex height `maxY`. Returns -1 or a non-negative parameter whose height is at most
    `maxY`; a discriminant below the threshold is always a miss.
   */
  function SelectRoot(q: Quadratic, y0: real, dy: real, maxY: real, sqrt: real -> real): real
    requires Solvable(q)
  {
    var d := Discriminant(q);
    if d < EPSILON then NO_HIT
    else
      var t1 := RootMinus(q, sqrt(d));
      var t2 := RootPlus(q, sqrt(d));
      var t1y := y0 + dy * t1;
      var t2y := y0 + dy * t2;
      if t1 < 0.0 || t1y > maxY then
        (if t2 > 0.0 && t2y < maxY then t2 else NO_HIT)
      else t1
  }

  /**
    What `intersect` returns is -1 or a non-negative parameter whose height is at most the
    apex height; a discriminant below the threshold (zero and negative ones included) is a miss.
   */
  lemma SelectRootRange(q: Quadratic, y0: real, dy: real, maxY: real, sqrt: real -> real)
    requires Solvable(q)
    ensures var t := SelectRoot(q, y0, dy, maxY, sqrt);
      (t == NO_HIT || (0.0 <= t && y0 + dy * t <= maxY)) &&
      (Discriminant(q) < EPSILON ==> t == NO_HIT)
  {
  }

  /**
    The selection rule of lines 39-47: once the discriminant is accepted, `t1` is returned when
    it is non-negative and not above the apex; otherwise `t2` is returned exactly when it is
    positive and strictly below the apex, and -1 when it is not. So the result is always one
    of -1, `t1` and `t2`.
   */
  lemma SelectRootRule(q: Quadratic, y0: real, dy: real, maxY: real, sqrt: real -> real)
    requires Solvable(q) && Discriminant(q) >= EPSILON
    ensures var t := SelectRoot(q, y0, dy, maxY, sqrt);
      var t1 := RootMinus(q, sqrt(Discriminant(q)));
      var t2 := RootPlus(q, sqrt(Discriminant(q)));
      (t == NO_HIT || t == t1 || t == t2) &&
      (0.0 <= t1 && y0 + dy * t1 <= maxY ==> t == t1) &&
      (!(0.0 <= t1 && y0 + dy * t1 <= maxY) ==>
        t == (if 0.0 < t2 && y0 + dy * t2 < maxY then t2 else NO_HIT))
  {
  }

  /**
    `Cone::intersect(p0, dir)` (Cone.cpp:15-49); `sqrt` stands for the C library's square root.
   */
  function Intersect(k: Cone, p0: Vec3, dir: Vec3, sqrt: real -> real): real
    requires k.height != 0.0 && Solvable(Coefficients(k, p0, dir))
  {
    SelectRoot(Coefficients(k, p0, dir), p0.y, dir.y, k.center.y + k.height, sqrt)
  }

  /** `sqrt` returns the non-negative square root of every non-negative argument. */
  ghost predicate IsSqrt(sqrt: real -> real) {
    forall d :: d >= 0.0 ==> sqrt(d) >= 0.0 && sqrt(d) * sqrt(d) == d
  }

  /**
    With `s` a non-negative square root of the discriminant, both `t1` and `t2` solve
    `a t^2 + b t + c = 0`.
   */
  lemma RootsSolveQuadratic(q: Quadratic, s: real)
    requires q.a != 0.0 && s >= 0.0 && s * s == Discriminant(q)
    ensures Eval(q, RootMinus(q, s)) == 0.0 && Eval(q, RootPlus(q, s)) == 0.0
  {
    RootSolves(q, -s, RootMinus(q, s));
    RootSolves(q, s, RootPlus(q, s));
  }

  lemma RootSolves(q: Quadratic, e: real, t: real)
    requires q.a != 0.0 && e * e == Discriminant(q) && t == (-q.b + e) / (2.0 * q.a)
    ensures Eval(q, t) == 0.0
  {
    assert 2.0 * q.a * t == -q.b + e;
    assert (2.0 * q.a * t + q.b) * (2.0 * q.a * t + q.b) == e * e;
    assert 4.0 * q.a * Eval(q, t) == (2.0 * q.a * t + q.b) * (2.0 * q.a * t + q.b) - Discriminant(q);
  }

  /**
    When `sqrt` behaves as a square root on an accepted discriminant, the selected parameter is
    -1 or a root of the quadratic.
   */
  lemma SelectedRootSolves(q: Quadratic, y0: real, dy: real, maxY: real, sqrt: real -> real)
    requires Solvable(q)
    requires IsSqrt(sqrt)
    ensures var t := SelectRoot(q, y0, dy, maxY, sqrt);
      t == NO_HIT || (0.0 <= t && y0 + dy * t <= maxY && Eval(q, t) == 0.0)
  {
    SelectRootRange(q, y0, dy, maxY, sqrt);
    var d := Discriminant(q);
    if d >= EPSILON {
      assert sqrt(d) >= 0.0 && sqrt(d) * sqrt(d) == d;
      SelectRootRule(q, y0, dy, maxY, sqrt);
      RootsSolveQuadratic(q, sqrt(d));
    }
  }

  /**
    `intersect` returns -1 or a non-negative parameter whose point lies no higher than the apex.
   */
  lemma IntersectRange(k: Cone, p0: Vec3, dir: Vec3, sqrt: real -> real)
    requires k.height != 0.0 && Solvable(Coefficients(k, p0, dir))
    ensures var t := Intersect(k, p0, dir, sqrt);
      t == NO_HIT || (0.0 <= t && PointAt(p0, dir, t).y <= k.center.y + k.height)
  {
    var q := Coefficients(k, p0, dir);
    var t := SelectRoot(q, p0.y, dir.y, k.center.y + k.height, sqrt);
    SelectRootRange(q, p0.y, dir.y, k.center.y + k.height, sqrt);
    HeightAlongRay(p0, dir, t);
  }

  lemma HeightAlongRay(p0: Vec3, dir: Vec3, t: real)
    ensures PointAt(p0, dir, t).y == p0.y + dir.y * t
  {
  }

  /** A discriminant below the threshold (zero and negative ones included) makes `intersect` miss. */
  lemma IntersectNarrowMiss(k: Cone, p0: Vec3, dir: Vec3, sqrt: real -> real)
    requires k.height != 0.0 && Solvable(Coefficients(k, p0, dir))
    requires Discriminant(Coefficients(k, p0, dir)) < EPSILON
    ensures Intersect(k, p0, dir, sqrt) == NO_HIT
  {
    SelectRootRange(Coefficients(k, p0, dir), p0.y, dir.y, k.center.y + k.height, sqrt);
  }

  /**
    When `sqrt` behaves as a square root on an accepted discriminant, a hit returned by
    `intersect` is a point of the cone surface at or below the apex.
   */
  lemma IntersectHitsCone(k: Cone, p0: Vec3, dir: Vec3, sqrt: real -> real)
    requires k.height != 0.0 && Solvable(Coefficients(k, p0, dir))
    requires IsSqrt(sqrt)
    ensures var t := Intersect(k, p0, dir, sqrt);
      t != NO_HIT ==> ConeRelation(k, PointAt(p0, dir, t)) == 0.0
  {
    var q := Coefficients(k, p0, dir);
    var t := Intersect(k, p0, dir, sqrt);
    SelectedRootSolves(q, p0.y, dir.y, k.center.y + k.height, sqrt);
    CoefficientsExpandConeRelation(k, p0, dir, t);
  }

  /** When `a > 0`, `t1` is the nearer of the two roots, so the rule tries the nearer root first. */
  lemma NearerRootFirst(q: Quadratic, s: real)
    requires q.a > 0.0 && s >= 0.0
    ensures RootMinus(q, s) <= RootPlus(q, s)
  {
    assert RootPlus(q, s) - RootMinus(q, s) == s / q.a;
  }
}
