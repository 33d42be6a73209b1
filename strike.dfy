/** The strike detector and localiser: given the filtered force and
    torque it decides whether a strike happened and, if so, where on the
    cylindrical bag surface it landed. */
module Strike {
  import opened Common

  /** Least force magnitude registered as a strike, in newtons. */
  const FORCE_THRESHOLD := 5.0
  /** Numerical-stability constant `eps` (1e-6). */
  const EPS := 0.000001
  /** Bag radius in metres. */
  const RADIUS := 0.10
  /** Sensor mounting offsets used for torque compensation. */
  const ARM_X := 0.20
  const ARM_Y := 0.15
  /** Metres to centimetres, and the half-width of the reported area. */
  const M_TO_CM := 100.0
  const HALF_SPAN_CM := 15.0

  datatype Vec3 = Vec3(x: real, y: real, z: real)

  function Dot(u: Vec3, v: Vec3): real
  {
    u.x * v.x + u.y * v.y + u.z * v.z
  }

  function NormSq(v: Vec3): real
  {
    Dot(v, v)
  }

  /** Torque of force `f` applied at point `r`: `r × f`. */
  function Cross(r: Vec3, f: Vec3): Vec3
  {
    Vec3(r.y * f.z - r.z * f.y, r.z * f.x - r.x * f.z, r.x * f.y - r.y * f.x)
  }

  /** Torque measured at the sensor, moved to the bag centre line: the
      correction is linear in the horizontal force, leaves the twist
      about z alone and vanishes for a purely axial force. */
  function CompensateTorque(f: Vec3, tau: Vec3): (c: Vec3)
    ensures c.z == tau.z
    ensures c.x - tau.x == ARM_X * f.y && c.y - tau.y == ARM_Y * f.x
    ensures f.x == 0.0 && f.y == 0.0 ==> c == tau
  {
    Vec3(tau.x + f.y * ARM_X, tau.y + f.x * ARM_Y, tau.z)
  }

  lemma ScaleBack(a: real, n: real)
    requires n != 0.0
    ensures n * (a / n) == a
  {
  }

  /** `γ_perp = (F × τ) / |F|²`, with `n` the already computed `|F|²`. */
  function PerpendicularArm(f: Vec3, tau: Vec3, n: real): Vec3
    requires n != 0.0
  {
    Vec3((f.y * tau.z - f.z * tau.y) / n,
         (f.z * tau.x - f.x * tau.z) / n,
         (f.x * tau.y - f.y * tau.x) / n)
  }

  /** Scaled back by `n`, `γ_perp` is the cross product of force and torque. */
  lemma PerpendicularArmScaled(f: Vec3, tau: Vec3, n: real)
    requires n != 0.0
    ensures var g := PerpendicularArm(f, tau, n);
      Vec3(n * g.x, n * g.y, n * g.z) == Cross(f, tau)
  {
    ScaleBack(f.y * tau.z - f.z * tau.y, n);
    ScaleBack(f.z * tau.x - f.x * tau.z, n);
    ScaleBack(f.x * tau.y - f.y * tau.x, n);
  }

  lemma DivSum(a: real, b: real, c: real, n: real)
    requires n != 0.0
    ensures a / n + b / n + c / n == (a + b + c) / n
  {
  }

  /** `γ_perp` is orthogonal to the force. */
  lemma PerpendicularArmOrthogonal(f: Vec3, tau: Vec3)
    requires NormSq(f) != 0.0
    ensures Dot(f, PerpendicularArm(f, tau, NormSq(f))) == 0.0
  {
    var n := NormSq(f);
    var a := f.x * (f.y * tau.z - f.z * tau.y);
    var b := f.y * (f.z * tau.x - f.x * tau.z);
    var c := f.z * (f.x * tau.y - f.y * tau.x);
    assert a + b + c == 0.0;
    var g := PerpendicularArm(f, tau, n);
    assert f.x * g.x == a / n;
    assert f.y * g.y == b / n;
    assert f.z * g.z == c / n;
    DivSum(a, b, c, n);
  }

  /** The lever-arm identity: if the torque is that of the force applied
      at `r`, then `γ_perp` is the part of `r` perpendicular to the force,
      `r - (F·r / |F|²) F`. */
  lemma PerpendicularArmOfLever(f: Vec3, r: Vec3)
    requires NormSq(f) != 0.0
    ensures var n := NormSq(f); var t := Dot(f, r) / n;
      PerpendicularArm(f, Cross(r, f), n) == Vec3(r.x - t * f.x, r.y - t * f.y, r.z - t * f.z)
  {
    LeverX(f, r);
    LeverY(f, r);
    LeverZ(f, r);
  }

  lemma LeverX(f: Vec3, r: Vec3)
    requires NormSq(f) != 0.0
    ensures PerpendicularArm(f, Cross(r, f), NormSq(f)).x == r.x - (Dot(f, r) / NormSq(f)) * f.x
  {
    LeverAxis(f.x, f.y, f.z, r.x, r.y, r.z, NormSq(f), Dot(f, r));
  }

  lemma LeverY(f: Vec3, r: Vec3)
    requires NormSq(f) != 0.0
    ensures PerpendicularArm(f, Cross(r, f), NormSq(f)).y == r.y - (Dot(f, r) / NormSq(f)) * f.y
  {
    LeverAxis(f.y, f.z, f.x, r.y, r.z, r.x, NormSq(f), Dot(f, r));
  }

  lemma LeverZ(f: Vec3, r: Vec3)
    requires NormSq(f) != 0.0
    ensures PerpendicularArm(f, Cross(r, f), NormSq(f)).z == r.z - (Dot(f, r) / NormSq(f)) * f.z
  {
    LeverAxis(f.z, f.x, f.y, r.z, r.x, r.y, NormSq(f), Dot(f, r));
  }

  /** One component of `F × (r × F) / |F|² = r - (F·r / |F|²) F`. */
  lemma LeverAxis(fx: real, fy: real, fz: real, rx: real, ry: real, rz: real, n: real, d: real)
    requires n == fx * fx + fy * fy + fz * fz && d == fx * rx + fy * ry + fz * rz
    requires n != 0.0
    ensures (fy * (rx * fy - ry * fx) - fz * (rz * fx - rx * fz)) / n == rx - (d / n) * fx
  {
    LeverExpansion(fx, fy, fz, rx, ry, rz, n, d);
    LeverComponent(rx, fx, n, d);
  }

  lemma LeverExpansion(fx: real, fy: real, fz: real, rx: real, ry: real, rz: real, n: real, d: real)
    requires n == fx * fx + fy * fy + fz * fz && d == fx * rx + fy * ry + fz * rz
    ensures fy * (rx * fy - ry * fx) - fz * (rz * fx - rx * fz) == rx * n - fx * d
  {
  }

  lemma LeverComponent(ri: real, fi: real, n: real, d: real)
    requires n != 0.0
    ensures (ri * n - fi * d) / n == ri - (d / n) * fi
  {
    assert (ri * n - fi * d) / n == ri * n / n - fi * d / n;
  }

  /** `γ = k F + γ_perp`. */
  function ContactPoint(k: real, f: Vec3, gp: Vec3): Vec3
  {
    Vec3(k * f.x + gp.x, k * f.y + gp.y, k * f.z + gp.z)
  }

  /** `γ` lies on the line through `γ_perp` along the force, `k` force
      lengths along it. */
  lemma ContactPointOnLine(k: real, f: Vec3, gp: Vec3)
    ensures var g := ContactPoint(k, f, gp);
      && Cross(Vec3(g.x - gp.x, g.y - gp.y, g.z - gp.z), f) == Vec3(0.0, 0.0, 0.0)
      && Dot(f, g) == k * NormSq(f) + Dot(f, gp)
  {
  }

  datatype Quadratic = Quadratic(a: real, b: real, c: real)

  function Eval(q: Quadratic, k: real): real
  {
    q.a * k * k + q.b * k + q.c
  }

  function Discriminant(q: Quadratic): real
  {
    q.b * q.b - 4.0 * q.a * q.c
  }

  /** A square is non-negative and vanishes only at zero. */
  lemma SquareZero(x: real, s: real)
    requires s == x * x
    ensures s >= 0.0
    ensures s == 0.0 <==> x == 0.0
  {
    if x > 0.0 {
      SquareStrictMono(0.0, x);
    } else if x < 0.0 {
      SquareStrictMono(0.0, -x);
    }
  }

  lemma SquaresVanish(x: real, y: real)
    ensures x * x + y * y == 0.0 <==> x == 0.0 && y == 0.0
  {
    SquareZero(x, x * x);
    SquareZero(y, y * y);
  }

  /** Coefficients of the cylinder-intersection equation in `k`. */
  function CylinderQuadratic(f: Vec3, gp: Vec3): Quadratic
  {
    Quadratic(f.x * f.x + f.y * f.y,
              2.0 * (f.x * gp.x + f.y * gp.y),
              gp.x * gp.x + gp.y * gp.y - RADIUS * RADIUS)
  }

  /** The leading coefficient is the squared horizontal force, so it is
      zero exactly for an axial force, and the constant term is at least
      `-R²`. */
  lemma CylinderQuadraticShape(f: Vec3, gp: Vec3)
    ensures var q := CylinderQuadratic(f, gp);
      && q.a >= 0.0 && q.c >= -(RADIUS * RADIUS)
      && (q.a == 0.0 <==> f.x == 0.0 && f.y == 0.0)
  {
    SquaresVanish(f.x, f.y);
    SquaresVanish(gp.x, gp.y);
  }

  /** The quadratic measures how far the candidate point is from the bag
      surface: its value is the squared horizontal distance of `γ` from the
      axis minus the squared radius, so its roots put `γ` on the cylinder. */
  lemma CylinderQuadraticMeaning(f: Vec3, gp: Vec3, k: real)
    ensures var g := ContactPoint(k, f, gp);
      Eval(CylinderQuadratic(f, gp), k) == g.x * g.x + g.y * g.y - RADIUS * RADIUS
  {
    var q := CylinderQuadratic(f, gp);
    assert q.a * k * k == (k * f.x) * (k * f.x) + (k * f.y) * (k * f.y);
    assert q.b * k == 2.0 * (k * f.x) * gp.x + 2.0 * (k * f.y) * gp.y;
  }

  /** The three mutually exclusive ways `k1` is solved for. */
  datatype Branch = NearAxial | RealRoot | NoRealRoot

  function SelectBranch(q: Quadratic): (b: Branch)
    ensures b == NearAxial <==> q.a < EPS
    ensures b == RealRoot <==> q.a >= EPS && Discriminant(q) >= 0.0
    ensures b == NoRealRoot <==> q.a >= EPS && Discriminant(q) < 0.0
  {
    if q.a < EPS then NearAxial
    else if Discriminant(q) >= 0.0 then RealRoot
    else NoRealRoot
  }

  /** `k1` as chosen by the branch. */
  function SolveK(f: Vec3, gp: Vec3, sqrtf: real -> real): real
  {
    var q := CylinderQuadratic(f, gp);
    match SelectBranch(q)
    case NearAxial => -(f.z * gp.z) / (f.z * f.z + EPS)
    case RealRoot => (-q.b - sqrtf(Discriminant(q))) / (2.0 * q.a)
    case NoRealRoot => -(f.x * gp.x + f.y * gp.y) / q.a
  }

  /** Near-axial branch: `k1` is the stationary point of the regularised
      residual `(Fz k + γz)² + eps k²`. */
  lemma NearAxialK(f: Vec3, gp: Vec3, sqrtf: real -> real)
    requires SelectBranch(CylinderQuadratic(f, gp)) == NearAxial
    ensures SolveK(f, gp, sqrtf) * (f.z * f.z + EPS) == -(f.z * gp.z)
  {
    SquareZero(f.z, f.z * f.z);
    ScaleBack(-(f.z * gp.z), f.z * f.z + EPS);
  }

  /** Real-root branch: the minus-sign root, `2ak + b = -√D`, at or before
      the vertex whenever the root taken is non-negative. */
  lemma RealRootK(f: Vec3, gp: Vec3, sqrtf: real -> real)
    requires SelectBranch(CylinderQuadratic(f, gp)) == RealRoot
    ensures var q := CylinderQuadratic(f, gp); var k := SolveK(f, gp, sqrtf);
      && 2.0 * q.a * k + q.b == -sqrtf(Discriminant(q))
      && (sqrtf(Discriminant(q)) >= 0.0 ==> k <= -q.b / (2.0 * q.a))
  {
    var q := CylinderQuadratic(f, gp);
    SmallerRoot(q.a, q.b, sqrtf(Discriminant(q)), SolveK(f, gp, sqrtf));
  }

  /** No-real-root branch: the vertex `-b / 2a`. */
  lemma NoRealRootK(f: Vec3, gp: Vec3, sqrtf: real -> real)
    requires SelectBranch(CylinderQuadratic(f, gp)) == NoRealRoot
    ensures var q := CylinderQuadratic(f, gp); SolveK(f, gp, sqrtf) == -q.b / (2.0 * q.a)
  {
    var q := CylinderQuadratic(f, gp);
    HalveBoth(f.x * gp.x + f.y * gp.y, q.a, SolveK(f, gp, sqrtf));
  }

  /** The minus-sign root of `a k² + b k + c` with `s` the root of the
      discriminant: `2ak + b = -s`, so it is at or before the vertex when
      `s >= 0`. */
  lemma SmallerRoot(a: real, b: real, s: real, k: real)
    requires a > 0.0 && k == (-b - s) / (2.0 * a)
    ensures 2.0 * a * k + b == -s
    ensures s >= 0.0 ==> k <= -b / (2.0 * a)
  {
    var d := 2.0 * a;
    ScaleBack(-b - s, d);
    ScaleBack(-b, d);
    if s >= 0.0 {
      var x := -b / d - k;
      assert x * d == s;
      assert x >= 0.0;
    }
  }

  lemma HalveBoth(m: real, a: real, k: real)
    requires a != 0.0 && k == -m / a
    ensures k == -(2.0 * m) / (2.0 * a)
  {
  }

  /** Factored form of a quadratic through one root `k`. */
  lemma Factor(q: Quadratic, k: real, k2: real, r: real)
    requires q.a != 0.0
    requires k + k2 == -q.b / q.a && k * k2 == q.c / q.a
    ensures Eval(q, r) == q.a * (r - k) * (r - k2)
  {
    assert q.b == -q.a * (k + k2);
    assert q.c == q.a * (k * k2);
    calc {
      q.a * (r - k) * (r - k2);
      q.a * (r * r - (k + k2) * r + k * k2);
      q.a * r * r - q.a * (k + k2) * r + q.a * (k * k2);
    }
  }

  /** With a real discriminant the minus-branch `k1` is a root, and it is
      the smaller of the two roots: every root of the equation is at least `k1`. */
  lemma RealRootIsSmallerRoot(f: Vec3, gp: Vec3, sqrtf: real -> real)
    requires IsSqrt(sqrtf)
    requires SelectBranch(CylinderQuadratic(f, gp)) == RealRoot
    ensures var q := CylinderQuadratic(f, gp); var k := SolveK(f, gp, sqrtf);
      && Eval(q, k) == 0.0
      && forall r :: Eval(q, r) == 0.0 ==> k <= r
  {
    var q := CylinderQuadratic(f, gp);
    var k := SolveK(f, gp, sqrtf);
    var d := Discriminant(q);
    var s := sqrtf(d);
    assert s >= 0.0 && s * s == d;
    var k2 := (-q.b + s) / (2.0 * q.a);
    assert q.a > 0.0;
    Vieta(q.a, q.b, q.c, s);
    assert k <= k2 by {
      assert k2 - k == s / q.a;
    }
    forall r
      ensures Eval(q, r) == q.a * (r - k) * (r - k2)
    {
      Factor(q, k, k2, r);
    }
    assert Eval(q, k) == 0.0;
    forall r | Eval(q, r) == 0.0
      ensures k <= r
    {
      ZeroProduct(q.a, r - k, r - k2);
    }
  }

  /** Sum and product of the two roots of `a k² + b k + c` when `s² = b² - 4ac`. */
  lemma Vieta(a: real, b: real, c: real, s: real)
    requires a != 0.0 && s * s == b * b - 4.0 * a * c
    ensures (-b - s) / (2.0 * a) + (-b + s) / (2.0 * a) == -b / a
    ensures ((-b - s) / (2.0 * a)) * ((-b + s) / (2.0 * a)) == c / a
  {
    var k1, k2 := (-b - s) / (2.0 * a), (-b + s) / (2.0 * a);
    assert k1 * (2.0 * a) == -b - s;
    assert k2 * (2.0 * a) == -b + s;
    assert (k1 * (2.0 * a)) * (k2 * (2.0 * a)) == b * b - s * s;
    assert (k1 * k2) * (4.0 * a * a) == 4.0 * a * c;
    assert (k1 * k2) * a == c;
  }

  lemma ZeroProduct(a: real, x: real, y: real)
    requires a != 0.0 && a * x * y == 0.0
    ensures x == 0.0 || y == 0.0
  {
  }

  /** Without a real root the line of action misses the bag, and `k1` is
      the nearest point to the surface: it minimises the quadratic. */
  lemma NoRealRootIsNearestPoint(f: Vec3, gp: Vec3, sqrtf: real -> real)
    requires SelectBranch(CylinderQuadratic(f, gp)) == NoRealRoot
    ensures var q := CylinderQuadratic(f, gp); var k := SolveK(f, gp, sqrtf);
      && (forall r :: Eval(q, k) <= Eval(q, r))
      && (forall r :: Eval(q, r) > 0.0)
  {
    var q := CylinderQuadratic(f, gp);
    var k := SolveK(f, gp, sqrtf);
    assert q.a >= EPS;
    assert k == -q.b / (2.0 * q.a);
    forall r
      ensures Eval(q, r) == q.a * (r - k) * (r - k) + (4.0 * q.a * q.c - q.b * q.b) / (4.0 * q.a)
    {
      Vertex(q, k, r);
    }
    forall r
      ensures Eval(q, k) <= Eval(q, r) && Eval(q, r) > 0.0
    {
      ScaledSquare(q.a, r - k);
      assert (4.0 * q.a * q.c - q.b * q.b) / (4.0 * q.a) > 0.0;
    }
  }

  lemma ScaledSquare(a: real, x: real)
    requires a > 0.0
    ensures a * x * x >= 0.0
  {
  }

  lemma Vertex(q: Quadratic, k: real, r: real)
    requires q.a > 0.0 && k == -q.b / (2.0 * q.a)
    ensures Eval(q, r) == q.a * (r - k) * (r - k) + (4.0 * q.a * q.c - q.b * q.b) / (4.0 * q.a)
  {
    assert q.b == -2.0 * q.a * k;
    assert (4.0 * q.a * q.c - q.b * q.b) / (4.0 * q.a) == q.c - q.a * k * k;
    calc {
      q.a * (r - k) * (r - k) + (q.c - q.a * k * k);
      q.a * r * r - 2.0 * q.a * k * r + q.c;
      Eval(q, r);
    }
  }

  /** The regularised residual `(Fz k + γ_perp,z)² + eps k²` of the
      near-axial case. */
  function AxialResidual(fz: real, gz: real, k: real): real
  {
    (fz * k + gz) * (fz * k + gz) + EPS * k * k
  }

  /** For a nearly axial force `k1` minimises the regularised residual. */
  lemma NearAxialMinimisesResidual(f: Vec3, gp: Vec3, sqrtf: real -> real)
    requires SelectBranch(CylinderQuadratic(f, gp)) == NearAxial
    ensures var k := SolveK(f, gp, sqrtf);
      forall r :: AxialResidual(f.z, gp.z, k) <= AxialResidual(f.z, gp.z, r)
  {
    var k := SolveK(f, gp, sqrtf);
    var w := f.z * f.z + EPS;
    assert w > 0.0;
    assert k * w == -(f.z * gp.z);
    forall r
      ensures AxialResidual(f.z, gp.z, k) <= AxialResidual(f.z, gp.z, r)
    {
      Regularised(f.z, gp.z, k, r, w);
    }
  }

  lemma Regularised(fz: real, gz: real, k: real, r: real, w: real)
    requires w == fz * fz + EPS && w > 0.0 && k * w == -(fz * gz)
    ensures AxialResidual(fz, gz, k) <= AxialResidual(fz, gz, r)
  {
    calc {
      AxialResidual(fz, gz, r) - AxialResidual(fz, gz, k);
      w * (r * r - k * k) + 2.0 * fz * gz * (r - k);
      w * (r * r - k * k) - 2.0 * k * w * (r - k);
      w * (r - k) * (r - k);
    }
    ScaledSquare(w, r - k);
  }

  /** Result of `gk_calculate_hit_point` once its arguments are known to be
      valid: no strike, or a strike at `(x, y)` in centimetres with the
      force magnitude. */
  datatype Detection = NoStrike | Strike(x: real, y: real, force: real)

  /** The gate: no strike when `|F| < 5` or `|F|² < eps`. When the
      magnitude is the non-negative root of `n`, this is `n < 25`: the
      `eps` test never decides on its own. */
  function BelowGate(n: real, magnitude: real): (b: bool)
    ensures magnitude >= 0.0 && magnitude * magnitude == n ==>
      (b <==> n < FORCE_THRESHOLD * FORCE_THRESHOLD)
  {
    GateBySquare(n, magnitude);
    magnitude < FORCE_THRESHOLD || n < EPS
  }

  lemma GateBySquare(n: real, magnitude: real)
    ensures magnitude >= 0.0 && magnitude * magnitude == n ==>
      (magnitude < FORCE_THRESHOLD <==> n < FORCE_THRESHOLD * FORCE_THRESHOLD)
  {
    if magnitude >= 0.0 && magnitude * magnitude == n {
      if magnitude < FORCE_THRESHOLD {
        SquareStrictMono(magnitude, FORCE_THRESHOLD);
      } else if magnitude > FORCE_THRESHOLD {
        SquareStrictMono(FORCE_THRESHOLD, magnitude);
      }
    }
  }

  /** The solved contact point for a force above the gate: the
      perpendicular arm of the compensated torque, shifted along the
      force by the solved `k`. */
  function ContactOf(f: Vec3, measured: Vec3, sqrtf: real -> real): Vec3
    requires NormSq(f) != 0.0
  {
    var gp := PerpendicularArm(f, CompensateTorque(f, measured), NormSq(f));
    ContactPoint(SolveK(f, gp, sqrtf), f, gp)
  }

  /** The solved point lies on the line of action through `γ_perp`, and
      its projection on the force is `k |F|²`, since `γ_perp` is
      orthogonal to the force. */
  lemma ContactOfOnLine(f: Vec3, measured: Vec3, sqrtf: real -> real)
    requires NormSq(f) != 0.0
    ensures var g := ContactOf(f, measured, sqrtf);
      var gp := PerpendicularArm(f, CompensateTorque(f, measured), NormSq(f));
      && Cross(Vec3(g.x - gp.x, g.y - gp.y, g.z - gp.z), f) == Vec3(0.0, 0.0, 0.0)
      && Dot(f, g) == SolveK(f, gp, sqrtf) * NormSq(f)
  {
    var gp := PerpendicularArm(f, CompensateTorque(f, measured), NormSq(f));
    PerpendicularArmOrthogonal(f, CompensateTorque(f, measured));
    ContactPointOnLine(SolveK(f, gp, sqrtf), f, gp);
  }

  function Locate(f: Vec3, measured: Vec3, sqrtf: real -> real): (d: Detection)
    requires IsSqrt(sqrtf)
    ensures d.NoStrike? <==> NormSq(f) < FORCE_THRESHOLD * FORCE_THRESHOLD
    ensures d.Strike? ==>
      && -HALF_SPAN_CM <= d.x <= HALF_SPAN_CM
      && -HALF_SPAN_CM <= d.y <= HALF_SPAN_CM
      && d.force >= FORCE_THRESHOLD && d.force * d.force == NormSq(f)
  {
    var n := NormSq(f);
    assert n >= 0.0;
    var magnitude := sqrtf(n);
    SqrtBelow(sqrtf, n, FORCE_THRESHOLD);
    if BelowGate(n, magnitude) then NoStrike
    else
      var g := ContactOf(f, measured, sqrtf);
      Strike(Clamp(g.y * M_TO_CM, -HALF_SPAN_CM, HALF_SPAN_CM),
             Clamp(g.x * M_TO_CM, -HALF_SPAN_CM, HALF_SPAN_CM),
             magnitude)
  }

  /** Above the gate, the detection is the clamped, axis-swapped contact
      point with the force magnitude. */
  lemma LocateAboveGate(f: Vec3, measured: Vec3, sqrtf: real -> real)
    requires IsSqrt(sqrtf) && NormSq(f) >= FORCE_THRESHOLD * FORCE_THRESHOLD
    ensures var g := ContactOf(f, measured, sqrtf);
      Locate(f, measured, sqrtf)
      == Strike(Clamp(g.y * M_TO_CM, -HALF_SPAN_CM, HALF_SPAN_CM),
                Clamp(g.x * M_TO_CM, -HALF_SPAN_CM, HALF_SPAN_CM),
                sqrtf(NormSq(f)))
  {
    SqrtBelow(sqrtf, NormSq(f), FORCE_THRESHOLD);
  }

  lemma ShiftAlongForce(k: real, fi: real, ri: real, t0: real)
    ensures k * fi + (ri - t0 * fi) == ri - (t0 - k) * fi
  {
  }

  /** Localisation recovers the true contact point. Suppose the
      compensated torque is that of the force applied at a point `r` on
      the bag surface and the force is not axial. Then a real root exists,
      and the solved point lies on the line of action through `r`. It is
      `r` itself or the point where that line enters the bag before it,
      `r - t F` with `t >= 0`. */
  lemma LocalisesTrueContact(f: Vec3, r: Vec3, sqrtf: real -> real)
    requires IsSqrt(sqrtf)
    requires NormSq(f) != 0.0 && f.x * f.x + f.y * f.y >= EPS
    requires r.x * r.x + r.y * r.y == RADIUS * RADIUS
    ensures var n := NormSq(f);
      var gp := PerpendicularArm(f, Cross(r, f), n);
      var k := SolveK(f, gp, sqrtf);
      var t := Dot(f, r) / n - k;
      && SelectBranch(CylinderQuadratic(f, gp)) == RealRoot
      && t >= 0.0
      && ContactPoint(k, f, gp) == Vec3(r.x - t * f.x, r.y - t * f.y, r.z - t * f.z)
  {
    var n := NormSq(f);
    var gp := PerpendicularArm(f, Cross(r, f), n);
    var q := CylinderQuadratic(f, gp);
    var t0 := Dot(f, r) / n;
    PerpendicularArmOfLever(f, r);
    assert gp == Vec3(r.x - t0 * f.x, r.y - t0 * f.y, r.z - t0 * f.z);
    ShiftAlongForce(t0, f.x, r.x, t0);
    ShiftAlongForce(t0, f.y, r.y, t0);
    assert ContactPoint(t0, f, gp).x == r.x && ContactPoint(t0, f, gp).y == r.y;
    CylinderQuadraticMeaning(f, gp, t0);
    assert Eval(q, t0) == 0.0;
    if SelectBranch(q) == NoRealRoot {
      NoRealRootIsNearestPoint(f, gp, sqrtf);
      assert false;
    }
    assert SelectBranch(q) == RealRoot;
    RealRootIsSmallerRoot(f, gp, sqrtf);
    var k := SolveK(f, gp, sqrtf);
    ShiftAlongForce(k, f.x, r.x, t0);
    ShiftAlongForce(k, f.y, r.y, t0);
    ShiftAlongForce(k, f.z, r.z, t0);
  }

  lemma DivCancel(x: real, n: real)
    requires n != 0.0
    ensures (x * n) / n == x
  {
  }

  lemma PureXArmLiteral(f: real, n: real)
    requires n == f * f && n > 0.0
    ensures PerpendicularArm(Vec3(f, 0.0, 0.0), Vec3(0.0, f * ARM_Y, 0.0), n) == Vec3(0.0, 0.0, 0.15)
  {
    var g := PerpendicularArm(Vec3(f, 0.0, 0.0), Vec3(0.0, f * ARM_Y, 0.0), n);
    assert g.x == 0.0 / n && g.y == 0.0 / n;
    assert g.z == (0.15 * n) / n;
    DivCancel(0.15, n);
  }

  lemma PureXArm(f: real)
    requires f >= FORCE_THRESHOLD
    ensures var force := Vec3(f, 0.0, 0.0);
      PerpendicularArm(force, CompensateTorque(force, Vec3(0.0, 0.0, 0.0)), NormSq(force)) == Vec3(0.0, 0.0, 0.15)
  {
    var force := Vec3(f, 0.0, 0.0);
    SquareStrictMono(0.0, f);
    assert CompensateTorque(force, Vec3(0.0, 0.0, 0.0)) == Vec3(0.0, f * ARM_Y, 0.0);
    assert NormSq(force) == f * f;
    PureXArmLiteral(f, NormSq(force));
  }

  lemma PureXQuadratic(f: real)
    ensures var q := CylinderQuadratic(Vec3(f, 0.0, 0.0), Vec3(0.0, 0.0, 0.15));
      q.a == f * f && q.b == 0.0 && Discriminant(q) == (0.2 * f) * (0.2 * f)
  {
  }

  lemma SmallerRootTimesForce(f: real, n: real)
    requires n == f * f && n > 0.0
    ensures (-0.0 - 0.2 * f) / (2.0 * n) * f == -0.1
  {
    var d := 2.0 * n;
    assert d > 0.0;
    calc {
      (-0.0 - 0.2 * f) / d * f;
      (-0.2 * f * f) / d;
      (-0.1 * d) / d;
      { DivCancel(-0.1, d); }
      -0.1;
    }
  }

  lemma PureXK(f: real, sqrtf: real -> real)
    requires IsSqrt(sqrtf) && f >= FORCE_THRESHOLD
    ensures SolveK(Vec3(f, 0.0, 0.0), Vec3(0.0, 0.0, 0.15), sqrtf) * f == -0.1
  {
    PureXQuadratic(f);
    SqrtAt(sqrtf, Discriminant(CylinderQuadratic(Vec3(f, 0.0, 0.0), Vec3(0.0, 0.0, 0.15))), 0.2 * f);
    SquareStrictMono(1.0, f);
    assert CylinderQuadratic(Vec3(f, 0.0, 0.0), Vec3(0.0, 0.0, 0.15)).a >= EPS;
    assert SelectBranch(CylinderQuadratic(Vec3(f, 0.0, 0.0), Vec3(0.0, 0.0, 0.15))) == RealRoot;
    assert sqrtf(Discriminant(CylinderQuadratic(Vec3(f, 0.0, 0.0), Vec3(0.0, 0.0, 0.15)))) == 0.2 * f;
    assert SolveK(Vec3(f, 0.0, 0.0), Vec3(0.0, 0.0, 0.15), sqrtf) == (-0.0 - 0.2 * f) / (2.0 * (f * f));
    SmallerRootTimesForce(f, f * f);
  }

  lemma PureXContact(f: real, sqrtf: real -> real)
    requires IsSqrt(sqrtf) && f >= FORCE_THRESHOLD
    ensures ContactOf(Vec3(f, 0.0, 0.0), Vec3(0.0, 0.0, 0.0), sqrtf) == Vec3(-0.1, 0.0, 0.15)
  {
    PureXArm(f);
    PureXK(f, sqrtf);
  }

  /** A pure sideways push along x with no torque strikes the centre
      line: after the axis swap the reported `x` is 0, and `y` is -10 cm. */
  lemma PureXForceHitsCentreLine(f: real, sqrtf: real -> real)
    requires IsSqrt(sqrtf) && f >= FORCE_THRESHOLD
    ensures Locate(Vec3(f, 0.0, 0.0), Vec3(0.0, 0.0, 0.0), sqrtf) == Strike(0.0, -10.0, f)
  {
    var force := Vec3(f, 0.0, 0.0);
    assert NormSq(force) == f * f;
    if f > FORCE_THRESHOLD {
      SquareStrictMono(FORCE_THRESHOLD, f);
    }
    SqrtAt(sqrtf, NormSq(force), f);
    LocateAboveGate(force, Vec3(0.0, 0.0, 0.0), sqrtf);
    PureXContact(f, sqrtf);
    var g := ContactOf(force, Vec3(0.0, 0.0, 0.0), sqrtf);
    assert g.y * M_TO_CM == 0.0 && g.x * M_TO_CM == -10.0;
  }

  /** The gate on concrete forces: 4.9 N is no strike, 5.1 N is one. */
  lemma GateExamples(sqrtf: real -> real)
    requires IsSqrt(sqrtf)
    ensures Locate(Vec3(4.9, 0.0, 0.0), Vec3(1.0, 1.0, 1.0), sqrtf) == NoStrike
    ensures Locate(Vec3(5.1, 0.0, 0.0), Vec3(0.0, 0.0, 1.0), sqrtf).Strike?
  {
  }

  /** The contact point of an off-centre axial push: the arm is 1 m along y. */
  lemma AxialArmLiteral()
    ensures PerpendicularArm(Vec3(0.0, 0.0, 10.0), Vec3(10.0, 0.0, 0.0), 100.0) == Vec3(0.0, 1.0, 0.0)
  {
    assert (10.0 * 10.0 - 0.0 * 0.0) / 100.0 == 1.0;
  }

  lemma AxialTorque()
    ensures CompensateTorque(Vec3(0.0, 0.0, 10.0), Vec3(10.0, 0.0, 0.0)) == Vec3(10.0, 0.0, 0.0)
  {
  }

  lemma AxialNorm()
    ensures NormSq(Vec3(0.0, 0.0, 10.0)) == 100.0
  {
  }

  lemma AxialArm()
    ensures var f := Vec3(0.0, 0.0, 10.0);
      NormSq(f) == 100.0 && PerpendicularArm(f, CompensateTorque(f, Vec3(10.0, 0.0, 0.0)), NormSq(f)) == Vec3(0.0, 1.0, 0.0)
  {
    AxialTorque();
    AxialNorm();
    AxialArmLiteral();
  }

  lemma AxialK(sqrtf: real -> real)
    ensures SolveK(Vec3(0.0, 0.0, 10.0), Vec3(0.0, 1.0, 0.0), sqrtf) == 0.0
  {
    assert SelectBranch(CylinderQuadratic(Vec3(0.0, 0.0, 10.0), Vec3(0.0, 1.0, 0.0))) == NearAxial;
  }

  lemma AxialContact(sqrtf: real -> real)
    ensures ContactOf(Vec3(0.0, 0.0, 10.0), Vec3(10.0, 0.0, 0.0), sqrtf) == Vec3(0.0, 1.0, 0.0)
  {
    AxialArm();
    AxialK(sqrtf);
  }

  /** An off-centre axial strike far outside the bag is clamped to the edge. */
  lemma ClampedAtEdge(sqrtf: real -> real)
    requires IsSqrt(sqrtf)
    ensures Locate(Vec3(0.0, 0.0, 10.0), Vec3(10.0, 0.0, 0.0), sqrtf) == Strike(15.0, 0.0, 10.0)
  {
    assert NormSq(Vec3(0.0, 0.0, 10.0)) == 10.0 * 10.0;
    SqrtAt(sqrtf, NormSq(Vec3(0.0, 0.0, 10.0)), 10.0);
    LocateAboveGate(Vec3(0.0, 0.0, 10.0), Vec3(10.0, 0.0, 0.0), sqrtf);
    AxialContact(sqrtf);
    assert Clamp(1.0 * M_TO_CM, -HALF_SPAN_CM, HALF_SPAN_CM) == 15.0;
    assert Clamp(0.0 * M_TO_CM, -HALF_SPAN_CM, HALF_SPAN_CM) == 0.0;
  }
}
