/** Types and numeric helpers shared by the force-sensor and user modules. */
module Common {

  /** The platform's `uint32_t`. */
  newtype u32 = x: int | 0 <= x < 0x1_0000_0000

  /** Increment with the wrap-around of unsigned 32-bit arithmetic. */
  function WrappingInc(n: u32): (r: u32)
    ensures n as int < 0xFFFF_FFFF ==> r as int == n as int + 1
    ensures n as int == 0xFFFF_FFFF ==> r == 0
  {
    ((n as int + 1) % 0x1_0000_0000) as u32
  }

  /** The platform's OPRT_* return codes that the core uses. */
  datatype Status = Ok | ComError | InvalidParm | CJsonParseErr

  /** Six channels in the order fx, fy, fz, mx, my, mz. */
  type Vec6 = s: seq<real> | |s| == 6 witness [0.0, 0.0, 0.0, 0.0, 0.0, 0.0]

  const ZERO6: Vec6 := [0.0, 0.0, 0.0, 0.0, 0.0, 0.0]

  /** One draw from the sensor driver: six readings, or a failed transfer. */
  datatype RawRead = ReadOk(values: Vec6) | ReadFailed

  /** Left-to-right sum, as a loop that adds `s[0]`, `s[1]`, ... computes it. */
  function Sum(s: seq<real>): real
  {
    if |s| == 0 then 0.0 else Sum(s[..|s| - 1]) + s[|s| - 1]
  }

  function Mean(s: seq<real>): real
    requires |s| > 0
  {
    Sum(s) / |s| as real
  }

  lemma {:induction false} SumConstant(s: seq<real>, v: real)
    requires forall i :: 0 <= i < |s| ==> s[i] == v
    ensures Sum(s) == |s| as real * v
  {
    if |s| > 0 {
      SumConstant(s[..|s| - 1], v);
    }
  }

  /** The mean of a window whose entries all equal `v` is `v`. */
  lemma MeanConstant(s: seq<real>, v: real)
    requires |s| > 0
    requires forall i :: 0 <= i < |s| ==> s[i] == v
    ensures Mean(s) == v
  {
    SumConstant(s, v);
  }

  function Min(a: real, b: real): real { if a <= b then a else b }
  function Max(a: real, b: real): real { if a >= b then a else b }

  /** `fmaxf(lo, fminf(hi, v))` on exact reals. */
  function Clamp(v: real, lo: real, hi: real): (r: real)
    requires lo <= hi
    ensures lo <= r <= hi
    ensures lo <= v <= hi ==> r == v
    ensures v > hi ==> r == hi
    ensures v < lo ==> r == lo
  {
    Max(lo, Min(hi, v))
  }

  /** `sqrtf` from the platform maths library, taken as a parameter:
      on every non-negative argument it returns the non-negative root. */
  ghost predicate IsSqrt(sqrtf: real -> real)
  {
    forall x :: x >= 0.0 ==> sqrtf(x) >= 0.0 && sqrtf(x) * sqrtf(x) == x
  }

  lemma SquareStrictMono(s: real, t: real)
    requires 0.0 <= s < t
    ensures s * s < t * t
  {
    calc {
      s * s;
    <= s * t;
    <  t * t;
    }
  }

  /** Non-negative square roots are unique. */
  lemma SqrtUnique(s: real, t: real)
    requires s >= 0.0 && t >= 0.0 && s * s == t * t
    ensures s == t
  {
    if s < t {
      SquareStrictMono(s, t);
    } else if t < s {
      SquareStrictMono(t, s);
    }
  }

  /** The root of `t * t` is `t` for every non-negative `t`. */
  lemma SqrtOfSquare(sqrtf: real -> real, t: real)
    requires IsSqrt(sqrtf) && t >= 0.0
    ensures sqrtf(t * t) == t
  {
    var s := sqrtf(t * t);
    assert s >= 0.0 && s * s == t * t;
    SqrtUnique(s, t);
  }

  lemma SqrtAt(sqrtf: real -> real, x: real, t: real)
    requires IsSqrt(sqrtf) && t >= 0.0 && x == t * t
    ensures sqrtf(x) == t
  {
    SqrtOfSquare(sqrtf, t);
  }

  /** Comparing a root with a non-negative bound is comparing its square. */
  lemma SqrtBelow(sqrtf: real -> real, x: real, bound: real)
    requires IsSqrt(sqrtf) && x >= 0.0 && bound >= 0.0
    ensures sqrtf(x) < bound <==> x < bound * bound
  {
    var s := sqrtf(x);
    assert s >= 0.0 && s * s == x;
    if s < bound {
      SquareStrictMono(s, bound);
    } else if bound < s {
      SquareStrictMono(bound, s);
    }
  }
}
