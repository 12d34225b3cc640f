/** The damping policies of the damped pseudo-inverse and the builder that
    selects one of them from the configured damping method. A policy turns the
    Jacobian's singular values (or the determinant of `J * J^T`) into the scalar
    damping factor that regularises the inversion near singular postures.

    Eigen's determinant and singular value decomposition are not modelled: their
    results are inputs. `std::sqrt` is a parameter `sqrt` that any caller must
    supply as a true square root on the non-negative reals (`IsSquareRoot`). */
module Damping {

  import opened Matrices
  import opened RealFacts

  /** The configured damping method: the four enumerators of the C++ enum, and
      any other integer that a cast or a bad parameter can put into the field.
      `MethodUndefined(code)` stands only for codes that are none of the four
      enumerators' values (those values are declared in `damping.h`, which is
      not part of this model). */
  datatype DampingMethodType =
    | MethodNone
    | MethodConstant
    | MethodManipulability
    | MethodLeastSingularValues
    | MethodUndefined(code: int)

  /** The damping-related part of the solver parameters. */
  datatype DampingParams = DampingParams(
    dampingMethod: DampingMethodType,
    dampingFactor: real,
    lambdaMax: real,
    wThreshold: real,
    epsDamping: real)

  /** The four policy objects; each keeps the parameters and the Jacobian it was
      built with. */
  datatype DampingPolicy =
    | DampingNone(params: DampingParams, jacobianData: Matrix)
    | DampingConstant(params: DampingParams, jacobianData: Matrix)
    | DampingManipulability(params: DampingParams, jacobianData: Matrix)
    | DampingLeastSingularValues(params: DampingParams, jacobianData: Matrix)

  /** The error the builder reports for a method it does not know. */
  datatype DampingError = UndefinedDampingMethod(code: int)

  datatype Result<T> = Ok(value: T) | Err(error: DampingError)

  ghost predicate IsSquareRoot(sqrt: real -> real)
  {
    forall x :: 0.0 <= x ==> 0.0 <= sqrt(x) && sqrt(x) * sqrt(x) == x
  }

  function Abs(x: real): real
  {
    if x < 0.0 then -x else x
  }

  /** The damping method a policy implements. */
  function MethodOf(policy: DampingPolicy): DampingMethodType
  {
    match policy
    case DampingNone(_, _) => MethodNone
    case DampingConstant(_, _) => MethodConstant
    case DampingManipulability(_, _) => MethodManipulability
    case DampingLeastSingularValues(_, _) => MethodLeastSingularValues
  }

  // ---------------------------------------------------------------------------
  // DampingBuilder::create_damping

  /** Selects the policy for the configured method; an undefined method is
      reported and yields no policy. */
  function CreateDamping(params: DampingParams, jacobianData: Matrix): (r: Result<DampingPolicy>)
    ensures r.Err? <==> params.dampingMethod.MethodUndefined?
    ensures r.Err? ==> r.error == UndefinedDampingMethod(params.dampingMethod.code)
    ensures r.Ok? ==> MethodOf(r.value) == params.dampingMethod
    ensures r.Ok? ==> r.value.params == params && r.value.jacobianData == jacobianData
  {
    match params.dampingMethod
    case MethodNone => Ok(DampingNone(params, jacobianData))
    case MethodConstant => Ok(DampingConstant(params, jacobianData))
    case MethodManipulability => Ok(DampingManipulability(params, jacobianData))
    case MethodLeastSingularValues => Ok(DampingLeastSingularValues(params, jacobianData))
    case MethodUndefined(code) => Err(UndefinedDampingMethod(code))
  }

  /** Every policy is what the builder makes from its own parameters, provided
      they name that policy's method. */
  lemma CreateDampingRebuilds(policy: DampingPolicy)
    requires policy.params.dampingMethod == MethodOf(policy)
    ensures CreateDamping(policy.params, policy.jacobianData) == Ok(policy)
  {
  }

  // ---------------------------------------------------------------------------
  // DampingManipulability

  /** The manipulability measure `w = sqrt(|det(J * J^T)|)`, given the determinant. */
  function ManipulabilityMeasure(detJJt: real, sqrt: real -> real): (w: real)
    requires IsSquareRoot(sqrt)
    ensures 0.0 <= w && w * w == Abs(detJJt)
  {
    sqrt(Abs(detJJt))
  }

  /** The squared ramp `lambda_max * (1 - w / w_threshold)^2` below the threshold,
      zero from the threshold on. */
  function ManipulabilityRamp(lambdaMax: real, wThreshold: real, w: real): (r: real)
    requires 0.0 <= w
    ensures wThreshold <= w ==> r == 0.0
    ensures w < wThreshold ==> r * wThreshold * wThreshold == lambdaMax * (wThreshold - w) * (wThreshold - w)
    ensures r == 0.0 <==> wThreshold <= w || lambdaMax == 0.0
    ensures 0.0 <= lambdaMax ==> 0.0 <= r <= lambdaMax
    ensures w == 0.0 < wThreshold ==> r == lambdaMax
  {
    if w < wThreshold then
      var tmpW := 1.0 - w / wThreshold;
      RampFacts(lambdaMax, wThreshold, w);
      lambdaMax * tmpW * tmpW
    else
      0.0
  }

  lemma RampFacts(lambdaMax: real, wThreshold: real, w: real)
    requires 0.0 <= w < wThreshold
    ensures var t := 1.0 - w / wThreshold;
      && 0.0 < t <= 1.0
      && lambdaMax * t * t * wThreshold * wThreshold == lambdaMax * (wThreshold - w) * (wThreshold - w)
      && (0.0 <= lambdaMax ==> 0.0 <= lambdaMax * t * t <= lambdaMax)
      && (lambdaMax != 0.0 ==> lambdaMax * t * t != 0.0)
      && (lambdaMax == 0.0 ==> lambdaMax * t * t == 0.0)
  {
    var t := 1.0 - w / wThreshold;
    DivLe(0.0, w, wThreshold);
    DivLt(w, wThreshold, wThreshold);
    DivMul(w, wThreshold);
    assert t * wThreshold == wThreshold - w;
    assert lambdaMax * t * t * wThreshold * wThreshold == lambdaMax * (t * wThreshold) * (t * wThreshold);
    MulLe(t, t, 1.0);
    MulLt(t, 0.0, t);
    if 0.0 <= lambdaMax {
      MulLe(lambdaMax, 0.0, t * t);
      MulLe(lambdaMax, t * t, 1.0);
    }
    if lambdaMax != 0.0 {
      MulNonZero(lambdaMax, t * t);
    }
  }

  /** The ramp never increases as the manipulability measure grows. */
  lemma ManipulabilityRampMonotone(lambdaMax: real, wThreshold: real, w1: real, w2: real)
    requires 0.0 <= lambdaMax && 0.0 <= w1 <= w2
    ensures ManipulabilityRamp(lambdaMax, wThreshold, w2) <= ManipulabilityRamp(lambdaMax, wThreshold, w1)
  {
    if w2 < wThreshold {
      var t1 := 1.0 - w1 / wThreshold;
      var t2 := 1.0 - w2 / wThreshold;
      DivLe(w1, w2, wThreshold);
      RampFacts(lambdaMax, wThreshold, w2);
      SquareLe(t2, t1);
      MulLe(lambdaMax, t2 * t2, t1 * t1);
    }
  }

  /** With a positive `lambda_max`, the ramp strictly decreases as the measure
      grows from below the threshold. */
  lemma ManipulabilityRampStrictlyDecreasing(lambdaMax: real, wThreshold: real, w1: real, w2: real)
    requires 0.0 < lambdaMax && 0.0 <= w1 < w2 && w1 < wThreshold
    ensures ManipulabilityRamp(lambdaMax, wThreshold, w2) < ManipulabilityRamp(lambdaMax, wThreshold, w1)
  {
    if w2 < wThreshold {
      var t1 := 1.0 - w1 / wThreshold;
      var t2 := 1.0 - w2 / wThreshold;
      DivLt(w1, w2, wThreshold);
      RampFacts(lambdaMax, wThreshold, w2);
      SquareLt(t2, t1);
      MulLt(lambdaMax, t2 * t2, t1 * t1);
    }
  }

  /** The damping factor of the manipulability policy, given `det(J * J^T)`. */
  function ManipulabilityFactor(params: DampingParams, detJJt: real, sqrt: real -> real): (r: real)
    requires IsSquareRoot(sqrt)
    ensures r == 0.0 <==>
      params.wThreshold <= 0.0 || params.wThreshold * params.wThreshold <= Abs(detJJt) || params.lambdaMax == 0.0
    ensures 0.0 <= params.lambdaMax ==> 0.0 <= r <= params.lambdaMax
  {
    var w := ManipulabilityMeasure(detJJt, sqrt);
    BelowThreshold(w, Abs(detJJt), params.wThreshold);
    ManipulabilityRamp(params.lambdaMax, params.wThreshold, w)
  }

  /** For a non-negative root `w` of `square`, `w < t` exactly when `t` is
      positive and `square < t * t`. */
  lemma BelowThreshold(w: real, square: real, t: real)
    requires 0.0 <= w && w * w == square
    ensures w < t <==> 0.0 < t && square < t * t
  {
    if w < t {
      SquareLt(w, t);
    } else if 0.0 < t {
      SquareLe(t, w);
    }
  }

  /** The manipulability factor never increases as `|det(J * J^T)|` grows. */
  lemma ManipulabilityFactorMonotone(params: DampingParams, d1: real, d2: real, sqrt: real -> real)
    requires IsSquareRoot(sqrt)
    requires 0.0 <= params.lambdaMax && Abs(d1) <= Abs(d2)
    ensures ManipulabilityFactor(params, d2, sqrt) <= ManipulabilityFactor(params, d1, sqrt)
  {
    var w1, w2 := ManipulabilityMeasure(d1, sqrt), ManipulabilityMeasure(d2, sqrt);
    RootLe(w1, w2);
    ManipulabilityRampMonotone(params.lambdaMax, params.wThreshold, w1, w2);
  }

  // ---------------------------------------------------------------------------
  // DampingLeastSingularValues

  /** The last entry of the singular-value vector. */
  function LastSingularValue(sortedSingularValues: seq<real>): real
    requires |sortedSingularValues| > 0
  {
    sortedSingularValues[|sortedSingularValues| - 1]
  }

  /** The square-root ramp `sqrt((1 - (sigma / eps_damping)^2) * lambda_max^2)` on
      the last singular value `sigma` below `eps_damping`, zero from it on. */
  function LeastSingularValuesFactor(params: DampingParams, sortedSingularValues: seq<real>, sqrt: real -> real): (r: real)
    requires IsSquareRoot(sqrt)
    requires |sortedSingularValues| > 0 && 0.0 <= LastSingularValue(sortedSingularValues)
    ensures var sigma, eps, lambdaMax := LastSingularValue(sortedSingularValues), params.epsDamping, params.lambdaMax;
      && (eps <= sigma ==> r == 0.0)
      && (sigma < eps ==> r * r == (1.0 - (sigma / eps) * (sigma / eps)) * (lambdaMax * lambdaMax))
      && 0.0 <= r <= Abs(lambdaMax)
      && (sigma == 0.0 < eps ==> r == Abs(lambdaMax))
  {
    var sigma := LastSingularValue(sortedSingularValues);
    if sigma < params.epsDamping then
      var ratio := sigma / params.epsDamping;
      var radicand := (1.0 - ratio * ratio) * (params.lambdaMax * params.lambdaMax);
      RadicandFacts(sigma, params.epsDamping, params.lambdaMax);
      RootFacts(sqrt(radicand), radicand, Abs(params.lambdaMax));
      sqrt(radicand)
    else
      0.0
  }

  lemma RadicandFacts(sigma: real, eps: real, lambdaMax: real)
    requires 0.0 <= sigma < eps
    ensures var ratio := sigma / eps;
      var radicand := (1.0 - ratio * ratio) * (lambdaMax * lambdaMax);
      && 0.0 <= radicand <= Abs(lambdaMax) * Abs(lambdaMax)
      && (sigma == 0.0 ==> radicand == Abs(lambdaMax) * Abs(lambdaMax))
  {
    RatioBelowOne(sigma, eps);
    RadicandBounds(sigma / eps, lambdaMax);
    assert Abs(lambdaMax) * Abs(lambdaMax) == lambdaMax * lambdaMax;
  }

  lemma RadicandBounds(q: real, l: real)
    requires 0.0 <= q < 1.0
    ensures 0.0 <= (1.0 - q * q) * (l * l) <= l * l
    ensures q == 0.0 ==> (1.0 - q * q) * (l * l) == l * l
  {
    MulLe(q, q, 1.0);
    MulLe(q, 0.0, q);
    SquareLe(0.0, Abs(l));
    assert Abs(l) * Abs(l) == l * l;
    MulLe(l * l, 0.0, 1.0 - q * q);
    MulLe(l * l, 1.0 - q * q, 1.0);
  }

  /** The least-singular-value factor never increases as the last singular value grows. */
  lemma LeastSingularValuesMonotone(params: DampingParams, sv1: seq<real>, sv2: seq<real>, sqrt: real -> real)
    requires IsSquareRoot(sqrt)
    requires |sv1| > 0 && |sv2| > 0
    requires 0.0 <= LastSingularValue(sv1) <= LastSingularValue(sv2)
    ensures LeastSingularValuesFactor(params, sv2, sqrt) <= LeastSingularValuesFactor(params, sv1, sqrt)
  {
    var s1, s2 := LastSingularValue(sv1), LastSingularValue(sv2);
    var eps := params.epsDamping;
    var r1, r2 := LeastSingularValuesFactor(params, sv1, sqrt), LeastSingularValuesFactor(params, sv2, sqrt);
    if s2 < eps {
      var q1, q2 := s1 / eps, s2 / eps;
      DivLe(0.0, s1, eps);
      DivLe(s1, s2, eps);
      SquareLe(q1, q2);
      var l2 := params.lambdaMax * params.lambdaMax;
      SquareLe(0.0, Abs(params.lambdaMax));
      assert Abs(params.lambdaMax) * Abs(params.lambdaMax) == l2;
      MulLe(l2, 1.0 - q2 * q2, 1.0 - q1 * q1);
      assert r2 * r2 <= r1 * r1;
      RootLe(r2, r1);
    }
  }

  // ---------------------------------------------------------------------------
  // The virtual get_damping_factor

  /** The damping factor of any policy. `detJJt` is `det(J * J^T)` of the policy's
      Jacobian; only the manipulability policy reads it, and only the
      least-singular-value policy reads the singular values. */
  function DampingFactor(policy: DampingPolicy, sortedSingularValues: seq<real>, detJJt: real, sqrt: real -> real): (r: real)
    requires IsSquareRoot(sqrt)
    requires policy.DampingLeastSingularValues? ==>
      |sortedSingularValues| > 0 && 0.0 <= LastSingularValue(sortedSingularValues)
    ensures policy.DampingNone? ==> r == 0.0
    ensures policy.DampingConstant? ==> r == policy.params.dampingFactor
    ensures 0.0 <= policy.params.dampingFactor && 0.0 <= policy.params.lambdaMax ==> 0.0 <= r
    ensures policy.DampingLeastSingularValues? ==> 0.0 <= r
  {
    match policy
    case DampingNone(_, _) => 0.0
    case DampingConstant(params, _) => params.dampingFactor
    case DampingManipulability(params, _) => ManipulabilityFactor(params, detJJt, sqrt)
    case DampingLeastSingularValues(params, _) => LeastSingularValuesFactor(params, sortedSingularValues, sqrt)
  }

  /** The none and constant policies ignore the singular values and the determinant. */
  lemma FixedPoliciesIgnoreJacobian(policy: DampingPolicy, sv1: seq<real>, sv2: seq<real>, d1: real, d2: real, sqrt: real -> real)
    requires IsSquareRoot(sqrt)
    requires policy.DampingNone? || policy.DampingConstant?
    ensures DampingFactor(policy, sv1, d1, sqrt) == DampingFactor(policy, sv2, d2, sqrt)
  {
  }
}
