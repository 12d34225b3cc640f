/** The gradient projection method: the joint velocities that track a Cartesian
    velocity through the damped pseudo-inverse `J+`, plus the constraints'
    gradients projected by `I - J+ * J` and scaled by the self-motion magnitude
    of the last constraint visited.

    The damped pseudo-inverse is an input: it is what the pseudo-inverse
    calculator returns for the solver's parameters, damping and Jacobian. */
module GradientProjection {

  import opened Matrices

  /** A constraint as the solver queries it: its gradient ("partial values") and
      its self-motion magnitude as a function of the partial solution and of the
      constraint's own projected gradient. */
  datatype Constraint = Constraint(partialValues: Vector, selfMotionMagnitude: (Vector, Vector) -> real)

  /** The solver prints its diagnostics when the last gradient's norm exceeds this. */
  const DiagnosticsThreshold: real := 0.00001

  predicate GradientsFit(constraints: seq<Constraint>, n: nat)
  {
    forall i :: 0 <= i < |constraints| ==> |constraints[i].partialValues| == n
  }

  /** The projector `I - J+ * J`, with Eigen's identity of `J+`'s rows and `J`'s columns. */
  function Projector(jacobianPseudoInverse: Matrix, jacobian: Matrix): (p: Matrix)
    requires jacobianPseudoInverse.cols == jacobian.rows
    ensures p.rows == jacobianPseudoInverse.rows && p.cols == jacobian.cols
    ensures forall i, j :: 0 <= i < p.rows && 0 <= j < p.cols ==>
      p.entries[i][j] == (if i == j then 1.0 else 0.0) - Dot(jacobianPseudoInverse.entries[i], Column(jacobian, j))
  {
    MatSub(Identity(jacobianPseudoInverse.rows, jacobian.cols), MatMul(jacobianPseudoInverse, jacobian))
  }

  /** The sum of the projected gradients `projector * g` of the constraints, in
      iteration order. */
  function HomogeneousSolution(projector: Matrix, constraints: seq<Constraint>): (h: Vector)
    requires GradientsFit(constraints, projector.cols)
    ensures |h| == projector.rows
    decreases |constraints|
  {
    if constraints == [] then
      Zero(projector.rows)
    else
      var last := constraints[|constraints| - 1];
      Add(HomogeneousSolution(projector, constraints[..|constraints| - 1]), Apply(projector, last.partialValues))
  }

  /** The plain sum of the constraints' gradients. */
  function GradientSum(constraints: seq<Constraint>, n: nat): (g: Vector)
    requires GradientsFit(constraints, n)
    ensures |g| == n
    decreases |constraints|
  {
    if constraints == [] then
      Zero(n)
    else
      Add(GradientSum(constraints[..|constraints| - 1], n), constraints[|constraints| - 1].partialValues)
  }

  /** What one constraint reports when asked with the partial solution and its
      own projected gradient. */
  function Kappa(projector: Matrix, partialSolution: Vector, c: Constraint): real
    requires |c.partialValues| == projector.cols
  {
    c.selfMotionMagnitude(partialSolution, Apply(projector, c.partialValues))
  }

  /** The joint velocities the solver returns: the partial solution `J+ * v`, plus
      the homogeneous solution scaled by the last constraint's self-motion
      magnitude; with no constraint, the partial solution alone. */
  function Solution(jacobianPseudoInverse: Matrix, jacobian: Matrix, inCartVelocities: Vector, constraints: seq<Constraint>): (qdots: Vector)
    requires jacobianPseudoInverse.cols == jacobian.rows && |inCartVelocities| == jacobian.rows
    requires GradientsFit(constraints, jacobian.cols)
    ensures |qdots| == jacobianPseudoInverse.rows
  {
    var projector := Projector(jacobianPseudoInverse, jacobian);
    var partialSolution := Apply(jacobianPseudoInverse, inCartVelocities);
    if constraints == [] then
      partialSolution
    else
      var kappa := Kappa(projector, partialSolution, constraints[|constraints| - 1]);
      Add(partialSolution, Scale(kappa, HomogeneousSolution(projector, constraints)))
  }

  // ---------------------------------------------------------------------------
  // GradientProjectionMethodSolver::solve

  /** One call of the solver. `q` only sizes the initial gradient; `diagnosticsLogged`
      says whether the solver's diagnostic output branch is taken, which does not
      influence `qdotsOut`. The self-motion magnitude starts uninitialised. */
  method Solve(inCartVelocities: Vector, q: Vector, jacobianData: Matrix, constraints: seq<Constraint>, jacobianPseudoInverse: Matrix)
    returns (qdotsOut: Vector, diagnosticsLogged: bool)
    requires jacobianPseudoInverse.cols == jacobianData.rows && |inCartVelocities| == jacobianData.rows
    requires GradientsFit(constraints, jacobianData.cols)
    ensures qdotsOut == Solution(jacobianPseudoInverse, jacobianData, inCartVelocities, constraints)
    ensures constraints == [] ==> qdotsOut == Apply(jacobianPseudoInverse, inCartVelocities)
    ensures diagnosticsLogged <==>
      constraints != [] && SquaredNorm(constraints[|constraints| - 1].partialValues) > DiagnosticsThreshold * DiagnosticsThreshold
  {
    var kappa: real := *;
    var qDot0 := Zero(|q|);

    var projector := Projector(jacobianPseudoInverse, jacobianData);
    var partialSolution := Apply(jacobianPseudoInverse, inCartVelocities);
    var homogeneousSolution := Zero(|partialSolution|);

    var i := 0;
    while i < |constraints|
      invariant 0 <= i <= |constraints|
      invariant homogeneousSolution == HomogeneousSolution(projector, constraints[..i])
      invariant i == 0 ==> qDot0 == Zero(|q|)
      invariant 0 < i ==> qDot0 == constraints[i - 1].partialValues
      invariant 0 < i ==> kappa == Kappa(projector, partialSolution, constraints[i - 1])
    {
      qDot0 := constraints[i].partialValues;
      var tmpHomogeneousSolution := Apply(projector, qDot0);
      homogeneousSolution := Add(homogeneousSolution, tmpHomogeneousSolution);
      kappa := constraints[i].selfMotionMagnitude(partialSolution, tmpHomogeneousSolution);
      assert constraints[..i + 1][..i] == constraints[..i];
      i := i + 1;
    }
    assert constraints[..i] == constraints;

    if constraints == [] {
      DotZeroLeft(qDot0);
    }
    diagnosticsLogged := SquaredNorm(qDot0) > DiagnosticsThreshold * DiagnosticsThreshold;

    qdotsOut := Add(partialSolution, Scale(kappa, homogeneousSolution));
    if constraints == [] {
      assert qdotsOut == partialSolution;
    }
  }

  // ---------------------------------------------------------------------------
  // Properties of the solution

  /** The homogeneous solution is the projector applied to the sum of the gradients. */
  lemma {:induction false} HomogeneousSolutionProjectsGradientSum(projector: Matrix, constraints: seq<Constraint>)
    requires GradientsFit(constraints, projector.cols)
    ensures HomogeneousSolution(projector, constraints) == Apply(projector, GradientSum(constraints, projector.cols))
    decreases |constraints|
  {
    if constraints == [] {
      ApplyZero(projector);
    } else {
      var front := constraints[..|constraints| - 1];
      HomogeneousSolutionProjectsGradientSum(projector, front);
      ApplyAdd(projector, GradientSum(front, projector.cols), constraints[|constraints| - 1].partialValues);
    }
  }

  /** Splitting the constraint sequence splits the homogeneous solution. */
  lemma {:induction false} HomogeneousSolutionAppend(projector: Matrix, a: seq<Constraint>, b: seq<Constraint>)
    requires GradientsFit(a, projector.cols) && GradientsFit(b, projector.cols)
    ensures GradientsFit(a + b, projector.cols)
    ensures HomogeneousSolution(projector, a + b) == Add(HomogeneousSolution(projector, a), HomogeneousSolution(projector, b))
    decreases |b|
  {
    assert GradientsFit(a + b, projector.cols) by {
      forall i | 0 <= i < |a + b| ensures |(a + b)[i].partialValues| == projector.cols {
        if i >= |a| {
          assert (a + b)[i] == b[i - |a|];
        }
      }
    }
    if b == [] {
      assert a + b == a;
    } else {
      var front := b[..|b| - 1];
      assert (a + b)[..|a + b| - 1] == a + front;
      HomogeneousSolutionAppend(projector, a, front);
    }
  }

  /** Swapping two neighbouring constraints leaves the homogeneous solution
      unchanged (`HomogeneousSolutionPermutation` below covers every reordering). */
  lemma HomogeneousSolutionSwap(projector: Matrix, a: seq<Constraint>, c1: Constraint, c2: Constraint, b: seq<Constraint>)
    requires GradientsFit(a, projector.cols) && GradientsFit(b, projector.cols)
    requires |c1.partialValues| == projector.cols && |c2.partialValues| == projector.cols
    ensures GradientsFit(a + [c1, c2] + b, projector.cols) && GradientsFit(a + [c2, c1] + b, projector.cols)
    ensures HomogeneousSolution(projector, a + [c1, c2] + b) == HomogeneousSolution(projector, a + [c2, c1] + b)
  {
    HomogeneousSolutionAppend(projector, a, [c1, c2]);
    HomogeneousSolutionAppend(projector, a, [c2, c1]);
    HomogeneousSolutionAppend(projector, a + [c1, c2], b);
    HomogeneousSolutionAppend(projector, a + [c2, c1], b);
    assert [c1, c2][..1] == [c1] && [c2, c1][..1] == [c2];
    assert [c1][..0] == [] && [c2][..0] == [];
    assert HomogeneousSolution(projector, [c1, c2]) == HomogeneousSolution(projector, [c2, c1]);
  }

  /** The homogeneous solution depends only on which constraints there are, not
      on the order in which the set hands them out. */
  lemma {:induction false} HomogeneousSolutionPermutation(projector: Matrix, a: seq<Constraint>, b: seq<Constraint>)
    requires GradientsFit(a, projector.cols) && GradientsFit(b, projector.cols)
    requires multiset(a) == multiset(b)
    ensures HomogeneousSolution(projector, a) == HomogeneousSolution(projector, b)
    decreases |a|
  {
    if a == [] {
      assert |b| == |multiset(b)| == 0;
    } else {
      var x := a[|a| - 1];
      var front := a[..|a| - 1];
      assert x in multiset(b) by {
        assert a == front + [x];
      }
      var k :| 0 <= k < |b| && b[k] == x;
      var rest := b[..k] + b[k + 1..];
      HomogeneousSolutionExtract(projector, b, k);
      MultisetRemove(a, b, k);
      assert GradientsFit(front, projector.cols) by {
        forall i | 0 <= i < |front| ensures |front[i].partialValues| == projector.cols {
          assert front[i] == a[i];
        }
      }
      HomogeneousSolutionPermutation(projector, front, rest);
    }
  }

  /** Removing the last element of one sequence and a matching element of a
      permutation of it leaves permutations of each other. */
  lemma MultisetRemove<T>(a: seq<T>, b: seq<T>, k: nat)
    requires 0 < |a| && k < |b| && b[k] == a[|a| - 1] && multiset(a) == multiset(b)
    ensures multiset(a[..|a| - 1]) == multiset(b[..k] + b[k + 1..])
  {
    var x := a[|a| - 1];
    var front, before, after := a[..|a| - 1], b[..k], b[k + 1..];
    calc {
      multiset(front);
    == { assert a == front + [x]; assert multiset(a) == multiset(front) + multiset{x}; }
      multiset(a) - multiset{x};
    ==
      multiset(b) - multiset{x};
    == { assert b == before + [x] + after; assert multiset(b) == multiset(before) + multiset{x} + multiset(after); }
      multiset(before + after);
    }
  }

  /** Taking one constraint out of the sequence takes its projected gradient off
      the homogeneous solution. */
  lemma HomogeneousSolutionExtract(projector: Matrix, b: seq<Constraint>, k: nat)
    requires GradientsFit(b, projector.cols) && k < |b|
    ensures GradientsFit(b[..k] + b[k + 1..], projector.cols)
    ensures HomogeneousSolution(projector, b)
      == Add(HomogeneousSolution(projector, b[..k] + b[k + 1..]), Apply(projector, b[k].partialValues))
  {
    var before, x, after := b[..k], b[k], b[k + 1..];
    assert b == before + [x] + after;
    assert GradientsFit(before, projector.cols) && GradientsFit(after, projector.cols) by {
      forall i | 0 <= i < |after| ensures |after[i].partialValues| == projector.cols {
        assert after[i] == b[k + 1 + i];
      }
    }
    assert [x][..0] == [];
    var px := Apply(projector, x.partialValues);
    assert HomogeneousSolution(projector, [x]) == px;
    HomogeneousSolutionAppend(projector, before, [x]);
    HomogeneousSolutionAppend(projector, before + [x], after);
    HomogeneousSolutionAppend(projector, before, after);
    AddSwap(HomogeneousSolution(projector, before), px, HomogeneousSolution(projector, after));
  }

  /** Only the last constraint decides the self-motion magnitude: exchanging the
      last two constraints keeps the homogeneous solution but takes the other
      constraint's magnitude. */
  lemma LastConstraintDecidesKappa(jacobianPseudoInverse: Matrix, jacobian: Matrix, inCartVelocities: Vector, a: seq<Constraint>, c1: Constraint, c2: Constraint)
    requires jacobianPseudoInverse.cols == jacobian.rows && |inCartVelocities| == jacobian.rows
    requires GradientsFit(a, jacobian.cols) && |c1.partialValues| == jacobian.cols && |c2.partialValues| == jacobian.cols
    ensures GradientsFit(a + [c1, c2], jacobian.cols) && GradientsFit(a + [c2, c1], jacobian.cols)
    ensures var projector := Projector(jacobianPseudoInverse, jacobian);
      var partialSolution := Apply(jacobianPseudoInverse, inCartVelocities);
      var h := HomogeneousSolution(projector, a + [c1, c2]);
      && Solution(jacobianPseudoInverse, jacobian, inCartVelocities, a + [c1, c2])
         == Add(partialSolution, Scale(Kappa(projector, partialSolution, c2), h))
      && Solution(jacobianPseudoInverse, jacobian, inCartVelocities, a + [c2, c1])
         == Add(partialSolution, Scale(Kappa(projector, partialSolution, c1), h))
  {
    var projector := Projector(jacobianPseudoInverse, jacobian);
    HomogeneousSolutionSwap(projector, a, c1, c2, []);
    assert a + [c1, c2] + [] == a + [c1, c2];
    assert a + [c2, c1] + [] == a + [c2, c1];
  }

  /** Two constraints with equal gradients and constant magnitudes 1 and 2, at
      `J = J+ = [0]`: the output depends on which of them comes last. */
  lemma OrderSensitiveExample()
    ensures var zero: Matrix := RawMatrix(1, 1, [[0.0]]);
      var c1 := Constraint([1.0], (partial: Vector, projected: Vector) => 1.0);
      var c2 := Constraint([1.0], (partial: Vector, projected: Vector) => 2.0);
      && Solution(zero, zero, [0.0], [c1, c2]) == [4.0]
      && Solution(zero, zero, [0.0], [c2, c1]) == [2.0]
  {
    var zero: Matrix := RawMatrix(1, 1, [[0.0]]);
    var c1 := Constraint([1.0], (partial: Vector, projected: Vector) => 1.0);
    var c2 := Constraint([1.0], (partial: Vector, projected: Vector) => 2.0);
    var projector := Projector(zero, zero);
    assert Column(zero, 0) == [0.0];
    assert Dot([0.0], [0.0]) == 0.0;
    assert MatMul(zero, zero).entries[0][0] == 0.0;
    assert Identity(1, 1).entries[0][0] == 1.0;
    assert projector.entries[0] == Sub(Identity(1, 1).entries[0], MatMul(zero, zero).entries[0]);
    assert projector.entries[0][0] == 1.0;
    assert |projector.entries[0]| == 1;
    assert projector.entries[0] == [1.0];
    assert Dot([1.0], [1.0]) == 1.0;
    assert Apply(projector, [1.0]) == [1.0];
    assert Apply(zero, [0.0]) == [0.0];
    assert [c1, c2][..1] == [c1] && [c2, c1][..1] == [c2];
    assert [c1][..0] == [] && [c2][..0] == [];
    assert HomogeneousSolution(projector, []) == [0.0];
    assert HomogeneousSolution(projector, [c1]) == [1.0];
    assert HomogeneousSolution(projector, [c2]) == [1.0];
    assert HomogeneousSolution(projector, [c1, c2]) == [2.0];
    assert HomogeneousSolution(projector, [c2, c1]) == [2.0];
  }

  /** For a square projector, projecting a gradient needs no projector:
      `(I - J+ * J) g == g - J+ * (J * g)`. */
  lemma ProjectorAction(jacobianPseudoInverse: Matrix, jacobian: Matrix, g: Vector)
    requires jacobianPseudoInverse.cols == jacobian.rows && jacobianPseudoInverse.rows == jacobian.cols == |g|
    ensures Apply(Projector(jacobianPseudoInverse, jacobian), g)
      == Sub(g, Apply(jacobianPseudoInverse, Apply(jacobian, g)))
  {
    var n := jacobian.cols;
    var product := MatMul(jacobianPseudoInverse, jacobian);
    ApplyMatMul(jacobianPseudoInverse, jacobian, g);
    forall i | 0 <= i < n
      ensures Apply(Projector(jacobianPseudoInverse, jacobian), g)[i]
        == Sub(g, Apply(jacobianPseudoInverse, Apply(jacobian, g)))[i]
    {
      DotSubLeft(Identity(n, n).entries[i], product.entries[i], g);
      DotUnit(n, i, g);
      assert Apply(product, g)[i] == Dot(product.entries[i], g);
    }
  }

  /** With constraints and a square projector, the output in closed form:
      `J+ v + kappa * (G - J+ (J G))`, where `G` sums the gradients and `kappa`
      is the last constraint's magnitude. */
  lemma SolutionClosedForm(jacobianPseudoInverse: Matrix, jacobian: Matrix, inCartVelocities: Vector, constraints: seq<Constraint>)
    requires jacobianPseudoInverse.cols == jacobian.rows && |inCartVelocities| == jacobian.rows
    requires jacobianPseudoInverse.rows == jacobian.cols
    requires GradientsFit(constraints, jacobian.cols) && constraints != []
    ensures var projector := Projector(jacobianPseudoInverse, jacobian);
      var partialSolution := Apply(jacobianPseudoInverse, inCartVelocities);
      var g := GradientSum(constraints, jacobian.cols);
      var kappa := Kappa(projector, partialSolution, constraints[|constraints| - 1]);
      Solution(jacobianPseudoInverse, jacobian, inCartVelocities, constraints)
        == Add(partialSolution, Scale(kappa, Sub(g, Apply(jacobianPseudoInverse, Apply(jacobian, g)))))
  {
    var projector := Projector(jacobianPseudoInverse, jacobian);
    HomogeneousSolutionProjectsGradientSum(projector, constraints);
    ProjectorAction(jacobianPseudoInverse, jacobian, GradientSum(constraints, jacobian.cols));
  }
}
