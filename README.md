# Damped pseudo-inverse policies and the gradient projection solver

A model of two pieces of `cob_twist_controller`, the twist controller of the Care-O-bot control stack. Both are used when the controller resolves a Cartesian velocity command into joint velocities.

- **Damping policies** (`damping.dfy`, module `Damping`). `DampingBuilder::create_damping` chooses one of four policies from the configured damping method:
  - none;
  - constant;
  - manipulability;
  - least singular value.

  Each policy turns the state of the Jacobian into the scalar damping factor of the damped pseudo-inverse. The builder returns a `Result`: either the policy, or an error carrying the unrecognised method code. In C++ this error case is the `ROS_ERROR` report followed by a null pointer.
- **Gradient projection solver** (`gradient_projection.dfy`, module `GradientProjection`). `GradientProjectionMethodSolver::solve` is modelled as the method `Solve`, with a `while` loop over the constraints in iteration order. Its contract ties the output to the specification function `Solution`. `Solution` is the partial solution `J+ v` plus the sum of the projected gradients `(I - J+ J) g`, scaled by the self-motion magnitude of the *last* constraint visited.
  - Lemmas about `Solution`:
    - the homogeneous part is the projector applied to the sum of the gradients;
    - the homogeneous part does not depend on the order of the constraints;
    - the magnitude does depend on that order, and a concrete two-constraint example shows the output changing when the order changes;
    - a closed form exists for square projectors.
- `matrices.dfy` (module `Matrices`) holds the Eigen arithmetic the solver needs: dot product, matrix-vector product, matrix product, sum, difference, scaling, zero and identity. It also holds their linearity lemmas.
- `real_facts.dfy` (module `RealFacts`) holds small ordered-field facts used by the damping proofs.

Modelling choices:

- Every C++ `double` is an exact `real`.
- A matrix is a datatype that carries its own dimensions, as Eigen's dynamic matrices do. The `N x 1` matrices `partialSolution`, `homogeneousSolution` and `qdots_out` are vectors.
- Eigen's `determinant()` and singular value decomposition are not modelled. The manipulability policy takes `det(J * J^T)` as an input, and the least-singular-value policy takes the singular-value vector as an input.
- `std::sqrt` is a parameter `sqrt` that the caller must supply as a true square root (`Damping.IsSquareRoot`).
- The pseudo-inverse calculator `pinvCalc_.calculate(...)` is not modelled. Its result is the input `jacobianPseudoInverse` of `Solve`.
- In `solve`, `kappa` starts uninitialised. The model gives it an arbitrary value (`:= *`). With no constraints the arbitrary value is multiplied by a zero vector, so the output is the partial solution whatever `kappa` holds.
- The two `ROS_INFO_STREAM` diagnostic branches are modelled as the returned flag `diagnosticsLogged`. It is set exactly when `q_dot_0.norm() > 0.00001`, which the model compares on squared norms. `Solve`'s contract shows that the flag does not influence the output.
- `solve` is `const`, so `Solve` is a method without a `modifies` clause.

The least-singular-value policy reads the **last** entry of `sorted_singular_values` (`damping.cpp`, line 116). Eigen's SVD returns singular values in decreasing order, which makes that entry the smallest. The model takes the last entry (`Damping.LastSingularValue`) and assumes no order of the vector.

## Model

| member | source | states |
|---|---|---|
| Damping.CreateDamping | cob_twist_controller/src/damping_methods/damping.cpp:36-59 | Fails exactly for an undefined method and then reports that method's code. Otherwise it returns the policy implementing the configured method, built with the given parameters and Jacobian. |
| Damping.CreateDampingRebuilds | cob_twist_controller/src/damping_methods/damping.cpp:36-59 | Every policy whose parameters name its own method is exactly what the builder makes from those parameters, so all four policies are reachable. |
| Damping.DampingFactor | cob_twist_controller/src/damping_methods/damping.cpp:66-123 | Dispatch of `get_damping_factor`; the None and Constant bodies are its first two arms. None gives 0 for every input and Constant gives `damping_factor`. The least-singular-value factor is never negative. For non-negative `damping_factor` and `lambda_max`, every policy's factor is non-negative. |
| Damping.FixedPoliciesIgnoreJacobian | cob_twist_controller/src/damping_methods/damping.cpp:77-80 | The None and Constant factors are independent of the singular values and of the Jacobian. |
| Damping.ManipulabilityMeasure | cob_twist_controller/src/damping_methods/damping.cpp:92-94 | `w` is non-negative and `w * w == |det(J J^T)|`. |
| Damping.ManipulabilityRamp | cob_twist_controller/src/damping_methods/damping.cpp:96-104 | Zero from `w_threshold` on. Below it, the factor equals `lambda_max (1 - w / w_threshold)^2`, stated as `r * w_t^2 == lambda_max (w_t - w)^2`. It is zero iff `w >= w_threshold` or `lambda_max == 0`. It lies in `[0, lambda_max]` when `lambda_max >= 0`, and equals `lambda_max` at `w == 0` when `w_threshold > 0`. |
| Damping.ManipulabilityRampMonotone | cob_twist_controller/src/damping_methods/damping.cpp:96-99 | For `lambda_max >= 0`, the factor never increases as `w` grows. |
| Damping.ManipulabilityRampStrictlyDecreasing | cob_twist_controller/src/damping_methods/damping.cpp:96-99 | For `lambda_max > 0`, the factor strictly decreases as `w` grows from below the threshold. |
| Damping.ManipulabilityFactor | cob_twist_controller/src/damping_methods/damping.cpp:88-107 | The whole policy on `det(J J^T)`. The factor is zero iff `w_threshold <= 0`, or `w_threshold^2 <= |det|`, or `lambda_max == 0`. It lies in `[0, lambda_max]` when `lambda_max >= 0`. |
| Damping.ManipulabilityFactorMonotone | cob_twist_controller/src/damping_methods/damping.cpp:92-99 | For `lambda_max >= 0`, a larger `|det(J J^T)|` never gives a larger factor. |
| Damping.LeastSingularValuesFactor | cob_twist_controller/src/damping_methods/damping.cpp:113-123 | For the last singular value `sigma`, the factor is 0 when `sigma >= eps_damping`. Otherwise its square is `(1 - (sigma / eps_damping)^2) lambda_max^2`. It always lies in `[0, |lambda_max|]`, and equals `|lambda_max|` at `sigma == 0` when `eps_damping > 0`. |
| Damping.LeastSingularValuesMonotone | cob_twist_controller/src/damping_methods/damping.cpp:116-122 | A larger last singular value never gives a larger factor. |
| GradientProjection.Solve | cob_twist_controller/src/constraint_solvers/solvers/gradient_projection_method_solver.cpp:31-113 | The output is `Solution`: `J+ v`, plus the sum of `(I - J+ J) g_i` over all constraints scaled by the last constraint's self-motion magnitude. The magnitude is queried with the partial solution and that constraint's own projected gradient. With no constraints the output is `J+ v`, whatever `kappa` holds. The diagnostics branch is taken exactly when there is a constraint and the last gradient's norm exceeds `0.00001`. The loop invariant keeps the homogeneous sum over the constraints seen so far and the last gradient and magnitude. |
| GradientProjection.HomogeneousSolutionProjectsGradientSum | cob_twist_controller/src/constraint_solvers/solvers/gradient_projection_method_solver.cpp:45-52 | The accumulated homogeneous solution equals the projector applied to the plain sum of the gradients. |
| GradientProjection.HomogeneousSolutionAppend | cob_twist_controller/src/constraint_solvers/solvers/gradient_projection_method_solver.cpp:45-52 | The homogeneous solution of a concatenation is the sum of the homogeneous solutions of the parts. |
| GradientProjection.HomogeneousSolutionSwap | cob_twist_controller/src/constraint_solvers/solvers/gradient_projection_method_solver.cpp:46-52 | Swapping two neighbouring constraints leaves the homogeneous solution unchanged. |
| GradientProjection.HomogeneousSolutionPermutation | cob_twist_controller/src/constraint_solvers/solvers/gradient_projection_method_solver.cpp:46-52 | Any two constraint sequences that are permutations of each other (equal multisets) give the same homogeneous solution, so the sum does not depend on the set's iteration order. |
| GradientProjection.LastConstraintDecidesKappa | cob_twist_controller/src/constraint_solvers/solvers/gradient_projection_method_solver.cpp:49-54 | Exchanging the last two constraints keeps the homogeneous sum but takes the other constraint's magnitude. Only the last constraint visited scales the output. |
| GradientProjection.OrderSensitiveExample | cob_twist_controller/src/constraint_solvers/solvers/gradient_projection_method_solver.cpp:49-102 | Concrete case: `J = J+ = [0]`, two constraints with gradient `[1]` and constant magnitudes 1 and 2. The output is `[4]` or `[2]` depending on which constraint comes last. |
| GradientProjection.Projector | cob_twist_controller/src/constraint_solvers/solvers/gradient_projection_method_solver.cpp:40-41 | The projector has `J+.rows` rows and `J.cols` columns, and entry `(i, j)` is the identity's entry (1 on the diagonal, also when not square) minus the `(i, j)` entry of `J+ J`. |
| GradientProjection.ProjectorAction | cob_twist_controller/src/constraint_solvers/solvers/gradient_projection_method_solver.cpp:40-41 | For a square projector built as `Identity(J+.rows, J.cols) - J+ J`, projecting `g` gives `g - J+ (J g)`. |
| GradientProjection.SolutionClosedForm | cob_twist_controller/src/constraint_solvers/solvers/gradient_projection_method_solver.cpp:40-102 | With constraints and a square projector, the output is `J+ v + kappa (G - J+ (J G))`, where `G` is the sum of the gradients and `kappa` the last constraint's magnitude. |
| Matrices.ApplyMatMul | cob_twist_controller/src/constraint_solvers/solvers/gradient_projection_method_solver.cpp:41 | Applying the product `J+ * J` to a vector is applying `J` and then `J+`. |

## Left out

- Eigen's `determinant()` and SVD are not modelled; their results are inputs. No order of the singular values is assumed.
- `pinvCalc_.calculate` and the damped pseudo-inverse it builds are not modelled; the pseudo-inverse is an input. The null-space identity `J (P g) = 0` is therefore not stated: it depends on that pseudo-inverse and does not hold exactly with damping.
- Floating point is not modelled: no rounding, NaN or infinity. An uninitialised `kappa` holding NaN would make the empty-constraint output NaN in C++. The model treats `kappa` as an arbitrary real.
- `ROS_ERROR` and `ROS_INFO_STREAM` output is not modelled. The builder's report is the `Err` value, and the solver's diagnostics are the `diagnosticsLogged` flag. The commented-out code in `solve` is not modelled.
- Heap allocation with `new` and the returned base-class pointer are replaced by a `Result` of a policy datatype.
- The concrete constraint classes and the `std::set` comparator are not modelled. Constraints are a sequence in iteration order, each carrying its gradient and its self-motion magnitude as a function.
- The `last_q_dot` argument of `solve` is unused by the source and is not a parameter. `q` only sizes the initial `q_dot_0`.
- The virtual dispatch of `get_damping_factor` through the `DampingBase*` the builder returns is a `match` on the policy datatype.
- The manipulability policy computes `det(J * J^T)` from its own Jacobian. The model passes that determinant to `Damping.DampingFactor` and does not compute it from `jacobianData`.
- Damping.LeastSingularValuesFactor: requires a non-empty singular-value vector whose last entry is non-negative. An empty vector is out-of-range indexing in C++. A negative entry is not a singular value.
- Solve and every function with vector arguments: require matching dimensions (gradients of `J.cols` entries, `v` of `J.rows` entries), where Eigen would assert at run time.
- The visualisation helpers `marker_shapes_impl.hpp` and `marker_shapes_interface.cpp` belong to other packages and are not part of this model.
