# Quotient polynomial of the PLONK prover

This project models the prover's quotient-polynomial step in
`plonk-core/src/proof_system/quotient_poly.rs`, and proves properties of the model in Dafny.

The step works as follows:

1. It builds the evaluation domain of size 4n, or returns `InvalidEvalDomainSize`.
2. It evaluates the wire, permutation-accumulator and lookup polynomials on the 4n coset.
3. It appends the first four evaluations to each array whose "next row" is read. Index `i + 4` then stands for the next row of the original n-point domain.
4. At every coset point it adds the gate constraints and the permutation check.
5. It divides that sum by the vanishing polynomial's evaluation, unwrapping the inverse.
6. It interpolates the result back with the coset inverse transform, dropping trailing zero coefficients.

The model has four modules:

- `Field` (`field.dfy`): the prime field as a record of operations, plus the laws the proofs use. These are associativity and the unit of multiplication, zero as additive unit that also absorbs products, and that exactly the non-zero elements have an inverse. It also has powers, Horner evaluation and the removal of trailing zero coefficients.
- `EvaluationDomain` (`evaluation_domain.dfy`): radix-2 domain creation, with the next power of two and `trailing_zeros`. It also holds the transform kernels as function values, the premises about them, and the in-place inverse transform.
- `Widgets` (`widgets.dfy`): the values handed to the per-gate evaluators, and the part of the prover key that the step reads.
- `QuotientPoly` (`quotient_poly.dfy`): the step itself and its helpers:
  - the growable evaluation vector (`EvalVec`), a class whose `Push` updates it in place;
  - the gate and permutation contributions;
  - the scaled first Lagrange polynomial;
  - the pointwise division;
  - `Compute`.

An outcome is `Ok`, `Err(InvalidEvalDomainSize{..})` or `Panic(i)`. `Panic(i)` is the `unwrap` on the inverse of the vanishing polynomial failing at coset point `i`, the first such point.

`ComputeFirstLagrangePolyScaled` is the in-place form of `compute_first_lagrange_poly_scaled`: a buffer written and inverse-transformed in place. It is proved equal to the function `FirstLagrangeCoeffs`, which the per-point maps use because a function cannot call a method.

The model reads the next row two ways. `GateConstraintsCyclic` and `PermutationChecksCyclic` are reference definitions that read it cyclically, as `e[(i + 4) % 4n]`, from the unextended arrays. Lemmas prove that the prover's reads of the extended arrays give exactly those values. The contract of `Compute` is stated through these references.

## Model

| member | source | states |
|---|---|---|
| EvaluationDomain.CeilLog2 | plonk-core/src/proof_system/quotient_poly.rs:66 | the exponent of the least power of two at least n: n <= 2^k, and 2^(k-1) < n when k > 0 |
| EvaluationDomain.TrailingZeros | plonk-core/src/proof_system/quotient_poly.rs:68 | x == 2^r * m with m odd, so r is the number of trailing zero bits |
| EvaluationDomain.NewDomain | plonk-core/src/proof_system/quotient_poly.rs:66-71 | a domain exists iff some 2^k with k <= two-adicity holds the requested size; it then holds it and its exponent is the least such |
| EvaluationDomain.IfftInPlace | plonk-core/src/proof_system/quotient_poly.rs:358 | the buffer afterwards holds the inverse transform of its old contents |
| QuotientPoly.NewDomainOfPow2 | plonk-core/src/proof_system/quotient_poly.rs:66-71 | for a size 2^k the domain is exactly the one of exponent k when k <= two-adicity, and none otherwise |
| QuotientPoly.Domain4n | plonk-core/src/proof_system/quotient_poly.rs:66-71 | never panics; Ok iff log n + 2 <= two-adicity, with size 4n; otherwise the error InvalidEvalDomainSize{log n + 2, two-adicity} |
| QuotientPoly.WrapExtended | plonk-core/src/proof_system/quotient_poly.rs:73-77 | the extended array has 4 more entries, keeps the original ones, and its entry 4n + k is entry k |
| QuotientPoly.EvalVec.Push | plonk-core/src/proof_system/quotient_poly.rs:74 | the vector afterwards is the old one with the value appended |
| QuotientPoly.EvalVec.PushFirstFour | plonk-core/src/proof_system/quotient_poly.rs:74-77 | four pushes of entries 0..3 leave the vector equal to the wrap-extension of its old contents |
| QuotientPoly.ExtendedCosetEvals | plonk-core/src/proof_system/quotient_poly.rs:79-83 | coset transform followed by the four pushes yields the wrap-extension of the coset evaluations |
| QuotientPoly.WrapExtendedRotates | plonk-core/src/proof_system/quotient_poly.rs:217-219 | for every i < 4n, entry i + 4 of the extended array is entry (i + 4) mod 4n of the original |
| QuotientPoly.NextEvalIsNextRowPoint | plonk-core/src/proof_system/quotient_poly.rs:328-334 | for a polynomial of at most 4n coefficients, if the coset transform evaluates at g*w^j and w^(4n) == 1, entry i + 4 of the extended array is the polynomial's value at g*w^i*w^4, the next row's point |
| QuotientPoly.GateConstraintSatisfiability | plonk-core/src/proof_system/quotient_poly.rs:176-206 | when the 4n domain exists it needs extended left, right and fourth wire arrays of length >= 4n + 4 (every index in bounds), and nothing otherwise; it never panics, fails exactly when the 4n domain does, with the same error, and otherwise returns 4n values |
| QuotientPoly.GateConstraintsReadNextRow | plonk-core/src/proof_system/quotient_poly.rs:206-280 | on the extended wire arrays the result is Ok of the cyclic reference: at each point, arithmetic + public input + range + logic + fixed-base + curve-addition, with next-row values read four points ahead cyclically |
| QuotientPoly.GateConstraintsIgnoreLookup | plonk-core/src/proof_system/quotient_poly.rs:258-278 | the result does not depend on the lookup evaluations, zeta or the lookup challenge |
| QuotientPoly.ScaledUnitVector | plonk-core/src/proof_system/quotient_poly.rs:356-357 | length n, `scale` at index 0 and zero at every other index |
| QuotientPoly.FirstLagrangeCoeffs | plonk-core/src/proof_system/quotient_poly.rs:349-360 | the coefficient vector, trimmed of trailing zeros, has at most the domain's size |
| QuotientPoly.ComputeFirstLagrangePolyScaled | plonk-core/src/proof_system/quotient_poly.rs:349-360 | the zero buffer with `scale` written at index 0, inverse-transformed in place and trimmed, equals `FirstLagrangeCoeffs`, the form the per-point maps use |
| QuotientPoly.FirstLagrangeEvaluations | plonk-core/src/proof_system/quotient_poly.rs:356-359 | under the field laws and the FFT round trip, the trimmed polynomial evaluates to `scale` at w^0 and to zero at every other w^j |
| QuotientPoly.PermutationChecks | plonk-core/src/proof_system/quotient_poly.rs:285-319 | when the 4n domain exists it needs z, z2, t, h1 of length >= 4n + 4 and the others >= 4n (every index in bounds), and nothing otherwise; it never panics, fails exactly when the 4n domain does, with the same error, and otherwise returns 4n values |
| QuotientPoly.PermutationChecksReadNextRow | plonk-core/src/proof_system/quotient_poly.rs:313-346 | on the extended arrays the result is Ok of the cyclic reference, whose two Lagrange arguments are the same evaluations of alpha^2 * L1; alpha_five takes no part |
| QuotientPoly.FirstNonInvertible | plonk-core/src/proof_system/quotient_poly.rs:161-165 | the index found has no inverse and every earlier one has; None means every index in range has one |
| QuotientPoly.DivideByVanishing | plonk-core/src/proof_system/quotient_poly.rs:161-167 | never an error; panics iff some vanishing value lacks an inverse, at the first such index; otherwise 4n values |
| QuotientPoly.QuotientTimesVanishing | plonk-core/src/proof_system/quotient_poly.rs:163-165 | the division succeeds iff no vanishing value is zero, a panic index has a zero value, and q[i] * vh[i] == gate[i] + perm[i] at every point |
| QuotientPoly.QuotientPolyTimesVanishing | plonk-core/src/proof_system/quotient_poly.rs:161-171 | under the coset round trip, the interpolated and trimmed quotient q satisfies q(g*w^i) * vh[i] == gate[i] + perm[i] at every coset point |
| QuotientPoly.Compute | plonk-core/src/proof_system/quotient_poly.rs:35-172 | the prover key must cover 4n points only when the 4n domain exists; Err iff two-adicity < log n + 2, carrying InvalidEvalDomainSize{trailing_zeros(4n), two-adicity}; Panic iff the domain exists and some vanishing value has no inverse, at the first such point; otherwise the coset inverse transform, trimmed of trailing zeros, of the pointwise quotient of the cyclic gate and permutation references |
| Field.Trim | plonk-core/src/proof_system/quotient_poly.rs:169-171 | the result is a prefix of the coefficients, everything dropped is zero, and its last coefficient is non-zero |
| Field.PolyEvalTrim | plonk-core/src/proof_system/quotient_poly.rs:359 | removing trailing zeros does not change a polynomial's value at any point |
| Field.DivideThenMultiply | plonk-core/src/proof_system/quotient_poly.rs:165 | (a * x^-1) * x == a for every invertible x |

## Left out

- The FFT kernels (`coset_fft`, `coset_ifft`, `ifft_in_place`) are function values. What is known about them is stated as premises: output length, the round trips, and evaluation at the domain's points of any polynomial with no more coefficients than the domain has points. (The kernels resize their input to the domain size, so for a longer input they would not give its values.)
- Mixed-radix domains (`GeneralEvaluationDomain` falling back to a mixed-radix domain) are not modelled. The domain is radix-2, so `new` succeeds exactly when the next power of two fits the two-adicity.
- The field's internals (modulus, Montgomery form, constant-time behaviour) are not modelled. Of the field laws, only those the proofs use are assumed: associativity and unit of multiplication, zero as additive unit and absorbing element, and inverses of non-zero elements. Commutativity is not assumed.
- The per-gate evaluators (arithmetic, range, logic, fixed-base scalar multiplication, curve addition, and the permutation widget's `compute_quotient_i`) are function values. Every result holds whatever they compute.
- The lookup gate is commented out in the source. It is modelled as contributing nothing; `GateConstraintsIgnoreLookup` states this.
- Index-out-of-bounds panics are not outcomes. The array lengths that keep every index in bounds are preconditions instead.
- The `usize` multiplication `4 * domain.size()` is taken as exact. Overflow would need a domain far beyond any two-adicity.
- The source extends `h_2_eval_4n` by four pushes, but reads it only at `i`. The model extends it in the same way.
- `alpha_five` is computed and never used. The model computes it too, and it influences nothing.
- Polynomials are coefficient vectors. `from_coefficients_vec` removes trailing zeros, and the model does so too (`Trim`) in `FirstLagrangeCoeffs`, `ComputeFirstLagrangePolyScaled` and `Compute`. The transform kernels are function values, so the model does not know that `coset_fft` of a trimmed vector equals `coset_fft` of the untrimmed one, a fact that holds because the kernels pad their input with zeros to the domain size. Only evaluation (`PolyEvalTrim`) is proved to ignore the trim.
- The maps over the points (lines 161, 206 and 319) are sequential in the source, and the model follows them; `Panic` at the first failing index is the source's own order.
- Commitments, the transcript and the rest of the prover are not part of this model.
- QuotientPoly.GateConstraintSatisfiability: its own contract states only the outcome and the length. The values are stated by `GateConstraintsReadNextRow` against the cyclic reference.
- QuotientPoly.PermutationChecks: its own contract states only the outcome and the length. The values are stated by `PermutationChecksReadNextRow` against the cyclic reference.
- QuotientPoly.FirstLagrangeCoeffs: its own contract gives only the length. The evaluations are stated by `FirstLagrangeEvaluations`.
