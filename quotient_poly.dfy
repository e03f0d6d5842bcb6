/** The prover's quotient-polynomial step: extend the wire, accumulator and
    lookup polynomials to the 4n coset, emulate "next row" reads by appending
    the first four evaluations to each array that needs them, combine the
    gate constraints and the permutation check at every coset point, and
    divide pointwise by the vanishing polynomial. */
module QuotientPoly {
  import opened Field
  import opened EvaluationDomain
  import opened Widgets

  /** What a call ends in: `Ok` and `Err` are the two arms of the returned
      `Result`; `Panic(i)` is the prover aborting at coset point i because the
      vanishing polynomial's evaluation there has no inverse. */
  datatype Outcome<T> = Ok(value: T) | Err(error: Error) | Panic(index: nat)
  {
    predicate IsFailure()
    {
      !Ok?
    }

    function PropagateFailure<U>(): Outcome<U>
      requires IsFailure()
    {
      if Err? then Err(error) else Panic(index)
    }

    function Extract(): T
      requires Ok?
    {
      value
    }
  }

  /** The polynomials (coefficient vectors) the quotient step receives. */
  datatype Polys<F> = Polys(
    z: seq<F>, z2: seq<F>,
    wl: seq<F>, wr: seq<F>, wo: seq<F>, w4: seq<F>,
    publicInputs: seq<F>,
    f: seq<F>, t: seq<F>, h1: seq<F>, h2: seq<F>)

  /** The Fiat-Shamir challenges the quotient step receives. */
  datatype Challenges<F> = Challenges(
    alpha: F, beta: F, gamma: F, delta: F, epsilon: F, zeta: F,
    range: F, logic: F, fixedBase: F, varBase: F, lookup: F)

  // ---------------------------------------------------------------------
  // The 4n domain

  lemma NewDomainOfPow2(k: nat, twoAdicity: nat)
    ensures NewDomain(Pow2(k), twoAdicity) == if k <= twoAdicity then Some(Domain(k)) else None
  {
    CeilLog2OfPow2(k);
    TrailingZerosOfPow2(k);
  }

  /** The domain of size 4n built at the start of each step, or the error
      naming its log-size (the trailing zeros of 4n) and the two-adicity. */
  function Domain4n<F>(ops: FieldOps<F>, domain: Domain): (r: Outcome<Domain>)
    ensures !r.Panic?
    ensures r.Ok? <==> domain.logSize + 2 <= ops.twoAdicity
    ensures r.Ok? ==> r.value.Size() == 4 * domain.Size()
    ensures r.Err? ==> r.error == InvalidEvalDomainSize(domain.logSize + 2, ops.twoAdicity)
  {
    var n := 4 * domain.Size();
    assert n == Pow2(domain.logSize + 2);
    NewDomainOfPow2(domain.logSize + 2, ops.twoAdicity);
    TrailingZerosOfPow2(domain.logSize + 2);
    match NewDomain(n, ops.twoAdicity)
    case Some(d4) => Ok(d4)
    case None => Err(InvalidEvalDomainSize(TrailingZeros(n), ops.twoAdicity))
  }

  // ---------------------------------------------------------------------
  // Rotation emulation

  /** A coset evaluation array with its first four entries appended. */
  function WrapExtended<F>(e: seq<F>): (x: seq<F>)
    requires |e| >= 4
    ensures |x| == |e| + 4
    ensures forall j :: 0 <= j < |e| ==> x[j] == e[j]
    ensures forall k :: 0 <= k < 4 ==> x[|e| + k] == e[k]
  {
    e + e[..4]
  }

  /** Reading an extended array four places ahead is reading the original
      array four places ahead, cyclically. */
  lemma {:induction false} WrapExtendedRotates<F>(e: seq<F>, i: nat)
    requires |e| >= 4 && i < |e|
    ensures WrapExtended(e)[i + 4] == e[(i + 4) % |e|]
  {
    FourAheadMod(i, |e|);
  }

  /** When the 4n coset transform evaluates at g*w^j, where w generates the
      4n-point subgroup, index i + 4 of the extended array holds the
      polynomial's value at the i-th coset point times w^4, the generator of
      the original n-point domain: the value at the "next row". */
  lemma NextEvalIsNextRowPoint<F(!new)>(
    ops: FieldOps<F>, tr: Transforms<F>, n4: nat, g: F, w: F, p: seq<F>, i: nat)
    requires FieldLaws(ops) && ValidTransforms(tr)
    requires CosetFftEvaluatesAt(ops, tr, n4, g, w) && Pow(ops, w, n4) == ops.one
    requires 4 <= n4 && i < n4 && |p| <= n4
    ensures WrapExtended(tr.cosetFft(n4, p))[i + 4]
         == PolyEval(ops, p, ops.mul(ops.mul(g, Pow(ops, w, i)), Pow(ops, w, 4)))
  {
    var e := tr.cosetFft(n4, p);
    var j := (i + 4) % n4;
    WrapExtendedRotates(e, i);
    assert WrapExtended(e)[i + 4] == e[j];
    assert e[j] == PolyEval(ops, p, ops.mul(g, Pow(ops, w, j)));
    PowFourAhead(ops, w, n4, i);
    MulRegroup(ops, g, Pow(ops, w, i), Pow(ops, w, 4));
  }

  /** If w^n == 1, then w^((i+4) mod n) == w^i * w^4. */
  lemma PowFourAhead<F(!new)>(ops: FieldOps<F>, w: F, n: nat, i: nat)
    requires FieldLaws(ops) && Pow(ops, w, n) == ops.one
    requires 4 <= n && i < n
    ensures Pow(ops, w, (i + 4) % n) == ops.mul(Pow(ops, w, i), Pow(ops, w, 4))
  {
    FourAheadMod(i, n);
    PowShiftByFour(ops, w, n, i, (i + 4) % n);
  }

  lemma PowShiftByFour<F(!new)>(ops: FieldOps<F>, w: F, n: nat, i: nat, j: nat)
    requires FieldLaws(ops) && Pow(ops, w, n) == ops.one
    requires i + 4 == j || i + 4 == n + j
    ensures Pow(ops, w, j) == ops.mul(Pow(ops, w, i), Pow(ops, w, 4))
  {
    PowAdd(ops, w, i, 4);
    if i + 4 == n + j {
      PowPeriodic(ops, w, n, j);
    }
  }

  /** Four places ahead of a point of an n-point array (n >= 4) is either
      still inside it or wraps around once. */
  lemma FourAheadMod(i: nat, n: nat)
    requires 4 <= n && i < n
    ensures (i + 4) % n == i + 4 || i + 4 == n + (i + 4) % n
  {
  }

  /** The prover's `Vec` of coset evaluations, which it grows in place. */
  class EvalVec<F> {
    var elems: seq<F>

    constructor (e: seq<F>)
      ensures elems == e
    {
      elems := e;
    }

    method Push(v: F)
      modifies this
      ensures elems == old(elems) + [v]
    {
      elems := elems + [v];
    }

    /** Appends the first four evaluations, one push at a time. */
    method PushFirstFour()
      requires |elems| >= 4
      modifies this
      ensures elems == WrapExtended(old(elems))
    {
      Push(elems[0]);
      Push(elems[1]);
      Push(elems[2]);
      Push(elems[3]);
    }
  }

  /** The coset evaluations of a polynomial over the 4n domain, followed by
      copies of the first four: `coset_fft` and then four pushes. */
  method ExtendedCosetEvals<F>(tr: Transforms<F>, n: nat, poly: seq<F>) returns (x: seq<F>)
    requires |tr.cosetFft(n, poly)| >= 4
    ensures x == WrapExtended(tr.cosetFft(n, poly))
  {
    var evals := new EvalVec(tr.cosetFft(n, poly));
    evals.PushFirstFour();
    x := evals.elems;
  }

  // ---------------------------------------------------------------------
  // Gate constraints

  /** The gate-constraint value at point i, from the row's witness values,
      the next row's left, right and fourth wire values and the public-input
      evaluation. The lookup gate contributes nothing. */
  function GateRow<F>(
    ops: FieldOps<F>, pk: ProverKey<F>, gates: GateFamilies<F>, ch: Challenges<F>,
    i: nat, wit: WitnessValues<F>, aNext: F, bNext: F, dNext: F, piEval: F): F
    requires CoversPoints(pk, i + 1)
  {
    var custom := CustomEvaluations(aNext, bNext, dNext, pk.qL[i], pk.qR[i], pk.qC[i]);
    var arithmetic := pk.arithmetic(i, wit);
    var range := gates.range(pk.rangeSelector[i], ch.range, wit, custom);
    var logic := gates.logic(pk.logicSelector[i], ch.logic, wit, custom);
    var fixedBaseScalarMul :=
      gates.fixedBaseScalarMul(pk.fixedGroupAddSelector[i], ch.fixedBase, wit, custom);
    var curveAddition :=
      gates.curveAddition(pk.variableGroupAddSelector[i], ch.varBase, wit, custom);
    ops.add(ops.add(ops.add(ops.add(ops.add(arithmetic, piEval), range), logic),
                    fixedBaseScalarMul), curveAddition)
  }

  /** The gate-constraint contribution at every point of the 4n coset. The
      left, right and fourth wire arrays are read at i + 4 and so must be the
      extended ones; the output wire array is read at i only; the lookup
      evaluations, zeta and the lookup challenge are not read at all. */
  function GateConstraintSatisfiability<F(!new)>(
    ops: FieldOps<F>, tr: Transforms<F>, domain: Domain, ch: Challenges<F>,
    pk: ProverKey<F>, gates: GateFamilies<F>,
    wlEval4n: seq<F>, wrEval4n: seq<F>, woEval4n: seq<F>, w4Eval4n: seq<F>,
    piPoly: seq<F>, fEval4n: seq<F>): (r: Outcome<seq<F>>)
    requires ValidTransforms(tr)
    requires domain.logSize + 2 <= ops.twoAdicity ==>
               && CoversPoints(pk, 4 * domain.Size())
               && |wlEval4n| >= 4 * domain.Size() + 4
               && |wrEval4n| >= 4 * domain.Size() + 4
               && |w4Eval4n| >= 4 * domain.Size() + 4
               && |woEval4n| >= 4 * domain.Size()
    ensures !r.Panic?
    ensures r.Err? <==> Domain4n(ops, domain).Err?
    ensures r.Err? ==> r.error == Domain4n(ops, domain).error
    ensures r.Ok? ==> |r.value| == 4 * domain.Size()
  {
    var domain4n :- Domain4n(ops, domain);
    var n := domain4n.Size();
    var piEval4n := tr.cosetFft(n, piPoly);
    Ok(seq(n, i requires 0 <= i < n =>
      GateRow(ops, pk, gates, ch, i,
              WitnessValues(wlEval4n[i], wrEval4n[i], woEval4n[i], w4Eval4n[i]),
              wlEval4n[i + 4], wrEval4n[i + 4], w4Eval4n[i + 4], piEval4n[i])))
  }

  /** Reference definition: the gate-constraint values with the next row read
      cyclically, four points ahead, from the unextended evaluations. */
  function GateConstraintsCyclic<F>(
    ops: FieldOps<F>, pk: ProverKey<F>, gates: GateFamilies<F>, ch: Challenges<F>,
    wl: seq<F>, wr: seq<F>, wo: seq<F>, w4: seq<F>, pi: seq<F>): seq<F>
    requires |wr| == |wl| && |wo| == |wl| && |w4| == |wl| && |pi| == |wl|
    requires CoversPoints(pk, |wl|)
  {
    var n := |wl|;
    seq(n, i requires 0 <= i < n =>
      GateRow(ops, pk, gates, ch, i, WitnessValues(wl[i], wr[i], wo[i], w4[i]),
              wl[(i + 4) % n], wr[(i + 4) % n], w4[(i + 4) % n], pi[i]))
  }

  /** Fed the extended left, right and fourth wire arrays, the gate
      constraints are those of the cyclic reference. */
  lemma {:induction false} GateConstraintsReadNextRow<F(!new)>(
    ops: FieldOps<F>, tr: Transforms<F>, domain: Domain, ch: Challenges<F>,
    pk: ProverKey<F>, gates: GateFamilies<F>,
    wl: seq<F>, wr: seq<F>, wo: seq<F>, w4: seq<F>, piPoly: seq<F>, fEval4n: seq<F>)
    requires ValidTransforms(tr)
    requires CoversPoints(pk, 4 * domain.Size())
    requires Domain4n(ops, domain).Ok?
    requires |wl| == 4 * domain.Size() && |wr| == |wl| && |wo| == |wl| && |w4| == |wl|
    ensures GateConstraintSatisfiability(ops, tr, domain, ch, pk, gates,
              WrapExtended(wl), WrapExtended(wr), wo, WrapExtended(w4), piPoly, fEval4n)
         == Ok(GateConstraintsCyclic(ops, pk, gates, ch, wl, wr, wo, w4,
                 tr.cosetFft(4 * domain.Size(), piPoly)))
  {
    var n := 4 * domain.Size();
    var r := GateConstraintSatisfiability(ops, tr, domain, ch, pk, gates,
      WrapExtended(wl), WrapExtended(wr), wo, WrapExtended(w4), piPoly, fEval4n);
    var pi := tr.cosetFft(n, piPoly);
    var cyclic := GateConstraintsCyclic(ops, pk, gates, ch, wl, wr, wo, w4, pi);
    assert r.Ok? && |r.value| == |cyclic| == n;
    forall i | 0 <= i < n
      ensures r.value[i] == cyclic[i]
    {
      assert WrapExtended(wl)[i] == wl[i] && WrapExtended(wr)[i] == wr[i] && WrapExtended(w4)[i] == w4[i];
      WrapExtendedRotates(wl, i);
      WrapExtendedRotates(wr, i);
      WrapExtendedRotates(w4, i);
    }
    assert r.value == cyclic;
  }

  /** The (disabled) lookup gate has no influence: the lookup evaluations,
      zeta and the lookup challenge do not change the gate constraints. */
  lemma GateConstraintsIgnoreLookup<F(!new)>(
    ops: FieldOps<F>, tr: Transforms<F>, domain: Domain, ch: Challenges<F>,
    pk: ProverKey<F>, gates: GateFamilies<F>,
    wl: seq<F>, wr: seq<F>, wo: seq<F>, w4: seq<F>, piPoly: seq<F>,
    fEval4n: seq<F>, otherF: seq<F>, otherZeta: F, otherLookup: F)
    requires ValidTransforms(tr)
    requires domain.logSize + 2 <= ops.twoAdicity ==>
               && CoversPoints(pk, 4 * domain.Size())
               && |wl| >= 4 * domain.Size() + 4 && |wr| >= 4 * domain.Size() + 4
               && |w4| >= 4 * domain.Size() + 4 && |wo| >= 4 * domain.Size()
    ensures GateConstraintSatisfiability(ops, tr, domain, ch, pk, gates, wl, wr, wo, w4, piPoly, fEval4n)
         == GateConstraintSatisfiability(ops, tr, domain, ch.(zeta := otherZeta, lookup := otherLookup),
              pk, gates, wl, wr, wo, w4, piPoly, otherF)
  {
    var r1 := GateConstraintSatisfiability(ops, tr, domain, ch, pk, gates, wl, wr, wo, w4, piPoly, fEval4n);
    var r2 := GateConstraintSatisfiability(ops, tr, domain, ch.(zeta := otherZeta, lookup := otherLookup),
              pk, gates, wl, wr, wo, w4, piPoly, otherF);
    if r1.Ok? {
      assert r2.Ok?;
      forall i | 0 <= i < |r1.value| ensures r1.value[i] == r2.value[i] {
      }
      assert r1.value == r2.value;
    }
  }

  // ---------------------------------------------------------------------
  // The scaled first Lagrange polynomial

  /** The evaluation vector of length n that is `scale` at the first point
      and zero at every other one. */
  function ScaledUnitVector<F>(ops: FieldOps<F>, n: nat, scale: F): (v: seq<F>)
    ensures |v| == n
    ensures n > 0 ==> v[0] == scale
    ensures forall j :: 0 < j < n ==> v[j] == ops.zero
  {
    seq(n, j => if j == 0 then scale else ops.zero)
  }

  /** The coefficients of `scale` times the first Lagrange polynomial of the
      domain: the inverse transform of the scaled unit vector, kept as a
      polynomial without trailing zeros. */
  function FirstLagrangeCoeffs<F(==,!new)>(ops: FieldOps<F>, tr: Transforms<F>, domain: Domain, scale: F): (c: seq<F>)
    requires ValidTransforms(tr)
    ensures |c| <= domain.Size()
  {
    Trim(ops, tr.ifft(domain.Size(), ScaledUnitVector(ops, domain.Size(), scale)))
  }

  /** Allocates a zero buffer of the domain's size, writes `scale` at index 0
      and inverse-transforms it in place. */
  method ComputeFirstLagrangePolyScaled<F(==,!new)>(
    ops: FieldOps<F>, tr: Transforms<F>, domain: Domain, scale: F) returns (coeffs: seq<F>)
    requires ValidTransforms(tr)
    ensures coeffs == FirstLagrangeCoeffs(ops, tr, domain, scale)
  {
    var xEvals := new F[domain.Size()](_ => ops.zero);
    xEvals[0] := scale;
    assert xEvals[..] == ScaledUnitVector(ops, domain.Size(), scale);
    IfftInPlace(tr, xEvals);
    coeffs := Trim(ops, xEvals[..]);
  }

  /** If the forward transform undoes the inverse one and evaluates at the
      powers of the domain's generator w, the scaled first Lagrange
      polynomial is `scale` at the first domain point and zero at the others. */
  lemma FirstLagrangeEvaluations<F(!new)>(
    ops: FieldOps<F>, tr: Transforms<F>, domain: Domain, w: F, scale: F, j: nat)
    requires FieldLaws(ops) && ValidTransforms(tr) && FftRoundTrip(tr)
    requires FftEvaluatesAt(ops, tr, domain.Size(), w)
    requires j < domain.Size()
    ensures PolyEval(ops, FirstLagrangeCoeffs(ops, tr, domain, scale), Pow(ops, w, j))
         == if j == 0 then scale else ops.zero
  {
    var n := domain.Size();
    var u := ScaledUnitVector(ops, n, scale);
    var c := tr.ifft(n, u);
    assert tr.fft(n, c) == u;
    assert tr.fft(n, c)[j] == PolyEval(ops, c, Pow(ops, w, j));
    PolyEvalTrim(ops, c, Pow(ops, w, j));
  }

  // ---------------------------------------------------------------------
  // Permutation checks

  /** The permutation argument's term at point i. */
  function PermutationRow<F>(
    pk: ProverKey<F>, ch: Challenges<F>, i: nat, wit: WitnessValues<F>,
    z: F, zNext: F, z2: F, z2Next: F, t: F, tNext: F, h1: F, h1Next: F, h2: F,
    l1AlphaSq: F, l1AlphaFive: F): F
  {
    pk.permutation(i, PermutationValues(wit, z, zNext, z2, z2Next, t, tNext, h1, h1Next, h2,
                                        ch.alpha, l1AlphaSq, l1AlphaFive,
                                        ch.beta, ch.gamma, ch.delta, ch.epsilon))
  }

  /** The permutation contribution at every point of the 4n coset. The
      accumulator arrays z, z2, t and h1 are read at i + 4 and so must be the
      extended ones; the wire arrays and h2 are read at i only. Both Lagrange
      arguments are evaluations of L1 scaled by alpha^2. */
  function PermutationChecks<F(==,!new)>(
    ops: FieldOps<F>, tr: Transforms<F>, domain: Domain, pk: ProverKey<F>,
    wlEval4n: seq<F>, wrEval4n: seq<F>, woEval4n: seq<F>, w4Eval4n: seq<F>,
    zEval4n: seq<F>, z2Eval4n: seq<F>, tEval4n: seq<F>, h1Eval4n: seq<F>, h2Eval4n: seq<F>,
    ch: Challenges<F>): (r: Outcome<seq<F>>)
    requires ValidTransforms(tr)
    requires domain.logSize + 2 <= ops.twoAdicity ==>
               && |wlEval4n| >= 4 * domain.Size() && |wrEval4n| >= 4 * domain.Size()
               && |woEval4n| >= 4 * domain.Size() && |w4Eval4n| >= 4 * domain.Size()
               && |h2Eval4n| >= 4 * domain.Size()
               && |zEval4n| >= 4 * domain.Size() + 4 && |z2Eval4n| >= 4 * domain.Size() + 4
               && |tEval4n| >= 4 * domain.Size() + 4 && |h1Eval4n| >= 4 * domain.Size() + 4
    ensures !r.Panic?
    ensures r.Err? <==> Domain4n(ops, domain).Err?
    ensures r.Err? ==> r.error == Domain4n(ops, domain).error
    ensures r.Ok? ==> |r.value| == 4 * domain.Size()
  {
    var domain4n :- Domain4n(ops, domain);
    var n := domain4n.Size();
    var l1PolyAlpha := FirstLagrangeCoeffs(ops, tr, domain, ops.mul(ch.alpha, ch.alpha));
    var l1AlphaSqEvals := tr.cosetFft(n, l1PolyAlpha);
    var alphaFive := ops.add(ops.add(ops.mul(ch.alpha, ch.alpha), ops.mul(ch.alpha, ch.alpha)), ch.alpha);
    var l1AlphaFiveEvals := tr.cosetFft(n, l1PolyAlpha);
    Ok(seq(n, i requires 0 <= i < n =>
      PermutationRow(pk, ch, i,
                     WitnessValues(wlEval4n[i], wrEval4n[i], woEval4n[i], w4Eval4n[i]),
                     zEval4n[i], zEval4n[i + 4], z2Eval4n[i], z2Eval4n[i + 4],
                     tEval4n[i], tEval4n[i + 4], h1Eval4n[i], h1Eval4n[i + 4], h2Eval4n[i],
                     l1AlphaSqEvals[i], l1AlphaFiveEvals[i])))
  }

  /** Reference definition: the permutation terms with the next row read
      cyclically from the unextended evaluations, and one vector of L1
      evaluations given for both Lagrange arguments. */
  function PermutationChecksCyclic<F>(
    pk: ProverKey<F>, ch: Challenges<F>,
    wl: seq<F>, wr: seq<F>, wo: seq<F>, w4: seq<F>,
    z: seq<F>, z2: seq<F>, t: seq<F>, h1: seq<F>, h2: seq<F>, l1Evals: seq<F>): seq<F>
    requires |wr| == |wl| && |wo| == |wl| && |w4| == |wl|
    requires |z| == |wl| && |z2| == |wl| && |t| == |wl| && |h1| == |wl| && |h2| == |wl|
    requires |l1Evals| == |wl|
  {
    var n := |wl|;
    seq(n, i requires 0 <= i < n =>
      PermutationRow(pk, ch, i, WitnessValues(wl[i], wr[i], wo[i], w4[i]),
                     z[i], z[(i + 4) % n], z2[i], z2[(i + 4) % n],
                     t[i], t[(i + 4) % n], h1[i], h1[(i + 4) % n], h2[i],
                     l1Evals[i], l1Evals[i]))
  }

  /** Fed the arrays as the prover extends them, the permutation checks are those
      of the cyclic reference, with the evaluations of alpha^2 * L1 in both
      Lagrange arguments. */
  lemma {:induction false} PermutationChecksReadNextRow<F(!new)>(
    ops: FieldOps<F>, tr: Transforms<F>, domain: Domain, pk: ProverKey<F>,
    wl: seq<F>, wr: seq<F>, wo: seq<F>, w4: seq<F>,
    z: seq<F>, z2: seq<F>, t: seq<F>, h1: seq<F>, h2: seq<F>, ch: Challenges<F>)
    requires ValidTransforms(tr)
    requires Domain4n(ops, domain).Ok?
    requires |wl| == 4 * domain.Size() && |wr| == |wl| && |wo| == |wl| && |w4| == |wl|
    requires |z| == |wl| && |z2| == |wl| && |t| == |wl| && |h1| == |wl| && |h2| == |wl|
    ensures PermutationChecks(ops, tr, domain, pk, WrapExtended(wl), WrapExtended(wr), wo, WrapExtended(w4),
              WrapExtended(z), WrapExtended(z2), WrapExtended(t), WrapExtended(h1), WrapExtended(h2), ch)
         == Ok(PermutationChecksCyclic(pk, ch, wl, wr, wo, w4, z, z2, t, h1, h2,
                 tr.cosetFft(4 * domain.Size(),
                   FirstLagrangeCoeffs(ops, tr, domain, ops.mul(ch.alpha, ch.alpha)))))
  {
    var n := 4 * domain.Size();
    var r := PermutationChecks(ops, tr, domain, pk,
      WrapExtended(wl), WrapExtended(wr), wo, WrapExtended(w4), WrapExtended(z), WrapExtended(z2), WrapExtended(t), WrapExtended(h1), WrapExtended(h2), ch);
    var l1 := tr.cosetFft(n, FirstLagrangeCoeffs(ops, tr, domain, ops.mul(ch.alpha, ch.alpha)));
    var cyclic := PermutationChecksCyclic(pk, ch, wl, wr, wo, w4, z, z2, t, h1, h2, l1);
    assert r.Ok? && |r.value| == |cyclic| == n;
    forall i | 0 <= i < n
      ensures r.value[i] == cyclic[i]
    {
      assert WrapExtended(wl)[i] == wl[i] && WrapExtended(wr)[i] == wr[i] && WrapExtended(w4)[i] == w4[i];
      assert WrapExtended(z)[i] == z[i] && WrapExtended(z2)[i] == z2[i] && WrapExtended(t)[i] == t[i];
      assert WrapExtended(h1)[i] == h1[i] && WrapExtended(h2)[i] == h2[i];
      WrapExtendedRotates(z, i);
      WrapExtendedRotates(z2, i);
      WrapExtendedRotates(t, i);
      WrapExtendedRotates(h1, i);
    }
    assert r.value == cyclic;
  }

  // ---------------------------------------------------------------------
  // Division by the vanishing polynomial

  /** The first index in [from, n) whose value has no inverse, if any. */
  function FirstNonInvertible<F>(ops: FieldOps<F>, vh: seq<F>, from: nat, n: nat): (r: Option<nat>)
    requires n <= |vh|
    ensures r.Some? ==> from <= r.value < n && ops.inverse(vh[r.value]).None?
    ensures r.Some? ==> forall j :: from <= j < r.value ==> ops.inverse(vh[j]).Some?
    ensures r.None? ==> forall j :: from <= j < n ==> ops.inverse(vh[j]).Some?
    decreases n - from
  {
    if from >= n then None
    else if ops.inverse(vh[from]).None? then Some(from)
    else FirstNonInvertible(ops, vh, from + 1, n)
  }

  /** The quotient evaluations: at each of the n points, the sum of the gate
      and permutation values times the inverse of the vanishing polynomial's
      value; the prover panics at the first point where that inverse does not
      exist. */
  function DivideByVanishing<F>(ops: FieldOps<F>, gate: seq<F>, perm: seq<F>, vh: seq<F>, n: nat): (r: Outcome<seq<F>>)
    requires |gate| >= n && |perm| >= n && |vh| >= n
    ensures !r.Err?
    ensures r.Panic? <==> exists j :: 0 <= j < n && ops.inverse(vh[j]).None?
    ensures r.Panic? ==> r.index < n && ops.inverse(vh[r.index]).None?
    ensures r.Panic? ==> forall j :: 0 <= j < r.index ==> ops.inverse(vh[j]).Some?
    ensures r.Ok? ==> |r.value| == n
  {
    match FirstNonInvertible(ops, vh, 0, n)
    case Some(j) => Panic(j)
    case None =>
      Ok(seq(n, i requires 0 <= i < n =>
        ops.mul(ops.add(gate[i], perm[i]), ops.inverse(vh[i]).value)))
  }

  /** The division is exact where it succeeds, and it succeeds exactly when
      the vanishing polynomial is non-zero at every point. */
  lemma QuotientTimesVanishing<F(!new)>(ops: FieldOps<F>, gate: seq<F>, perm: seq<F>, vh: seq<F>, n: nat)
    requires FieldLaws(ops)
    requires |gate| >= n && |perm| >= n && |vh| >= n
    ensures DivideByVanishing(ops, gate, perm, vh, n).Ok? <==> forall j :: 0 <= j < n ==> vh[j] != ops.zero
    ensures DivideByVanishing(ops, gate, perm, vh, n).Panic? ==>
              vh[DivideByVanishing(ops, gate, perm, vh, n).index] == ops.zero
    ensures DivideByVanishing(ops, gate, perm, vh, n).Ok? ==>
              forall i :: 0 <= i < n ==>
                ops.mul(DivideByVanishing(ops, gate, perm, vh, n).value[i], vh[i])
                == ops.add(gate[i], perm[i])
  {
    var r := DivideByVanishing(ops, gate, perm, vh, n);
    if r.Ok? {
      forall i | 0 <= i < n
        ensures ops.mul(r.value[i], vh[i]) == ops.add(gate[i], perm[i])
      {
        DivideThenMultiply(ops, ops.add(gate[i], perm[i]), vh[i]);
      }
    }
  }

  /** The interpolated quotient polynomial q (the coset inverse transform of
      the pointwise quotient, trailing zeros removed) satisfies q(g*w^i) * vh[i] == gate[i] + perm[i]
      at every coset point, when the coset transforms round-trip and evaluate
      at those points. */
  lemma QuotientPolyTimesVanishing<F(!new)>(
    ops: FieldOps<F>, tr: Transforms<F>, gate: seq<F>, perm: seq<F>, vh: seq<F>, n: nat, g: F, w: F)
    requires FieldLaws(ops) && ValidTransforms(tr) && CosetFftRoundTrip(tr)
    requires CosetFftEvaluatesAt(ops, tr, n, g, w)
    requires |gate| >= n && |perm| >= n && |vh| >= n
    requires DivideByVanishing(ops, gate, perm, vh, n).Ok?
    ensures forall i :: 0 <= i < n ==>
              ops.mul(PolyEval(ops, Trim(ops, tr.cosetIfft(n, DivideByVanishing(ops, gate, perm, vh, n).value)),
                               ops.mul(g, Pow(ops, w, i))),
                      vh[i])
              == ops.add(gate[i], perm[i])
  {
    var q := DivideByVanishing(ops, gate, perm, vh, n).value;
    var coeffs := tr.cosetIfft(n, q);
    QuotientTimesVanishing(ops, gate, perm, vh, n);
    assert tr.cosetFft(n, coeffs) == q;
    forall i | 0 <= i < n
      ensures ops.mul(PolyEval(ops, Trim(ops, coeffs), ops.mul(g, Pow(ops, w, i))), vh[i])
           == ops.add(gate[i], perm[i])
    {
      var x := ops.mul(g, Pow(ops, w, i));
      assert tr.cosetFft(n, coeffs)[i] == PolyEval(ops, coeffs, x);
      PolyEvalTrim(ops, coeffs, x);
      assert ops.mul(q[i], vh[i]) == ops.add(gate[i], perm[i]);
    }
  }

  // ---------------------------------------------------------------------
  // The whole step

  /** The gate constraints of the inputs with cyclic next-row reads. */
  function GateReference<F(!new)>(
    ops: FieldOps<F>, tr: Transforms<F>, domain: Domain, ch: Challenges<F>,
    pk: ProverKey<F>, gates: GateFamilies<F>, polys: Polys<F>): seq<F>
    requires ValidTransforms(tr) && CoversPoints(pk, 4 * domain.Size())
  {
    var n := 4 * domain.Size();
    GateConstraintsCyclic(ops, pk, gates, ch,
      tr.cosetFft(n, polys.wl), tr.cosetFft(n, polys.wr), tr.cosetFft(n, polys.wo),
      tr.cosetFft(n, polys.w4), tr.cosetFft(n, polys.publicInputs))
  }

  /** The permutation checks of the inputs with cyclic next-row reads. */
  function PermutationReference<F(==,!new)>(
    ops: FieldOps<F>, tr: Transforms<F>, domain: Domain, ch: Challenges<F>,
    pk: ProverKey<F>, polys: Polys<F>): seq<F>
    requires ValidTransforms(tr)
  {
    var n := 4 * domain.Size();
    PermutationChecksCyclic(pk, ch,
      tr.cosetFft(n, polys.wl), tr.cosetFft(n, polys.wr), tr.cosetFft(n, polys.wo),
      tr.cosetFft(n, polys.w4), tr.cosetFft(n, polys.z), tr.cosetFft(n, polys.z2),
      tr.cosetFft(n, polys.t), tr.cosetFft(n, polys.h1), tr.cosetFft(n, polys.h2),
      tr.cosetFft(n, FirstLagrangeCoeffs(ops, tr, domain, ops.mul(ch.alpha, ch.alpha))))
  }

  /** The quotient polynomial. It fails with the domain error exactly when
      the 4n domain does not fit the field's two-adicity; it panics at the
      first coset point where the vanishing polynomial has no inverse;
      otherwise its coefficients are the coset inverse transform of the
      pointwise quotient of the gate and permutation values (with next-row
      values read cyclically) by the vanishing polynomial, without trailing
      zeros. The prover key is read only once the 4n domain exists. */
  method Compute<F(==,!new)>(
    ops: FieldOps<F>, tr: Transforms<F>, domain: Domain, pk: ProverKey<F>,
    gates: GateFamilies<F>, polys: Polys<F>, ch: Challenges<F>) returns (r: Outcome<seq<F>>)
    requires ValidTransforms(tr)
    requires domain.logSize + 2 <= ops.twoAdicity ==> CoversPoints(pk, 4 * domain.Size())
    ensures r.Err? <==> ops.twoAdicity < domain.logSize + 2
    ensures r.Err? ==> r.error == InvalidEvalDomainSize(TrailingZeros(4 * domain.Size()), ops.twoAdicity)
    ensures r.Panic? <==>
              domain.logSize + 2 <= ops.twoAdicity &&
              exists j :: 0 <= j < 4 * domain.Size() && ops.inverse(pk.vHCoset4n[j]).None?
    ensures r.Panic? ==>
              r.index < 4 * domain.Size() && ops.inverse(pk.vHCoset4n[r.index]).None? &&
              forall j :: 0 <= j < r.index ==> ops.inverse(pk.vHCoset4n[j]).Some?
    ensures r.Ok? ==>
              var q := DivideByVanishing(ops, GateReference(ops, tr, domain, ch, pk, gates, polys),
                                         PermutationReference(ops, tr, domain, ch, pk, polys),
                                         pk.vHCoset4n, 4 * domain.Size());
              q.Ok? && r.value == Trim(ops, tr.cosetIfft(4 * domain.Size(), q.value))
  {
    TrailingZerosOfPow2(domain.logSize + 2);
    assert 4 * domain.Size() == Pow2(domain.logSize + 2);
    var domain4n :- Domain4n(ops, domain);
    var n := domain4n.Size();

    var zEval4n := ExtendedCosetEvals(tr, n, polys.z);
    var wlEval4n := ExtendedCosetEvals(tr, n, polys.wl);
    var z2Eval4n := ExtendedCosetEvals(tr, n, polys.z2);
    var wrEval4n := ExtendedCosetEvals(tr, n, polys.wr);
    var woEval4n := tr.cosetFft(n, polys.wo);
    var w4Eval4n := ExtendedCosetEvals(tr, n, polys.w4);
    var fEval4n := tr.cosetFft(n, polys.f);
    var tEval4n := ExtendedCosetEvals(tr, n, polys.t);
    var h1Eval4n := ExtendedCosetEvals(tr, n, polys.h1);
    var h2Eval4n := ExtendedCosetEvals(tr, n, polys.h2);

    // Both helpers rebuild the 4n domain, which has just succeeded, so the
    // errors they would propagate cannot arise here.
    GateConstraintsReadNextRow(ops, tr, domain, ch, pk, gates,
      tr.cosetFft(n, polys.wl), tr.cosetFft(n, polys.wr), woEval4n, tr.cosetFft(n, polys.w4),
      polys.publicInputs, fEval4n);
    var gateConstraints := GateConstraintSatisfiability(ops, tr, domain, ch, pk, gates,
      wlEval4n, wrEval4n, woEval4n, w4Eval4n, polys.publicInputs, fEval4n).value;

    PermutationChecksReadNextRow(ops, tr, domain, pk,
      tr.cosetFft(n, polys.wl), tr.cosetFft(n, polys.wr), woEval4n, tr.cosetFft(n, polys.w4),
      tr.cosetFft(n, polys.z), tr.cosetFft(n, polys.z2), tr.cosetFft(n, polys.t),
      tr.cosetFft(n, polys.h1), tr.cosetFft(n, polys.h2), ch);
    var permutation := PermutationChecks(ops, tr, domain, pk,
      wlEval4n, wrEval4n, woEval4n, w4Eval4n,
      zEval4n, z2Eval4n, tEval4n, h1Eval4n, h2Eval4n, ch).value;

    var quotient :- DivideByVanishing(ops, gateConstraints, permutation, pk.vHCoset4n, n);
    r := Ok(Trim(ops, tr.cosetIfft(n, quotient)));
  }
}
