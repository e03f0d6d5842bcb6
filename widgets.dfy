/** The values the quotient step hands to the per-gate evaluators, and the
    parts of the prover key it reads. The evaluators themselves (the plain
    arithmetic gate, range, logic, fixed-base scalar multiplication, curve
    addition and the permutation argument) are not modelled: they are
    function values, so every result below holds whatever they compute. */
module Widgets {

  /** The four wire values of one row. */
  datatype WitnessValues<F> = WitnessValues(aVal: F, bVal: F, cVal: F, dVal: F)

  /** The named auxiliary evaluations given to every special gate: the next
      row's left, right and fourth wire values and the row's q_l, q_r, q_c
      selector values. */
  datatype CustomEvaluations<F> = CustomEvaluations(
    aNextEval: F,
    bNextEval: F,
    dNextEval: F,
    qLEval: F,
    qREval: F,
    qCEval: F)

  /** The arguments of the permutation argument's per-point quotient term,
      in the order the prover passes them. */
  datatype PermutationValues<F> = PermutationValues(
    wit: WitnessValues<F>,
    z: F, zNext: F,
    z2: F, z2Next: F,
    t: F, tNext: F,
    h1: F, h1Next: F,
    h2: F,
    alpha: F,
    l1AlphaSq: F,
    l1AlphaFive: F,
    beta: F, gamma: F, delta: F, epsilon: F)

  /** A special gate family's quotient term: given the family's selector value
      at the point, its challenge, the row's witness values and the custom
      evaluations, its contribution. */
  type GateTerm<!F> = (F, F, WitnessValues<F>, CustomEvaluations<F>) -> F

  datatype GateFamilies<!F> = GateFamilies(
    range: GateTerm<F>,
    logic: GateTerm<F>,
    fixedBaseScalarMul: GateTerm<F>,
    curveAddition: GateTerm<F>)

  /** The prover key, as far as the quotient step reads it: selector
      evaluations over the 4n coset, the vanishing polynomial's evaluations
      there, and the arithmetic and permutation widgets (which read their own
      selectors at the point index they are given). */
  datatype ProverKey<!F> = ProverKey(
    qL: seq<F>,
    qR: seq<F>,
    qC: seq<F>,
    rangeSelector: seq<F>,
    logicSelector: seq<F>,
    fixedGroupAddSelector: seq<F>,
    variableGroupAddSelector: seq<F>,
    vHCoset4n: seq<F>,
    arithmetic: (nat, WitnessValues<F>) -> F,
    permutation: (nat, PermutationValues<F>) -> F)

  /** Every evaluation vector of the key that is indexed by point has at
      least n entries. */
  predicate CoversPoints<F>(pk: ProverKey<F>, n: nat)
  {
    && |pk.qL| >= n && |pk.qR| >= n && |pk.qC| >= n
    && |pk.rangeSelector| >= n && |pk.logicSelector| >= n
    && |pk.fixedGroupAddSelector| >= n && |pk.variableGroupAddSelector| >= n
    && |pk.vHCoset4n| >= n
  }
}
