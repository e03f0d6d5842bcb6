/** The prime field the prover works over, taken as a capability: the
    operations the quotient step uses, the field's two-adicity, and the laws
    that the proofs rely on. Nothing here fixes a concrete modulus. */
module Field {

  datatype Option<T> = None | Some(value: T)

  /** A field's operations. `inverse` returns `None` exactly for zero (that
      is the law `FieldLaws` states); `twoAdicity` is the largest k such that
      2^k divides the order of the multiplicative group. */
  datatype FieldOps<!F> = FieldOps(
    zero: F,
    one: F,
    add: (F, F) -> F,
    mul: (F, F) -> F,
    inverse: F -> Option<F>,
    twoAdicity: nat)

  /** The laws of a field that the quotient computation depends on:
      multiplication is associative with unit `one`, `zero` is the additive
      unit and absorbs products, and exactly the non-zero elements have an
      inverse. (Commutativity holds in every field but no proof here needs
      it.) */
  ghost predicate FieldLaws<F(!new)>(f: FieldOps<F>)
  {
    && (forall a, b, c :: f.mul(f.mul(a, b), c) == f.mul(a, f.mul(b, c)))
    && (forall a :: f.mul(a, f.one) == a)
    && (forall a :: f.mul(f.one, a) == a)
    && (forall a :: f.add(a, f.zero) == a)
    && (forall a :: f.mul(a, f.zero) == f.zero)
    && (forall a :: f.inverse(a).None? <==> a == f.zero)
    && (forall a :: f.inverse(a).Some? ==> f.mul(f.inverse(a).value, a) == f.one)
  }

  /** x^k by repeated multiplication. */
  function Pow<F>(f: FieldOps<F>, x: F, k: nat): F
    decreases k
  {
    if k == 0 then f.one else f.mul(x, Pow(f, x, k - 1))
  }

  /** The value at x of the polynomial with coefficient vector `coeffs`
      (lowest degree first), by Horner's rule. */
  function PolyEval<F>(f: FieldOps<F>, coeffs: seq<F>, x: F): F
    decreases |coeffs|
  {
    if |coeffs| == 0 then f.zero else f.add(coeffs[0], f.mul(x, PolyEval(f, coeffs[1..], x)))
  }

  /** A coefficient vector with its trailing zeros removed, the normal form
      in which a dense polynomial is kept (`from_coefficients_vec`). */
  function Trim<F(==)>(f: FieldOps<F>, coeffs: seq<F>): (r: seq<F>)
    ensures |r| <= |coeffs| && r == coeffs[..|r|]
    ensures forall j :: |r| <= j < |coeffs| ==> coeffs[j] == f.zero
    ensures |r| > 0 ==> r[|r| - 1] != f.zero
    decreases |coeffs|
  {
    if |coeffs| == 0 then coeffs
    else if coeffs[|coeffs| - 1] == f.zero then Trim(f, coeffs[..|coeffs| - 1])
    else coeffs
  }

  /** Appending a zero coefficient does not change a polynomial's value. */
  lemma {:induction false} PolyEvalZeroTail<F(!new)>(f: FieldOps<F>, coeffs: seq<F>, x: F)
    requires FieldLaws(f)
    ensures PolyEval(f, coeffs + [f.zero], x) == PolyEval(f, coeffs, x)
    decreases |coeffs|
  {
    if |coeffs| == 0 {
      assert ([] + [f.zero])[1..] == [];
    } else {
      assert (coeffs + [f.zero])[1..] == coeffs[1..] + [f.zero];
      PolyEvalZeroTail(f, coeffs[1..], x);
    }
  }

  /** Removing trailing zeros does not change a polynomial's value. */
  lemma {:induction false} PolyEvalTrim<F(!new)>(f: FieldOps<F>, coeffs: seq<F>, x: F)
    requires FieldLaws(f)
    ensures PolyEval(f, Trim(f, coeffs), x) == PolyEval(f, coeffs, x)
    decreases |coeffs|
  {
    if |coeffs| > 0 && coeffs[|coeffs| - 1] == f.zero {
      var init := TrimDropsLast(f, coeffs);
      PolyEvalTrim(f, init, x);
      PolyEvalZeroTail(f, init, x);
    }
  }

  /** A vector ending in zero is its initial part plus that zero, and trims
      like its initial part. */
  lemma TrimDropsLast<F(!new)>(f: FieldOps<F>, coeffs: seq<F>) returns (init: seq<F>)
    requires |coeffs| > 0 && coeffs[|coeffs| - 1] == f.zero
    ensures |init| < |coeffs| && coeffs == init + [f.zero]
    ensures Trim(f, coeffs) == Trim(f, init)
  {
    init := coeffs[..|coeffs| - 1];
    assert coeffs == init + [f.zero];
  }

  /** Regrouping a product of three. */
  lemma MulRegroup<F(!new)>(ops: FieldOps<F>, a: F, b: F, c: F)
    requires FieldLaws(ops)
    ensures ops.mul(a, ops.mul(b, c)) == ops.mul(ops.mul(a, b), c)
  {
  }

  /** Exponents add: x^(a+b) == x^a * x^b. */
  lemma {:induction false} PowAdd<F(!new)>(f: FieldOps<F>, x: F, a: nat, b: nat)
    requires FieldLaws(f)
    ensures Pow(f, x, a + b) == f.mul(Pow(f, x, a), Pow(f, x, b))
  {
    if a != 0 {
      PowAdd(f, x, a - 1, b);
      assert a + b - 1 == (a - 1) + b;
      calc {
        Pow(f, x, a + b);
        f.mul(x, Pow(f, x, (a - 1) + b));
        f.mul(x, f.mul(Pow(f, x, a - 1), Pow(f, x, b)));
        f.mul(f.mul(x, Pow(f, x, a - 1)), Pow(f, x, b));
        f.mul(Pow(f, x, a), Pow(f, x, b));
      }
    }
  }

  /** If x^n == 1, powers of x repeat with period n. */
  lemma PowPeriodic<F(!new)>(f: FieldOps<F>, x: F, n: nat, k: nat)
    requires FieldLaws(f) && Pow(f, x, n) == f.one
    ensures Pow(f, x, n + k) == Pow(f, x, k)
  {
    PowAdd(f, x, n, k);
  }

  /** Multiplying by an inverse and then by the element itself gives back
      the starting value: the step that makes the pointwise quotient exact. */
  lemma DivideThenMultiply<F(!new)>(f: FieldOps<F>, a: F, x: F)
    requires FieldLaws(f) && f.inverse(x).Some?
    ensures f.mul(f.mul(a, f.inverse(x).value), x) == a
  {
    var y := f.inverse(x).value;
    calc {
      f.mul(f.mul(a, y), x);
      f.mul(a, f.mul(y, x));
      f.mul(a, f.one);
      a;
    }
  }
}
