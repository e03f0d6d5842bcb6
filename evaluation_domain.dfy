/** Radix-2 evaluation domains (multiplicative subgroups of order 2^k) and the
    transforms over them. The transform kernels are not modelled: they are
    function values, and what is known about them (output length, the
    round-trip law, that they evaluate at the domain's points) is stated as
    predicates that the lemmas take as premises. */
module EvaluationDomain {
  import opened Field

  /** The error the quotient step can return. */
  datatype Error = InvalidEvalDomainSize(logSizeOfGroup: nat, adicity: nat)

  function Pow2(k: nat): (r: nat)
    ensures r >= 1
  {
    if k == 0 then 1 else 2 * Pow2(k - 1)
  }

  lemma {:induction false} Pow2Monotone(j: nat, k: nat)
    requires j <= k
    ensures Pow2(j) <= Pow2(k)
  {
    if j < k {
      Pow2Monotone(j, k - 1);
    }
  }

  /** The exponent of the smallest power of two that is at least n
      (`next_power_of_two`, which maps 0 to 1). */
  function CeilLog2(n: nat): (k: nat)
    ensures n <= Pow2(k)
    ensures k > 0 ==> Pow2(k - 1) < n
    decreases n
  {
    if n <= 1 then 0 else 1 + CeilLog2((n + 1) / 2)
  }

  /** No power of two below 2^CeilLog2(n) reaches n. */
  lemma {:induction false} CeilLog2Least(n: nat, k: nat)
    requires n <= Pow2(k)
    ensures CeilLog2(n) <= k
    decreases n
  {
    if n > 1 {
      assert k != 0;
      CeilLog2Least((n + 1) / 2, k - 1);
    }
  }

  lemma {:induction false} CeilLog2OfPow2(k: nat)
    ensures CeilLog2(Pow2(k)) == k
  {
    CeilLog2Least(Pow2(k), k);
    var c := CeilLog2(Pow2(k));
    if c < k {
      Pow2Monotone(c, k - 1);
    }
  }

  /** What is left of a positive number once every factor 2 is divided out. */
  function OddPart(x: nat): (m: nat)
    requires x > 0
    decreases x
  {
    if x % 2 == 1 then x else OddPart(x / 2)
  }

  /** The number of trailing zero bits of a positive number (`trailing_zeros`):
      the exponent r with x == 2^r * m for an odd m. */
  function TrailingZeros(x: nat): (r: nat)
    requires x > 0
    ensures x == Pow2(r) * OddPart(x)
    ensures OddPart(x) % 2 == 1
    decreases x
  {
    if x % 2 == 1 then 0
    else
      var r := TrailingZeros(x / 2);
      DoubleRegroup(Pow2(r), OddPart(x / 2));
      1 + r
  }

  lemma DoubleRegroup(a: nat, b: nat)
    ensures 2 * (a * b) == (2 * a) * b
  {
  }

  lemma {:induction false} TrailingZerosOfPow2(k: nat)
    ensures TrailingZeros(Pow2(k)) == k
  {
    if k > 0 {
      assert Pow2(k) % 2 == 0;
      assert Pow2(k) / 2 == Pow2(k - 1);
      TrailingZerosOfPow2(k - 1);
    }
  }

  /** A radix-2 domain: the subgroup of order 2^logSize. */
  datatype Domain = Domain(logSize: nat)
  {
    function Size(): nat
    {
      Pow2(logSize)
    }
  }

  /** Building a domain able to host `numCoeffs` coefficients: its size is the
      next power of two, and it exists only when that power's exponent does
      not exceed the field's two-adicity. */
  function NewDomain(numCoeffs: nat, twoAdicity: nat): (r: Option<Domain>)
    ensures r.Some? <==> exists k: nat :: k <= twoAdicity && numCoeffs <= Pow2(k)
    ensures r.Some? ==> numCoeffs <= r.value.Size()
    ensures r.Some? ==> forall k :: numCoeffs <= Pow2(k) ==> r.value.logSize <= k
  {
    var size := Pow2(CeilLog2(numCoeffs));
    var logSizeOfGroup := TrailingZeros(size);
    TrailingZerosOfPow2(CeilLog2(numCoeffs));
    assert forall k :: numCoeffs <= Pow2(k) ==> logSizeOfGroup <= k by {
      forall k | numCoeffs <= Pow2(k) ensures logSizeOfGroup <= k {
        CeilLog2Least(numCoeffs, k);
      }
    }
    assert logSizeOfGroup <= twoAdicity ==> numCoeffs <= Pow2(logSizeOfGroup);
    if logSizeOfGroup > twoAdicity then None else Some(Domain(logSizeOfGroup))
  }

  /** The transform kernels, each given the size of the domain it runs over. */
  datatype Transforms<!F> = Transforms(
    fft: (nat, seq<F>) -> seq<F>,
    ifft: (nat, seq<F>) -> seq<F>,
    cosetFft: (nat, seq<F>) -> seq<F>,
    cosetIfft: (nat, seq<F>) -> seq<F>)

  /** Every transform over a domain of size n returns exactly n values
      (shorter inputs are padded with zeros). */
  ghost predicate ValidTransforms<F(!new)>(tr: Transforms<F>)
  {
    && (forall n: nat, v :: |tr.fft(n, v)| == n)
    && (forall n: nat, v :: |tr.ifft(n, v)| == n)
    && (forall n: nat, v :: |tr.cosetFft(n, v)| == n)
    && (forall n: nat, v :: |tr.cosetIfft(n, v)| == n)
  }

  /** The forward transform undoes the inverse one. */
  ghost predicate FftRoundTrip<F(!new)>(tr: Transforms<F>)
  {
    forall n: nat, v :: |v| == n ==> tr.fft(n, tr.ifft(n, v)) == v
  }

  /** The coset forward transform undoes the coset inverse one. */
  ghost predicate CosetFftRoundTrip<F(!new)>(tr: Transforms<F>)
  {
    forall n: nat, v :: |v| == n ==> tr.cosetFft(n, tr.cosetIfft(n, v)) == v
  }

  /** The size-n forward transform evaluates a polynomial of at most n
      coefficients at w^0, ..., w^(n-1). */
  ghost predicate FftEvaluatesAt<F(!new)>(f: FieldOps<F>, tr: Transforms<F>, n: nat, w: F)
  {
    forall c, j :: |c| <= n && 0 <= j < |tr.fft(n, c)| ==> tr.fft(n, c)[j] == PolyEval(f, c, Pow(f, w, j))
  }

  /** The size-n coset transform evaluates a polynomial of at most n
      coefficients at g*w^0, ..., g*w^(n-1). */
  ghost predicate CosetFftEvaluatesAt<F(!new)>(f: FieldOps<F>, tr: Transforms<F>, n: nat, g: F, w: F)
  {
    forall c, j :: |c| <= n && 0 <= j < |tr.cosetFft(n, c)| ==>
      tr.cosetFft(n, c)[j] == PolyEval(f, c, f.mul(g, Pow(f, w, j)))
  }

  /** The in-place inverse transform of an evaluation buffer whose length is
      the domain size. */
  method IfftInPlace<F(!new)>(tr: Transforms<F>, a: array<F>)
    requires ValidTransforms(tr)
    modifies a
    ensures a[..] == tr.ifft(a.Length, old(a[..]))
  {
    var coeffs := tr.ifft(a.Length, a[..]);
    forall i | 0 <= i < a.Length {
      a[i] := coeffs[i];
    }
  }
}
