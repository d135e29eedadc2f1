/** The prime field the step circuit is written over.

    The circuit is generic over a prime field `F`; every instantiation in the
    repository uses the scalar field of BN254, which is also the base field of
    the twisted ed_on_bn254 curve whose signatures are checked. Field elements
    are the integers `0 <= x < P`. */
module Field {

  /** The order of the scalar field of BN254. */
  const P: nat := 21888242871839275222246405745257275088548364400416034343698204186575808495617

  type Fp = x: int | 0 <= x < P

  const Zero: Fp := 0
  const One: Fp := 1

  /** The field element an integer denotes: its residue modulo `P`. */
  function Reduce(x: int): Fp {
    x % P
  }

  /** Field addition. */
  function Add(a: Fp, b: Fp): Fp {
    Reduce(a + b)
  }

  /** Reducing the left summand first does not change the residue. */
  lemma ModAddLeft(a: int, b: int)
    ensures Reduce(Reduce(a) + b) == Reduce(a + b)
  {
    var q := a / P;
    assert a == q * P + a % P;
    ModShift(a % P + b, q);
  }

  /** Adding a multiple of `P` does not change the residue. */
  lemma ModShift(x: int, q: int)
    ensures (x + q * P) % P == x % P
  {
  }
}
