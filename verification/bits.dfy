/** Fixed-width little-endian bit decomposition of a scalar, the shape the
    signature-verification gadget consumes for the signature's `s`. */
module Bits {

  function Pow2(k: nat): (r: nat)
    ensures r >= 1
  {
    if k == 0 then 1 else 2 * Pow2(k - 1)
  }

  /** The `w` least significant bits of `s`, least significant first. */
  function ToBitsLe(s: nat, w: nat): (bits: seq<bool>)
    ensures |bits| == w
  {
    if w == 0 then [] else [s % 2 == 1] + ToBitsLe(s / 2, w - 1)
  }

  /** The number a little-endian bit sequence denotes: the sum of
      `2^k` over the positions `k` that hold `true`. */
  function FromBitsLe(bits: seq<bool>): nat
  {
    if |bits| == 0 then 0 else (if bits[0] then 1 else 0) + 2 * FromBitsLe(bits[1..])
  }

  /** `w` bits denote a number below `2^w`. */
  lemma {:induction false} FromBitsLeBound(bits: seq<bool>)
    ensures FromBitsLe(bits) < Pow2(|bits|)
  {
    if |bits| > 0 {
      FromBitsLeBound(bits[1..]);
    }
  }

  /** Decomposing a scalar that fits in `w` bits and reading the bits back
      gives the scalar. */
  lemma {:induction false} FromToBitsLe(s: nat, w: nat)
    requires s < Pow2(w)
    ensures FromBitsLe(ToBitsLe(s, w)) == s
  {
    if w > 0 {
      var bits := ToBitsLe(s, w);
      assert bits[1..] == ToBitsLe(s / 2, w - 1);
      FromToBitsLe(s / 2, w - 1);
    }
  }

  /** Reading a bit sequence and decomposing the number at the same width
      gives the bit sequence back. */
  lemma {:induction false} ToFromBitsLe(bits: seq<bool>)
    ensures ToBitsLe(FromBitsLe(bits), |bits|) == bits
  {
    if |bits| > 0 {
      var n := FromBitsLe(bits);
      var b := if bits[0] then 1 else 0;
      assert n % 2 == b && n / 2 == FromBitsLe(bits[1..]);
      ToFromBitsLe(bits[1..]);
    }
  }

  /** Bit `k` of the decomposition is bit `k` of the scalar's binary expansion. */
  lemma {:induction false} ToBitsLeAt(s: nat, w: nat, k: nat)
    requires k < w
    ensures ToBitsLe(s, w)[k] == ((s / Pow2(k)) % 2 == 1)
  {
    if k > 0 {
      ToBitsLeAt(s / 2, w - 1, k - 1);
      DivDiv(s, Pow2(k - 1));
    }
  }

  lemma DivDiv(s: nat, m: nat)
    requires m >= 1
    ensures s / 2 / m == s / (2 * m)
  {
    var h := s / 2;
    var q := h / m;
    var r := h % m;
    assert h == q * m + r;
    assert s == 2 * h + s % 2;
    assert s == q * (2 * m) + (2 * r + s % 2) by {
      assert 2 * (q * m) == q * (2 * m);
    }
    DivUnique(s, 2 * m, q, 2 * r + s % 2);
  }

  /** Quotient and remainder are determined by the division equation. */
  lemma DivUnique(x: int, d: int, q: int, r: int)
    requires d > 0 && 0 <= r < d && x == q * d + r
    ensures x / d == q
  {
    var q' := x / d;
    var r' := x % d;
    assert q' * d + r' == q * d + r;
    if q' > q {
      assert (q' - q) * d == q' * d - q * d;
      MulAtLeast(q' - q, d);
    } else if q' < q {
      assert (q - q') * d == q * d - q' * d;
      MulAtLeast(q - q', d);
    }
  }

  lemma MulAtLeast(k: int, d: int)
    requires k >= 1 && d > 0
    ensures k * d >= d
  {
    assert k * d == (k - 1) * d + d;
  }

  /** The zero scalar decomposes into `w` false bits. */
  lemma {:induction false} ToBitsLeZero(w: nat)
    ensures ToBitsLe(0, w) == seq(w, _ => false)
  {
    if w > 0 {
      ToBitsLeZero(w - 1);
    }
  }
}
