/** The external inputs of one folding step: a batch of signature entries in
    native form (`ExtInp`, `VecExtInp`) and in circuit form (`ExtInpVar`,
    `VecExtInpVar`), the default values that fix the circuit's shape before
    real witnesses exist, and the allocation that turns the former into the
    latter.

    A circuit variable is modelled by the value it is assigned; whether it is
    allocated as a witness or as a constant does not change that value. */
module ExtInputs {
  import opened Wrappers
  import opened Field
  import opened Curve
  import opened Bits

  /** An EdDSA public key: one curve point. */
  datatype PublicKey = PublicKey(point: Point)

  /** An EdDSA signature: the commitment point `r` and the scalar `s`, an
      element of the curve's scalar field. */
  datatype Signature = Signature(r: Point, s: nat)

  /** One native entry: a message, the key that signed it and the signature. */
  datatype ExtInp = ExtInp(msg: Fp, pk: PublicKey, sig: Signature)

  /** The native batch handed to one step. */
  datatype VecExtInp = VecExtInp(entries: seq<ExtInp>)

  /** One entry in circuit form; `sigS` is the little-endian bit
      decomposition of the signature's scalar. */
  datatype ExtInpVar = ExtInpVar(msg: Fp, pk: Point, sigR: Point, sigS: seq<bool>)

  /** The batch in circuit form. */
  datatype VecExtInpVar = VecExtInpVar(entries: seq<ExtInpVar>)

  /** Width of the placeholder `sigS` of a default circuit entry. */
  const DefaultSigSBits: nat := 253

  /** Why allocating a batch fails. `ClosureFailed(error)`: the closure that
      supplies the native value failed with `error`, which is passed on
      unchanged. `ScalarTooWide(index)`: the scalar of entry `index` (the
      first such entry) does not fit the decomposition width. */
  datatype AllocError<+E> = ClosureFailed(error: E) | ScalarTooWide(index: nat)

  /** The identity entry: message 0, identity public key, signature
      (identity, 0). It is a placeholder, not a valid signature. */
  function DefaultExtInp(): (e: ExtInp)
    ensures e.msg == 0 && e.pk.point == Identity
    ensures e.sig.r == Identity && e.sig.s == 0
  {
    ExtInp(Zero, PublicKey(Identity), Signature(Identity, 0))
  }

  /** The default native batch: `sigsPerStep` identity entries. */
  function DefaultVecExtInp(sigsPerStep: nat): (b: VecExtInp)
    ensures |b.entries| == sigsPerStep
    ensures forall k :: 0 <= k < sigsPerStep ==> b.entries[k] == DefaultExtInp()
  {
    VecExtInp(seq(sigsPerStep, _ => DefaultExtInp()))
  }

  /** The default circuit entry: zero message, identity points and
      `DefaultSigSBits` false bits. */
  function DefaultExtInpVar(): (e: ExtInpVar)
    ensures e.msg == 0 && e.pk == Identity && e.sigR == Identity
    ensures |e.sigS| == DefaultSigSBits
    ensures forall j :: 0 <= j < |e.sigS| ==> !e.sigS[j]
  {
    ExtInpVar(Zero, Identity, Identity, seq(DefaultSigSBits, _ => false))
  }

  /** The default circuit batch: `sigsPerStep` default circuit entries. */
  function DefaultVecExtInpVar(sigsPerStep: nat): (b: VecExtInpVar)
    ensures |b.entries| == sigsPerStep
    ensures forall k :: 0 <= k < sigsPerStep ==> b.entries[k] == DefaultExtInpVar()
  {
    VecExtInpVar(seq(sigsPerStep, _ => DefaultExtInpVar()))
  }

  /** Every entry of the default native batch has message 0, identity key,
      and signature (identity, 0), and there are exactly `sigsPerStep` of them. */
  lemma DefaultVecExtInpShape(sigsPerStep: nat)
    ensures |DefaultVecExtInp(sigsPerStep).entries| == sigsPerStep
    ensures forall k :: 0 <= k < sigsPerStep ==>
      var e := DefaultVecExtInp(sigsPerStep).entries[k];
      e.msg == 0 && e.pk.point == Identity && e.sig.r == Identity && e.sig.s == 0
  {
  }

  /** Every entry of the default circuit batch has a `sigS` of
      `DefaultSigSBits` false bits, which denotes the scalar 0, and there are
      exactly `sigsPerStep` entries. */
  lemma DefaultVecExtInpVarShape(sigsPerStep: nat)
    ensures |DefaultVecExtInpVar(sigsPerStep).entries| == sigsPerStep
    ensures forall k :: 0 <= k < sigsPerStep ==>
      var e := DefaultVecExtInpVar(sigsPerStep).entries[k];
      && e.msg == 0 && e.pk == Identity && e.sigR == Identity
      && |e.sigS| == DefaultSigSBits
      && (forall j :: 0 <= j < |e.sigS| ==> !e.sigS[j])
      && FromBitsLe(e.sigS) == 0
  {
    var e := DefaultExtInpVar();
    ToFromBitsLe(e.sigS);
    ToBitsLeZero(DefaultSigSBits);
    FromToBitsLe(0, DefaultSigSBits);
  }

  /** Allocates one entry with a `w`-bit scalar decomposition. */
  function AllocateEntry(e: ExtInp, w: nat): (v: ExtInpVar)
    ensures v.msg == e.msg && v.pk == e.pk.point && v.sigR == e.sig.r
    ensures |v.sigS| == w
    ensures e.sig.s < Pow2(w) ==> FromBitsLe(v.sigS) == e.sig.s
  {
    var v := ExtInpVar(e.msg, e.pk.point, e.sig.r, ToBitsLe(e.sig.s, w));
    if e.sig.s < Pow2(w) then FromToBitsLe(e.sig.s, w); v else v
  }

  /** Every scalar of `es` fits in `w` bits. */
  predicate ScalarsFit(es: seq<ExtInp>, w: nat) {
    forall k :: 0 <= k < |es| ==> es[k].sig.s < Pow2(w)
  }

  /** Allocates the entries one after the other, in order, stopping at the
      first entry whose scalar does not fit; the error is that entry's
      index. */
  function AllocateEntries(es: seq<ExtInp>, w: nat): (r: Result<seq<ExtInpVar>, nat>)
    ensures r.Success? <==> ScalarsFit(es, w)
    ensures r.Success? ==> |r.value| == |es|
    ensures r.Success? ==> forall k :: 0 <= k < |es| ==> r.value[k] == AllocateEntry(es[k], w)
    ensures r.Failure? ==> var i := r.error;
      i < |es| && es[i].sig.s >= Pow2(w) && ScalarsFit(es[..i], w)
    decreases |es|
  {
    if |es| == 0 then Success([])
    else if es[0].sig.s >= Pow2(w) then Failure(0)
    else
      match AllocateEntries(es[1..], w)
      case Success(vs) =>
        var v := AllocateEntry(es[0], w);
        assert forall k :: 1 <= k < |es| ==> es[k] == es[1..][k - 1];
        Success([v] + vs)
      case Failure(j) =>
        assert es[..j + 1] == [es[0]] + es[1..][..j];
        Failure(j + 1)
  }

  /** `AllocVar::new_variable` for a batch: `value` is what the value closure
      returns, the batch or the closure's own error, and `w` the width of the
      scalar decomposition. */
  function NewVariable<E>(value: Result<VecExtInp, E>, w: nat): (r: Result<VecExtInpVar, AllocError<E>>)
    ensures value.Failure? ==> r == Failure(ClosureFailed(value.error))
    ensures value.Success? ==> (r.Success? <==> ScalarsFit(value.value.entries, w))
    ensures value.Success? && r.Success? ==> |r.value.entries| == |value.value.entries|
    ensures value.Success? && r.Success? ==> forall k :: 0 <= k < |r.value.entries| ==>
      r.value.entries[k] == AllocateEntry(value.value.entries[k], w)
    ensures value.Success? && r.Failure? ==> r.error.ScalarTooWide?
    ensures value.Success? && r.Failure? && r.error.ScalarTooWide? ==>
      var i := r.error.index; var es := value.value.entries;
      i < |es| && es[i].sig.s >= Pow2(w) && ScalarsFit(es[..i], w)
  {
    match value
    case Failure(e) => Failure(ClosureFailed(e))
    case Success(batch) =>
      match AllocateEntries(batch.entries, w)
      case Success(vs) => Success(VecExtInpVar(vs))
      case Failure(i) => Failure(ScalarTooWide(i))
  }

  /** Allocating the default native batch never fails, and it yields the
      default circuit batch exactly when the decomposition width is the
      placeholder width (or the batch is empty). */
  lemma AllocateDefault<E>(sigsPerStep: nat, w: nat)
    ensures NewVariable<E>(Success(DefaultVecExtInp(sigsPerStep)), w).Success?
    ensures NewVariable<E>(Success(DefaultVecExtInp(sigsPerStep)), w) == Success(DefaultVecExtInpVar(sigsPerStep))
      <==> sigsPerStep == 0 || w == DefaultSigSBits
  {
    var es := DefaultVecExtInp(sigsPerStep).entries;
    assert ScalarsFit(es, w);
    var r := NewVariable<E>(Success(DefaultVecExtInp(sigsPerStep)), w);
    var d := DefaultVecExtInpVar(sigsPerStep);
    if sigsPerStep > 0 && w != DefaultSigSBits {
      assert |r.value.entries[0].sigS| == w;
      assert |d.entries[0].sigS| == DefaultSigSBits;
    } else if sigsPerStep > 0 {
      AllocateDefaultEntries(sigsPerStep, w);
    }
  }

  lemma AllocateDefaultEntries(sigsPerStep: nat, w: nat)
    requires w == DefaultSigSBits
    ensures AllocateEntries(DefaultVecExtInp(sigsPerStep).entries, w)
      == Success(DefaultVecExtInpVar(sigsPerStep).entries)
  {
    var es := DefaultVecExtInp(sigsPerStep).entries;
    assert ScalarsFit(es, w);
    var vs := AllocateEntries(es, w).value;
    var ds := DefaultVecExtInpVar(sigsPerStep).entries;
    AllocateDefaultEntry();
    forall k | 0 <= k < sigsPerStep
      ensures vs[k] == ds[k]
    {
      assert vs[k] == AllocateEntry(es[k], w);
    }
    assert vs == ds;
  }

  /** At the placeholder width the identity entry allocates to the default
      circuit entry. */
  lemma AllocateDefaultEntry()
    ensures AllocateEntry(DefaultExtInp(), DefaultSigSBits) == DefaultExtInpVar()
  {
    ToBitsLeZero(DefaultSigSBits);
  }
}
