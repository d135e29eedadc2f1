/** `FoldSigsStepCircuit`: the per-step relation folded by the IVC engine.

    From the running count `z[0]` and a batch of signature entries, the step
    verifies the first `sigsPerStep` entries in order. For each one it
    hard-enforces that the gadget's boolean output is true, then adds one to
    the count. The next state is the one-element vector holding the count.

    The EdDSA verification gadget is a parameter, `gadget(config, pk, r,
    sBits, msg)`, standing for the wire it outputs. An enforced wire that is
    false does not stop synthesis. It leaves the constraint system
    unsatisfiable. `GenerateStepConstraints` therefore returns the next state
    together with the enforced wires, in emission order. `Step` is the
    relation's outcome: the next state if the system is satisfiable, `None`
    otherwise. */
module FCircuit {
  import opened Wrappers
  import opened Field
  import opened Curve
  import opened ExtInputs

  /** The signature-verification gadget: configuration, public key,
      signature point, signature scalar bits, message. */
  type Gadget<!Cfg> = (Cfg, Point, Point, seq<bool>, Fp) -> bool

  /** A step circuit: the batch size it was built for and the gadget's
      (Poseidon) configuration. */
  datatype FoldSigsStepCircuit<Cfg> = FoldSigsStepCircuit(sigsPerStep: nat, config: Cfg)

  /** Construction errors of the folding frontend. Construction of this
      circuit never produces one. */
  datatype ConstructionError = InvalidConfig

  /** Builds the circuit from its gadget configuration. */
  function New<Cfg>(config: Cfg, sigsPerStep: nat): (r: Result<FoldSigsStepCircuit<Cfg>, ConstructionError>)
    ensures r.Success?
    ensures r.value.config == config && r.value.sigsPerStep == sigsPerStep
  {
    Success(FoldSigsStepCircuit(sigsPerStep, config))
  }

  /** Length of the state vector: one running count, whatever the batch
      size and configuration. */
  function StateLen<Cfg>(c: FoldSigsStepCircuit<Cfg>): (n: nat)
    ensures n == 1
  {
    1
  }

  /** The gadget's verdict on one circuit entry. */
  predicate EntryVerifies<Cfg>(gadget: Gadget<Cfg>, config: Cfg, e: ExtInpVar) {
    gadget(config, e.pk, e.sigR, e.sigS, e.msg)
  }

  /** The gadget accepts each of the first `n` entries. */
  predicate AllVerify<Cfg>(gadget: Gadget<Cfg>, config: Cfg, es: seq<ExtInpVar>, n: nat)
    requires n <= |es|
  {
    forall k :: 0 <= k < n ==> EntryVerifies(gadget, config, es[k])
  }

  /** What synthesising one step leaves behind: the next state and the
      wires enforced to be true, in the order they were enforced. */
  datatype Synthesis = Synthesis(z: seq<Fp>, enforced: seq<bool>)

  /** The constraint system of a synthesis is satisfiable: every enforced
      wire is true. */
  predicate Satisfied(s: Synthesis) {
    forall k :: 0 <= k < |s.enforced| ==> s.enforced[k]
  }

  /** The body of the step's loop, from the current count over the entries
      still to process: verify an entry, enforce its wire, increment. */
  function VerifyLoop<Cfg>(gadget: Gadget<Cfg>, config: Cfg, es: seq<ExtInpVar>, count: Fp)
    : (r: (Fp, seq<bool>))
    ensures r.0 == Reduce(count + |es|)
    ensures |r.1| == |es|
    ensures forall k :: 0 <= k < |es| ==> r.1[k] == EntryVerifies(gadget, config, es[k])
    decreases |es|
  {
    if |es| == 0 then (count, [])
    else
      var wire := EntryVerifies(gadget, config, es[0]);
      var rest := VerifyLoop(gadget, config, es[1..], Add(count, One));
      ModAddLeft(count + 1, |es| - 1);
      (rest.0, [wire] + rest.1)
  }

  /** `generate_step_constraints`: `i` is the step index, which the relation
      ignores; `z` the current state; `ext` the batch in circuit form. */
  function GenerateStepConstraints<Cfg>(
    c: FoldSigsStepCircuit<Cfg>, gadget: Gadget<Cfg>, i: nat, z: seq<Fp>, ext: VecExtInpVar)
    : (s: Synthesis)
    requires |z| >= 1
    requires |ext.entries| >= c.sigsPerStep
    ensures |s.z| == StateLen(c) == 1
    ensures s.z[0] == Reduce(z[0] + c.sigsPerStep)
    ensures |s.enforced| == c.sigsPerStep
    ensures forall k :: 0 <= k < c.sigsPerStep ==>
      s.enforced[k] == EntryVerifies(gadget, c.config, ext.entries[k])
  {
    var r := VerifyLoop(gadget, c.config, ext.entries[..c.sigsPerStep], z[0]);
    Synthesis([r.0], r.1)
  }

  /** The step relation's outcome: the next state when the step's
      constraint system is satisfiable, `None` when it is not. */
  function Step<Cfg>(c: FoldSigsStepCircuit<Cfg>, gadget: Gadget<Cfg>, i: nat, z: seq<Fp>, ext: VecExtInpVar)
    : (r: Option<seq<Fp>>)
    requires |z| >= 1
    requires |ext.entries| >= c.sigsPerStep
    ensures r.Some? <==> AllVerify(gadget, c.config, ext.entries, c.sigsPerStep)
    ensures r.Some? ==> r.value == [Reduce(z[0] + c.sigsPerStep)]
  {
    var s := GenerateStepConstraints(c, gadget, i, z, ext);
    if Satisfied(s) then Some(s.z) else None
  }

  /** With every entry verifying, the count grows by the batch size. */
  lemma StepAllValid<Cfg>(c: FoldSigsStepCircuit<Cfg>, gadget: Gadget<Cfg>, i: nat, z: seq<Fp>, ext: VecExtInpVar)
    requires |z| >= 1
    requires |ext.entries| >= c.sigsPerStep
    requires AllVerify(gadget, c.config, ext.entries, c.sigsPerStep)
    ensures Step(c, gadget, i, z, ext) == Some([Reduce(z[0] + c.sigsPerStep)])
  {
  }

  /** One rejected entry among the first `sigsPerStep` makes the step
      unsatisfiable, and the synthesis records it as the `k`-th enforced
      wire. */
  lemma StepOneInvalid<Cfg>(c: FoldSigsStepCircuit<Cfg>, gadget: Gadget<Cfg>, i: nat, z: seq<Fp>, ext: VecExtInpVar, k: nat)
    requires |z| >= 1
    requires |ext.entries| >= c.sigsPerStep
    requires k < c.sigsPerStep && !EntryVerifies(gadget, c.config, ext.entries[k])
    ensures !GenerateStepConstraints(c, gadget, i, z, ext).enforced[k]
    ensures Step(c, gadget, i, z, ext) == None
  {
  }

  /** A circuit with an empty batch is the identity transition. */
  lemma StepEmptyBatch<Cfg>(c: FoldSigsStepCircuit<Cfg>, gadget: Gadget<Cfg>, i: nat, z: seq<Fp>, ext: VecExtInpVar)
    requires |z| >= 1
    requires c.sigsPerStep == 0
    ensures Step(c, gadget, i, z, ext) == Some([z[0]])
  {
  }

  /** The step depends only on `z[0]` and the first `sigsPerStep` entries:
      not on the step index, the rest of the state or later entries. */
  lemma StepLocal<Cfg>(
    c: FoldSigsStepCircuit<Cfg>, gadget: Gadget<Cfg>,
    i: nat, z: seq<Fp>, ext: VecExtInpVar,
    i': nat, z': seq<Fp>, ext': VecExtInpVar)
    requires |z| >= 1 && |z'| >= 1 && z[0] == z'[0]
    requires |ext.entries| >= c.sigsPerStep && |ext'.entries| >= c.sigsPerStep
    requires ext.entries[..c.sigsPerStep] == ext'.entries[..c.sigsPerStep]
    ensures GenerateStepConstraints(c, gadget, i, z, ext) == GenerateStepConstraints(c, gadget, i', z', ext')
    ensures Step(c, gadget, i, z, ext) == Step(c, gadget, i', z', ext')
  {
  }

  /** The repository's own circuit test: ten verifying signatures from the
      state [0] give the state [10] and a satisfiable system. */
  lemma TenSignaturesFromZero<Cfg>(c: FoldSigsStepCircuit<Cfg>, gadget: Gadget<Cfg>, ext: VecExtInpVar)
    requires c.sigsPerStep == 10
    requires |ext.entries| >= 10
    requires AllVerify(gadget, c.config, ext.entries, 10)
    ensures Satisfied(GenerateStepConstraints(c, gadget, 0, [0], ext))
    ensures Step(c, gadget, 0, [0], ext) == Some([10])
  {
  }
}
