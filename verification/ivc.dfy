/** The IVC driver loop: a running instance is initialised with `z0` and
    then advanced once per batch by proving a step. Only the part of the
    folding engine the step circuit determines is modelled. That part is the
    step counter `i` and the state `z`. A step is accepted exactly when its
    batch allocates and its relation is satisfiable. A rejected step leaves
    the running instance where it was, and the driver stops there. */
module Ivc {
  import opened Wrappers
  import opened Field
  import opened ExtInputs
  import opened FCircuit

  /** A running instance: the circuit it folds, the number of steps proved
      so far and the current state. */
  datatype Nova<Cfg> = Nova(circuit: FoldSigsStepCircuit<Cfg>, i: nat, z: seq<Fp>)

  /** Why proving a step fails. The batch is handed to allocation by a
      closure that cannot fail, so its error type is `()`. */
  datatype ProveError = AllocationFailed(err: AllocError<()>) | Unsatisfied

  /** Starts a run at state `z0`, step 0. */
  function Init<Cfg>(circuit: FoldSigsStepCircuit<Cfg>, z0: seq<Fp>): (r: Nova<Cfg>)
    requires |z0| == StateLen(circuit)
    ensures r.i == 0 && r.z == z0 && r.circuit == circuit
  {
    Nova(circuit, 0, z0)
  }

  /** The gadget accepts a native entry once it is allocated at width `w`. */
  predicate NativeVerifies<Cfg>(gadget: Gadget<Cfg>, config: Cfg, w: nat, e: ExtInp) {
    EntryVerifies(gadget, config, AllocateEntry(e, w))
  }

  /** The batch allocates at width `w` and its first `sigsPerStep` entries
      all verify. */
  predicate Accepts<Cfg>(circuit: FoldSigsStepCircuit<Cfg>, gadget: Gadget<Cfg>, w: nat, batch: VecExtInp)
    requires |batch.entries| >= circuit.sigsPerStep
  {
    && ScalarsFit(batch.entries, w)
    && forall k :: 0 <= k < circuit.sigsPerStep ==> NativeVerifies(gadget, circuit.config, w, batch.entries[k])
  }

  /** Proves one step: allocates the batch as witnesses and runs the step
      relation on the current state, with the step counter as step index. */
  function ProveStep<Cfg>(nova: Nova<Cfg>, gadget: Gadget<Cfg>, w: nat, batch: VecExtInp)
    : (r: Result<Nova<Cfg>, ProveError>)
    requires |nova.z| == 1
    requires |batch.entries| >= nova.circuit.sigsPerStep
    ensures r.Success? <==> Accepts(nova.circuit, gadget, w, batch)
    ensures r.Success? ==> r.value == nova.(i := nova.i + 1, z := [Reduce(nova.z[0] + nova.circuit.sigsPerStep)])
  {
    match NewVariable<()>(Success(batch), w)
    case Failure(err) => Failure(AllocationFailed(err))
    case Success(v) =>
      match Step(nova.circuit, gadget, nova.i, nova.z, v)
      case None => Failure(Unsatisfied)
      case Some(z') => Success(nova.(i := nova.i + 1, z := z'))
  }

  /** The outcome of driving a run over a sequence of batches: the last
      instance reached, and the step at which proving failed, if it did. */
  datatype Run<Cfg> = Run(nova: Nova<Cfg>, failedAt: Option<nat>)

  predicate BatchesFit<Cfg>(circuit: FoldSigsStepCircuit<Cfg>, batches: seq<VecExtInp>) {
    forall k :: 0 <= k < |batches| ==> |batches[k].entries| >= circuit.sigsPerStep
  }

  /** How many batches, from the first, are accepted before the first one
      that is not. */
  function LeadingAccepted<Cfg>(circuit: FoldSigsStepCircuit<Cfg>, gadget: Gadget<Cfg>, w: nat, batches: seq<VecExtInp>)
    : (d: nat)
    requires BatchesFit(circuit, batches)
    ensures d <= |batches|
    ensures forall k :: 0 <= k < d ==> Accepts(circuit, gadget, w, batches[k])
    ensures d < |batches| ==> !Accepts(circuit, gadget, w, batches[d])
    decreases |batches|
  {
    if |batches| == 0 || !Accepts(circuit, gadget, w, batches[0]) then 0
    else
      var rest := batches[1..];
      assert forall k :: 0 <= k < |rest| ==> rest[k] == batches[k + 1];
      1 + LeadingAccepted(circuit, gadget, w, rest)
  }

  /** Proves one step per batch, in order, stopping at the first failure.
      The run advances over exactly the leading accepted batches; it
      reports a failure, at the step it stopped on, exactly when some batch
      was rejected.

      Each iteration is a call to `ProveStep` (`DriveProvesEachStep`). The
      body uses its outcome as stated by `ProveStep`'s contract (accepted
      or not, and the instance it advances to) rather than calling it.
      Calling it would let the solver unfold allocation and the step
      relation inside every proof about the loop, which makes those proofs
      far more expensive. */
  function Drive<Cfg>(nova: Nova<Cfg>, gadget: Gadget<Cfg>, w: nat, batches: seq<VecExtInp>)
    : (r: Run<Cfg>)
    requires |nova.z| == 1
    requires BatchesFit(nova.circuit, batches)
    ensures r.nova.circuit == nova.circuit
    ensures r.nova.i == nova.i + LeadingAccepted(nova.circuit, gadget, w, batches)
    ensures r.nova.z == [CountAfter(nova.z[0], r.nova.i - nova.i, nova.circuit.sigsPerStep)]
    ensures r.failedAt == if r.nova.i == nova.i + |batches| then None else Some(r.nova.i)
    decreases |batches|
  {
    if |batches| == 0 then Run(nova, None)
    else
      if !Accepts(nova.circuit, gadget, w, batches[0]) then Run(nova, Some(nova.i))
      else
        var next := nova.(i := nova.i + 1, z := [Reduce(nova.z[0] + nova.circuit.sigsPerStep)]);
        var rest := batches[1..];
        assert forall k :: 0 <= k < |rest| ==> rest[k] == batches[k + 1];
        Drive(next, gadget, w, rest)
  }

  /** Each step of the run is a call to `ProveStep`: a failed proof stops
      the run where it is, a successful one continues from the instance it
      returns. */
  lemma DriveProvesEachStep<Cfg>(nova: Nova<Cfg>, gadget: Gadget<Cfg>, w: nat, batches: seq<VecExtInp>)
    requires |nova.z| == 1
    requires BatchesFit(nova.circuit, batches)
    requires |batches| > 0
    ensures ProveStep(nova, gadget, w, batches[0]).Failure? ==>
      Drive(nova, gadget, w, batches) == Run(nova, Some(nova.i))
    ensures ProveStep(nova, gadget, w, batches[0]).Success? ==>
      && BatchesFit(nova.circuit, batches[1..])
      && Drive(nova, gadget, w, batches) == Drive(ProveStep(nova, gadget, w, batches[0]).value, gadget, w, batches[1..])
  {
    var rest := batches[1..];
    assert forall k :: 0 <= k < |rest| ==> rest[k] == batches[k + 1];
  }

  /** The count after `steps` accepted steps of `n` signatures each,
      one step at a time. */
  function CountAfter(z0: Fp, steps: nat, n: nat): Fp
    decreases steps
  {
    if steps == 0 then z0 else CountAfter(Reduce(z0 + n), steps - 1, n)
  }

  /** The count after `steps` steps is `z0 + steps * n` in the field. */
  lemma {:induction false} CountAfterClosedForm(z0: Fp, steps: nat, n: nat)
    ensures CountAfter(z0, steps, n) == Reduce(z0 + steps * n)
    decreases steps
  {
    if steps > 0 {
      CountAfterClosedForm(Reduce(z0 + n), steps - 1, n);
      ModAddLeft(z0 + n, (steps - 1) * n);
      assert (z0 + n) + (steps - 1) * n == z0 + steps * n;
    }
  }

  /** After the run the count has grown by `sigsPerStep` for each step it
      advanced. */
  lemma DriveCount<Cfg>(nova: Nova<Cfg>, gadget: Gadget<Cfg>, w: nat, batches: seq<VecExtInp>)
    requires |nova.z| == 1
    requires BatchesFit(nova.circuit, batches)
    ensures var r := Drive(nova, gadget, w, batches);
      r.nova.z == [Reduce(nova.z[0] + (r.nova.i - nova.i) * nova.circuit.sigsPerStep)]
  {
    var r := Drive(nova, gadget, w, batches);
    CountAfterClosedForm(nova.z[0], r.nova.i - nova.i, nova.circuit.sigsPerStep);
  }

  /** With every batch accepted the run completes all steps and the count
      has grown by `sigsPerStep` per step. */
  lemma DriveAllAccepted<Cfg>(nova: Nova<Cfg>, gadget: Gadget<Cfg>, w: nat, batches: seq<VecExtInp>)
    requires |nova.z| == 1
    requires BatchesFit(nova.circuit, batches)
    requires forall k :: 0 <= k < |batches| ==> Accepts(nova.circuit, gadget, w, batches[k])
    ensures Drive(nova, gadget, w, batches).failedAt == None
    ensures Drive(nova, gadget, w, batches).nova
      == nova.(i := nova.i + |batches|, z := [Reduce(nova.z[0] + |batches| * nova.circuit.sigsPerStep)])
  {
    var r := Drive(nova, gadget, w, batches);
    assert r.nova.i == nova.i + |batches|;
    DriveCount(nova, gadget, w, batches);
    assert r.nova.i - nova.i == |batches|;
  }

  /** The leading accepted batches are exactly those before the first
      rejected one. */
  lemma LeadingAcceptedStopsAt<Cfg>(circuit: FoldSigsStepCircuit<Cfg>, gadget: Gadget<Cfg>, w: nat, batches: seq<VecExtInp>, k: nat)
    requires BatchesFit(circuit, batches)
    requires k < |batches|
    requires forall j :: 0 <= j < k ==> Accepts(circuit, gadget, w, batches[j])
    requires !Accepts(circuit, gadget, w, batches[k])
    ensures LeadingAccepted(circuit, gadget, w, batches) == k
  {
  }

  /** A batch that is rejected after `k` accepted ones stops the run at
      step `k` with the state after `k` steps. */
  lemma DriveStopsAtFirstRejected<Cfg>(
    nova: Nova<Cfg>, gadget: Gadget<Cfg>, w: nat, batches: seq<VecExtInp>, k: nat)
    requires |nova.z| == 1
    requires BatchesFit(nova.circuit, batches)
    requires k < |batches|
    requires forall j :: 0 <= j < k ==> Accepts(nova.circuit, gadget, w, batches[j])
    requires !Accepts(nova.circuit, gadget, w, batches[k])
    ensures Drive(nova, gadget, w, batches).failedAt == Some(nova.i + k)
    ensures Drive(nova, gadget, w, batches).nova
      == nova.(i := nova.i + k, z := [Reduce(nova.z[0] + k * nova.circuit.sigsPerStep)])
  {
    LeadingAcceptedStopsAt(nova.circuit, gadget, w, batches, k);
    DriveStopsAt(nova, gadget, w, batches, k);
  }

  /** A run that advances `k` steps over more than `k` batches reports a
      failure at step `k` and holds the state after `k` steps. */
  lemma DriveStopsAt<Cfg>(nova: Nova<Cfg>, gadget: Gadget<Cfg>, w: nat, batches: seq<VecExtInp>, k: nat)
    requires |nova.z| == 1
    requires BatchesFit(nova.circuit, batches)
    requires k < |batches| && Drive(nova, gadget, w, batches).nova.i == nova.i + k
    ensures Drive(nova, gadget, w, batches).failedAt == Some(nova.i + k)
    ensures Drive(nova, gadget, w, batches).nova
      == nova.(i := nova.i + k, z := [Reduce(nova.z[0] + k * nova.circuit.sigsPerStep)])
  {
    var r := Drive(nova, gadget, w, batches);
    assert r.nova.i != nova.i + |batches|;
    assert r.failedAt == Some(r.nova.i);
    DriveCount(nova, gadget, w, batches);
    assert r.nova.i - nova.i == k;
  }

  /** The full-flow test: from the state [0], five accepted batches give
      the state [5 * sigsPerStep], that is [50] for ten signatures per batch
      and [250] for fifty. */
  lemma FullFlow<Cfg>(config: Cfg, gadget: Gadget<Cfg>, w: nat, batches: seq<VecExtInp>, sigsPerStep: nat)
    requires sigsPerStep == 10 || sigsPerStep == 50
    requires |batches| == 5
    requires BatchesFit(FoldSigsStepCircuit(sigsPerStep, config), batches)
    requires forall k :: 0 <= k < 5 ==> Accepts(FoldSigsStepCircuit(sigsPerStep, config), gadget, w, batches[k])
    ensures Drive(Init(New(config, sigsPerStep).value, [0]), gadget, w, batches).failedAt == None
    ensures Drive(Init(New(config, sigsPerStep).value, [0]), gadget, w, batches).nova.z
      == if sigsPerStep == 10 then [50] else [250]
  {
    var nova := Init(New(config, sigsPerStep).value, [0]);
    assert nova.circuit == FoldSigsStepCircuit(sigsPerStep, config);
    DriveAllAccepted(nova, gadget, w, batches);
    FiveSteps(sigsPerStep);
  }

  /** Five steps from 0 stay below `P`, so the count is exact. */
  lemma FiveSteps(n: nat)
    requires n == 10 || n == 50
    ensures Reduce(0 + 5 * n) == if n == 10 then 50 else 250
  {
  }
}
