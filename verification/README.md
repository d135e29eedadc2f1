# fold-babyjubjubs: the signature-counting step circuit

This project is a Dafny model of `FoldSigsStepCircuit`. It is the step
circuit that the fold-babyjubjubs repository folds with Nova to verify many
EdDSA signatures over BabyJubJub. Each step works as follows:

- It takes the running state `z_i = [count]` and a batch of external inputs.
  Each input is a message, a public key and a signature `(r, s)`.
- It verifies the first `SIGS_PER_STEP` entries in order with the in-circuit
  EdDSA gadget.
- It hard-enforces that each verdict is true.
- It adds one to the count for each entry.
- It returns `[count]`.

The model covers these modules:

- `Field`: the BN254 scalar field as integers modulo its prime `P`.
- `Curve`: affine points with the twisted Edwards identity `(0, 1)`.
- `Bits`: fixed-width little-endian bit decomposition.
- `ExtInputs`: the native and circuit forms of the external inputs, their
  `Default` values, and `AllocVar::new_variable` for a batch.
- `FCircuit`: `new`, `state_len` and `generate_step_constraints`.
- `Ivc`: the driver loop of the full-flow test. The folding engine is
  reduced to its step counter and its state.

The EdDSA verification gadget is a parameter. It is a function from the
Poseidon configuration, public key, signature point, scalar bits and message
to the boolean wire it outputs. The configuration is a type parameter.

In arkworks, `enforce_equal` adds a constraint; it does not stop synthesis.
So the model has two views of a step:

- `GenerateStepConstraints` returns the next state together with the
  enforced wires, in emission order.
- `Step` is the relation's outcome: `Some(next state)` when the constraint
  system is satisfiable, and `None` when it is not.

## Model

| member | source | states |
|---|---|---|
| FCircuit.StateLen | src/fcircuit.rs:50-52 | The state vector has length 1 for every circuit, whatever its batch size or configuration. |
| FCircuit.New | src/fcircuit.rs:43-49 | Construction always succeeds and keeps the given configuration (and batch size). |
| FCircuit.VerifyLoop | src/fcircuit.rs:60-72 | The loop from a count `c` over entries ends at `c + len` in the field. It emits one enforced wire per entry, in order. Wire `k` is the gadget's verdict on entry `k`. |
| FCircuit.GenerateStepConstraints | src/fcircuit.rs:53-75 | The next state has `state_len` = 1 element, namely `z[0] + SIGS_PER_STEP` in the field. Exactly `SIGS_PER_STEP` wires are enforced. Wire `k` is the verdict on entry `k`, for `k` below `SIGS_PER_STEP`. |
| FCircuit.Step | src/fcircuit.rs:53-75 | The step is satisfiable if and only if the gadget accepts every one of the first `SIGS_PER_STEP` entries. When it is satisfiable, the next state is `[z[0] + SIGS_PER_STEP mod P]`. |
| FCircuit.StepAllValid | src/fcircuit.rs:60-74 | With all of the first `SIGS_PER_STEP` entries verifying, the step yields `[z[0] + SIGS_PER_STEP mod P]`. |
| FCircuit.StepOneInvalid | src/fcircuit.rs:61-70 | One rejected entry at index `k < SIGS_PER_STEP` makes the `k`-th enforced wire false and the step unsatisfiable. |
| FCircuit.StepEmptyBatch | src/fcircuit.rs:60-74 | With `SIGS_PER_STEP = 0` the step is the identity on `z[0]`. |
| FCircuit.StepLocal | src/fcircuit.rs:56-62 | Synthesis and outcome depend only on `z[0]` and the first `SIGS_PER_STEP` entries. They do not depend on the step index `_i`, the rest of `z` or later entries. |
| FCircuit.TenSignaturesFromZero | src/fcircuit.rs:264-268 | Ten verifying signatures from `[0]` give `[10]`, and the constraint system is satisfied. |
| ExtInputs.DefaultExtInp | src/fcircuit.rs:85-93 | The default native entry has message 0, the identity as public key, and signature (identity, 0). |
| ExtInputs.DefaultVecExtInp | src/fcircuit.rs:97-101 | The default native batch has exactly `SIGS_PER_STEP` entries, each the default native entry. |
| ExtInputs.DefaultExtInpVar | src/fcircuit.rs:110-119 | The default circuit entry has zero message, identity key and signature point, and a `sig_s` of 253 false bits. |
| ExtInputs.DefaultVecExtInpVar | src/fcircuit.rs:125-131 | The default circuit batch has exactly `SIGS_PER_STEP` entries, each the default circuit entry. |
| ExtInputs.DefaultVecExtInpShape | src/fcircuit.rs:85-101 | The default native batch has exactly `SIGS_PER_STEP` entries. Each has message 0, identity key and signature (identity, 0). |
| ExtInputs.DefaultVecExtInpVarShape | src/fcircuit.rs:110-131 | The default circuit batch has exactly `SIGS_PER_STEP` entries. Each has zero message, identity points and 253 false `sig_s` bits, which denote 0. |
| ExtInputs.AllocateEntry | src/fcircuit.rs:148-162 | The allocated entry carries the same message, key point and signature point. Its `sig_s` has the decomposition width and reads back as `s`. |
| ExtInputs.AllocateEntries | src/fcircuit.rs:147-165 | Allocation keeps length and order: output entry `k` is the allocation of input entry `k`. It fails if and only if a scalar does not fit, and then it returns the index of the first entry whose scalar does not fit. |
| ExtInputs.NewVariable | src/fcircuit.rs:139-167 | The value closure's own error is returned unchanged (as `ClosureFailed`). Otherwise the result is the in-order, same-length allocation of the batch, or `ScalarTooWide` naming the first entry whose scalar does not fit. |
| ExtInputs.AllocateDefault | src/fcircuit.rs:85-167 | The default native batch always allocates. It allocates to the default circuit batch if and only if the batch is empty or the width is the placeholder width 253. |
| ExtInputs.AllocateDefaultEntry | src/fcircuit.rs:85-167 | At width 253, the default native entry allocates to the default circuit entry. |
| ExtInputs.AllocateDefaultEntries | src/fcircuit.rs:110-165 | At width 253, the default native entries allocate to the default circuit entries. |
| Bits.FromToBitsLe | src/fcircuit.rs:152-155 | For `s < 2^W`, the sum of `bits[k]·2^k` over the `W`-bit decomposition of `s` is `s`. |
| Bits.ToFromBitsLe | src/fcircuit.rs:152-155 | Every bit sequence is the decomposition of the number it denotes, at its own width. |
| Bits.ToBitsLeAt | src/fcircuit.rs:152-155 | Bit `k` of the decomposition is bit `k` of the binary expansion of `s`. |
| Bits.FromBitsLeBound | src/fcircuit.rs:152-155 | `W` bits denote a number below `2^W`. |
| Bits.ToBitsLeZero | src/fcircuit.rs:116 | The decomposition of 0 is all false bits. |
| Ivc.Init | src/fold_babyjubjubs.rs:58 | A fresh run starts at step 0 with the initial state. |
| Ivc.ProveStep | src/fold_babyjubjubs.rs:64 | Proving a step succeeds if and only if the batch allocates and its first `SIGS_PER_STEP` entries verify. On success the step counter advances by one and the state is the step relation's output. |
| Ivc.LeadingAccepted | src/fold_babyjubjubs.rs:62-66 | Counts the batches accepted before the first rejected one. All batches before that point are accepted, and the batch at it is not. |
| Ivc.Drive | src/fold_babyjubjubs.rs:62-66 | The loop advances over exactly the leading accepted batches. The state is the count after that many steps. It reports a failure exactly when it stops early, at the step where it stopped. |
| Ivc.DriveProvesEachStep | src/fold_babyjubjubs.rs:62-66 | Each loop iteration is one `ProveStep`. A failure stops the loop in place; a success continues from the returned instance. |
| Ivc.CountAfterClosedForm | src/fold_babyjubjubs.rs:62-66 | After `N` accepted steps of `n` signatures, the count is `z0 + N·n` in the field. |
| Ivc.DriveCount | src/fold_babyjubjubs.rs:62-66 | After the loop, the count has grown by `SIGS_PER_STEP` for each step taken, modulo `P`. |
| Ivc.DriveAllAccepted | src/fold_babyjubjubs.rs:62-66 | With every batch accepted, all `N` steps complete and the state is `[z0 + N·SIGS_PER_STEP mod P]`. |
| Ivc.LeadingAcceptedStopsAt | src/fold_babyjubjubs.rs:62-66 | If the first rejected batch is at index `k`, then `k` batches lead. |
| Ivc.DriveStopsAtFirstRejected | src/fold_babyjubjubs.rs:62-66 | The first rejected batch, at index `k`, stops the loop at step `k` with the state after `k` steps. |
| Ivc.DriveStopsAt | src/fold_babyjubjubs.rs:62-66 | A loop that advanced `k` steps over more than `k` batches reports a failure at step `k` and holds the state after `k` steps. |
| Ivc.FullFlow | src/fold_babyjubjubs.rs:20-66 | From `z_0 = [0]`, five accepted batches of 10 (respectively 50) signatures complete without failure and give `[50]` (respectively `[250]`). |

## Left out

- Signature verification inside the circuit (the `arkeddsa` gadget and its Poseidon hashing) is a function-typed parameter, not modelled. Its `SynthesisError` is left out too; only its boolean output wire is modelled.
- Curve arithmetic and the R1CS machinery are left out: `CurveVar`, `into_affine`, `ConstraintSystemRef`, `Namespace` and the constraint count. A circuit variable is its assigned value.
- Allocation mode is left out: witness and constant allocation give the same values.
- Ivc.ProveStep: the closure that hands the batch to allocation cannot fail, so its error type is `()`. Errors the folding engine raises while proving are left out.
- Ivc.Drive: where the source unwraps and panics, the loop stops and reports the failing step. A failed `prove_step` in the test unwraps and panics.
- Nova itself is reduced to its step counter and state: preprocessing, commitments, folding, the IVC proof and its verification are left out. Timing and the f64 signatures-per-second printout are left out too.
- `gen_signatures` and `test_sig` (src/fcircuit.rs:188-227) are left out. They generate test data using OS randomness and Blake2.
- FCircuit.New: `new` cannot fail in the source, so the `ConstructionError` type exists but is never produced.
- ExtInputs.AllocateEntries: the width `W` of `into_bigint().to_bits_le()` is a parameter, because it belongs to the external big-integer representation.
  - At that width every scalar-field element fits, so the source never takes the `ScalarTooWide` error.
  - Whether `W` equals the placeholder width 253 (marked as a TODO at src/fcircuit.rs:116) is left open; `ExtInputs.AllocateDefault` states what follows either way.
- The field is fixed to the BN254 scalar field, which is the circuit field of the repository's tests. Scalars of the curve's scalar field are unbounded naturals, whose range is checked only through `W`.
- Indexing `z_i[0]` and `external_inputs.0[i]` panics in the source when the state or the batch is too short. The model makes these preconditions instead: `|z| >= 1` and at least `SIGS_PER_STEP` entries.
