# Verification of the Mesh Brain model

This project models the core of Mesh Brain in Dafny and proves what the code promises, for all inputs and all runs.
Check it with `dafny verify dfyconfig.toml`.

Where the program works step by step, the model does too: loops are loops, objects that are updated are classes, and each
such method is proved against a function of its inputs or of the old state. The main results are then lemmas about those
functions. Protocols are state machines over their steps.

| file | what it models |
|---|---|
| Sums, Attention, Softmax, Gradients, Descent, Adam | the algebra of one causal attention layer, its gradient and one Adam step, over exact reals |
| Expansion, Derivative | that the gradient is the derivative of the loss as a limit, with computed radius and constant, and what follows for small steps |
| Matrices, Kernel, Backward, Quantize, QuantizedOutputs | the loops of the kernel probe, proved to compute that algebra; Q4.12 codes and what they do to the outputs |
| Values, Promotion, Catalog, CatalogRuns, CatalogStack | the model catalog: promotion controls, transitions, whole runs, alias chains |
| Registry, Routes | the persisted registry and its simulation of the catalog; serving routes |
| JsonStore, JsonProtocol, JsonText | the locked JSON file, any number of processes sharing one, and the JSON text it holds |
| Serving | quotas, the canary overlay, adapters swapped while serving |
| Text, Refinery | white space, chunks, dedupe and rows of the data refinery |
| EventStream, Segments | resuming event streams, token segments |
| Prometheus, PrometheusText | printing the metrics text, and a reader of it |
| Judge, AgentRuntime | the rubric judge and the agent's event log |

## How it is modelled

Numbers are exact reals. The exponential enters through the facts that it is positive, that exp(a - b) exp(b) =
exp(a), and, for limits and drift, that exp(u) is within u^2 of 1 + u for u between -1 and 1; the square root through
being non-negative and squaring back. The gradient is first shown to be what dual numbers give, then that to be the
derivative as a limit; for `wo` and `wv` the exact expansion of the loss needs no derivative at all. Functions that
the code gets from elsewhere are parameters: digests, redaction, the digits of floats, lower-casing, rounding, the
default backend of a tier. The JSON store and its protocol are proved for any codec that reads back what it prints;
`JsonText` proves that of the text the store writes, as in RFC 8259. Time stamps are left out, and so are fields that
no modelled operation reads.

The code is modelled as it is, including the paths where a natural expectation fails. Each of these has a lemma that
names the failing case, and the expectation is proved under the exact condition:

- a promotion to canary and then to production does not retire the older production artifact
  (`CatalogRuns.CanaryThenPromoteLeavesTwo`, `PromotionLeavesOneExactly`, `RunKeepsOneExactly`);
- promoting the head of an alias again after a rollback, or an artifact below the head, closes a loop of rollback pointers
  (`CatalogStack.RePromotionAfterRollbackLoops`, `DeepPromotionLoops`, `StaysAStackExactly`);
- in the registry, promoting what the alias already holds makes it its own rollback target
  (`Registry.HeldPromotionDiverges`, `PromotionKeepsStepExactly`);
- registering a known id again can drop its promotion record (`CatalogRuns.ReRegisteringLosesTheRecord`,
  `RegistrationKeepsAuditedExactly`);
- a slash in a tenant or in a task lets two pairs share an alias, and then its adapter is not served to one of them
  (`Routes.SlashedTenantsCollide`, `AliasIsSharedExactly`, `AliasCanMissExactly`);
- a canary weight of one leaves out the requests with the greatest digest (`Serving.FullWeightMissesExactly`);
- a request is charged before its pool is found unfit (`Serving.PaysForNothingExactly`);
- a file that exists but is blank is written even when nothing changed (`JsonStore.SkipsExactly`), and a file of invalid
  JSON raises on entry with the lock held until the handle is dropped (`JsonStore.LockedJsonFile.Enter`);
- the `complete` message takes a sequence number that a later event may get (`EventStream.LateEventIsMissed`,
  `ResumingPastCompleteExactly`);
  the API reference says that reconnecting with the last identifier resumes the stream, which holds up to the first
  `complete`;
- HELP texts are not escaped, so a line break or a backslash in one does not come back
  (`PrometheusText.UnescapedHelpFails`, `TextReadsBackExactly`);
- criteria that share a name make the order of the rubric matter (`Judge.SomeSwapIsReported`, `ConsistentExactly`).

The base64url encoding is that of section 5 of RFC 4648 without padding, as in section 2 and Appendix C of RFC 7515; the
decoder is the lenient one that skips unknown characters. Resuming follows section 9.2 of the WHATWG HTML Standard, and
the metrics text the section "Text format details" of the Prometheus exposition formats.

What main results speak through is fixed on its own: for each transition, predicate and printed form there are lemmas
that say without its name what it gives, in every case. They are called `...InFull` if they give every field or case,
`...Writes` and `...Keeps...` if they give what a transition changes and what it leaves, `...Exactly` or `...IsExact` if
they give a condition or a result. The table below lists those that connect several functions.

## Model

| member | source | states |
|---|---|---|
| Kernel.ForwardFullSequence | mesh_brain/model_kernel_probe.py:337-369 | the loops compute the causal attention layer, for every length, width and weight matrix; without the algebra: a score times the root of the width is the dot product of its query and key, scores above the diagonal are zero, and each row of the attention is the one distribution over the tokens so far whose weights are to each other as the exponentials of their scores |
| Kernel.ProductsWrittenOut | mesh_brain/model_kernel_probe.py:341-357 | the queries, keys, values, hidden states and outputs of the returned cache are, entry by entry, sums of products over the given lists |
| Kernel.ForwardWrittenOut | mesh_brain/model_kernel_probe.py:344-358 | and so are the scores, the attention and the loss: the loss times the number of entries is the sum of half the squared differences |
| Kernel.FillAttention | mesh_brain/model_kernel_probe.py:345-355 | the two filled matrices hold the scores on and below the diagonal and zero above, and the causal softmax of the scores |
| Kernel.AttendToken | mesh_brain/model_kernel_probe.py:379-386 | one token attending over the cached keys and values only gives the row of outputs the full sequence gives |
| Kernel.TruncatedHidden | mesh_brain/model_kernel_probe.py:356-384 | a hidden entry summed over the cache only equals the product with the zero-padded attention row |
| Kernel.ForwardTokenByToken | mesh_brain/model_kernel_probe.py:372-387 | the incremental pass with growing caches computes the outputs and the loss of every full-sequence cache; its logits times the root of the width are the dot products of the token's query with the cached keys |
| Kernel.ForwardParity | mesh_brain/model_kernel_probe.py:76-80 | the probe's parity check finds a difference of exactly zero, in outputs and in loss, for all well-shaped inputs |
| Kernel.MaxDelta | mesh_brain/model_kernel_probe.py:530-535 | the result is attained by some pair of entries and bounds every difference |
| Kernel.MseLoss | mesh_brain/model_kernel_probe.py:511-519 | the loop computes half the mean of the squared differences |
| Kernel.SoftmaxOfRow | mesh_brain/model_kernel_probe.py:504-508 | the max-shifted softmax of a row equals the unshifted causal softmax |
| Softmax.ShiftInvariance | mesh_brain/model_kernel_probe.py:504-508 | subtracting any number from a row of scores leaves its softmax unchanged |
| Softmax.RowIsDistribution | mesh_brain/model_kernel_probe.py:504-508 | the weights of a row are positive up to the diagonal and sum to one |
| Matrices.MatmulHolds | mesh_brain/model_kernel_probe.py:485-501 | the product by dot products with transposed columns is the matrix product |
| Sums.AdjointOfLeftFactor | mesh_brain/model_kernel_probe.py:485-501 | inner products move across a matrix product from the left factor: the identity that justifies multiplying by a transpose in the backward pass |
| Sums.AdjointOfRightFactor | mesh_brain/model_kernel_probe.py:485-501 | the same identity for the right factor |
| Softmax.SoftmaxAdjoint | mesh_brain/model_kernel_probe.py:405-410 | the score gradient is the adjoint of the softmax Jacobian, row by row under the mask |
| Softmax.ScoreGradRowSumsToZero | mesh_brain/model_kernel_probe.py:405-410 | every row of the score gradient sums to zero |
| Backward.FillScoreGrad | mesh_brain/model_kernel_probe.py:405-410 | the loops compute that score gradient from attention and its gradient |
| Backward.AccumulateQueryKey | mesh_brain/model_kernel_probe.py:412-420 | the accumulating loops over dq and dk, with the skip on zero, compute the two sums |
| Gradients.ScoreChangeIsAdjoint | mesh_brain/model_kernel_probe.py:411-420 | for every perturbation of the queries, the inner product of the score gradient with the change of the scores is that of dq with the perturbation, exactly; likewise for the keys and dk |
| Gradients.GradientIsExact | mesh_brain/model_kernel_probe.py:390-426 | the four gradient formulas give the derivative of the loss in every direction, whatever number is subtracted inside the softmax |
| Backward.BackwardPass | mesh_brain/model_kernel_probe.py:390-426 | the hand-written backward pass computes those formulas with one over the root of the width as scale, so its four matrices predict the derivative of the loss in every direction |
| Derivative.GradientIsDerivative | mesh_brain/model_kernel_probe.py:390-426 | along every direction of all four matrices at once, on a computed radius, the loss stays within a computed constant times the square of the step of the line whose slope the gradient formulas predict: they are the derivative as a limit |
| Derivative.CentralDifferencesConverge | mesh_brain/model_kernel_probe.py:429-443 | for every entry of every matrix and every tolerance, the central difference of the loss is that close to the gradient entry for all steps up to a computed size |
| Expansion.ExpFollows | mesh_brain/model_kernel_probe.py:504-508 | the exponential of a value that follows a dual number follows the dual exponential |
| Expansion.QuotientFollows | mesh_brain/model_kernel_probe.py:504-508 | the same for quotients with a positive denominator |
| Descent.WoGradientIsExact | mesh_brain/model_kernel_probe.py:390-404 | moving wo by any matrix changes the loss by exactly the inner product with the gradient plus half the mean squared change of the outputs |
| Descent.WvGradientIsExact | mesh_brain/model_kernel_probe.py:390-426 | the same exact quadratic expansion for wv, through dhidden and dv |
| Descent.WoCentralDifference | mesh_brain/model_kernel_probe.py:429-443 | for wo the finite-difference check has no error for any step |
| Descent.WvCentralDifference | mesh_brain/model_kernel_probe.py:429-443 | for wv the finite-difference check has no error for any step |
| Backward.AdamMatrix | mesh_brain/model_kernel_probe.py:456-465 | the loop moves every entry by the first Adam step of its gradient: the move times the size of the gradient plus epsilon is the learning rate times the gradient |
| Adam.AdamEntryIsStep | mesh_brain/model_kernel_probe.py:458-464 | the bias corrections cancel on the first step |
| Adam.StepIsBounded | mesh_brain/model_kernel_probe.py:458-464 | every entry moves against its gradient, by less than the learning rate, and stays when its gradient is zero |
| Adam.NormOfProduct | mesh_brain/model_kernel_probe.py:485-489 | the squared norm of a product is at most the product of the squared norms (Cauchy-Schwarz) |
| Adam.AdamLowersLoss | mesh_brain/model_kernel_probe.py:81-90 | a step on wo alone strictly lowers the loss if its gradient is not zero and the learning rate times the squared norm of the hidden states is below twice the entry count times epsilon |
| Derivative.DirectionGoesDown | mesh_brain/model_kernel_probe.py:429-443 | every direction with a negative slope lowers the loss strictly, for all steps up to a computed size |
| Derivative.AdamStepLowersLoss | mesh_brain/model_kernel_probe.py:81-90 | unless the whole gradient is zero, an Adam step of all four matrices strictly lowers the loss for every learning rate up to a positive number computed from inputs, weights and epsilon |
| Backward.StepAllMatrices | mesh_brain/model_kernel_probe.py:76-90 | forward, backward and the Adam loops on all four matrices give the entries of the exact Adam step, and lower the computed loss for every learning rate up to that number |
| Backward.StepOutputMatrix | mesh_brain/model_kernel_probe.py:446-465 | forward, backward and the Adam loop on wo, put together, lower the computed loss under that condition |
| Quantize.CodesSurvive | mesh_brain/model_kernel_probe.py:468-482 | quantising a dequantised code gives the code back, for all 65536 codes |
| Quantize.MatrixOfCodesSurvives | mesh_brain/model_kernel_probe.py:468-482 | the same for whole matrices |
| Quantize.ErrorWithinHalfStep | mesh_brain/model_kernel_probe.py:468-475 | the error is at most 1/8192 if and only if the scaled value lies between -32768.5 and 32767.5 |
| Quantize.NearestCode | mesh_brain/model_kernel_probe.py:468-475 | no code is nearer to the value than the chosen one, in range or not |
| Quantize.TieGoesToEven | mesh_brain/model_kernel_probe.py:471 | half way between two codes the even one is chosen, so with the row above the code of every value is fixed |
| Quantize.HiddenInHull | mesh_brain/model_kernel_probe.py:346-356 | every hidden entry lies between any bounds shared by the cached values it attends to |
| Quantize.QuantisedValuesDrift | mesh_brain/model_kernel_probe.py:86-91 | quantising wv alone moves a hidden entry by at most 1/8192 times the largest absolute sum among the attended inputs |
| QuantizedOutputs.SoftmaxFactor | mesh_brain/model_kernel_probe.py:504-508 | if every score of a row moves by at most t, no attention weight grows by more than the factor exp(t) squared |
| QuantizedOutputs.OutputMoves | mesh_brain/model_kernel_probe.py:337-369 | whatever all four matrices move by, entry by entry, no output moves by more than a bound computed from the sizes of inputs, weights and moves |
| QuantizedOutputs.QuantisedForward | mesh_brain/model_kernel_probe.py:86-91 | forward with the weights, forward with the quantised weights: the result is the greatest difference of the outputs of the two, and it is at most that bound |
| QuantizedOutputs.NothingMovesNothing | mesh_brain/model_kernel_probe.py:86-91 | the bound is zero if no weight moves |
| Promotion.ControlsHoldExactly | mesh_brain/model_management.py:316-346 | the promotion controls pass if and only if the metrics hold the boolean true under every gate and the coverage dictionary under every coverage key, the approval, in each of its forms, approves and names an id, an operator, roles and a time, and the rollback reference is not empty |
| Promotion.NotTrueRefuses | mesh_brain/model_management.py:322-334 | a gate, a coverage key or an approval that is missing, false or anything but true refuses the promotion, and a refused gate is among those the error lists |
| Promotion.MeshPolicyAsksFor | mesh_brain/model_management.py:296-313 | the gates and coverage keys of the program's own policy, by name |
| Promotion.PromotionLeavesRecord | mesh_brain/model_management.py:184-187 | a promotion that passed leaves an artifact carrying the record of every control |
| ModelCatalog.MeshBrainModelCatalog.RegisterArtifact | mesh_brain/model_management.py:155-157 | the artifact object is put under its id, and nothing else changes |
| ModelCatalog.MeshBrainModelCatalog.Promote | mesh_brain/model_management.py:159-198 | the in-place promotion refines the transition on values; a refused one changes nothing |
| ModelCatalog.PromotionWrites | mesh_brain/model_management.py:178-197 | what an accepted promotion writes on the artifact and in the alias row, field by field, with the rollback pointer taken from the row before |
| ModelCatalog.PromotionKeepsOthers | mesh_brain/model_management.py:188-189 | no other artifact changes, but that a promotion to production retires what the alias pointed at |
| ModelCatalog.MeshBrainModelCatalog.Rollback | mesh_brain/model_management.py:200-218 | the in-place rollback refines the transition on values; a refused one changes nothing |
| ModelCatalog.RollbackWrites | mesh_brain/model_management.py:200-218 | when a rollback is refused, and what it writes on every artifact and alias row otherwise |
| ModelCatalog.MeshBrainModelCatalog.Retire | mesh_brain/model_management.py:220-226 | the artifact is retired and exactly the alias rows that point at it are deleted |
| ModelCatalog.MeshBrainModelCatalog.DropAliases | mesh_brain/model_management.py:223-225 | the deleting loop removes exactly the rows with that target |
| CatalogRuns.RunKeepsAuditedExactly | mesh_brain/model_management.py:155-226 | all through a run of any calls, each live artifact carries a complete promotion record, alias targets and rollback pointers name registered artifacts with such records, no artifact points at itself and no row's previous is its current, if and only if every registration of the run is harmless when it happens |
| CatalogRuns.LiveArtifactsPassed | mesh_brain/model_management.py:155-226 | so after any run with harmless registrations whatever is in canary or production has a gate result, metrics with the boolean true under every gate, an approval that approves and says by whom and when, and a manifest |
| CatalogRuns.PointersHold | mesh_brain/model_management.py:155-226 | and every alias, alias row and rollback pointer names a registered artifact with that record, and never the artifact itself |
| CatalogRuns.RegistrationKeepsAuditedExactly | mesh_brain/model_management.py:155-157 | registering anything, a known id included, keeps that invariant if and only if the artifact has the record in case it is live or its id is named already, and points, if anywhere, at another artifact with a record |
| CatalogRuns.NewIsHarmless | mesh_brain/model_management.py:155-157 | a new id in state registered that points nowhere is always harmless |
| CatalogRuns.EmptyIsAudited | mesh_brain/model_management.py:77-79 | the new catalog satisfies that invariant |
| CatalogRuns.ReRegisteringLosesTheRecord | mesh_brain/model_management.py:155-218 | what a harmful registration does: promoting two, registering the first again without a record and rolling back puts an artifact without a record into production |
| CatalogRuns.PromotionLeavesOneExactly | mesh_brain/model_management.py:178-189 | a promotion to production leaves no two artifacts of a set there if and only if everything of the set that was there is the promoted artifact or the alias target |
| CatalogRuns.RunKeepsOneExactly | mesh_brain/model_management.py:155-226 | all through a run of any calls at most one artifact of a set is in production, if and only if every call that puts one there finds no other one but those it retires through its alias |
| CatalogRuns.CanaryThenPromoteLeavesTwo | mesh_brain/model_management.py:178-189 | so promoting an artifact first to canary and then fully leaves the older production artifact in production |
| CatalogStack.ChainIsUnique | mesh_brain/model_management.py:200-207 | an alias has at most one chain of rollback pointers |
| CatalogStack.ChainIsAcyclic | mesh_brain/model_management.py:200-207 | a chain never meets an artifact twice |
| CatalogStack.StackInFull | mesh_brain/model_management.py:200-207 | the stack of an alias is the target of its row, what that points at, and so on to an artifact that points nowhere |
| CatalogStack.PromotionPushes | mesh_brain/model_management.py:178-197 | promoting an artifact that is not on the chain pushes it |
| CatalogStack.RePromotionKeeps | mesh_brain/model_management.py:180-186 | promoting the head again leaves the chain as it is when the row was written by promote |
| CatalogStack.RollbackPops | mesh_brain/model_management.py:200-218 | rollback pops the head and fails exactly on a chain of one |
| CatalogStack.PromotionsThenRollbacks | mesh_brain/model_management.py:178-218 | n promotions of distinct artifacts and then k < n rollbacks leave the row on the (n-k)-th artifact, in production if k > 0, and the n-th rollback fails |
| CatalogStack.StaysAStackExactly | mesh_brain/model_management.py:178-197 | for a sound chain, a passed promotion leaves a chain if and only if the artifact is off the chain or is the head with a row not written by rollback |
| CatalogStack.DeepPromotionLoops | mesh_brain/model_management.py:178-197 | promoting an artifact below the head closes a loop of rollback pointers |
| CatalogStack.RePromotionAfterRollbackLoops | mesh_brain/model_management.py:180-216 | promoting the head again right after a rollback closes a loop |
| CatalogStack.RunKeepsStacks | mesh_brain/model_management.py:155-226 | over every run on many aliases in which each artifact is used under one alias and no promotion closes a loop, every alias keeps a chain of its own artifacts, which is empty exactly without a row |
| CatalogStack.EmptyHasStacks | mesh_brain/model_management.py:77-79 | in a new catalog every alias has its stack, the empty one |
| Registry.MeshBrainRegistry.PromoteArtifact | mesh_brain/runtime.py:480-522 | the persisted promotion refines its transition and returns the promoted row; a refused one changes nothing |
| Registry.PromotionWrites | mesh_brain/runtime.py:503-518 | what an accepted promotion writes on the row of the artifact and on the alias |
| Registry.PromotionKeepsOthers | mesh_brain/runtime.py:513-521 | no other row changes but that of what the alias held; the gate result comes first and the newest thousand are kept |
| Registry.MeshBrainRegistry.Rollback | mesh_brain/runtime.py:524-547 | the persisted rollback refines its transition and returns the restored row; a refused one changes nothing |
| Registry.RollbackWrites | mesh_brain/runtime.py:524-547 | when a rollback is refused, and what it writes on every row and alias otherwise |
| Registry.PromotionKeepsStepExactly | mesh_brain/runtime.py:506-516 | a passed promotion keeps registry and catalog in step if and only if the alias does not already hold the artifact |
| Registry.HeldPromotionDiverges | mesh_brain/runtime.py:506-516 | promoting what the alias holds makes the artifact its own rollback target and, unless it goes to canary, retires it |
| Registry.RegistrySimulatesCatalog | mesh_brain/runtime.py:469-547 | over every run without such a promotion the registry has the catalog's artifacts, whole rows included, and alias targets, and promotions and rollbacks are then accepted by both or by neither |
| Registry.EmptyMatches | mesh_brain/runtime.py:465-467 | a new catalog and a new registry are in step, so such runs can start there |
| Routes.RouteIsExact | mesh_brain/runtime.py:594-619 | the adapters of a route are exactly the artifacts in canary or production of the four adapter kinds whose tenant and task are each unset or the request's; its model is a base model in canary or production, given exactly when there is one |
| Routes.RouteInOrder | mesh_brain/runtime.py:791-801 | routes read the artifacts from first to last: adapters keep their order, and the first live base model is the model |
| Routes.ResolvedRouteIsExact | mesh_brain/model_management.py:240-268 | the same for the registered artifacts when resolved through the catalog, base models included; the alias is tenant, slash, task, and the target what its row points at |
| Routes.RunKeepsSync | mesh_brain/model_management.py:155-226 | over every run that promotes artifacts only under their own alias, each alias row points at a registered artifact in canary or production, shows its state, and is filed under its tenant, slash, task |
| Routes.AliasIsSharedExactly | mesh_brain/model_management.py:241 | a tenant and task pair shares its alias with another pair if and only if its tenant or its task has a slash |
| Routes.AliasTellsTenants | mesh_brain/model_management.py:241 | two pairs whose tenants have no slash have different aliases unless they are the same pair |
| Routes.SlashedTenantsCollide | mesh_brain/model_management.py:240-268 | two tenant and task pairs with slashes spell one alias, and a catalog whose rows are in step serves the adapter of the one but not to the other |
| Routes.AliasTargetIsServedExactly | mesh_brain/model_management.py:240-268 | the adapter an alias points at is served to a request for that alias if and only if its tenant is the request's, as it is whenever tenants have no slash |
| Routes.AliasCanMissExactly | mesh_brain/model_management.py:240-268 | for a request there is a catalog in step that does not serve it the adapter its alias points at, if and only if its tenant or its task has a slash |
| Routes.EmptyIsInSync | mesh_brain/model_management.py:77-79 | a new catalog is in step, so such runs can start there |
| JsonStore.SkipsExactly | mesh_brain/json_store.py:38-39 | the skip-write shortcut is taken exactly when the file already decodes to the payload and is not an existing blank file |
| JsonStore.DecodesExactly | mesh_brain/json_store.py:23-29 | the content of a file: the empty object if it is missing, blank or not an object, the object if it is one, none if it does not parse |
| JsonText.TextReadsBack | mesh_brain/json_store.py:26-46 | every value printed as indented JSON text with sorted keys and ASCII escapes is parsed back, at any depth and before anything that can follow it |
| JsonText.StoreTextRoundTrips | mesh_brain/json_store.py:26-46 | so every payload the store prints parses back as that payload and is never blank, if floats read back |
| JsonText.TwoMembers | mesh_brain/json_store.py:45-46 | two keys are printed in ascending order, a line each, one level further in |
| JsonText.ParsedExamples | mesh_brain/json_store.py:26-28 | texts with blanks, texts that are no objects, and texts that go on or break off, with what the parser makes of them |
| JsonText.RoundTripsCanBeMet | mesh_brain/json_store.py:26-46 | a way to print floats that read back exists, so what the following rows assume of the codec can be met |
| JsonStore.WrittenDecodes | mesh_brain/json_store.py:45-46 | a written file decodes to what was written |
| JsonStore.BlockApplies | mesh_brain/json_store.py:20-42 | a with-block changes the decoded content as its body says, and a body that raises or an undecodable file changes nothing |
| JsonStore.AtomicWrite | mesh_brain/json_store.py:49-60 | written in pieces of any size, the data file ends as the whole text, or as before if a call fails before everything is written or the replace fails; the temporary file is gone |
| JsonStore.LockedJsonFile.Enter | mesh_brain/json_store.py:20-30 | a missing file, a blank file and one that holds something else than an object give the empty object; an object gives itself; invalid JSON raises, with the lock held in every case |
| JsonStore.LockedJsonFile.Exit | mesh_brain/json_store.py:32-42 | the payload is written exactly when the body did not raise and there is something new; the lock is always given back |
| JsonStore.LockedJsonFile.With | mesh_brain/json_store.py:20-42 | a whole with-block leaves the file its body asks for, or as before exactly if there was something to write and writing fails |
| JsonProtocol.EveryRunIsSerial | mesh_brain/json_store.py:20-60 | for any number of processes and any interleaving, aborts and crashes, the file decodes to the serial application of exactly the committed transactions in lock order; no two processes hold the lock |
| JsonProtocol.TransactionRuns | mesh_brain/json_store.py:20-60 | whatever has happened before, if the lock is free and nothing interferes, a process runs its transaction to the end: the file is what the with-block makes of it, the lock is held until it is given back, and no temporary file remains |
| JsonProtocol.FileChangesAsAWhole | mesh_brain/json_store.py:49-60 | in every reachable state an event leaves the file alone, except a replace, which installs the whole payload its transaction computed from the content before |
| JsonProtocol.InvalidJsonStays | mesh_brain/json_store.py:20-30 | a file that starts as invalid JSON is never changed by any run |
| JsonProtocol.OnlyCrashesLitter | mesh_brain/json_store.py:49-60 | without crashes, the only temporary file is that of the lock holder |
| Serving.MeshBrainServingFabric.Create | mesh_brain/serving.py:106-119 | a fabric is made if and only if the canary weight lies between zero and one |
| Serving.TenantQuota.Consume | mesh_brain/serving.py:33-43 | a request is charged exactly when one more request and its tokens stay within the two limits: then both counters grow by that, and otherwise nothing changes |
| Serving.TokensExactly | mesh_brain/serving.py:59-62 | a request costs a quarter of its characters in messages and tools, rounded down, and at least one token |
| Serving.MeshBrainServingFabric.PlanChatCompletion | mesh_brain/serving.py:121-165 | the in-place planning equals its specification and changes only the tenant's quota |
| Serving.PlanIsRefusedExactly | mesh_brain/serving.py:121-165 | why a request gets no plan, in the order of the checks, and what is left of the quota in every case |
| Serving.PlanIsExact | mesh_brain/serving.py:121-221 | a plan names the healthy pool of its tier, or the default one of a tier without a pool, and says how it is answered and charged |
| Serving.MeshBrainServingFabric.HotSwapAdapter | mesh_brain/serving.py:188-192 | every artifact with the same id is replaced by the new one at the end; other kinds are refused without change |
| Serving.SwapIsExact | mesh_brain/serving.py:188-192 | a swap is refused for anything but the four adapter kinds, and otherwise drops exactly what has the id and puts the artifact last |
| Serving.MeshBrainServingFabric.RollbackAdapter | mesh_brain/serving.py:194-198 | the first artifacts with the two ids are retired and put into production in place, wherever they are listed, and no other changes; or nothing does |
| Serving.RollbackIsExact | mesh_brain/serving.py:194-198 | otherwise it retires the first artifact with the one id, puts the first with the other into production, and touches nothing else |
| Serving.QuotaIsKept | mesh_brain/serving.py:33-43 | over any calls, a tenant's counters grow by exactly the admitted charges, issued plans and tokens are among them, and neither limit is passed once anything was admitted |
| Serving.FreshQuotaBoundsPlans | mesh_brain/serving.py:121-125 | an unused quota bounds the plans and tokens a tenant ever gets |
| Serving.PaysForNothingExactly | mesh_brain/serving.py:121-126 | a tenant pays without getting a plan if and only if the request fits both limits and its pool is not healthy or no backend serves its tier |
| Serving.PlanNamesExactly | mesh_brain/serving.py:121-165 | whatever a plan names is in canary or production, with tenant and task each unset or the request's; off canary its adapters are exactly the production artifacts of the four adapter kinds of which that is true |
| Serving.CanaryPlanNamesExactly | mesh_brain/serving.py:121-239 | on canary its adapters are exactly those of the overlay |
| Serving.CanaryIsServed | mesh_brain/serving.py:222-239 | a canary adapter with a fitting tenant and task is in every plan of a request whose digest is below the weight |
| Serving.OnCanaryExactly | mesh_brain/serving.py:222-313 | a request is on canary if and only if a canary artifact fits it and the first eight digits of its digest, as a share of the greatest such number, are below the weight |
| Serving.OverlayIsExact | mesh_brain/serving.py:316-322 | the overlay covers exactly the union of slots, keeps every preferred artifact, and a fallback one exactly when its slot is free |
| Serving.CanaryOverlayIsExact | mesh_brain/serving.py:222-239 | on canary exactly the fitting canary artifacts and those fitting production artifacts are served that no fitting canary equals in kind, tenant and task; no such place is lost |
| Serving.WeightIsMonotone | mesh_brain/serving.py:237-238 | raising the canary weight never moves a request off canary |
| Serving.FullWeightMissesExactly | mesh_brain/serving.py:237-313 | at weight one every request goes to canary except those whose digest starts with eight times f; at weight zero none does |
| Serving.SwappedIsServed | mesh_brain/serving.py:188-192 | a swapped-in production adapter is in every plan off canary that it fits |
| Serving.RollbackMovesPlans | mesh_brain/serving.py:194-198 | after a rollback every fitting plan off canary names the earlier adapter and not the current one |
| Text.CleanKeepsWords | mesh_brain/data_plane.py:480-481 | white space normalisation keeps every word in order and is idempotent |
| Text.InkOfClean | mesh_brain/data_plane.py:480-481 | it loses no character but white space |
| Text.CleanOfSplit | mesh_brain/data_plane.py:480-481 | white space between two texts becomes one blank, and none at the ends |
| Text.ChunksCover | mesh_brain/data_plane.py:480-484 | the chunks put together are the cleaned text, none is longer than the limit, and only the last can be shorter |
| Refinery.Select | mesh_brain/data_plane.py:99-116 | the loop with its seen-set keeps exactly the first occurrences of own records and counts the rest |
| Refinery.Build | mesh_brain/data_plane.py:87-138 | accepted, rejected and duplicate counts add up to the input, there are five rows a chunk, and the build fails exactly when some row still shows a secret |
| Refinery.FirstsAreExact | mesh_brain/data_plane.py:100-116 | the accepted places are increasing and exactly those of records of the own tenant that none of that tenant before equals in source, content and provenance |
| Refinery.AcceptedCoverOwn | mesh_brain/data_plane.py:100-116 | every own record has tenant, source, content and provenance of an accepted one, and no two accepted ones agree in all |
| Refinery.RowsFromNormalized | mesh_brain/data_plane.py:158-186 | the nested loops give the rows of all chunks in order, or fail exactly when one shows a secret |
| Refinery.RowsInFives | mesh_brain/data_plane.py:165-186 | there are exactly five rows per chunk: sft, preference pair, trajectory, eval case, red-team case |
| Refinery.ContextsAreChunks | mesh_brain/data_plane.py:158-186 | the rows of every type but preference pairs repeat all chunks of all records in order |
| Refinery.SftContextsAreTheText | mesh_brain/data_plane.py:140-186 | a record's sft contexts put together are its redacted, normalised content, in pieces of at most the limit |
| Refinery.RowsByOutput | mesh_brain/runtime.py:126-137 | the five files, by name, hold exactly the rows of their type in order |
| Refinery.FilesPartition | mesh_brain/runtime.py:126-137 | the files together hold every row exactly once |
| Refinery.FileContexts | mesh_brain/runtime.py:126-137 | a file has the contexts of its type |
| EventStream.StreamRun | control_plane_server.py:2353-2372 | the poll loop writes exactly the events recorded after the header's sequence, in ascending order; it writes complete, at the end and with the next number, if and only if its last turn finds the session, terminal, with a latest event that is not beyond the last one written; no earlier turn found that, and only then does it stop early |
| EventStream.TurnIsTheLoop | control_plane_server.py:2357-2372 | a turn of the loop is a run of the protocol's steps: list, write one by one, look at the session; it writes the same, remembers the same number, and closes in the same case |
| EventStream.CatchUp | control_plane_server.py:2357-2364 | what a turn lists after the last event written is what the turn before could not see |
| EventStream.ClientSeesTheLog | control_plane_server.py:2353-2372 | with an appending writer and any losses and resumes the client receives the log from the first event on, with no gap and no repeat, and complete only after every event up to the cursor |
| EventStream.UndisturbedClientSeesAll | control_plane_server.py:2353-2372 | wherever a run has got to, a client that comes back and is not disturbed receives the whole log in one turn, and complete if the session is terminal |
| EventStream.CompleteOnlyWhenOver | control_plane_server.py:2365-2372 | complete is written if and only if a connection that has written all it listed looks at a terminal session whose cursor it has reached, and then all events up to the cursor are on their way |
| EventStream.ResumingPastCompleteExactly | control_plane_server.py:2353-2368 | a client that resumes with the number of complete is sent the rest of the log if and only if no event has taken that number; otherwise that event is missed and no other |
| EventStream.LateEventIsMissed | control_plane_server.py:2367-2368 | a run in which an event does take that number and is missed |
| EventStream.AfterCut | shared/mesh_runtime/control_plane_state.py:310-316 | listing after a sequence number gives the rest of an ascending log |
| Segments.PaddingRestores | control_plane_server.py:82-90 | padding a stripped segment again gives the encoding of every byte string back |
| Segments.SegmentRoundTrips | control_plane_server.py:82-90 | a segment of any byte string, padded again, decodes to it, and has no dot |
| Segments.DecodeEncode | control_plane_server.py:82-91 | the lenient decoder undoes the encoder on every byte string |
| Segments.EncodedInFull | control_plane_server.py:82-84 | three bytes become the letters of the four sextets that spell the same number, and one or two at the end are padded |
| Segments.TestVectors | control_plane_server.py:82-84 | test vectors of the standard |
| Segments.ReadingInFull | control_plane_server.py:90-91 | which characters the decoder reads, and as what |
| Segments.DecodingIsLenient | control_plane_server.py:90-91 | characters outside the alphabet do not count, and a text that ends within a group does not decode |
| Segments.MintedTokenGivesClaims | control_plane_server.py:109-138 | the second segment of any minted token gives back exactly the claims it was minted with, and the expiry if that is an integer or a boolean, and otherwise none |
| Segments.NoSecondSegmentNoClaims | control_plane_server.py:87-95 | a token without a dot has no claims |
| Segments.BrokenSegmentNoClaims | control_plane_server.py:87-95 | nor has one whose second segment is not ASCII, does not decode, does not parse or is no object |
| Prometheus.EscapeIsPerCharacter | mesh_brain/observability.py:286-287 | the three replacements in sequence are one replacement per character |
| Prometheus.EscapeInFull | mesh_brain/observability.py:286-287 | backslash, double quote and line break each become two characters, and any other stays |
| Prometheus.QuotedReadsBack | mesh_brain/observability.py:286-287 | a quoted escaped value reads back as the value, whatever follows |
| Prometheus.SortedIsOrdered | mesh_brain/observability.py:197 | the printed labels are the given ones by ascending key |
| Prometheus.SampleReadsBack | mesh_brain/observability.py:197-198 | a printed sample reads back as its name, sorted labels and value |
| Prometheus.HeadersAreExact | mesh_brain/observability.py:190-198 | HELP and TYPE come exactly once per metric name, together, before its first sample |
| Prometheus.NoSampleIsLost | mesh_brain/observability.py:190-198 | the sample lines are the given samples in order |
| Prometheus.MeshBrainSamplesToPrometheus | mesh_brain/observability.py:189-199 | the loop over samples prints exactly those lines |
| Prometheus.TextInFull | mesh_brain/observability.py:189-199 | what one more sample adds to the text, letter by letter |
| PrometheusText.TextReadsBackExactly | mesh_brain/observability.py:189-199 | a reader of the format gets back from the printed text exactly the headers and samples in order, if and only if values are one line each and the help texts and kinds of first samples are plain, the help texts without backslash; labels may hold anything |
| PrometheusText.TextSplitsExactly | mesh_brain/observability.py:189-199 | a printed text splits at line breaks into its lines if and only if the values, and the help texts and kinds of the first sample of each name, are one line each |
| PrometheusText.UnescapedHelpFails | mesh_brain/observability.py:195 | two help texts, one with a line break and one with a backslash, that the reader does not get back |
| PrometheusText.FirstSampleGivesHeaders | mesh_brain/observability.py:193-196 | the headers of a name carry the help text and the kind of its first sample |
| Judge.ScoreText | mesh_brain/live_judge.py:127-149 | the loop computes reasons, points by name, score and decision as specified |
| Judge.FactsExactly | mesh_brain/live_judge.py:128-133 | the criteria look at the lower-cased, normalised text and at the length of the text without white space at its ends |
| Judge.CriterionInFull | mesh_brain/live_judge.py:132-144 | what each kind of criterion asks, the reason it gives and the points it earns, in terms of terms the text contains |
| Judge.ReasonsAreExact | mesh_brain/live_judge.py:128-144 | a reason is given exactly when the text is empty or some criterion gives it |
| Judge.SwapKeepsPointsExactly | mesh_brain/live_judge.py:145-157 | reversing the rubric keeps the points of every name if and only if, for every name, its first and last criterion earn the same |
| Judge.SwapKeepsVerdict | mesh_brain/live_judge.py:127-157 | with distinct criterion names, reversing the rubric changes neither score nor decision |
| Judge.NeverInconsistent | mesh_brain/live_judge.py:73-90 | so the judge never reports an order swap of its own |
| Judge.ConsistentExactly | mesh_brain/live_judge.py:73-75 | the two orders agree if and only if the rounded totals of the last and of the first points per name are within 0.0001 and, when no reason is given, on the same side of the minimum |
| Judge.SwapReportedExactly | mesh_brain/live_judge.py:88-90 | the judge reports an order swap if and only if the two orders disagree |
| Judge.EqualNamesAreReported | mesh_brain/live_judge.py:73-90 | every pair of criteria with one name whose rounded points differ by more than 0.0001 is reported |
| Judge.SomeSwapIsReported | mesh_brain/live_judge.py:73-90 | a rubric for which the order swap is reported on every text |
| Judge.EqualNamesSwapPoints | mesh_brain/live_judge.py:145-157 | with two criteria of one name the score is the second's one way round and the first's the other |
| Judge.JudgementPassesExactly | mesh_brain/live_judge.py:65-99 | a judgement passes if and only if the text is not empty, contains no forbidden term and one required term of each criterion that asks for it, the score is reached, and the client does not object |
| Judge.JudgementInFull | mesh_brain/live_judge.py:73-99 | score, reasons, consistency and decision of a judgement from those of the two orders and of the client |
| AgentRuntime.MeshOSAgentRuntime.Run | mesh_brain/agent_runtime.py:96-165 | the logging call gives the specified event list, status and memory records, and advances one memory version |
| AgentRuntime.LogInFull | mesh_brain/agent_runtime.py:105-155 | the whole log: what comes before the signals, what the signals and the feedback say of it, and the final output |
| AgentRuntime.MeshOSAgentRuntime.RunTool | mesh_brain/agent_runtime.py:116-139 | the checks and the tool call are logged in order, as they happen |
| AgentRuntime.ToolPartInFull | mesh_brain/agent_runtime.py:114-139 | the events and the status of the tool part in each of its cases, from the fields of tool, user, proposal and approval |
| AgentRuntime.MeshOSAgentRuntime.ProposeMemory | mesh_brain/agent_runtime.py:241-263 | a proposal gets the next version of its key and is reviewed exactly when approved |
| AgentRuntime.ToolCallsArePermitted | mesh_brain/agent_runtime.py:116-139 | a tool call is logged if and only if the tool is known, its arguments fit, the user has one of its roles, and there is an approval if it is protected or of high or critical risk and not on the allowlist; at most once, right after the events that say so |
| AgentRuntime.FinalOutputIsLast | mesh_brain/agent_runtime.py:152-156 | the final output is logged once, at the end, with the status |
| AgentRuntime.ReplayAgrees | mesh_brain/agent_runtime.py:167-176 | replay and signals say the tool ran exactly when it might; replay says policy came first exactly when a tool was proposed; the approval-route signal is always raised |
| AgentRuntime.VersionsCountUp | mesh_brain/agent_runtime.py:250-252 | over any calls the versions of every memory key are 1, 2, 3 and so on |
| AgentRuntime.KeysTellTenants | mesh_brain/agent_runtime.py:250 | two proposals share a key only with the same tenant and the same digest prefix |

## Left out

- Floating point: rounding, `round(…, 4)`, tolerances of the probe and overflow are not modelled; sums are exact and rounding of the judge's score is an arbitrary function.
- Adam.AdamLowersLoss: a short bound on the learning rate, for `wo` alone; for all four matrices `Derivative.AdamStepLowersLoss` has a longer one.
- Derivative.AdamStepLowersLoss: the bound is a formula over inputs, weights and epsilon; whether the probe's own numbers meet it is not evaluated, as its exponential is not.
- Backward.StepOutputMatrix: steps `wo` alone, with the short bound; `Backward.StepAllMatrices` steps all four.
- Gradients.GradientIsExact: speaks of dual numbers; `Derivative.GradientIsDerivative` turns it into a limit.
- Backward.AdamMatrix: the square root and the betas are parameters; only the first step, which is all the program takes, is modelled.
- Kernel.ForwardFullSequence: matrices are values that a loop replaces entry by entry, so sharing of row lists is not captured; empty and ragged matrices, on which the program raises, are outside its precondition.
- Quantize.QuantisedValuesDrift: the sharp bound, for `wv` alone; `QuantizedOutputs.QuantisedForward` bounds the outputs when all four matrices are quantised.
- ModelCatalog.MeshBrainModelCatalog.Promote: fields of an artifact that promotion, rollback and routing neither read nor write, and the time stamp of an alias row, are left out; artifacts changed by callers outside the catalog are not modelled.
- Registry.MeshBrainRegistry.PromoteArtifact: rows are well-formed; the checks on payload types that guard against files edited by hand, and rows that fail to parse, are not modelled. Each call is one transaction of the locked file; its atomicity is the subject of the JSON modules.
- Routes.RouteIsExact: the flags of a route (engine, caching, decoding modes) are a table over the request and are left out.
- JsonStore.LockedJsonFile.Enter: creating the directory and opening the lock file are left out; JSON text is an abstract pair of functions here, and made concrete in `JsonText`.
- JsonStore.AtomicWrite: how many characters each call of the operating system takes and which call fails are inputs; a call that takes nothing counts as taking one character, so that the loop ends.
- JsonText.StoreTextRoundTrips: the digits of floats are an abstract pair; the two zeros are one, and NaN, infinities and single surrogates, which the program's JSON library lets through, count as invalid; integers of any length are read.
- JsonProtocol.EveryRunIsSerial: a crash is that of a process; loss of power, after which a directory entry may be older than a finished replace, is not modelled.
- Serving.QuotaIsKept: quotas are kept per tenant; one quota object shared by two tenants is covered by the methods but not by this lemma. The counters are never reset, as in the code.
- Serving.PlanNamesExactly: the capability report, the trace and the call of the chat client are left out, except that an unknown hardware tier raises.
- Refinery.Build: dictionaries as input records, tool schema extraction, outcome labels and fixed texts of payloads are left out or abstract; digests are assumed injective, and shortened digests in row and record ids are not compared.
- EventStream.ClientSeesTheLog: one client of one run; the store is assumed to list exactly the later events in ascending order; heartbeats are left out, and an identifier that is not a number counts as zero before the model starts.
- Segments.MintedTokenGivesClaims: signing and the date format of the expiry are left out; printing and parsing claims is an abstract pair.
- Prometheus.SampleReadsBack: names must be made of name characters, as the format demands; numbers appear in printed form; the reader takes the rest of a line as the value, so time stamps are not modelled.
- AgentRuntime.MeshOSAgentRuntime.Run: payloads of events beyond the decisions, the tool's result and the trace-replayable signal are left out.
- Judge.ScoreText: prompts and transcripts are left out; the client's verdict is an input.
- HTTP routing, authentication, user interfaces, network clients, training and evaluation jobs, readiness reports and constant tables: input and output around the modelled core.
