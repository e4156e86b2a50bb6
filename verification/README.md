# Verified model of the platform's decision procedures

This project models the parts of the repository that decide something irrevocable, and proves what those
parts are for. It needs nothing but Dafny 4.11: `dafny verify dfyconfig.toml`.

* **Batch capacity** (`BatchEstimation`, `SearchInvariants`, `SearchTheorems`, `MemoryGuidance`, `ExponentialBound`,
  `SavedEvidence`, `Measuring`, `Recommendation`). The search that measures how large a training batch fits on a GPU, the
  saved record of its trials, and the recommendation built from records. Trial outcomes and memory peaks are arbitrary.
  Main results: the search refines a linear scan, every batch it asks for is determined by the measured peaks, every
  accepted record is backed by its trials, and every recommendation by a fresh success within every rank's memory budget.
* **Case scheduler** (`CaseProtocol`, `SchedulerSafety`, `Admission`, `SchedulerRuns`, `CaseOutcomes`, `CaseScheduler`,
  `EstimateCommand`). The scheduler that runs measurements in worker processes which write to the same store. Its steps
  are a state machine over which every interleaving is considered; the classes of `CaseScheduler` are tied to those steps.
  Main results: exclusive GPUs, conservation, publication only by the owner, a key refused only when it met no device,
  a cause for every result, termination with a result for every key, and a whole command whose recommendations rest on
  accepted records.
* **FP16 graph lowering** (`Tensors`, `PointwiseConv`, `GraphLowering`, `LoweringSemantics`, `GemmLowering`,
  `PointwiseLowering`, `LoweringTheorem`, `LoweringStructure`, `ConvolutionMeaning`, `GraphBuilding`). The pass that
  replaces selected MatMul, Gemm and 1x1 Conv nodes by half-rounded products. Tensors are over the reals, rounding is an
  arbitrary function, and all other operators have an arbitrary meaning. Main results: every original name keeps exactly
  its value with operands and product rounded once, a lowered convolution is the strided one its attributes describe, and
  the rewritten list stays in single-assignment form with one reader for each private value.
* **Detection matching** (`DetectionMatching`, `MatchingLimits`). The cost encoding that turns "most valid pairs,
  then highest overlap" into one assignment problem. The assignment solver is a contract. Main result: the encoding
  is right exactly under a guard on the list sizes and the required overlap.
* **Readable text and acknowledged delivery** (`HumanText`, `HumanTextStreaming`, `ChunkCuts`, `CheckpointExposure`,
  `PublishedText`, `PublishedReading`, `LabelledText`, `ReferenceWords`, `HumanLabels`, `Utf8`, `ConsoleDelivery`,
  `ConsoleLogs`, `ReportedLines`, `ConsolePublisher`). The filter that removes control sequences and opaque references
  from streamed console text, what the publisher makes of its output, and the protocol that acknowledges byte offsets of
  append-only logs. Main results: chunk invariance, the exact conditions under which a reference is shown after all,
  reported lines in the order of the log, receipts that always point at the first unpublished byte, and the exact
  conditions under which watermarks are reached.
* **Preview workers** (`PreviewWorkers`). Request threads and closers sharing processes under one lock, as
  interleaved atomic steps. Main results: signals only to unreaped leaders, directories removed once, close is final.
* **Dataset splits** (`SplitAssignment`, `SplitFilling`, `SplitChoices`, `DatasetSplits`, `DuplicateContent`,
  `RunLength`). Greedy, leak-free split assignment and the masks it reads. Main results: equal pixels never cross a split,
  every split covers every feature, every group is given the split its counts entitle it to, and sizes are exact precisely
  when no group had to overflow.

`Prelude` holds shared vocabulary. Each imperative part of the source is a class or a method whose contract equates it
with a specification function, and the theorems are lemmas about those functions. The preview workers are the exception:
their threads are the steps of a state machine.

## Where the code and its description differ

The code was followed. In these places a promise holds only under a condition, which is proved exact or
accompanied by a concrete input that breaks it:

* The penalty encoding keeps the most pairs on all inputs of given sizes exactly under `DetectionMatching.Guard`
  (`MatchingLimits.GuardIsExact`). The guard holds for a required overlap of at least 1e-9, and for any required
  overlap up to a billion rows; beyond that a chain of boxes breaks it.
* Without checkpoints the filter releases no reference, but the publisher removes control sequences a second time, which
  can join the halves of one. That happens exactly when the released text spells a reference across control sequences
  (`PublishedText.RemovalShowsIff`, and with lines and carriage returns `PublishedText.ReportedShowsIff`). The same is
  stated on the decoded text, where one step reads over a control sequence, a reference as its name, or a character
  (`PublishedReading.PublishedShowsIff`, `PublishedReading.DecodedShowsIff`). Two families of inputs are shown
  (`PublishedText.NestedHalvesJoin`, `PublishedText.NamedReferenceJoins`).
* A checkpoint can show the beginning of a reference that later text completes. This is exact for every run: it happens if
  and only if some checkpoint drops nothing and leaves shown text that ends in such a beginning
  (`CheckpointExposure.ExposureIsExact`, with an input in `CheckpointExposure.NestedSequencesExpose`).
* Rendering with labels shows no reference if and only if no label is a piece of a dashed identifier that ends or begins
  at one of its dashes (`LabelledText.RenderingIsSafeIff`). Words and small numbers are not
  (`LabelledText.OrdinaryLabels`).
* Chunk invariance needs cuts that no control sequence spans. Before names are substituted this is exact for every chunking
  (`ChunkCuts.ChunkCutsAreExact`); for the rendered text it suffices, and `HumanTextStreaming.SpacedSequenceBreaks` is an
  input without it.
* A console barrier reaches its watermark exactly under the condition of `ConsoleDelivery.BarrierIsExact`. On well-formed
  UTF-8 this means that the watermark does not lie in an unfinished character at the end of the log
  (`ConsoleLogs.ValidBarrier`); malformed bytes can prevent it although the log goes on
  (`ConsoleDelivery.MalformedNeverSettles`).
* The final loop brings the journal to its watermark if and only if every line from the current offset on ends in a newline
  within one read (`ConsolePublisher.JournalDeliveredIff`). A longer line makes no progress, an unterminated last one is
  refused (`ConsolePublisher.LongLineStalls`, `ConsolePublisher.UnfinishedJournalRefused`).
* A preview worker whose stop times out gives its slot back while it stays registered. From every open state the registered
  workers reach two more than were abandoned and no more, so a third one can appear exactly when some stop timed out
  (`PreviewWorkers.ThirdWorkerIsExact`).
* Split sizes equal their targets exactly when no group had to overflow (`DatasetSplits.SizesExactIff`). Distinct
  content is sufficient but not necessary (`DuplicateContent.PairCanBeExact`), and duplicates can make the sizes miss
  (`DuplicateContent.PairsMissTargets`).

## Model

| member | source | states |
|---|---|---|
| `SearchInvariants.StartSound` | src/clearml_yolo/core/batch_estimation.py:278-293 | a fresh search has its ceiling on the grid, its first candidate inside it and no trials |
| `SearchInvariants.AdvanceSound` | src/clearml_yolo/core/batch_estimation.py:363-403 | choosing the next batch keeps the bracket, its evidence and the trial budget; the batch lies strictly inside the bracket and on the grid |
| `SearchInvariants.ObserveAppends` | src/clearml_yolo/core/batch_estimation.py:295-326 | an accepted trial is appended; profile and settings never change |
| `SearchInvariants.ConfirmedSound` | src/clearml_yolo/core/batch_estimation.py:328-348 | a confirmation that succeeds ends the search with the measured bound and the status its trials justify |
| `SearchInvariants.EveryRunSound` | src/clearml_yolo/core/batch_estimation.py:255-403 | every state any sequence of trials reaches keeps lower, upper and ceiling on the grid and in order, every bound backed by a trial, and the trial budget |
| `MemoryGuidance.SuccessMeans` | src/clearml_yolo/core/batch_estimation.py:230-252 | a trial counts as a success exactly when it claims one with complete evidence and every rank peaked within its share of its memory |
| `MemoryGuidance.CeilingIsLargest` | src/clearml_yolo/core/batch_estimation.py:286-293 | the ceiling is the largest batch on the grid that every rank can run within the requested maximum |
| `MemoryGuidance.AdvanceChooses` | src/clearml_yolo/core/batch_estimation.py:363-403 | a closed bracket asks for its lower bound again; an open one for the midpoint on the grid; before any failure for the doubled batch within the ceiling, or, when the last two trials grew on every rank of a guided search, for the largest batch on the grid within the ceiling, four times the lower bound and the line through each rank's last two peaks up to its budget, one step up at least |
| `MemoryGuidance.ChoiceUnique` | src/clearml_yolo/core/batch_estimation.py:363-403 | no two batches meet that description |
| `MemoryGuidance.NextDetermined` | src/clearml_yolo/core/batch_estimation.py:295-403 | observing a trial that leaves the search open asks for that batch, the lower bound being the last trial's batch before any failure |
| `MemoryGuidance.EveryChoiceDetermined` | src/clearml_yolo/core/batch_estimation.py:277-403 | in every run the batch asked for is the one the trials measured so far determine |
| `SearchTheorems.TrialBound` | src/clearml_yolo/core/batch_estimation.py:295-403 | a run of any strategy uses at most one trial per grid point plus the confirmation |
| `SearchTheorems.NeverStuck` | src/clearml_yolo/core/batch_estimation.py:295-403 | a searching run accepts any trial of its pending batch that carries a fresh process identity |
| `SearchTheorems.PendingExists` | src/clearml_yolo/core/batch_estimation.py:295-403 | a run has a pending batch, and a positive one, exactly while it is searching |
| `SearchTheorems.DiscoveryNeverRepeats` | src/clearml_yolo/core/batch_estimation.py:295-403 | no two discovery trials measure the same batch; a repeated batch is the confirmation |
| `SearchTheorems.SearchRefinesLinearScan` | src/clearml_yolo/core/batch_estimation.py:277-403 | for every capacity and arbitrary memory peaks a finished run states what testing one grid point after another would: the largest fitting batch, none below one step, ceiling-limited exactly when the ceiling fits |
| `SearchTheorems.StrategiesAgree` | src/clearml_yolo/core/batch_estimation.py:363-403 | two strategies over one grid end with the same status and batch against the same capacity |
| `SearchTheorems.NoSpuriousFailure` | src/clearml_yolo/core/batch_estimation.py:295-361 | against a capacity no run ends as failed |
| `ExponentialBound.LogarithmicTrials` | src/clearml_yolo/core/batch_estimation.py:386-403 | doubling then bisecting needs at most twice the rounded-up logarithm of the ceiling plus two trials |
| `SavedEvidence.AcceptedEvidenceIsReal` | src/clearml_yolo/core/batch_estimation.py:428-452 | a usable accepted record ends in a success at its batch after an earlier one with another identity; validated, numerically limited and ceiling-limited records also hold the failure or the ceiling their status claims |
| `SavedEvidence.SnapshotsReload` | src/clearml_yolo/core/batch_estimation.py:428-448 | the record written after any run is accepted on reload and usable only when the search finished |
| `SavedEvidence.PrefixSavedAsFailed` | src/clearml_yolo/core/batch_estimation.py:428-448 | every prefix of a run saved as failed with a diagnostic is accepted and never usable |
| `SavedEvidence.AcceptedResultUnique` | src/clearml_yolo/core/batch_estimation.py:428-448 | status and batches of an accepted record that does not admit failure are determined by its trials |
| `SavedEvidence.BatchOnlyWhenUsable` | src/clearml_yolo/core/batch_estimation.py:428-452 | an accepted record carries a batch exactly when it is usable |
| `SavedEvidence.AcceptedIff` | src/clearml_yolo/core/batch_estimation.py:428-448 | a record is accepted exactly when its trials replay and it either admits failure without a batch, with a diagnostic or failing trials, or states the finished result of the replay |
| `SavedEvidence.ReplayIgnoresIdentity` | src/clearml_yolo/core/batch_estimation.py:230-403 | the replay result does not depend on which physical GPUs were measured |
| `SavedEvidence.ReattachedTrialsVerify` | src/clearml_yolo/entrypoints/batch_estimate.py:294-305 | trials reattached under an equal key always verify again, on whichever GPU the new attempt ran |
| `Measuring.TakeTrial` | src/clearml_yolo/application/use_cases/batch_estimate.py:43-85 | one attempt yields the next state of the search or the error text that ends the case, never both |
| `Measuring.Measure` | src/clearml_yolo/application/use_cases/batch_estimate.py:43-85 | the measuring loop ends; every record it saved is valid evidence under one key, only the last may be usable, and against a true capacity it states that capacity |
| `Recommendation.NoIssuesMeansCompatible` | src/clearml_yolo/core/batch_estimation.py:550-564 | the list of compatibility issues is empty exactly when evidence, recipe, hardware and dataset bounds all carry over |
| `Recommendation.SelectEstimate` | src/clearml_yolo/core/batch_estimation.py:567-578 | a compatible case of smallest global batch, none exactly when nothing is compatible |
| `Recommendation.SelectsEarliest` | src/clearml_yolo/core/batch_estimation.py:567-578 | ties go to the case listed first |
| `Recommendation.Recommend` | src/clearml_yolo/core/batch_estimation.py:643-669 | the smallest source capacity is used uniformly on every GPU and the built record passes its own validator |
| `Recommendation.SmallestIsMinimum` | src/clearml_yolo/core/batch_estimation.py:643-669 | the capacity the combining loop collects is the minimum over the sources, and there is only one |
| `Recommendation.MeasuredIsSound` | src/clearml_yolo/core/batch_estimation.py:672-701 | a recommendation from an exact measured allocation is sound for every GPU of it |
| `Recommendation.ExtrapolatedIsSound` | src/clearml_yolo/core/batch_estimation.py:672-701 | a recommendation extrapolated from single-GPU sources is sound for every GPU of the allocation |
| `Recommendation.RecordIsValid` | src/clearml_yolo/core/batch_estimation.py:596-634 | a step: once the allocation matches its origin, the uniform record built from usable sources passes the rest of the validator |
| `Recommendation.GatherSources` | src/clearml_yolo/core/batch_estimation.py:672-701 | one compatible single-GPU source per hardware type, or the first GPU that has none |
| `Recommendation.SelectRecommendation` | src/clearml_yolo/core/batch_estimation.py:672-701 | either missing evidence, or a record its validator accepts whose per-GPU batch is a multiple of eight and, for every target GPU, backed on identical hardware by a fresh success at that batch or more with every rank within its budget |
| `CaseProtocol.FirstIdle` | src/clearml_yolo/entrypoints/batch_estimate.py:139-163 | the chosen device matches the hardware, is neither owned nor quarantined and tests idle; none is returned exactly when there is no such device |
| `CaseProtocol.FirstIdleIsFirst` | src/clearml_yolo/entrypoints/batch_estimate.py:139-163 | no suitable device is listed before the chosen one |
| `Admission.FirstIdleIsFree` | src/clearml_yolo/entrypoints/batch_estimate.py:139-163 | the search for an idle device finds the first listed one of the right hardware on which no case runs, which is not quarantined and did not test busy |
| `Admission.OfferAdmits` | src/clearml_yolo/entrypoints/batch_estimate.py:232-280 | a key with such a device has its unusable placeholder stored and runs on the first one, or quarantines it when the start fails; without one it stays queued if a device of its hardware runs another case, and only otherwise is refused, its stored trials kept |
| `SchedulerSafety.LaunchKeeps` | src/clearml_yolo/entrypoints/batch_estimate.py:259-280 | launching keeps conservation, exclusive GPUs and the publication rule |
| `SchedulerSafety.ReceiveKeeps` | src/clearml_yolo/entrypoints/batch_estimate.py:282-305 | receiving an outcome keeps conservation, exclusive GPUs and the publication rule |
| `SchedulerSafety.WorkerKeeps` | src/clearml_yolo/entrypoints/batch_estimate_worker.py:17-27 | a worker save at any moment keeps the invariant: it may never publish a usable result itself |
| `SchedulerSafety.StepKeeps` | src/clearml_yolo/entrypoints/batch_estimate.py:198-305 | every scheduler or worker step keeps conservation, exclusivity, validity of the store and publication |
| `SchedulerRuns.InitialInv` | src/clearml_yolo/entrypoints/batch_estimate.py:198-210 | every command starts, with distinct valid requests over a valid store and nothing running, in a state that satisfies the invariant |
| `SchedulerRuns.EveryInterleavingKeeps` | src/clearml_yolo/entrypoints/batch_estimate.py:198-305 | every interleaving of scheduler and worker steps keeps the invariant |
| `SchedulerRuns.EveryInterleavingSafe` | src/clearml_yolo/entrypoints/batch_estimate.py:210-305 | from the start of a command, after every interleaving, no two running processes share a GPU, active cases respect the job limit, the keys are partitioned and nothing unfinished is usable in the store |
| `SchedulerRuns.OnlyOwnerPublishes` | src/clearml_yolo/entrypoints/batch_estimate.py:259-292 | a launched key becomes usable only through a receipt of a clean exit with matching token, key and GPU |
| `SchedulerRuns.QuarantineIsFinal` | src/clearml_yolo/entrypoints/batch_estimate.py:259-280 | a quarantined GPU is never assigned again, however the run continues |
| `SchedulerRuns.OtherEntriesKept` | src/clearml_yolo/entrypoints/batch_estimate.py:182-305 | stored records of keys nobody requested never change |
| `SchedulerRuns.WorkFalls` | src/clearml_yolo/entrypoints/batch_estimate.py:224-292 | twice the pending plus the active cases falls with every launch, refusal and receipt and is untouched by worker saves |
| `SchedulerRuns.AdmitAllProgress` | src/clearml_yolo/entrypoints/batch_estimate.py:232-257 | after an admission pass, workers saving between any two offers, nothing stays queued unless some case runs that it can wait for, and a pass that moves more than the store uses up work |
| `SchedulerRuns.ReceiveAllReachable` | src/clearml_yolo/entrypoints/batch_estimate.py:210-230 | receipts of distinct running cases, with worker saves between any two, are enabled events and use up work |
| `CaseOutcomes.PassOutcome` | src/clearml_yolo/entrypoints/batch_estimate.py:232-280 | in a whole pass every queued key that is offered below the job limit leaves the queue for the first device free at its turn, running there or quarantining it; it is refused only when it met no free device and none of its hardware was in use |
| `CaseOutcomes.ReceiptAcceptedIff` | src/clearml_yolo/entrypoints/batch_estimate.py:182-305 | a receipt becomes the result exactly when the exit was clean and token, key, GPU and evidence are right; any other outcome is a failure that keeps the stored trials |
| `CaseOutcomes.StepCauses` | src/clearml_yolo/entrypoints/batch_estimate.py:210-305 | an event never changes an earlier result and adds at most the one it causes |
| `CaseOutcomes.ResultsHaveCauses` | src/clearml_yolo/entrypoints/batch_estimate.py:210-305 | in every run each result was served from the store, comes from a failed start on a free device, from a refusal in a state without a free device of its hardware or one in use, or from a receipt |
| `CaseOutcomes.CacheAllServes` | src/clearml_yolo/entrypoints/batch_estimate.py:210-222 | exactly the keys with a usable saved case are served with it; the others stay queued |
| `CaseScheduler.Store.Put` | src/clearml_yolo/entrypoints/batch_estimate_worker.py:17-27 | the store is a keyed upsert of validated records |
| `CaseScheduler.PendingStore.Put` | src/clearml_yolo/entrypoints/batch_estimate_worker.py:17-27 | a worker writes the record with a usable status replaced by a pending failure |
| `CaseScheduler.Scheduler.Failed` | src/clearml_yolo/entrypoints/batch_estimate.py:294-305 | a failed case keeps the stored trials and is written as the failed record of its key |
| `CaseScheduler.Scheduler.IdleProfile` | src/clearml_yolo/entrypoints/batch_estimate.py:139-163 | the profile bound to the first idle matching device of the specification |
| `CaseScheduler.Scheduler.Launch` | src/clearml_yolo/entrypoints/batch_estimate.py:259-280 | the object state moves exactly as the launch step; a refused start quarantines the GPU and records a failure |
| `CaseScheduler.Scheduler.AdmitNext` | src/clearml_yolo/entrypoints/batch_estimate.py:232-257 | offering one key starts it on the first free device of its hardware, leaves it queued while such a device runs another case, and refuses it only when there is neither; the object moves as the step for which the run theorems hold |
| `CaseScheduler.Scheduler.Admit` | src/clearml_yolo/entrypoints/batch_estimate.py:232-257 | the admission loop equals the specified pass over the queue, worker saves between the offers included |
| `CaseScheduler.Scheduler.Receive` | src/clearml_yolo/entrypoints/batch_estimate.py:282-292 | the object state moves exactly as the receive step |
| `CaseScheduler.Scheduler.UseCached` | src/clearml_yolo/entrypoints/batch_estimate.py:210-222 | saved usable cases are served without measuring |
| `CaseScheduler.Scheduler.ReceiveBatch` | src/clearml_yolo/entrypoints/batch_estimate.py:210-230 | a polled batch of outcomes is received one after the other as specified, worker saves in between included |
| `CaseScheduler.Scheduler.Pass` | src/clearml_yolo/entrypoints/batch_estimate.py:210-230 | one loop iteration reaches a state of the protocol and uses up work when the poll reports something |
| `CaseScheduler.Scheduler.Run` | src/clearml_yolo/entrypoints/batch_estimate.py:210-230 | a newly built scheduler, with polls that eventually return, ends with a result for exactly every requested key, every result with a cause under the idleness tests the environment gave, the store usable exactly where the result is, and every usable saved case served unless a refresh is asked for |
| `CaseScheduler.Execute` | src/clearml_yolo/entrypoints/batch_estimate.py:308-331 | building a scheduler for distinct valid requests over a valid store and running it yields a result for exactly every request and a valid store that agrees with the results; without a refresh usable records are results unchanged, and records nobody asked for are untouched |
| `EstimateCommand.RequestsAre` | src/clearml_yolo/entrypoints/batch_estimate.py:308-323 | one valid request for each kind of GPU, no two with the same key |
| `EstimateCommand.EstimateBatches` | src/clearml_yolo/entrypoints/batch_estimate.py:308-347 | measuring and then recommending: a recommendation rests on records of the final store, each backed by its trials on every target GPU, and there is one whenever every GPU was measured with success on the grid of eights |
| `PointwiseConv.CountIsOutDim` | src/clearml_yolo/adapters/export/precision.py:168-180 | sampling every s-th position leaves ceil(d / s) positions, the convolution extent |
| `PointwiseConv.SliceIs` | src/clearml_yolo/adapters/export/precision.py:168-180 | Slice along the spatial axes up to the largest integer keeps exactly the positions the strides visit |
| `PointwiseConv.ProductIs` | src/clearml_yolo/adapters/export/precision.py:189-200 | the kernel as one batch times the flattened columns, element by element |
| `PointwiseConv.ReshapedProduct` | src/clearml_yolo/adapters/export/precision.py:189-208 | the rounded product reshaped to the output holds the convolution sums in order |
| `PointwiseConv.AddBias` | src/clearml_yolo/adapters/export/precision.py:205-208 | the bias reshaped to one element per channel adds its channel everywhere |
| `PointwiseConv.LoweringEqualsConvolution` | src/clearml_yolo/adapters/export/precision.py:168-208 | for every batch, channel and spatial size, stride and rounding, Slice, Reshape, MatMul, Reshape and Add equal the strided 1x1 convolution |
| `PointwiseConv.ConvAtCoordinates` | src/clearml_yolo/adapters/export/precision.py:24-39 | the convolution at coordinates: channel sums at the strided input position plus the bias, all reads inside the input |
| `GraphLowering.StridesAre` | src/clearml_yolo/adapters/export/precision.py:24-39 | exactly the 1x1 convolutions without groups, padding and dilation and with two positive strides are lowered, with the strides of the attribute |
| `GraphLowering.FreshIndexFree` | src/clearml_yolo/adapters/export/precision.py:94-99 | the counter stops at the first free number and never leaves a free one behind |
| `GraphLowering.NameInjective` | src/clearml_yolo/adapters/export/precision.py:94-99 | different counters give different names |
| `LoweringSemantics.EmitRuns` | src/clearml_yolo/adapters/export/precision.py:101-115 | an emitted node evaluates to its operator on the named inputs and binds the target |
| `LoweringSemantics.QuantizedRuns` | src/clearml_yolo/adapters/export/precision.py:129-131 | casting down and up rounds every element once and keeps every other name |
| `LoweringSemantics.ProductRuns` | src/clearml_yolo/adapters/export/precision.py:133-139 | both operands and the product are rounded exactly once |
| `LoweringSemantics.MatMulRuns` | src/clearml_yolo/adapters/export/precision.py:142-144 | a lowered matrix product holds the rounded product in the node output |
| `LoweringSemantics.ScaledRuns` | src/clearml_yolo/adapters/export/precision.py:153-161 | a coefficient other than one multiplies every element, unrounded |
| `GemmLowering.ScaledProductIs` | src/clearml_yolo/adapters/export/precision.py:147-156 | transposing, multiplying and scaling equal the general product without bias |
| `GemmLowering.GemmBias` | src/clearml_yolo/adapters/export/precision.py:157-163 | adding the scaled broadcast bias completes the general product |
| `GemmLowering.GemmRuns` | src/clearml_yolo/adapters/export/precision.py:147-165 | a lowered Gemm holds its definition, transposition flags, alpha, beta and optional bias included |
| `PointwiseLowering.SampleRuns` | src/clearml_yolo/adapters/export/precision.py:168-180 | the emitted Slice, or the source itself for unit strides, holds the sampled input |
| `PointwiseLowering.OutputShapeRuns` | src/clearml_yolo/adapters/export/precision.py:183-186 | Shape, Gather and Concat compute batch, output channels and sampled plane |
| `PointwiseLowering.PointwiseRuns` | src/clearml_yolo/adapters/export/precision.py:189-208 | the nodes emitted for a 1x1 convolution evaluate to the convolution, with or without bias |
| `LoweringTheorem.Simulates` | src/clearml_yolo/adapters/export/precision.py:211-236 | after every prefix of the graph the builder runs and agrees with the reference on every original name |
| `LoweringTheorem.LoweringPreservesMeaning` | src/clearml_yolo/adapters/export/precision.py:211-236 | for every well-formed graph and environment each original name holds in the rewritten list exactly its value with selected operands and products rounded once |
| `LoweringTheorem.ExactLoweringIsIdentity` | src/clearml_yolo/adapters/export/precision.py:211-236 | with exact rounding the rewritten list equals the original graph on every original name |
| `ConvolutionMeaning.RoundedConvolution` | src/clearml_yolo/adapters/export/precision.py:24-39 | a selected convolution has a value exactly when its attributes are supported and its operands fit; its element at row y and column z is the rounded channel sum at y times the first and z times the second stride attribute, plus the bias |
| `ConvolutionMeaning.ReferenceConvolves` | src/clearml_yolo/adapters/export/precision.py:211-236 | in a graph that writes every name once this holds of the values at the end of the rounded graph |
| `ConvolutionMeaning.LoweredConvolutions` | src/clearml_yolo/adapters/export/precision.py:168-236 | and of the values the rewritten node list leaves under the names of operands and output, for every selected convolution |
| `LoweringStructure.EmitLinked` | src/clearml_yolo/adapters/export/precision.py:101-115 | emitting keeps single assignment, definition before use, and one reader for each private name |
| `LoweringStructure.ProductLinked` | src/clearml_yolo/adapters/export/precision.py:133-139 | a product leaves exactly one open private name, its rounded upcast, and its raw value is read by the half cast right behind it |
| `LoweringStructure.GemmLinked` | src/clearml_yolo/adapters/export/precision.py:147-165 | a lowered Gemm closes every private name and writes only its own output |
| `LoweringStructure.PointwiseLinked` | src/clearml_yolo/adapters/export/precision.py:189-208 | a lowered convolution closes every private name and writes only its own output |
| `LoweringStructure.LoweredGraphWellFormed` | src/clearml_yolo/adapters/export/precision.py:77-139 | the rewritten list is in single-assignment form and definition order, original names are written as often as before, every upcast and raw product introduced has exactly one reader |
| `LoweringStructure.RejectionIsUnsupported` | src/clearml_yolo/adapters/export/precision.py:24-39 | the pass fails exactly when a selected convolution has another kernel, group, padding or dilation, or not two positive strides |
| `GraphBuilding.GraphBuilder.Fresh` | src/clearml_yolo/adapters/export/precision.py:94-99 | the loop returns the first free name and reserves it |
| `GraphBuilding.GraphBuilder.Emit` | src/clearml_yolo/adapters/export/precision.py:101-115 | appends one node writing the given or a fresh name, tagged by the given or a fresh name, as the emission the semantics is proved for |
| `GraphBuilding.GraphBuilder.Vector` | src/clearml_yolo/adapters/export/precision.py:117-121 | emits an integer constant under a fresh name, reserving one more for the tensor |
| `GraphBuilding.GraphBuilder.Scalar` | src/clearml_yolo/adapters/export/precision.py:123-127 | emits a rank-zero constant under a fresh name, reserving one more for the tensor |
| `GraphBuilding.GraphBuilder.QuantizedFloat` | src/clearml_yolo/adapters/export/precision.py:129-131 | emits the two casts whose effect is one rounding per element |
| `GraphBuilding.GraphBuilder.Product` | src/clearml_yolo/adapters/export/precision.py:133-139 | emits the rounded product for which ProductRuns and ProductLinked hold |
| `GraphBuilding.GraphBuilder.LowerMatMul` | src/clearml_yolo/adapters/export/precision.py:142-144 | emits the lowering for which MatMulRuns and MatMulLinked hold |
| `GraphBuilding.GraphBuilder.LowerGemm` | src/clearml_yolo/adapters/export/precision.py:147-165 | emits the lowering for which GemmRuns and GemmLinked hold |
| `GraphBuilding.GraphBuilder.SamplePointwiseInput` | src/clearml_yolo/adapters/export/precision.py:168-180 | emits the sampling for which SampleRuns and SampleLinked hold |
| `GraphBuilding.GraphBuilder.PointwiseOutputShape` | src/clearml_yolo/adapters/export/precision.py:183-186 | emits the shape computation for which OutputShapeRuns holds |
| `GraphBuilding.GraphBuilder.LowerPointwise` | src/clearml_yolo/adapters/export/precision.py:189-208 | a supported convolution is lowered with the strides of its attribute, as the lowering for which the semantics is proved; any other is refused with the builder unchanged |
| `GraphBuilding.Fp16WeightedGraph` | src/clearml_yolo/adapters/export/precision.py:211-236 | the graph gets the specified node list and the number of selected nodes is returned; any refusal leaves the node list unchanged |
| `GraphBuilding.PassPreservesMeaning` | src/clearml_yolo/adapters/export/precision.py:211-236 | the replaced node list of the whole pass computes the rounded graph |
| `DetectionMatching.Iou` | src/clearml_yolo/core/export_quality.py:56-65 | overlap over union of valid boxes lies between zero and one |
| `DetectionMatching.IntersectionIs` | src/clearml_yolo/core/export_quality.py:56-62 | the intersection is the area of the box whose inner points are exactly the common ones, or zero when there is none |
| `DetectionMatching.OverlapIs` | src/clearml_yolo/core/export_quality.py:56-65 | overlap times union is the intersection, the union being both areas less what they share |
| `DetectionMatching.CostSplits` | src/clearml_yolo/core/export_quality.py:93-102 | the total cost is the cost of the selected pairs plus one penalty for each other pair |
| `DetectionMatching.Extend` | src/clearml_yolo/core/export_quality.py:93-100 | every one-to-one matching extends to a complete assignment at no more than the penalty per added pair |
| `DetectionMatching.MaximumCardinality` | src/clearml_yolo/core/export_quality.py:93-102 | a least-cost complete assignment selects as many valid pairs as any one-to-one matching has, under the guard on sizes and required overlap |
| `DetectionMatching.EnoughOverlap` | src/clearml_yolo/core/export_quality.py:78-100 | the guard holds whenever the required overlap is at least the tie weight |
| `DetectionMatching.FewEnough` | src/clearml_yolo/core/export_quality.py:93-98 | the guard holds for up to a billion rows whatever the required overlap |
| `DetectionMatching.LeastCostAmongEqual` | src/clearml_yolo/core/export_quality.py:93-102 | among equally many valid pairs the selected ones have least cost, unconditionally |
| `DetectionMatching.OverlapNearlyBest` | src/clearml_yolo/core/export_quality.py:93-102 | the total overlap of the selected pairs is within the tie weight per pair of the best maximum matching |
| `DetectionMatching.ScoresBreakTies` | src/clearml_yolo/core/export_quality.py:96-98 | equal overlaps are decided by the smaller total score difference |
| `DetectionMatching.SolverChoiceIrrelevant` | src/clearml_yolo/core/export_quality.py:99-102 | all optimal assignments select equally many pairs at equal cost |
| `DetectionMatching.MatchDetections` | src/clearml_yolo/core/export_quality.py:68-105 | malformed rows or a required overlap outside (0, 1] are refused; otherwise matched and unmatched counts add up to both lists and errors are reported exactly when something matched |
| `DetectionMatching.ReportedCountIsMaximum` | src/clearml_yolo/core/export_quality.py:68-105 | the reported count is attained by a valid matching and exceeded by none |
| `DetectionMatching.ReportedErrorsAreExtreme` | src/clearml_yolo/core/export_quality.py:103-105 | every coordinate and every score of a matched pair differs by at most the reported errors, and some pair by exactly that much |
| `MatchingLimits.OptimumExists` | src/clearml_yolo/core/export_quality.py:99-99 | an optimal assignment always exists, so the solver contract can be met |
| `MatchingLimits.ChainBreaks` | src/clearml_yolo/core/export_quality.py:93-98 | without the guard an explicit chain of boxes makes a least-cost assignment give up a pair |
| `MatchingLimits.GuardIsExact` | src/clearml_yolo/core/export_quality.py:93-102 | most pairs are kept on all inputs of given sizes and required overlap if and only if the guard holds |
| `HumanText.CsiLocal` | src/clearml_yolo/core/presentation.py:12-12 | a control sequence is recognised from its own characters alone |
| `HumanText.CutIsExact` | src/clearml_yolo/core/presentation.py:50-50 | removing control sequences piecewise equals removing them from the whole exactly when none is cut |
| `HumanText.LinksSplit` | src/clearml_yolo/core/presentation.py:42-50 | links never span white space |
| `HumanText.ReplaceSplits` | src/clearml_yolo/core/presentation.py:51-51 | references never span white space |
| `HumanText.HumanSplits` | src/clearml_yolo/core/presentation.py:34-51 | text may be rendered in pieces cut after white space unless a control sequence is cut |
| `HumanText.ReplaceIsFinal` | src/clearml_yolo/core/presentation.py:21-51 | with labels that are free and inert, or none, the replaced text contains no opaque reference |
| `HumanText.HumanShowsNoReference` | src/clearml_yolo/core/presentation.py:34-51 | rendered text shows no opaque reference as long as no label is a piece of a dashed identifier that ends or begins at one of its dashes |
| `HumanText.BlankIsFree` | src/clearml_yolo/core/presentation.py:21-24 | a label whose own references were blanked contains none |
| `ReferenceWords.DigitsAreNamed` | src/clearml_yolo/core/presentation.py:21-31 | 64 digits are shown as a checksum, 40 as a revision, 32 as a task, and any other number of digits alone is left unchanged |
| `ReferenceWords.DashedIsReference` | src/clearml_yolo/core/presentation.py:21-31 | a dashed identifier is shown as a reference |
| `ReferenceWords.LabelledIsNamed` | src/clearml_yolo/core/presentation.py:21-24 | a labelled reference is shown as its label when that holds no reference itself |
| `ReferenceWords.LinkIsDescribed` | src/clearml_yolo/core/presentation.py:34-51 | without labels a link is kept when it holds no reference and described when it holds one |
| `ReferenceWords.OverlongIsReported` | src/clearml_yolo/core/presentation.py:109-129 | a token beyond 4096 characters is reported as a long reference instead of being kept |
| `ReferenceWords.OverlongIsDropped` | src/clearml_yolo/core/presentation.py:109-129 | its rest is dropped up to the next white space, from where the filter goes on as at the start |
| `ReferenceWords.CheckpointShows` | src/clearml_yolo/core/presentation.py:131-142 | a checkpoint shows the pending text when no reference can have begun at its end, names a whole reference there, and shows the beginning of one as a reference, dropping its continuation |
| `LabelledText.RenderingIsSafeIff` | src/clearml_yolo/core/presentation.py:21-51 | rendering shows no reference in any text if and only if every label of a reference, its own references blanked, is such an inert word |
| `LabelledText.LabelExposes` | src/clearml_yolo/core/presentation.py:21-51 | for every other label there is a text around its reference that the label completes to a reference |
| `LabelledText.SparseIsInert` | src/clearml_yolo/core/presentation.py:21-24 | a label without four digits in a row is inert and unchanged |
| `LabelledText.OrdinaryLabels` | src/clearml_yolo/core/presentation.py:21-24 | words and small numbers are such labels |
| `HumanTextStreaming.HumanTextStream.FeedText` | src/clearml_yolo/core/presentation.py:109-129 | emits up to the last white space as specified; the pending text never exceeds the limit |
| `HumanTextStreaming.HumanTextStream.CheckpointText` | src/clearml_yolo/core/presentation.py:131-142 | flushes the tail as specified, hiding a possible reference prefix; nothing stays pending |
| `HumanTextStreaming.FeedAllRenders` | src/clearml_yolo/core/presentation.py:109-129 | between chunks the unfinished token is pending and everything before it is rendered |
| `HumanTextStreaming.ChunkInvariance` | src/clearml_yolo/core/presentation.py:104-129 | for every chunking whose unfinished tokens fit the limit, and whose cuts no control sequence spans, the outputs up to a final feed are the rendered whole text |
| `HumanTextStreaming.SpacelessIsClean` | src/clearml_yolo/core/presentation.py:12-12 | control sequences without white space span no cut |
| `ChunkCuts.FeedAllPieces` | src/clearml_yolo/core/presentation.py:109-129 | however the text is cut the filter renders the pieces between the last white spaces, one after the other |
| `ChunkCuts.ChunkCutsAreExact` | src/clearml_yolo/core/presentation.py:109-129 | for every chunking, before names are substituted, the cleaned pieces add up to the cleaned whole text if and only if no control sequence spans a cut |
| `HumanTextStreaming.SpacedSequenceBreaks` | src/clearml_yolo/core/presentation.py:12-12 | a control sequence with an inner space, cut behind it, is not removed |
| `HumanTextStreaming.HumanSealed` | src/clearml_yolo/core/presentation.py:131-142 | a checkpoint whose text ends in no reference prefix shows none, provided one stripping removed all control sequences |
| `HumanTextStreaming.JoinFree` | src/clearml_yolo/core/presentation.py:96-142 | a reference spans two free texts only when the first ends in its beginning and the second goes on with a digit or dash |
| `CheckpointExposure.MarkExposesIff` | src/clearml_yolo/core/presentation.py:131-142 | behind one checkpoint some continuation completes a reference if and only if nothing is being dropped and what was shown ends in the beginning of one: at most 63 digits, or part of a dashed identifier |
| `CheckpointExposure.ExposureIsExact` | src/clearml_yolo/core/presentation.py:96-142 | for every run of chunks, overlong tokens and checkpoints: no continuation at any moment shows an opaque reference if and only if no checkpoint leaves such an end open |
| `CheckpointExposure.NoReferenceExposed` | src/clearml_yolo/core/presentation.py:96-142 | when no checkpoint leaves an open end the text shown up to a final feed has no opaque reference, not even one split over chunks |
| `CheckpointExposure.CleanMarkCloses` | src/clearml_yolo/core/presentation.py:131-142 | a checkpoint leaves no open end whenever one pass removed all control sequences from the pending text |
| `CheckpointExposure.ChunksExposeNothing` | src/clearml_yolo/core/presentation.py:96-129 | without checkpoints what the filter releases shows no reference, unconditionally |
| `CheckpointExposure.NestedSequencesExpose` | src/clearml_yolo/core/presentation.py:131-142 | at nested control sequences a checkpoint shows the first digits of a reference and the next feed completes it |
| `HumanLabels.IssueKeeps` | src/clearml_yolo/core/presentation.py:54-74 | issuing keeps earlier aliases, distinct sources keep distinct aliases and a reserved spelling stands only for itself |
| `HumanLabels.ReadableKeepsSpelling` | src/clearml_yolo/core/presentation.py:62-74 | a reserved source that is its own readable text keeps its spelling |
| `HumanLabels.HumanLabelRegistry.Label` | src/clearml_yolo/core/presentation.py:62-74 | the suffix loop issues the first free alias and every earlier alias is stable |
| `HumanLabels.HumanLabelsOf` | src/clearml_yolo/core/presentation.py:89-93 | every source gets a distinct alias and readable sources keep their own |
| `HumanLabels.ResolveKeeps` | src/clearml_yolo/core/presentation.py:77-86 | resolving keeps all earlier destinations |
| `HumanLabels.DestinationsDistinct` | src/clearml_yolo/core/presentation.py:77-86 | different title and series pairs never share a destination |
| `Utf8.DecodeLosesNothing` | src/clearml_yolo/adapters/clearml/console_worker.py:27-36 | decoded characters and waiting bytes re-encode to exactly the input bytes, malformed ones included; at most three bytes wait |
| `Utf8.DecodeSplits` | src/clearml_yolo/adapters/clearml/console_worker.py:46-49 | decoding piece by piece with the waiting bytes carried over decodes the whole |
| `Utf8.ValidIffNoEscapes` | src/clearml_yolo/adapters/clearml/console_worker.py:27-36 | well-formed UTF-8 is exactly what decodes without escaped bytes and without a rest |
| `PublishedText.RemovalShowsIff` | src/clearml_yolo/adapters/clearml/console_worker.py:54-54 | removing control sequences from a text brings a reference to light if and only if one is spelled across the control sequences of the text |
| `PublishedText.SecondRemovalIff` | src/clearml_yolo/adapters/clearml/console_worker.py:54-54 | the second removal changes what was rendered from decoded text if and only if the first left a control sequence, or the name of a reference completes one |
| `PublishedText.MessagesShowIff` | src/clearml_yolo/adapters/clearml/console_worker.py:54-57 | some reported line of a text shows a reference if and only if one stands in the text where no carriage return drops it |
| `ReportedLines.LineByLine` | src/clearml_yolo/adapters/clearml/console_worker.py:54-57 | what is reported of a line and of the text behind its newline is what is reported of the line, then of the text |
| `ReportedLines.OneLine` | src/clearml_yolo/adapters/clearml/console_worker.py:54-57 | of a line without newline what stands behind its last carriage return is reported, unless that is empty |
| `ReportedLines.ReportsIff` | src/clearml_yolo/adapters/clearml/console_worker.py:54-57 | the reported lines are exactly, in the order of the text, the nonempty parts behind the last carriage return of each of its lines |
| `ReportedLines.NothingLostOrMoved` | src/clearml_yolo/adapters/clearml/console_worker.py:54-57 | put together they are the characters of the text, in order, that are no line ends and that no later carriage return of their line drops |
| `PublishedText.ReportedShowsIff` | src/clearml_yolo/adapters/clearml/console_worker.py:54-57 | some reported line of a released text shows a reference if and only if one is spelled across control sequences where no carriage return drops it |
| `PublishedReading.ReadIs` | src/clearml_yolo/adapters/clearml/console_worker.py:49-57 | reading the decoded text in one pass, over control sequences left and references as their names, reads the twice cleaned text |
| `PublishedReading.PublishedShowsIff` | src/clearml_yolo/adapters/clearml/console_worker.py:49-57 | text rendered from decoded text shows a reference once published if and only if reading the decoded text, cleaned once and with its links named, spells one |
| `PublishedReading.DecodedShowsIff` | src/clearml_yolo/adapters/clearml/console_worker.py:49-57 | some reported line shows a reference if and only if that reading spells one that no carriage return drops |
| `PublishedText.NestedHalvesJoin` | src/clearml_yolo/adapters/clearml/console_worker.py:49-57 | two halves of an identifier around nested control sequences, in one chunk without checkpoints, are released apart and reported as one |
| `PublishedText.NamedReferenceJoins` | src/clearml_yolo/adapters/clearml/console_worker.py:49-57 | without any control sequence in the input, the name of a reference behind an escape completes one, and its removal makes a reference of the digits before it |
| `ConsoleDelivery.ReportedIff` | src/clearml_yolo/adapters/clearml/console_worker.py:46-57 | some reported line of a payload shows a reference if and only if the released text spells one across control sequences where no carriage return drops it |
| `ConsoleDelivery.PublishKeepsTail` | src/clearml_yolo/adapters/clearml/console_worker.py:46-57 | what stays pending is exactly the end of the bytes read; final and settled checkpoint publications leave nothing |
| `ConsoleDelivery.BatchKeepsAccount` | src/clearml_yolo/adapters/clearml/console_worker.py:81-139 | after any batch the pending bytes are exactly the last ones read, reading continues where it stopped and the receipt does not decrease |
| `ConsoleDelivery.AttachAccounted` | src/clearml_yolo/adapters/clearml/console_worker.py:208-210 | a worker that attaches at a saved receipt starts with a balanced account |
| `ConsoleDelivery.ReceiptsNeverDecrease` | src/clearml_yolo/adapters/clearml/console_worker.py:211-237 | for every sequence of appends and batches the account balances and receipts never decrease |
| `ConsoleDelivery.BarrierSettles` | src/clearml_yolo/adapters/clearml/console_worker.py:60-78 | a barrier batch ends without an unfinished character exactly when one ends within three bytes of the watermark |
| `ConsoleDelivery.BarrierAcknowledges` | src/clearml_yolo/adapters/clearml/console_worker.py:116-136 | a settled barrier acknowledges at least its watermark with nothing pending |
| `ConsoleDelivery.UnsettledStaysBelow` | src/clearml_yolo/adapters/clearml/console_worker.py:60-78 | an unsettled barrier that drops nothing stays below its watermark |
| `ConsoleDelivery.BarrierIsExact` | src/clearml_yolo/adapters/clearml/console_worker.py:60-136 | for every console, log and watermark: the barrier reaches it if and only if a character ends within three bytes, or the filter drops an overlong token and no more bytes wait than were read past the watermark |
| `ConsoleDelivery.UnsettledOnlyFeeds` | src/clearml_yolo/adapters/clearml/console_worker.py:60-136 | a barrier that does not settle has read up to three bytes past its watermark and done nothing but decode and feed |
| `ConsoleLogs.ValidSettles` | src/clearml_yolo/adapters/clearml/console_worker.py:60-78 | in well-formed text every watermark is settled within three bytes unless it lies in an unfinished last character |
| `ConsoleLogs.RunInStep` | src/clearml_yolo/adapters/clearml/console_worker.py:211-237 | along every run the waiting bytes are the unfinished character of the log read so far |
| `ConsoleLogs.ValidBarrier` | src/clearml_yolo/adapters/clearml/console_worker.py:60-136 | on a log that is well-formed since the worker attached, a barrier acknowledges its watermark if and only if that does not lie in an unfinished character at the end of the log |
| `ConsoleLogs.ReleasedIsAcknowledged` | src/clearml_yolo/adapters/clearml/console_worker.py:91-139 | along every run of appends and batches without barriers the released text is the rendering of exactly the characters whose bytes the receipt acknowledges |
| `ReportedLines.BatchInOrder` | src/clearml_yolo/adapters/clearml/console_worker.py:46-136 | a batch reports the lines of what the payload releases, then of what each byte beyond the watermark releases |
| `ReportedLines.RunInOrder` | src/clearml_yolo/adapters/clearml/console_worker.py:211-237 | along every run of appends, batches and barriers the task log shows the lines of the released texts one text after the other |
| `ReportedLines.ReportedIsAcknowledged` | src/clearml_yolo/adapters/clearml/console_worker.py:91-139 | without barriers these are the lines of consecutive pieces of the rendering of exactly the characters the receipt acknowledges |
| `ConsoleDelivery.MalformedNeverSettles` | src/clearml_yolo/adapters/clearml/console_worker.py:60-78 | malformed bytes can keep a watermark unacknowledged although the log goes on |
| `ConsoleDelivery.FinalBatch` | src/clearml_yolo/adapters/clearml/console_worker.py:91-136 | a final batch that reaches its watermark leaves nothing pending |
| `ConsolePublisher.ConsoleStream.PendingBytes` | src/clearml_yolo/adapters/clearml/console_worker.py:31-35 | the number of bytes read but not published |
| `ConsolePublisher.ConsoleStream.PublishText` | src/clearml_yolo/adapters/clearml/console_worker.py:46-57 | the stream object moves as specified; what is shown are, in order, the nonempty parts behind the last carriage return of each line of the released text without control sequences |
| `ConsolePublisher.ConsoleStream.CompleteCharacter` | src/clearml_yolo/adapters/clearml/console_worker.py:60-78 | the bounded loop equals its specification |
| `ConsolePublisher.ConsoleStream.PublishLog` | src/clearml_yolo/adapters/clearml/console_worker.py:91-136 | one batch of one log as specified; the receipt is what was read less what is pending |
| `ConsolePublisher.ScalarsAdvance` | src/clearml_yolo/adapters/clearml/console_worker.py:99-116 | lines that from the offset on end in a newline within one read advance the journal receipt, and what is left still does |
| `ConsolePublisher.JournalDeliveredIff` | src/clearml_yolo/adapters/clearml/console_worker.py:99-116 | the final batches bring the journal receipt to its watermark if and only if every line from the current offset on ends in a newline within one read |
| `ConsolePublisher.UnfinishedJournalRefused` | src/clearml_yolo/adapters/clearml/console_worker.py:101-103 | a journal whose last line has no newline is refused |
| `ConsolePublisher.LongLineStalls` | src/clearml_yolo/adapters/clearml/console_worker.py:99-116 | a line longer than one read makes no progress |
| `ConsolePublisher.Publisher.FinalBatch` | src/clearml_yolo/adapters/clearml/console_worker.py:211-226 | a final batch over all logs is refused exactly when the journal is; it reports the lines of standard output, then those of standard error; while the journal's lines fit, some receipt comes nearer to its watermark unless all are there |
| `ConsolePublisher.Publisher.PublishFinal` | src/clearml_yolo/adapters/clearml/console_worker.py:211-237 | the final loop ends with every receipt equal to its watermark whenever the journal can reach its own, and the task log has grown by the lines of its batches in order |
| `PreviewWorkers.StepKeeps` | src/clearml_yolo/adapters/documentation/worker.py:35-78 | every locked step and every exit keeps ownership, slots, directories and closers consistent |
| `PreviewWorkers.SignalsOnlyUnreaped` | src/clearml_yolo/adapters/documentation/worker.py:118-125 | in every interleaving a process group is signalled only while its leader is unreaped |
| `PreviewWorkers.ReapedIsSignalled` | src/clearml_yolo/adapters/documentation/worker.py:118-176 | no leader is reaped without a signal to its group in the same step |
| `PreviewWorkers.DirectoriesRemovedOnce` | src/clearml_yolo/adapters/documentation/worker.py:63-71 | no directory is removed twice; exactly the unregistered processes have lost theirs |
| `PreviewWorkers.RemovedAfterReaping` | src/clearml_yolo/adapters/documentation/worker.py:63-71 | a directory is removed only after its leader was reaped |
| `PreviewWorkers.AtMostTwoAndTimeouts` | src/clearml_yolo/adapters/documentation/worker.py:35-61 | at most two workers are registered plus one for each stop that timed out |
| `PreviewWorkers.AtMostTwoMore` | src/clearml_yolo/adapters/documentation/worker.py:35-61 | from any state on, without further timeouts, at most two more are registered than were abandoned so far |
| `PreviewWorkers.TwoMoreReached` | src/clearml_yolo/adapters/documentation/worker.py:35-61 | from every open state exactly that many can be registered without a further timeout |
| `PreviewWorkers.ThirdWorkerIsExact` | src/clearml_yolo/adapters/documentation/worker.py:35-61 | from an open state a third worker can be registered without a further timeout if and only if some stop has timed out |
| `PreviewWorkers.AtMostTwo` | src/clearml_yolo/adapters/documentation/worker.py:35-61 | without a timed-out stop at most two workers are registered |
| `PreviewWorkers.ThirdWorker` | src/clearml_yolo/adapters/documentation/worker.py:118-125 | three registered workers are reachable |
| `PreviewWorkers.CloseIsFinal` | src/clearml_yolo/adapters/documentation/worker.py:73-78 | once close has returned none is registered, none can start and every directory is gone |
| `PreviewWorkers.QuietMeansClean` | src/clearml_yolo/adapters/documentation/worker.py:35-78 | when all requests are done and none was abandoned nothing is left behind |
| `SplitAssignment.Best` | scripts/severstal.py:209-227 | the first best candidate: fits, helps and comes before none; none exactly when no group fits and helps |
| `SplitAssignment.OffersPositive` | scripts/severstal.py:204-222 | the rarity weights never divide by zero |
| `SplitAssignment.CoverIsSound` | scripts/severstal.py:199-230 | a successful pass stays within its capacity, covers everything missing and loses no group |
| `SplitAssignment.CoverIsGreedy` | scripts/severstal.py:217-228 | at every turn the key taken is the best of the keys left, for the room left and the features still missing |
| `SplitAssignment.CoverFeatures` | scripts/severstal.py:199-230 | the loop equals the specified greedy pass |
| `SplitChoices.OffersCounts` | scripts/severstal.py:204-204 | the rarity of a feature is the number of groups that have it |
| `SplitChoices.CoverTakesLeader` | scripts/severstal.py:199-230 | at every turn the group taken fits, has something missing, and leads all such groups left: by the sum, over the five features missing and present, of one over the number of groups offering it, then by fewer images, then by hash |
| `SplitChoices.CoveragePasses` | scripts/severstal.py:243-246 | validation is covered first, then testing, then training, each from the groups the earlier ones left |
| `SplitChoices.CoverageLeads` | scripts/severstal.py:199-246 | so each covering group leads, at its turn, every group that fits and helps and is not yet taken, whatever split that one ends in |
| `SplitChoices.TargetsAre` | scripts/severstal.py:240-242 | a tenth of the images rounded down for validation and for testing each, the rest for training |
| `SplitChoices.CountsAre` | scripts/severstal.py:246-256 | the bookkeeping counts the images of the chosen groups, all of them and those with a feature |
| `SplitChoices.ChoiceIsRightful` | scripts/severstal.py:277-301 | among the splits with room the chosen one has the largest sum, over the group's features, of its share less the part of the feature's images it has, then the largest free part of its target, then comes first of train, val, test; without room it exceeds its target least, the first among equals |
| `SplitChoices.RightfulUnique` | scripts/severstal.py:277-301 | no other split meets that description |
| `SplitChoices.SingleFeature` | scripts/severstal.py:291-301 | a group with one feature goes to the split with room whose count of it falls furthest short of its share of the total |
| `SplitChoices.FillIsRightful` | scripts/severstal.py:254-268 | every remaining group ends in the split that is rightful when its turn comes |
| `SplitChoices.AssignedRightfully` | scripts/severstal.py:233-301 | so does every image of such a group in the final assignment |
| `SplitFilling.FillKeeps` | scripts/severstal.py:254-268 | filling loses no group, counts every image once and never uncovers a split |
| `SplitFilling.ExactIffAlwaysRoom` | scripts/severstal.py:254-301 | sizes come out exactly on target if and only if every remaining group found room at its turn |
| `SplitFilling.SingletonsAlwaysFit` | scripts/severstal.py:277-287 | groups of one image always find room |
| `DatasetSplits.GroupUpIs` | scripts/severstal.py:233-238 | the groups hold exactly the records, each under its own digest |
| `DatasetSplits.SortedIsInOrder` | scripts/severstal.py:254-260 | the remaining groups are placed rarest first |
| `SplitChoices.RarestFirst` | scripts/severstal.py:254-260 | the remaining groups are placed by the number of images with their rarest feature, equal ones by hash |
| `DatasetSplits.CoveringIsSound` | scripts/severstal.py:240-246 | coverage stays within every target, covers every feature in every split and keeps every group once |
| `DatasetSplits.AssignmentIsGood` | scripts/severstal.py:233-274 | every image gets exactly one split, equal pixels share a split and every split covers all classes and background |
| `DatasetSplits.SizesExactIff` | scripts/severstal.py:233-274 | split counts equal the targets if and only if no remaining group had to overflow |
| `DatasetSplits.DistinctContentIsExact` | scripts/severstal.py:233-274 | without duplicate content the counts equal the targets |
| `DuplicateContent.CoveringTakesTwos` | scripts/severstal.py:240-246 | with three single groups of each kind every coverage pass succeeds and takes two images |
| `DuplicateContent.PairCanBeExact` | scripts/severstal.py:233-274 | a dataset of twenty images, two with equal pixels, is assigned with every size exactly on target |
| `DuplicateContent.PairsMissTargets` | scripts/severstal.py:233-289 | a dataset of thirty images in which only six are unique is assigned, but with sizes off target |
| `DatasetSplits.Assign` | scripts/severstal.py:233-274 | the program equals the specified assignment and delivers its guarantees |
| `DatasetSplits.SampleSplit` | scripts/severstal.py:313-325 | exactly the requested number of images of one split, every feature among them: the coverage pass and, of the rest, those of smallest hash |
| `DatasetSplits.SelectSmoke` | scripts/severstal.py:304-326 | exactly the requested size from every split with full coverage, filled up by smallest hash, and nothing else; refused for nonpositive sizes, splits that are too small and splits the coverage pass fails on |
| `RunLength.Decode` | scripts/severstal.py:70-92 | the mask is set exactly on the runs; sizes that are not positive, odd counts and runs that are not positive, sorted, disjoint and inside are refused |
| `RunLength.AreaIsTotalLength` | scripts/severstal.py:80-92 | the mask has as many pixels as the runs are long together |

## Left out

* Batch search: diagnostic texts are modelled only as empty or not; the memory fraction is a real number with floor
  instead of a floating-point one; the legacy catalogue schema, JSON and the validators of profile fields are not modelled.
* SHA-256 and `estimate_key`: the key is the tuple of compatible data itself, so equal keys mean equal data.
* Case scheduler: a launch that fails other than with an operating-system or runtime error aborts the run and is not
  modelled; reading and rewriting a stored case on failure is one atomic step; the order of records in the store and ties
  between equal devices are not modelled; requests whose maximum global batch is below one grid step make the source
  raise while building the record and are excluded (`CaseProtocol.Feasible`).
* CaseScheduler.Scheduler.Run: worker saves happen between any two offers, receipts and polls inside the loop; saves inside the steps themselves are covered by the step lemmas.
* Graph lowering: node selection and attention outputs are an input (`Graph.selected`); ONNX subgraphs, sparse
  initializers, IEEE rounding and empty selections by Slice are not modelled.
* LoweringTheorem.LoweringPreservesMeaning: starts from a reference run that has a value for every name; graphs on which the reference itself is undefined are not compared.
* Detection matching: boxes and scores are real numbers; the quality gate on mAP is not modelled.
* Console delivery: the replacement of escaped bytes by U+FFFD before the second removal touches no ASCII character and is
  not modelled; the sink (including an unconfirmed flush, which ends the worker) is the list of reported messages; JSON of
  the scalar journal is not parsed.
* HumanLabels.ResolveKeeps: the registry of titles and series is a value, not an object of objects.
* Text patterns are hand-written matchers instead of regular expressions; code points are integers.
* Preview workers: request payloads, pipes, output limits and deadlines only decide when a thread leaves `Working`;
  a directory removal that fails is not modelled.
* Dataset splits: records are taken in the given order (the source sorts them by name, which only decides ties between
  equal hash keys); hash keys are an arbitrary function; the running counters of `assign_splits` are recomputed from the
  chosen groups; connected components, CSV files, manifests and images are not modelled.
* ClearML sessions and uploads, asset downloads, release scripts, training and TensorRT code, the documentation server,
  command lines and reports are not part of this model.
