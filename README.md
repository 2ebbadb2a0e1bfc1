# A verified model of the batch driver of run_pretrained_openfold.py

`run_pretrained_openfold.py` runs every loaded OpenFold model over every FASTA target in a
directory. Around calls into the data pipeline, the network, relaxation and the structure
writers, it has a small layer of integer, list and map logic. This project models that layer
in Dafny and proves what it guarantees.

- **Length bucketing** (`seqlen.dfy`, module `SeqLen`). `round_up_seqlen` rounds a residue
  count up to the next multiple of `TRACING_INTERVAL` (50). It is integer ceiling division on
  naturals.
- **Alignment statistics** (`msa_stats.dfy`, module `MsaStats`). This is `get_msa_stats`.
  - An alignment view is an integer token tensor: 2-D for the unsampled "total" alignment, and
    3-D with one slice per recycling iteration for the used and extra alignments.
  - For each iteration it drops rows made only of the padding token 0.
  - It splits the columns at `seq_length_1` and calls a chain present when its part of the row
    is not all gap tokens (21).
  - It counts paired rows and the two kinds of unpaired rows.
  - The two shape assertions are modelled as `Err(ShapeMismatch)`.
  - The loop that fills the table is the method `GetMsaStats`, proved equal to the function
    `MsaStatsTable`.
- **Target catalog** (`catalog.dfy`, module `Catalog`). This is `list_files_with_extensions`,
  the scan over the FASTA files and the stable sort by total sequence length.
  - The directory listing is a parameter.
  - `parse_fasta` is an opaque function from file name to `(tags, seqs)`.
  - The scan is the method `CollectTargets`.
  - The sort is an insertion sort, proved sorted, a permutation and stable. The stability proof
    fixes its output uniquely (`SortedStableUnique`).
- **Batch driver** (`driver.dfy`, module `Driver`). These are the nested loops over models and
  targets, as the methods `RunBatch`, `ProcessTarget`, `FetchFeatures`, `TraceThenWrite` and
  `WriteResults`. Each is proved equal to a pure function (`RunModels`, `StepTarget`, `Fetch`,
  `TraceAndWrite`, `WriteOutcome`).
  - The state that outlives a target is a `State` value: the `feature_dicts` cache,
    `cur_tracing_interval`, and `rounded_seqlen`. `rounded_seqlen` is `None` until first
    assigned; reading it while unassigned raises.
  - Each pass through the try block leaves a `Visit` record: the model and position, whether
    features were generated or taken from the cache, the trace taken, the statistics report,
    which outputs were written, and the stage that raised, if any.
  - Every collaborator lives in an `Env` value: feature generation, padding, feature processing,
    the recycle count that inference reports, and an oracle saying at which
    (model, position, stage) an external step raises.
- **Properties of the driver** (`driver_properties.dfy`, module `DriverProperties`). A
  specification of one pass (`StepSpec`) and loop invariants (`LogInv`, `CacheInv`, `TraceInv`,
  `ModelInv`, `MonotoneInv`, `MatchInv`). From these, whole-run theorems over any environment,
  any list of models and any worklist:
  - every (model, target) pair is visited in row-major order;
  - features are generated at most once per tag unless the earlier generation raised before the
    record was cached;
  - the cache holds only prepared records;
  - traced buckets strictly increase within a model and are multiples of 50;
  - in monomer mode no pass gets past the two-chain unpacking at line 351.
- **The stale tracing bucket** (`stale_bucket.dfy`, module `StaleBucket`). A concrete run that
  exhibits the finding below, and the proof that the corrected rule fixes it.

The tracing check is parametrised by `BucketRule`:

- `CarriedOver` is the code as written. It compares `rounded_seqlen`, which only a cache miss
  assigns.
- `CurrentTarget` is the corrected rule. It compares the bucket of the features the current pass
  uses.

All driver lemmas hold for both rules unless they name one.

Three points where the code does something other than its messages and names suggest; the
model follows the code:

- Outside multimer mode, line 283 skips a FASTA file whenever it has a number of records other
  than one, including zero. The message printed at lines 284-286 speaks only of a file that
  "contains more than one sequence".
- The tracing check at line 379 compares `rounded_seqlen`, which only the cache-miss branch
  assigns (lines 324-326). On a cache hit it holds the bucket of the last target generated, not
  that of the current target.
- The unrelaxed structure is written at lines 408-412, before relaxation and saving (lines
  414-457). A target that then fails in relaxation or in saving has left its file behind.

With tracing on, padding may also break the statistics of a dimer. `pad_feature_dict_seq` is
not part of this model, so this rests on two assumptions about it and about feature generation:
that padding widens the unsampled alignment ("msa") to the bucket length, and that the record's
residue count is the two chains' lengths added together. Under both, a fresh dimer whose chains
do not add up to a multiple of 50 is padded to the next bucket; its unsampled alignment is then
wider than the two chains, its statistics fail the assertion at line 81, and the target raises
before inference. `DriverProperties.PaddedDimerFailsStatistics` proves this with the two
assumptions as preconditions.

## Model

| member | source | states |
|---|---|---|
| SeqLen.RoundUpSeqlen | run_pretrained_openfold.py:156-157 | the result is a multiple of 50, at least the input, and less than the input plus 50 |
| SeqLen.RoundUpIsLeast | run_pretrained_openfold.py:156-157 | no multiple of 50 that is at least the input is smaller than the result |
| SeqLen.RoundUpIdempotent | run_pretrained_openfold.py:156-157 | rounding an already rounded length changes nothing |
| SeqLen.RoundUpMonotonic | run_pretrained_openfold.py:156-157 | a longer sequence never gets a smaller bucket |
| MsaStats.ColumnNames | run_pretrained_openfold.py:90 | there are three column names, each beginning with the prefix |
| MsaStats.SliceAt | run_pretrained_openfold.py:75 | the slice `all_msa[:, :, i]` has the tensor's rows and columns, and entry [r][c] is entry [r][c][i] of the tensor |
| MsaStats.KeptRowsMembers | run_pretrained_openfold.py:76-77 | a row survives the mask exactly when it holds a non-padding token; no row is added |
| MsaStats.RowCounts | run_pretrained_openfold.py:85-89 | a row is paired iff both chains are present, unpaired in chain 1 iff only chain 1 is, unpaired in chain 2 iff only chain 2 is; it is counted at most once |
| MsaStats.TallyIdentities | run_pretrained_openfold.py:85-94 | paired + unpaired_chain_1 is the number of rows with chain 1 present, paired + unpaired_chain_2 the number with chain 2 present, and the three counts sum to at most the number of rows |
| MsaStats.IterationIdentities | run_pretrained_openfold.py:76-94 | the same identities for one iteration, over the rows the mask keeps |
| MsaStats.HomoTally | run_pretrained_openfold.py:79-89 | when msa_2 is msa_1 both unpaired counts are zero |
| MsaStats.HomoDegenerates | run_pretrained_openfold.py:79-89 | with if_homo both unpaired counts of an iteration are zero, and paired is the number of kept rows whose chain-1 part is not all gaps |
| MsaStats.KeptRowsAppend | run_pretrained_openfold.py:76-77 | the mask acts row by row: masking a concatenation is concatenating the masked parts |
| MsaStats.ZeroRowIgnored | run_pretrained_openfold.py:76-77 | inserting an all-zero row anywhere leaves an iteration's counts, or its error, unchanged |
| MsaStats.ErrorPersists | run_pretrained_openfold.py:71-84 | once one iteration fails an assertion, every longer run of the loop fails with that error |
| MsaStats.RowsUpToShape | run_pretrained_openfold.py:69-94 | the loop over the first k iterations succeeds iff every one of them does; it then gives k rows, row j being StatsRow(j + 1, counts of iteration j) |
| MsaStats.RowsUpToOk | run_pretrained_openfold.py:71-94 | the loop over the first k iterations succeeds iff none of them raises |
| MsaStats.RowsUpToRows | run_pretrained_openfold.py:69-94 | a successful loop over k iterations gives k rows, row j carrying index j + 1 and the counts of iteration j |
| MsaStats.TableShape | run_pretrained_openfold.py:69-95 | the table succeeds iff every iteration does; it then has exactly num_recycle rows and the three prefixed columns, or no columns at all when num_recycle is 0 (the columns come from the first row written), indexed 1..num_recycle, the row with index k holding the counts of slice k - 1 |
| MsaStats.TableSucceeds | run_pretrained_openfold.py:71-84 | the table succeeds iff num_recycle is 0, or the view has the right dimension for the prefix, enough slices, and a column count that passes the assertion at line 81 or 84 |
| MsaStats.WiderThanChainsFails | run_pretrained_openfold.py:76-81 | an unsampled alignment wider than the two chains together raises the shape assertion of line 81 in the first iteration |
| MsaStats.TotalRowsIdentical | run_pretrained_openfold.py:72-73 | with prefix "total_" every row of the table holds the same counts |
| MsaStats.GetMsaStats | run_pretrained_openfold.py:68-95 | the loop that fills `res` row by row returns MsaStatsTable of its inputs |
| MsaStats.PlantedPattern | run_pretrained_openfold.py:68-95 | on a 4-row tensor with one padding row, one paired row and one row present in each chain alone, the table is the single row (1, 1, 1) |
| MsaStats.PlantedKept | run_pretrained_openfold.py:76-77 | the padding row of that tensor is the only one dropped |
| MsaStats.PlantedRowCounts | run_pretrained_openfold.py:85-89 | each remaining row of that tensor is classified in its own column |
| MsaStats.PlantedTally | run_pretrained_openfold.py:90-94 | the three kept rows count (1, 1, 1) |
| MsaStats.PlantedIteration | run_pretrained_openfold.py:76-94 | the single iteration of that tensor counts (1, 1, 1) |
| Catalog.ListFilesMembers | run_pretrained_openfold.py:195-196 | a name is listed iff it is in the directory and ends in ".fasta" or ".fa"; nothing is added |
| Catalog.Split | run_pretrained_openfold.py:294 | str.split always returns at least one piece |
| Catalog.SplitWithoutSeparator | run_pretrained_openfold.py:294 | a string holding no separator splits into itself |
| Catalog.SplitAtSeparator | run_pretrained_openfold.py:294 | splitting at the first separator gives the part before it followed by the split of the rest |
| Catalog.JoinSplitRoundTrip | run_pretrained_openfold.py:290 | when no chain tag contains '-', splitting the composite tag at '-' gives back the chain tags |
| Catalog.TagCollision | run_pretrained_openfold.py:290 | without that proviso the join is not injective: ["A-B"] and ["A", "B"] give the same tag |
| Catalog.SplitHead | run_pretrained_openfold.py:294 | the first piece of a split is a prefix holding no separator that ends at the first separator or at the end |
| Catalog.StemBeforeFirstDot | run_pretrained_openfold.py:294 | the file stem is the prefix of the name up to the first '.', or the whole name when there is none |
| Catalog.StemCollision | run_pretrained_openfold.py:294 | "x.fasta" and "x.fa" are both FASTA names and both have the stem "x" |
| Catalog.CatalogAppend | run_pretrained_openfold.py:275-294 | a skipped file does not stop the scan: the catalog of a concatenated listing is the concatenation of the catalogs |
| Catalog.CatalogMembers | run_pretrained_openfold.py:275-294 | a target is in the catalog iff some admitted file produced it (composite tag, chain tags, sequences, stem) |
| Catalog.NonMultimerSingleChain | run_pretrained_openfold.py:283-290 | outside multimer mode every catalogued target has exactly one tag, at most one sequence, and the composite tag is that one tag |
| Catalog.CollectTargets | run_pretrained_openfold.py:272-294 | the loop that appends to tag_list, seq_list and file_list returns the catalog of the FASTA files of the listing |
| Catalog.ConsSorted | run_pretrained_openfold.py:296-297 | a target no longer than the head of a sorted worklist can go in front of it |
| Catalog.InsertFacts | run_pretrained_openfold.py:296-297 | one insertion adds exactly that target, and puts either it or the old head first |
| Catalog.InsertSorted | run_pretrained_openfold.py:296-297 | inserting into a sorted worklist keeps it sorted |
| Catalog.InsertWithLength | run_pretrained_openfold.py:296-297 | an insertion puts the new target before every other target of its length and leaves the order of the others unchanged |
| Catalog.SortByLengthSortedPermutation | run_pretrained_openfold.py:296-297 | the worklist is non-decreasing in total sequence length and is a permutation of the catalog |
| Catalog.SortByLengthStable | run_pretrained_openfold.py:296-297 | among targets of equal total length the worklist keeps discovery order |
| Catalog.WithLengthMembers | run_pretrained_openfold.py:296 | the targets of a given length are exactly the members with that sum of chain lengths |
| Catalog.SortedStableUnique | run_pretrained_openfold.py:296-297 | two sorted sequences with the same targets of each length in the same order are equal, so the stable sort's output is determined |
| Catalog.DiscoverTargets | run_pretrained_openfold.py:275-297 | sorted_targets is the sorted catalog: non-decreasing in length and a permutation of the catalogued targets |
| Driver.UnrelaxedSuffix | run_pretrained_openfold.py:403-406 | the suffix is "unrelaxed." plus an extension, ".cif" exactly with cif_output and ".pdb" exactly without |
| Driver.SavedStats | run_pretrained_openfold.py:443-446 | a visit has saved statistics iff it wrote msa_stats.csv and has a report; each saved table keeps the columns and is the prefix of num_recycles rows, or all rows when there are fewer |
| Driver.FetchFeatures | run_pretrained_openfold.py:318-332 | the cache lookup, generation, padding and store return what Fetch says |
| Driver.TraceThenWrite | run_pretrained_openfold.py:378-457 | the tracing check and the output steps return what TraceAndWrite says |
| Driver.FirstRaisingAppend | run_pretrained_openfold.py:387-455 | running two lists of steps in turn stops in the first when one of its steps raises, and otherwise where the second stops |
| Driver.FirstRaisingMeaning | run_pretrained_openfold.py:387-455 | the step found raises and no earlier step does; none is found iff no step raises |
| Driver.OutputStepsInOrder | run_pretrained_openfold.py:387-455 | the first raising output step is found in source order: inference, preparation, the unrelaxed file, relaxation unless skipped, then with save_outputs the directories, metric_dict.pkl, msa_stats.csv and raw_msa.pkl |
| Driver.WriteResults | run_pretrained_openfold.py:387-457 | the output steps, written out as the source's sequence of try-block statements and stopping at the first that raises, return what WriteOutcome says |
| Driver.ProcessTarget | run_pretrained_openfold.py:306-457 | one pass of the try block returns what StepTarget says |
| Driver.RunBatch | run_pretrained_openfold.py:303-463 | the nested loops, with the interval reset per model and a failure skipping only its target, produce the log and state of RunModels |
| Driver.ContainsIffOccurs | run_pretrained_openfold.py:226 | the substring test used for `"multimer" in config_preset` holds iff the part occurs in the string at some index |
| Driver.MultimerPresets | run_pretrained_openfold.py:226 | multimer mode is the preset name containing "multimer": on for "model_1_multimer_v3", off for "model_1" |
| Driver.RunPretrained | run_pretrained_openfold.py:275-463 | discovery, sorting and the batch together produce RunModels over the sorted catalog, with multimer mode on iff the preset name contains "multimer" |
| DriverProperties.WriteOutcomeFacts | run_pretrained_openfold.py:387-457 | the output steps stop at the first that raises; the unrelaxed file is written iff the pass completes or fails in relaxation or a save step; the save steps run only with save_outputs; msa_stats.csv is written iff saving is on and the pass completes or fails only in raw_msa.pkl; a pass completes iff no step it runs raises |
| DriverProperties.WriteOutputsFacts | run_pretrained_openfold.py:387-457 | the output steps change none of the loop variables and nothing of the visit but its outputs and failure |
| DriverProperties.TraceAndWriteFacts | run_pretrained_openfold.py:378-457 | a model is traced iff rounded_seqlen exceeds cur_tracing_interval and tracing does not raise; the interval then becomes that value and otherwise stays; the trace is for the assigned value and sees this pass's features; an unassigned rounded_seqlen raises |
| DriverProperties.FetchFacts | run_pretrained_openfold.py:318-332 | a tag in the cache is a hit that changes nothing; a missing tag is generated and then cached as the prepared (padded when tracing) record unless generation or padding raises; rounded_seqlen changes only on a traced miss, to the bucket of the new record |
| DriverProperties.StepOutcomeOutputs | run_pretrained_openfold.py:305-463 | a pass is for its model and target, with that output directory, and its outputs are as WriteOutcomeFacts describes |
| DriverProperties.StepOutcomeFailures | run_pretrained_openfold.py:305-463 | a target without two chains fails by line 351; a ChainLengths failure means the target lacks two chains; a pass fails only where the environment raises, at line 351, at the statistics step or at an unassigned rounded_seqlen |
| DriverProperties.StepOutcome | run_pretrained_openfold.py:305-463 | a pass is for its model and target; a target without two chains fails by line 351; a pass fails only where the environment raises, at line 351, at the statistics step (when exactly: StepStatsFailure) or at an unassigned rounded_seqlen |
| DriverProperties.StepStatsSaved | run_pretrained_openfold.py:344-365 | a pass with a report has two chains, and its report is the one get_msa_stats computes from the features the pass used (cached on a hit, freshly prepared otherwise), split at the two chain lengths |
| DriverProperties.StepStatsFailureCause | run_pretrained_openfold.py:344-365 | a pass that fails at the statistics step has two chains, and get_msa_stats raises on the features it used |
| DriverProperties.StepStatsFailureReached | run_pretrained_openfold.py:344-365 | a pass that reaches the statistics step with two chains, on features for which get_msa_stats raises, fails at that step |
| DriverProperties.StepStatsFailure | run_pretrained_openfold.py:344-365 | a pass fails at the statistics step iff it reaches it with two chains and get_msa_stats raises on the features it used |
| DriverProperties.StepReportMeansPassed | run_pretrained_openfold.py:344-365 | a pass with a statistics report got past the statistics step |
| DriverProperties.StepPassedMeansReport | run_pretrained_openfold.py:344-365 | a pass that got past the statistics step has a report |
| DriverProperties.StepReportPresent | run_pretrained_openfold.py:344-365 | a pass has a statistics report iff it got past the statistics step |
| DriverProperties.StepStats | run_pretrained_openfold.py:344-365 | every pass meets all three statistics clauses above |
| DriverProperties.StepLookup | run_pretrained_openfold.py:318-320 | a pass that reaches the lookup generates iff the tag is absent, takes the cached record iff it is present, never both |
| DriverProperties.StepCacheUpdate | run_pretrained_openfold.py:321-332 | the cache changes only by storing this target's prepared record, and only when generation and padding succeeded |
| DriverProperties.StepRounded | run_pretrained_openfold.py:324-326 | rounded_seqlen changes only when tracing, only to a multiple of 50, and under the code as written only on a miss, to the new record's bucket |
| DriverProperties.StepTraced | run_pretrained_openfold.py:378-385 | a trace happens exactly when the compared length exceeds the interval and tracing does not raise; the interval then rises to it and otherwise stays; under the corrected rule the bucket is that of the features seen |
| DriverProperties.StepTraceTaken | run_pretrained_openfold.py:378-385 | a trace is for the value of rounded_seqlen, raises the interval to it, and sees the features this pass used; without a trace the interval stays |
| DriverProperties.StepTraceDecision | run_pretrained_openfold.py:378-385 | once tracing is reached with rounded_seqlen assigned, a trace happens iff it exceeds the interval and tracing does not raise; under the corrected rule its bucket is that of the features |
| DriverProperties.StepMeetsSpec | run_pretrained_openfold.py:306-457 | every pass meets the whole one-pass specification |
| DriverProperties.StepKeepsLogInv | run_pretrained_openfold.py:303-306 | appending a pass keeps every logged visit sound (including: a report only with two chains, and exactly when the statistics step was passed) and at position model * targets + position |
| DriverProperties.StepKeepsCacheContents | run_pretrained_openfold.py:318-332 | after a pass the cache holds prepared records of targets with those tags, and exactly the tags of passes that got past line 332 |
| DriverProperties.StepKeepsGeneratesOnce | run_pretrained_openfold.py:318-332 | a pass generates only when no earlier pass cached its tag |
| DriverProperties.StepKeepsHitsFollowCaching | run_pretrained_openfold.py:318-320 | every cache hit follows an earlier pass that cached its tag |
| DriverProperties.PreparedPadded | run_pretrained_openfold.py:324-330 | while tracing, a cached record's residue count is a multiple of 50 |
| DriverProperties.StepKeepsTraceInv | run_pretrained_openfold.py:324-385 | the interval, rounded_seqlen and every traced bucket stay multiples of 50; once something is cached while tracing rounded_seqlen is assigned; a Tracing failure is always one the environment raised |
| DriverProperties.StepKeepsModelInv | run_pretrained_openfold.py:378-385 | within a model the traced buckets strictly increase and never exceed the interval |
| DriverProperties.StepKeepsMatchInv | run_pretrained_openfold.py:378-385 | under the corrected rule every trace's bucket equals the residue count of the features it saw |
| DriverProperties.RunTargetsKeeps | run_pretrained_openfold.py:305-463 | the inner loop keeps all invariants and appends one visit per target |
| DriverProperties.ModelStartKeeps | run_pretrained_openfold.py:304 | resetting cur_tracing_interval to 0 keeps the invariants for the new model |
| DriverProperties.ModelEndKeeps | run_pretrained_openfold.py:303-305 | a finished model's invariants hold for the models so far |
| DriverProperties.ModelKeeps | run_pretrained_openfold.py:303-463 | one model appends one visit per target and keeps every invariant |
| DriverProperties.RunModelsKeeps | run_pretrained_openfold.py:298-463 | the first k models give k * targets visits, and every invariant holds |
| DriverProperties.RunFacts | run_pretrained_openfold.py:298-463 | a whole run gives models * targets visits and every invariant holds |
| DriverProperties.RowMajorUnique | run_pretrained_openfold.py:303-305 | a log position identifies one (model, target) pair |
| DriverProperties.RowMajorBound | run_pretrained_openfold.py:303-305 | every (model, target) pair has a position inside the log |
| DriverProperties.EveryPairVisitedInOrder | run_pretrained_openfold.py:303-463 | whatever raises, visit m * targets + j is model m's pass over target j, with that tag and output directory; a target without two chains fails there by line 351; it has a statistics report only with two chains and exactly when it got past the statistics step |
| DriverProperties.GenerationAtMostOncePerTag | run_pretrained_openfold.py:318-332 | over all models, a tag is generated again only after the earlier generation raised in generation or padding, and every cache hit follows a generation of that tag |
| DriverProperties.CacheHoldsPreparedRecords | run_pretrained_openfold.py:318-332 | after the run, each cached tag maps to the prepared record of a target with that tag |
| DriverProperties.TracingBucketsIncrease | run_pretrained_openfold.py:304-385 | within each model traced buckets strictly increase; they are multiples of 50 and occur only with trace_model; a Tracing failure is never an unassigned rounded_seqlen |
| DriverProperties.NoTwoChainsNoOutputs | run_pretrained_openfold.py:351 | in a sound log over targets none of which has two chains, every pass fails by line 351, is never traced and writes nothing |
| DriverProperties.TwoChainsRequired | run_pretrained_openfold.py:351 | a run over such targets has every pass fail by line 351, untraced, with no structure and no statistics written |
| DriverProperties.MonomerWorklist | run_pretrained_openfold.py:283-297 | outside multimer mode every worklist target has one tag and at most one sequence |
| DriverProperties.NonMultimerNeverCompletes | run_pretrained_openfold.py:283-351 | outside multimer mode every pass of every model fails by line 351, is never traced, and writes neither a structure nor statistics |
| DriverProperties.SavedStatsOnlyOnSuccess | run_pretrained_openfold.py:427-455 | saved statistics belong to a pass that ran with save_outputs, wrote its unrelaxed structure, relaxed as the flags ask, and raised at most in raw_msa.pkl after the CSV |
| DriverProperties.UnrelaxedPathsDistinct | run_pretrained_openfold.py:403-406 | under one model, targets with different file names write their unrelaxed structures to different paths |
| DriverProperties.PaddedDimerFailsStatistics | run_pretrained_openfold.py:322-364 | with tracing on, a freshly generated dimer whose residue count is its chains' total and not a multiple of 50, whose padding widens the unsampled alignment to the bucket, fails its statistics: it raises there, is not traced and writes nothing |
| StaleBucket.CarriedOverTracesWrongLength | run_pretrained_openfold.py:318-385 | as written, a two-model run over dimers of 25 + 25 and 75 + 75 residues traces model 2 at bucket 150 on the 50-residue features of the first target; the 150-residue target then runs without retracing; all four passes have a statistics report and none raises; the preset is a multimer one, so main admits these dimers |
| StaleBucket.FirstModelShort | run_pretrained_openfold.py:318-385 | model 1, 50-residue dimer: a miss, bucket 50, traced for 50, statistics computed, no failure |
| StaleBucket.FirstModelLong | run_pretrained_openfold.py:318-385 | model 1, 150-residue dimer: a miss, bucket 150, traced for 150, statistics computed, no failure |
| StaleBucket.SecondModelShort | run_pretrained_openfold.py:318-385 | model 2, 50-residue dimer: a hit; rounded_seqlen is still 150, so it is traced at 150 on 50-residue features; statistics computed, no failure |
| StaleBucket.SecondModelLong | run_pretrained_openfold.py:318-385 | model 2, 150-residue dimer: a hit, not traced because 150 is not above 150; statistics computed, no failure |
| StaleBucket.FirstModel | run_pretrained_openfold.py:303-385 | model 1 over both dimers: two misses, traced for 50 and then 150, both with statistics and no failure, leaving both records cached and rounded_seqlen at 150 |
| StaleBucket.SecondModel | run_pretrained_openfold.py:303-385 | model 2 after model 1: two hits, the first traced at 150 on 50-residue features, the second not traced, both with statistics and no failure; earlier visits are kept |
| StaleBucket.CurrentTargetTracesMatchFeatures | run_pretrained_openfold.py:378-385 | with the corrected rule every trace of every model is taken for exactly the residue count of its features, a multiple of 50 |

## Left out

- Alignment computation (`precompute_alignments`, lines 98-153) runs external tools. It is one
  stage that may raise (`Alignment`). The rule that the runner is called only when
  `use_precomputed_alignments` is None (line 106) is not modelled.
- File I/O is not modelled:
  - reading the FASTA files and the temporary FASTA files of `generate_feature_dict`;
  - `os.makedirs`;
  - the metric and raw-alignment pickles (lines 434-455).
  Each of these steps that can raise is a stage of the failure oracle: the save block of lines
  427-455 is four stages in order (the two `os.makedirs`, `metric_dict.pkl`, `msa_stats.csv`,
  `raw_msa.pkl`). Of the CSV, only which rows are kept is modelled (`SavedStats`).
- `generate_feature_dict`, `pad_feature_dict_seq` and `process_features` are foreign library
  calls. They are opaque functions of the environment. The record keeps only its residue count
  and its "msa" matrix. `process_features` takes the (model, position) pair, because its
  sampling is random.
- `run_model`, `trace_model_`, `prep_output`, `relax_protein` and the PDB/ModelCIF encoders are
  the network, relaxation and format code. Only whether each raises is modelled. The recycle
  count that inference reports is an opaque function.
- Device placement and `tensor_tree_map` (lines 338-340, 390-391) are tensor plumbing, left out.
- Configuration, argparse, seeding, the torch checks, logging, printing, the traceback and
  timing (lines 40-47, 206-262, 466-593) are left out.
- `load_models_from_command_line` is not part of this model. The loaded models are given as
  their output directories.
- `parse_fasta` is not part of this model. It is a total function, assumed to return no more
  sequences than tags. Reading a file (lines 277-281) happens outside the try block, so an
  error there would stop main; this is not modelled.
- Catalog.NonMultimerSingleChain: promises at most one sequence, not exactly one. A one-record
  file whose record has no sequence is admitted by line 283, and what `parse_fasta` returns for
  it is not part of this model.
- DriverProperties.MonomerWorklist: at most one sequence per target, for the same reason.
- Driver.WriteOutcome: a failure in the PDB or ModelCIF encoder (lines 410, 412) happens after
  `open(..., "w")` at line 408 has created the file. The real run then leaves an empty file
  behind, while the model records `wroteUnrelaxed` as false.
- Driver.WriteOutcome: the same holds for a pickle or CSV writer that raises after its file was
  opened (lines 440, 444, 454): the model records that file as not written. Apart from
  `msa_stats.csv` (`savedStats`), which save-block file is on disk is read off the stage that
  raised, not recorded in a field.
- DriverProperties.SavedStatsOnlyOnSuccess: no longer promises that a pass with saved statistics
  raised nowhere, because `raw_msa.pkl` (lines 448-455) is written after `msa_stats.csv` and may
  raise; it promises that nothing before the CSV raised.
- Two FASTA files whose names differ only in the extension share a stem (`Catalog.StemCollision`),
  so they share an output directory and the later one overwrites the earlier one's files. The
  model's paths show this; it does not model the file system.
- `os.path.join` is modelled as joining with "/". Its handling of absolute components is not
  modelled.
- `os.listdir` order: the listing is a parameter.
- SeqLen.RoundUpSeqlen: models only non-negative lengths, and uses exact integer ceiling
  division in place of `math.ceil` on a float quotient. The two agree for every residue count
  a float represents exactly.
- MsaStats.MsaStatsTable: a 3-D view with prefix "total_" is `Err(ShapeMismatch)`. In torch
  the mask `(batch_msa != 0).any(dim=1)` of a [rows, cols, recycles] tensor has shape
  [rows, recycles], and indexing with it raises unless cols and recycles happen to be equal;
  the model does not single out that case. main never makes such a call. A 2-D
  view with another prefix, or a slice past the last iteration, is `Err(IndexOutOfRange)`, as in
  torch. `res.astype(int)` and the DataFrame index are modelled as the row
  record's index field.
- The `if_homo` flag is always False at line 353. The driver passes false; `MsaStats` keeps the
  parameter so the homo case can be stated.
- Catalog.SortByLength: proved to be the unique stable sort by total length. Python's sort
  algorithm itself is not modelled.

## Findings

| source | as written | input that shows it | evidently intended | confidence | as-written member | corrected member |
|---|---|---|---|---|---|---|
| run_pretrained_openfold.py:378-385 | The tracing check compares `rounded_seqlen`. Only a cache miss assigns it (lines 324-326), and from the second model on every target is a cache hit. | trace_model on, nothing raises, two models, dimers of 25 + 25 and 75 + 75 residues (totals 50 and 150, already multiples of 50, so padding keeps their widths and every statistics table is computed). In model 2 the 50-residue target is traced at bucket 150 with its 50-residue features, and `cur_tracing_interval` becomes 150. The 150-residue target then runs on that trace without retracing. Reaching line 378 in multimer mode also needs line 325, `feature_dict["aatype"].shape[-2]`, not to raise: the feature library must give "aatype" with the residue axis second to last. The feature library is not part of this model; a raise there would be a `FeatureGeneration` failure, which caches nothing and leaves `rounded_seqlen` unchanged. | Compare, and trace for, the bucket of the features the current target uses. | not executed; medium | StaleBucket.CarriedOverTracesWrongLength | StaleBucket.CurrentTargetTracesMatchFeatures |
