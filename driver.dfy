/**
 * The batch driver of main (run_pretrained_openfold.py, the loops over loaded models and sorted
 * targets): a feature cache shared by all models, a per-model tracing interval, the
 * rounded_seqlen variable that survives from one target to the next, and a try/except around
 * each target so that a failure skips only that target.
 *
 * Every external step (directory creation, alignment, feature generation, padding, feature
 * processing, tracing, inference, output preparation, writing, relaxation, saving) is either an
 * opaque function of the environment or may fail according to the environment's oracle.
 */
module Driver {
  import opened Wrappers
  import opened SeqLen
  import opened MsaStats
  import opened Catalog

  /** The steps of one target's body that can raise, in the order they run. */
  datatype Stage =
    | MakeOutputDir | Alignment | FeatureGeneration | Padding | FeatureProcessing | ChainLengths
    | MsaStatistics | Tracing | Inference | PrepOutput | WriteUnrelaxed | Relaxation
    | MakeAnalysisDirs | SaveMetrics | SaveStatsCsv | SaveRawMsa

  function StageIndex(s: Stage): nat {
    match s
    case MakeOutputDir => 0
    case Alignment => 1
    case FeatureGeneration => 2
    case Padding => 3
    case FeatureProcessing => 4
    case ChainLengths => 5
    case MsaStatistics => 6
    case Tracing => 7
    case Inference => 8
    case PrepOutput => 9
    case WriteUnrelaxed => 10
    case Relaxation => 11
    case MakeAnalysisDirs => 12
    case SaveMetrics => 13
    case SaveStatsCsv => 14
    case SaveRawMsa => 15
  }

  /** The steps of the save block, lines 427-455. */
  predicate IsSaveStep(s: Stage) {
    s.MakeAnalysisDirs? || s.SaveMetrics? || s.SaveStatsCsv? || s.SaveRawMsa?
  }

  /** The parts of a feature dictionary the driver looks at: the residue count and the "msa" matrix. */
  datatype FeatureRecord = FeatureRecord(numRes: nat, msa: Matrix)

  /** The parts of the processed features the driver looks at: "true_msa" and "extra_msa". */
  datatype ProcessedFeatures = ProcessedFeatures(trueMsa: Tensor, extraMsa: Tensor)

  /**
   * The command-line flags the loop reads and the collaborators it calls. The model and target
   * of a call are given by their positions, so repeated calls may behave differently; fails says
   * at which (model, position, stage) the step raises.
   */
  datatype Env = Env(
    configPreset: string,
    traceModel: bool,
    cifOutput: bool,
    skipRelaxation: bool,
    saveOutputs: bool,
    generate: Target -> FeatureRecord,
    padMsa: (Matrix, nat) -> Matrix,
    process: (nat, nat, FeatureRecord) -> ProcessedFeatures,
    numRecycles: (nat, nat) -> nat,
    fails: (nat, nat, Stage) -> bool)

  /**
   * Which length the tracing check compares: the value rounded_seqlen last received on a cache
   * miss (the code as written), or the bucket of the features the current target uses.
   */
  datatype BucketRule = CarriedOver | CurrentTarget

  /** A call of trace_model_: the bucket it was logged and recorded for, and the residue count of the features it saw. */
  datatype Trace = Trace(bucket: nat, featureLength: nat)

  /** The three tables of pd.concat in one record. */
  datatype MsaReport = MsaReport(total: StatsTable, retained: StatsTable, extra: StatsTable)

  /** What one pass through the try block did for one (model, target) pair. */
  datatype Visit = Visit(
    model: nat,
    position: nat,
    tag: string,
    outputDir: string,
    generated: bool,
    cacheHit: bool,
    traced: Option<Trace>,
    report: Option<MsaReport>,
    wroteUnrelaxed: bool,
    relaxed: bool,
    savedStats: bool,
    failure: Option<Stage>)

  /** The variables of main that outlive one target. */
  datatype State = State(
    featureDicts: map<string, FeatureRecord>,
    curTracingInterval: nat,
    roundedSeqlen: Option<nat>)

  const InitialState: State := State(map[], 0, None)

  /** The variables after one pass of the try block, and what the pass did. */
  datatype Step = Step(state: State, visit: Visit)

  /** The variables after a run of the loops, and the visits in the order they happened. */
  datatype Run = Run(state: State, visits: seq<Visit>)

  const ExtraPrefix: string := "extra_"

  /** Python's `part in s` on strings: part occurs somewhere in s. */
  predicate Contains(s: string, part: string)
    decreases |s|
  {
    |part| <= |s| && (s[..|part|] == part || Contains(s[1..], part))
  }

  /** part occurs in s starting at index i. */
  predicate OccursAt(s: string, part: string, i: nat) {
    i + |part| <= |s| && s[i..i + |part|] == part
  }

  /** Contains agrees with the reading "part occurs in s at some index". */
  lemma {:induction false} ContainsIffOccurs(s: string, part: string)
    decreases |s|
    ensures Contains(s, part) <==> exists i: nat :: OccursAt(s, part, i)
  {
    if |part| > |s| {
    } else if s[..|part|] == part {
      assert OccursAt(s, part, 0);
    } else {
      var t := s[1..];
      ContainsIffOccurs(t, part);
      if Contains(t, part) {
        var i: nat :| OccursAt(t, part, i);
        assert s[i + 1..i + 1 + |part|] == t[i..i + |part|];
        assert OccursAt(s, part, i + 1);
      }
      if exists i: nat :: OccursAt(s, part, i) {
        var i: nat :| OccursAt(s, part, i);
        assert i != 0;
        assert t[i - 1..i - 1 + |part|] == s[i..i + |part|];
        assert OccursAt(t, part, i - 1);
      }
    }
  }

  /** Line 226: the multimer presets are the ones whose name contains "multimer". */
  lemma MultimerPresets()
    ensures Contains("model_1_multimer_v3", "multimer")
    ensures !Contains("model_1", "multimer")
  {
    assert "model_1_multimer_v3"[8..][..8] == "multimer";
  }

  /** The path separator of os.path.join. */
  function PathJoin(a: string, b: string): string {
    a + "/" + b
  }

  function FinalOutputDir(outputDirectory: string, configPreset: string, fileName: string): string {
    PathJoin(PathJoin(outputDirectory, configPreset), fileName)
  }

  /** Lines 403-406: the unrelaxed structure is written as ModelCIF or as PDB. */
  function UnrelaxedSuffix(cifOutput: bool): (suffix: string)
    ensures |suffix| == 13 && suffix[..10] == "unrelaxed."
    ensures EndsWith(suffix, ".cif") <==> cifOutput
    ensures EndsWith(suffix, ".pdb") <==> !cifOutput
  {
    if cifOutput then "unrelaxed.cif" else "unrelaxed.pdb"
  }

  /** The file the unrelaxed structure of a visit goes to. */
  function UnrelaxedPath(cifOutput: bool, v: Visit): string {
    PathJoin(v.outputDir, UnrelaxedSuffix(cifOutput))
  }

  /** pad_feature_dict_seq: the record grows (never shrinks) to n residues. */
  function Pad(env: Env, rec: FeatureRecord, n: nat): FeatureRecord {
    FeatureRecord(n, env.padMsa(rec.msa, n))
  }

  /** What the cache holds for a target once its features were generated. */
  function Prepared(env: Env, t: Target): FeatureRecord {
    var g := env.generate(t);
    if env.traceModel then Pad(env, g, RoundUpSeqlen(g.numRes)) else g
  }

  /** msa_stats.iloc[:num_recycles] */
  function TakeRows(table: StatsTable, k: nat): StatsTable {
    StatsTable(table.columns, table.rows[..Min(k, |table.rows|)])
  }

  function TakeReport(report: MsaReport, k: nat): MsaReport {
    MsaReport(TakeRows(report.total, k), TakeRows(report.retained, k), TakeRows(report.extra, k))
  }

  /**
   * Lines 443-446: the rows of msa_stats.csv of a visit that wrote that file, cut to the number
   * of recycles the model reported: a prefix of each table, of that length or the whole table.
   */
  function SavedStats(env: Env, v: Visit): (saved: Option<MsaReport>)
    ensures saved.Some? <==> v.savedStats && v.report.Some?
    ensures saved.Some? ==>
      var k := env.numRecycles(v.model, v.position);
      var full := v.report.value;
      && saved.value.total.columns == full.total.columns && saved.value.retained.columns == full.retained.columns
      && saved.value.extra.columns == full.extra.columns
      && |saved.value.total.rows| == Min(k, |full.total.rows|) && saved.value.total.rows <= full.total.rows
      && |saved.value.retained.rows| == Min(k, |full.retained.rows|) && saved.value.retained.rows <= full.retained.rows
      && |saved.value.extra.rows| == Min(k, |full.extra.rows|) && saved.value.extra.rows <= full.extra.rows
  {
    if v.savedStats && v.report.Some? then Some(TakeReport(v.report.value, env.numRecycles(v.model, v.position))) else None
  }

  /** The three get_msa_stats calls of one target; any failing assertion fails the target. */
  function StatsReport(rec: FeatureRecord, proc: ProcessedFeatures, seqLength1: nat, seqLength2: nat): Result<MsaReport, StatsError> {
    var numRecycle := proc.trueMsa.depth;
    var total := MsaStatsTable(Flat(rec.msa), seqLength1, seqLength2, numRecycle, false, TotalPrefix);
    var retained := MsaStatsTable(Stacked(proc.trueMsa), seqLength1, seqLength2, numRecycle, false, "");
    var extra := MsaStatsTable(Stacked(proc.extraMsa), seqLength1, seqLength2, numRecycle, false, ExtraPrefix);
    if total.Err? then Err(total.error)
    else if retained.Err? then Err(retained.error)
    else if extra.Err? then Err(extra.error)
    else Ok(MsaReport(total.value, retained.value, extra.value))
  }

  /** Leave the try block at stage s: the visit failed there and the variables keep what was already done. */
  function Fail(st: State, v: Visit, s: Stage): Step {
    Step(st, v.(failure := Some(s)))
  }

  datatype Fetched = Fetched(state: State, visit: Visit, record: Result<FeatureRecord, Stage>)

  /** Lines 318-332: take the features from the cache, or generate, pad when tracing, and cache them. */
  function Fetch(env: Env, m: nat, j: nat, t: Target, st: State, v: Visit): Fetched {
    if t.tag in st.featureDicts then
      Fetched(st, v.(cacheHit := true), Ok(st.featureDicts[t.tag]))
    else
      var v' := v.(generated := true);
      if env.fails(m, j, FeatureGeneration) then Fetched(st, v', Err(FeatureGeneration))
      else
        var g := env.generate(t);
        if !env.traceModel then
          Fetched(st.(featureDicts := st.featureDicts[t.tag := g]), v', Ok(g))
        else
          var st' := st.(roundedSeqlen := Some(RoundUpSeqlen(g.numRes)));
          if env.fails(m, j, Padding) then Fetched(st', v', Err(Padding))
          else
            var p := Pad(env, g, RoundUpSeqlen(g.numRes));
            Fetched(st'.(featureDicts := st'.featureDicts[t.tag := p]), v', Ok(p))
  }

  /**
   * What the output steps of one pass did: the unrelaxed file, relaxation, whether msa_stats.csv
   * was written, and where they raised.
   */
  datatype OutputOutcome = OutputOutcome(wroteUnrelaxed: bool, relaxed: bool, savedStats: bool, failure: Option<Stage>)

  /**
   * Lines 387-455: the output steps a pass runs, in order: inference, output preparation, the
   * unrelaxed file, relaxation unless skipped and, with save_outputs, the two directories,
   * metric_dict.pkl, msa_stats.csv and raw_msa.pkl.
   */
  function OutputSteps(env: Env): seq<Stage> {
    [Inference, PrepOutput, WriteUnrelaxed]
    + (if env.skipRelaxation then [] else [Relaxation])
    + (if env.saveOutputs then [MakeAnalysisDirs, SaveMetrics, SaveStatsCsv, SaveRawMsa] else [])
  }

  /** The first of the steps, run in order, that raises; None when none does. */
  function FirstRaising(env: Env, m: nat, j: nat, steps: seq<Stage>): Option<Stage> {
    if steps == [] then None
    else if env.fails(m, j, steps[0]) then Some(steps[0])
    else FirstRaising(env, m, j, steps[1..])
  }

  /**
   * The step found raises and no step before it does; none is found exactly when no step
   * raises.
   */
  lemma {:induction false} FirstRaisingMeaning(env: Env, m: nat, j: nat, steps: seq<Stage>)
    ensures var r := FirstRaising(env, m, j, steps);
      && (r.Some? ==> exists k | 0 <= k < |steps| :: steps[k] == r.value && env.fails(m, j, steps[k])
                        && forall i | 0 <= i < k :: !env.fails(m, j, steps[i]))
      && (r.None? <==> forall k | 0 <= k < |steps| :: !env.fails(m, j, steps[k]))
  {
    if steps != [] && !env.fails(m, j, steps[0]) {
      var t := steps[1..];
      FirstRaisingMeaning(env, m, j, t);
      var r := FirstRaising(env, m, j, t);
      if r.Some? {
        var k :| 0 <= k < |t| && t[k] == r.value && env.fails(m, j, t[k]) && forall i | 0 <= i < k :: !env.fails(m, j, t[i]);
        assert steps[k + 1] == t[k];
        forall i | 0 <= i < k + 1 ensures !env.fails(m, j, steps[i]) {
          if i > 0 { assert steps[i] == t[i - 1]; }
        }
      } else {
        forall k | 0 <= k < |steps| ensures !env.fails(m, j, steps[k]) {
          if k > 0 { assert steps[k] == t[k - 1]; }
        }
      }
    } else if steps != [] {
      assert steps[0] == FirstRaising(env, m, j, steps).value;
    }
  }

  /** Running two lists of steps in turn stops in the first if one of its steps raises. */
  lemma {:induction false} FirstRaisingAppend(env: Env, m: nat, j: nat, a: seq<Stage>, b: seq<Stage>)
    ensures FirstRaising(env, m, j, a + b) ==
      if FirstRaising(env, m, j, a).Some? then FirstRaising(env, m, j, a) else FirstRaising(env, m, j, b)
  {
    if a != [] {
      assert (a + b)[1..] == a[1..] + b;
      FirstRaisingAppend(env, m, j, a[1..], b);
    } else {
      assert a + b == b;
    }
  }

  /** The first raising output step, step by step in the order of lines 387-455. */
  lemma OutputStepsInOrder(env: Env, m: nat, j: nat)
    ensures FirstRaising(env, m, j, OutputSteps(env)) ==
      if env.fails(m, j, Inference) then Some(Inference)
      else if env.fails(m, j, PrepOutput) then Some(PrepOutput)
      else if env.fails(m, j, WriteUnrelaxed) then Some(WriteUnrelaxed)
      else if !env.skipRelaxation && env.fails(m, j, Relaxation) then Some(Relaxation)
      else if !env.saveOutputs then None
      else if env.fails(m, j, MakeAnalysisDirs) then Some(MakeAnalysisDirs)
      else if env.fails(m, j, SaveMetrics) then Some(SaveMetrics)
      else if env.fails(m, j, SaveStatsCsv) then Some(SaveStatsCsv)
      else if env.fails(m, j, SaveRawMsa) then Some(SaveRawMsa)
      else None
  {
    var a: seq<Stage> := [Inference, PrepOutput, WriteUnrelaxed];
    var r: seq<Stage> := if env.skipRelaxation then [] else [Relaxation];
    var b: seq<Stage> := if env.saveOutputs then [MakeAnalysisDirs, SaveMetrics, SaveStatsCsv, SaveRawMsa] else [];
    FirstRaisingAppend(env, m, j, a + r, b);
    FirstRaisingAppend(env, m, j, a, r);
    FirstRaisingCons(env, m, j, Inference, [PrepOutput, WriteUnrelaxed]);
    FirstRaisingCons(env, m, j, PrepOutput, [WriteUnrelaxed]);
    FirstRaisingCons(env, m, j, WriteUnrelaxed, []);
    FirstRaisingCons(env, m, j, Relaxation, []);
    FirstRaisingCons(env, m, j, MakeAnalysisDirs, [SaveMetrics, SaveStatsCsv, SaveRawMsa]);
    FirstRaisingCons(env, m, j, SaveMetrics, [SaveStatsCsv, SaveRawMsa]);
    FirstRaisingCons(env, m, j, SaveStatsCsv, [SaveRawMsa]);
    FirstRaisingCons(env, m, j, SaveRawMsa, []);
  }

  lemma FirstRaisingCons(env: Env, m: nat, j: nat, x: Stage, rest: seq<Stage>)
    ensures FirstRaising(env, m, j, [x] + rest) ==
      if env.fails(m, j, x) then Some(x) else FirstRaising(env, m, j, rest)
  {
    assert ([x] + rest)[1..] == rest;
  }

  /**
   * Lines 387-457: the output steps run until one raises. The unrelaxed file is on disk once its
   * step has passed, the structure is relaxed once relaxation has passed, and msa_stats.csv is on
   * disk once its step has passed (only raw_msa.pkl comes after it).
   */
  function WriteOutcome(env: Env, m: nat, j: nat): OutputOutcome {
    var failure := FirstRaising(env, m, j, OutputSteps(env));
    OutputOutcome(
      failure.None? || failure == Some(Relaxation) || IsSaveStep(failure.value),
      !env.skipRelaxation && (failure.None? || IsSaveStep(failure.value)),
      env.saveOutputs && (failure.None? || failure == Some(SaveRawMsa)),
      failure)
  }

  /** The output steps of the pass recorded in v; the variables of main are not touched. */
  function WriteOutputs(env: Env, m: nat, j: nat, st: State, v: Visit): Step {
    var o := WriteOutcome(env, m, j);
    Step(st, v.(wroteUnrelaxed := o.wroteUnrelaxed, relaxed := o.relaxed, savedStats := o.savedStats, failure := o.failure))
  }

  /**
   * Lines 378-385: trace when the remembered bucket exceeds the interval this model was traced
   * for. Reading rounded_seqlen before any assignment raises NameError.
   */
  function TraceAndWrite(env: Env, m: nat, j: nat, st: State, v: Visit, rec: FeatureRecord): Step {
    if !env.traceModel then WriteOutputs(env, m, j, st, v)
    else if st.roundedSeqlen.None? then Fail(st, v, Tracing)
    else if st.roundedSeqlen.value <= st.curTracingInterval then WriteOutputs(env, m, j, st, v)
    else if env.fails(m, j, Tracing) then Fail(st, v, Tracing)
    else
      var r := st.roundedSeqlen.value;
      WriteOutputs(env, m, j, st.(curTracingInterval := r), v.(traced := Some(Trace(r, rec.numRes))))
  }

  /** The body of the try block for target t at position j of the worklist, under model m. */
  function StepTarget(env: Env, rule: BucketRule, m: nat, outputDirectory: string, j: nat, t: Target, st: State): Step {
    var v := Visit(m, j, t.tag, FinalOutputDir(outputDirectory, env.configPreset, t.fileName),
                   false, false, None, None, false, false, false, None);
    if env.fails(m, j, MakeOutputDir) then Fail(st, v, MakeOutputDir)
    else if env.fails(m, j, Alignment) then Fail(st, v, Alignment)
    else
      var f := Fetch(env, m, j, t, st, v);
      if f.record.Err? then Fail(f.state, f.visit, f.record.error)
      else
        var rec := f.record.value;
        var st1 := if rule == CurrentTarget && env.traceModel
                   then f.state.(roundedSeqlen := Some(RoundUpSeqlen(rec.numRes))) else f.state;
        if env.fails(m, j, FeatureProcessing) then Fail(st1, f.visit, FeatureProcessing)
        else if |t.seqs| != 2 then Fail(st1, f.visit, ChainLengths)
        else
          var report := StatsReport(rec, env.process(m, j, rec), |t.seqs[0]|, |t.seqs[1]|);
          if report.Err? then Fail(st1, f.visit, MsaStatistics)
          else TraceAndWrite(env, m, j, st1, f.visit.(report := Some(report.value)), rec)
  }

  /** The inner loop for model m, over the first |targets| entries of the worklist. */
  function RunTargets(env: Env, rule: BucketRule, m: nat, outputDirectory: string, targets: seq<Target>, r: Run): Run
    decreases |targets|
  {
    if targets == [] then r
    else
      var j := |targets| - 1;
      var before := RunTargets(env, rule, m, outputDirectory, targets[..j], r);
      var step := StepTarget(env, rule, m, outputDirectory, j, targets[j], before.state);
      Run(step.state, before.visits + [step.visit])
  }

  /** One model: the tracing interval restarts at 0, the cache and rounded_seqlen carry over. */
  function RunModel(env: Env, rule: BucketRule, m: nat, outputDirectory: string, targets: seq<Target>, r: Run): Run {
    RunTargets(env, rule, m, outputDirectory, targets, r.(state := r.state.(curTracingInterval := 0)))
  }

  /** The outer loop over the loaded models, given by their output directories. */
  function RunModels(env: Env, rule: BucketRule, outputDirs: seq<string>, targets: seq<Target>): Run
    decreases |outputDirs|
  {
    if outputDirs == [] then Run(InitialState, [])
    else
      var m := |outputDirs| - 1;
      RunModel(env, rule, m, outputDirs[m], targets, RunModels(env, rule, outputDirs[..m], targets))
  }

  // ---------------------------------------------------------------------------------------------
  // The loops as written

  /** Lines 318-332 of the try block. */
  method FetchFeatures(env: Env, m: nat, j: nat, t: Target, st: State, v: Visit) returns (f: Fetched)
    ensures f == Fetch(env, m, j, t, st, v)
  {
    if t.tag in st.featureDicts {
      return Fetched(st, v.(cacheHit := true), Ok(st.featureDicts[t.tag]));
    }
    var st', v' := st, v.(generated := true);
    if env.fails(m, j, FeatureGeneration) {
      return Fetched(st', v', Err(FeatureGeneration));
    }
    var featureDict := env.generate(t);
    if env.traceModel {
      var roundedSeqlen := RoundUpSeqlen(featureDict.numRes);
      st' := st'.(roundedSeqlen := Some(roundedSeqlen));
      if env.fails(m, j, Padding) {
        return Fetched(st', v', Err(Padding));
      }
      featureDict := Pad(env, featureDict, roundedSeqlen);
    }
    st' := st'.(featureDicts := st'.featureDicts[t.tag := featureDict]);
    return Fetched(st', v', Ok(featureDict));
  }

  /** Lines 378-457 of the try block: tracing, then the outputs. */
  method TraceThenWrite(env: Env, m: nat, j: nat, st: State, v: Visit, featureDict: FeatureRecord)
    returns (step: Step)
    ensures step == TraceAndWrite(env, m, j, st, v, featureDict)
  {
    var st', v' := st, v;
    if env.traceModel {
      if st'.roundedSeqlen.None? {
        return Fail(st', v', Tracing);
      }
      if st'.roundedSeqlen.value > st'.curTracingInterval {
        if env.fails(m, j, Tracing) {
          return Fail(st', v', Tracing);
        }
        v' := v'.(traced := Some(Trace(st'.roundedSeqlen.value, featureDict.numRes)));
        st' := st'.(curTracingInterval := st'.roundedSeqlen.value);
      }
    }
    var o := WriteResults(env, m, j);
    step := Step(st', v'.(wroteUnrelaxed := o.wroteUnrelaxed, relaxed := o.relaxed, savedStats := o.savedStats, failure := o.failure));
  }

  /** Lines 387-457 of the try block. */
  method WriteResults(env: Env, m: nat, j: nat) returns (o: OutputOutcome)
    ensures o == WriteOutcome(env, m, j)
  {
    OutputStepsInOrder(env, m, j);
    var wroteUnrelaxed, relaxed, savedStats := false, false, false;
    if env.fails(m, j, Inference) {
      return OutputOutcome(wroteUnrelaxed, relaxed, savedStats, Some(Inference));
    }
    if env.fails(m, j, PrepOutput) {
      return OutputOutcome(wroteUnrelaxed, relaxed, savedStats, Some(PrepOutput));
    }
    if env.fails(m, j, WriteUnrelaxed) {
      return OutputOutcome(wroteUnrelaxed, relaxed, savedStats, Some(WriteUnrelaxed));
    }
    wroteUnrelaxed := true;
    if !env.skipRelaxation {
      if env.fails(m, j, Relaxation) {
        return OutputOutcome(wroteUnrelaxed, relaxed, savedStats, Some(Relaxation));
      }
      relaxed := true;
    }
    if env.saveOutputs {
      if env.fails(m, j, MakeAnalysisDirs) {
        return OutputOutcome(wroteUnrelaxed, relaxed, savedStats, Some(MakeAnalysisDirs));
      }
      if env.fails(m, j, SaveMetrics) {
        return OutputOutcome(wroteUnrelaxed, relaxed, savedStats, Some(SaveMetrics));
      }
      if env.fails(m, j, SaveStatsCsv) {
        return OutputOutcome(wroteUnrelaxed, relaxed, savedStats, Some(SaveStatsCsv));
      }
      savedStats := true;
      if env.fails(m, j, SaveRawMsa) {
        return OutputOutcome(wroteUnrelaxed, relaxed, savedStats, Some(SaveRawMsa));
      }
    }
    return OutputOutcome(wroteUnrelaxed, relaxed, savedStats, None);
  }

  /** The try block for one target. */
  method ProcessTarget(env: Env, rule: BucketRule, m: nat, outputDirectory: string, j: nat, t: Target, st: State)
    returns (step: Step)
    ensures step == StepTarget(env, rule, m, outputDirectory, j, t, st)
  {
    var v := Visit(m, j, t.tag, FinalOutputDir(outputDirectory, env.configPreset, t.fileName),
                   false, false, None, None, false, false, false, None);
    if env.fails(m, j, MakeOutputDir) {
      return Fail(st, v, MakeOutputDir);
    }
    if env.fails(m, j, Alignment) {
      return Fail(st, v, Alignment);
    }
    var fetched := FetchFeatures(env, m, j, t, st, v);
    if fetched.record.Err? {
      return Fail(fetched.state, fetched.visit, fetched.record.error);
    }
    var st', v' := fetched.state, fetched.visit;
    var featureDict := fetched.record.value;
    if rule == CurrentTarget && env.traceModel {
      st' := st'.(roundedSeqlen := Some(RoundUpSeqlen(featureDict.numRes)));
    }
    if env.fails(m, j, FeatureProcessing) {
      return Fail(st', v', FeatureProcessing);
    }
    var processed := env.process(m, j, featureDict);
    if |t.seqs| != 2 {
      return Fail(st', v', ChainLengths);
    }
    var seqLength1, seqLength2 := |t.seqs[0]|, |t.seqs[1]|;
    var numRecycle := processed.trueMsa.depth;
    var total := GetMsaStats(Flat(featureDict.msa), seqLength1, seqLength2, numRecycle, false, TotalPrefix);
    var retained := GetMsaStats(Stacked(processed.trueMsa), seqLength1, seqLength2, numRecycle, false, "");
    var extra := GetMsaStats(Stacked(processed.extraMsa), seqLength1, seqLength2, numRecycle, false, ExtraPrefix);
    if total.Err? || retained.Err? || extra.Err? {
      return Fail(st', v', MsaStatistics);
    }
    var msaStats := MsaReport(total.value, retained.value, extra.value);
    step := TraceThenWrite(env, m, j, st', v'.(report := Some(msaStats)), featureDict);
  }

  /**
   * The nested loops of main over the loaded models and the sorted targets. A failed pass is
   * logged and the loop goes on with the next target.
   */
  method RunBatch(env: Env, rule: BucketRule, outputDirs: seq<string>, sortedTargets: seq<Target>)
    returns (st: State, visits: seq<Visit>)
    ensures Run(st, visits) == RunModels(env, rule, outputDirs, sortedTargets)
  {
    st, visits := InitialState, [];
    for m := 0 to |outputDirs|
      invariant Run(st, visits) == RunModels(env, rule, outputDirs[..m], sortedTargets)
    {
      assert outputDirs[..m + 1][..m] == outputDirs[..m];
      st := st.(curTracingInterval := 0);
      ghost var start := Run(st, visits);
      for j := 0 to |sortedTargets|
        invariant Run(st, visits) == RunTargets(env, rule, m, outputDirs[m], sortedTargets[..j], start)
      {
        assert sortedTargets[..j + 1][..j] == sortedTargets[..j];
        var step := ProcessTarget(env, rule, m, outputDirs[m], j, sortedTargets[j], st);
        st, visits := step.state, visits + [step.visit];
      }
      assert sortedTargets[..|sortedTargets|] == sortedTargets;
    }
    assert outputDirs[..|outputDirs|] == outputDirs;
  }

  /** Lines 275-463: discover and sort the targets, then run every model over them. */
  method RunPretrained(env: Env, rule: BucketRule, outputDirs: seq<string>, listing: seq<string>,
                       parse: string -> FastaContents)
    returns (st: State, visits: seq<Visit>)
    ensures var isMultimer := Contains(env.configPreset, "multimer");
      Run(st, visits) == RunModels(env, rule, outputDirs,
                                   SortByLength(CatalogOf(ListFilesWithExtensions(listing), isMultimer, parse)))
  {
    var isMultimer := Contains(env.configPreset, "multimer");
    var sortedTargets := DiscoverTargets(listing, isMultimer, parse);
    st, visits := RunBatch(env, rule, outputDirs, sortedTargets);
  }
}
