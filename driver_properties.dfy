/** What the batch loops of main guarantee, proved about the functions of module Driver. */
module DriverProperties {
  import opened Wrappers
  import opened SeqLen
  import opened MsaStats
  import opened Catalog
  import opened Driver

  /** The visit left the try block at stage s or later, or not at all. */
  predicate Reached(v: Visit, s: Stage) {
    v.failure.None? || StageIndex(v.failure.value) >= StageIndex(s)
  }

  /** The visit got past directory creation and alignment to the cache lookup at line 318. */
  predicate LookedUp(v: Visit) {
    v.failure != Some(MakeOutputDir) && v.failure != Some(Alignment)
  }

  /** The visit generated features and put them in the cache (it got past line 332). */
  predicate Cached(v: Visit) {
    v.generated && v.failure != Some(FeatureGeneration) && v.failure != Some(Padding)
  }

  /** Two records of the same visit agree on what it is about and how it got its features. */
  predicate SameVisit(w: Visit, v: Visit) {
    w.model == v.model && w.position == v.position && w.tag == v.tag && w.outputDir == v.outputDir
    && w.generated == v.generated && w.cacheHit == v.cacheHit
  }

  /** A visit before any output was produced. */
  predicate NoOutputs(v: Visit) {
    v.failure.None? && !v.wroteUnrelaxed && !v.relaxed && !v.savedStats
  }

  /**
   * Lines 387-457 as seen from the finished visit: the unrelaxed file is written exactly when the
   * pass completes or fails in relaxation or a later step; a pass relaxed only after writing and
   * only when relaxation is not skipped; the saving steps run only with save_outputs, after
   * relaxation has done what the flags ask; msa_stats.csv is written exactly when saving is on and
   * the pass completes or fails only in the raw-alignment pickle after it.
   */
  predicate OutputFacts(env: Env, w: Visit) {
    && (w.wroteUnrelaxed <==> w.failure.None? || w.failure == Some(Relaxation) || IsSaveStep(w.failure.value))
    && (w.relaxed ==> w.wroteUnrelaxed && !env.skipRelaxation)
    && (w.failure.Some? && IsSaveStep(w.failure.value) ==> env.saveOutputs && w.relaxed == !env.skipRelaxation)
    && (w.savedStats <==> env.saveOutputs && (w.failure.None? || w.failure == Some(SaveRawMsa)))
    && (w.failure.None? ==> w.relaxed == !env.skipRelaxation)
  }

  /** The output steps stop at the first one that raises, and each raising step is one the environment makes fail. */
  lemma WriteOutcomeFacts(env: Env, m: nat, j: nat)
    ensures var o := WriteOutcome(env, m, j);
      && OutputFacts(env, Visit(0, 0, "", "", false, false, None, None, o.wroteUnrelaxed, o.relaxed, o.savedStats, o.failure))
      && (o.failure.Some? ==> StageIndex(o.failure.value) >= StageIndex(Inference) && env.fails(m, j, o.failure.value))
      && (o.failure.None? <==>
            && !env.fails(m, j, Inference) && !env.fails(m, j, PrepOutput) && !env.fails(m, j, WriteUnrelaxed)
            && (env.skipRelaxation || !env.fails(m, j, Relaxation))
            && (!env.saveOutputs ||
                  (!env.fails(m, j, MakeAnalysisDirs) && !env.fails(m, j, SaveMetrics)
                   && !env.fails(m, j, SaveStatsCsv) && !env.fails(m, j, SaveRawMsa))))
  {
    OutputStepsInOrder(env, m, j);
  }

  lemma WriteOutputsFacts(env: Env, m: nat, j: nat, st: State, v: Visit)
    ensures var s := WriteOutputs(env, m, j, st, v);
      && s.state == st
      && var w := s.visit;
      && SameVisit(w, v) && w.traced == v.traced && w.report == v.report && LookedUp(w) && OutputFacts(env, w)
      && (w.failure.Some? ==> StageIndex(w.failure.value) >= StageIndex(Inference) && env.fails(m, j, w.failure.value))
  {
    WriteOutcomeFacts(env, m, j);
  }

  lemma TraceAndWriteFacts(env: Env, m: nat, j: nat, st: State, v: Visit, rec: FeatureRecord)
    requires NoOutputs(v) && v.traced.None?
    ensures var s := TraceAndWrite(env, m, j, st, v, rec);
      && s.state.featureDicts == st.featureDicts && s.state.roundedSeqlen == st.roundedSeqlen
      && var w := s.visit;
      && SameVisit(w, v) && w.report == v.report && OutputFacts(env, w) && LookedUp(w)
      && (w.failure.Some? ==> StageIndex(w.failure.value) >= StageIndex(Tracing))
      && w.failure != Some(ChainLengths)
      && (w.failure.Some? && w.failure != Some(Tracing) ==> env.fails(m, j, w.failure.value))
      && (w.failure == Some(Tracing) ==> env.traceModel && (st.roundedSeqlen.None? || env.fails(m, j, Tracing)))
      && (w.traced.None? ==> s.state.curTracingInterval == st.curTracingInterval)
      && (w.traced.Some? ==>
            && env.traceModel && st.roundedSeqlen.Some?
            && w.traced.value == Trace(st.roundedSeqlen.value, rec.numRes)
            && s.state.curTracingInterval == st.roundedSeqlen.value > st.curTracingInterval)
      && (env.traceModel && st.roundedSeqlen.Some? && Reached(w, Tracing) ==>
            (w.traced.Some? <==> st.roundedSeqlen.value > st.curTracingInterval && !env.fails(m, j, Tracing)))
  {
    if !env.traceModel {
      WriteOutputsFacts(env, m, j, st, v);
    } else if st.roundedSeqlen.None? {
    } else if st.roundedSeqlen.value <= st.curTracingInterval {
      WriteOutputsFacts(env, m, j, st, v);
    } else if env.fails(m, j, Tracing) {
    } else {
      var r := st.roundedSeqlen.value;
      WriteOutputsFacts(env, m, j, st.(curTracingInterval := r), v.(traced := Some(Trace(r, rec.numRes))));
    }
  }

  lemma FetchFacts(env: Env, m: nat, j: nat, t: Target, st: State, v: Visit)
    requires !v.generated && !v.cacheHit
    ensures var f := Fetch(env, m, j, t, st, v);
      && f.state.curTracingInterval == st.curTracingInterval
      && f.visit == v.(generated := f.visit.generated, cacheHit := f.visit.cacheHit)
      && (f.visit.cacheHit <==> t.tag in st.featureDicts)
      && (f.visit.generated <==> t.tag !in st.featureDicts)
      && (f.visit.cacheHit ==> f.state == st && f.record == Ok(st.featureDicts[t.tag]))
      && (f.record.Err? ==>
            && f.visit.generated && f.state.featureDicts == st.featureDicts
            && (f.record.error == FeatureGeneration || (f.record.error == Padding && env.traceModel))
            && env.fails(m, j, f.record.error))
      && (f.visit.generated && f.record.Ok? ==>
            f.record.value == Prepared(env, t) && f.state.featureDicts == st.featureDicts[t.tag := Prepared(env, t)])
      && (f.state.roundedSeqlen != st.roundedSeqlen || (env.traceModel && f.visit.generated && f.record.Ok?) ==>
            && env.traceModel && f.visit.generated
            && f.state.roundedSeqlen == Some(RoundUpSeqlen(env.generate(t).numRes)))
  {
  }

  // ---------------------------------------------------------------------------------------------
  // One pass of the try block

  /**
   * The visit is for this model and this target. A target without exactly two chains never gets
   * past line 351; the pass fails only at a step the environment makes fail, at the chain-length
   * unpacking, at an assertion of get_msa_stats or at a read of an unassigned rounded_seqlen; its
   * outputs are as OutputFacts says.
   */
  predicate OutcomeSpec(env: Env, m: nat, outputDirectory: string, j: nat, t: Target, s: Step) {
    var v := s.visit;
    && v.model == m && v.position == j && v.tag == t.tag
    && v.outputDir == FinalOutputDir(outputDirectory, env.configPreset, t.fileName)
    && OutputFacts(env, v)
    && (|t.seqs| != 2 ==> v.failure.Some? && StageIndex(v.failure.value) <= StageIndex(ChainLengths))
    && (v.failure == Some(ChainLengths) ==> |t.seqs| != 2)
    && (v.failure.Some? && !env.fails(m, j, v.failure.value) ==>
          v.failure.value == ChainLengths || v.failure.value == MsaStatistics
          || (v.failure.value == Tracing && env.traceModel && s.state.roundedSeqlen.None?))
  }

  /**
   * Lines 318-320: features are generated only for a tag the cache lacks and are taken from the
   * cache otherwise, once the pass gets that far.
   */
  predicate LookupSpec(t: Target, st: State, s: Step) {
    var v := s.visit;
    && !(v.generated && v.cacheHit)
    && (v.cacheHit <==> t.tag in st.featureDicts && LookedUp(v))
    && (v.generated <==> t.tag !in st.featureDicts && LookedUp(v))
  }

  /**
   * Lines 321-332: the cache changes only by adding this target's prepared record (padded to its
   * bucket when tracing), and only when generation and padding succeeded.
   */
  predicate CacheUpdateSpec(env: Env, t: Target, st: State, s: Step) {
    if Cached(s.visit) then s.state.featureDicts == st.featureDicts[t.tag := Prepared(env, t)]
    else s.state.featureDicts == st.featureDicts
  }

  /**
   * Lines 324-326: rounded_seqlen changes only when tracing, and only to a multiple of 50; in the
   * code as written only on a cache miss, to the new record's bucket. A pass that cached a record
   * while tracing leaves it assigned.
   */
  predicate RoundedSpec(env: Env, rule: BucketRule, t: Target, st: State, s: Step) {
    var v, st' := s.visit, s.state;
    && (st'.roundedSeqlen != st.roundedSeqlen ==> env.traceModel && st'.roundedSeqlen.Some?)
    && (st'.roundedSeqlen != st.roundedSeqlen ==> st'.roundedSeqlen.value % TracingInterval == 0)
    && (rule == CarriedOver && st'.roundedSeqlen != st.roundedSeqlen ==>
          v.generated && st'.roundedSeqlen == Some(RoundUpSeqlen(env.generate(t).numRes)))
    && (env.traceModel && Cached(v) ==> st'.roundedSeqlen.Some?)
    && (!env.traceModel ==> v.traced.None? && st'.roundedSeqlen == st.roundedSeqlen)
  }

  /** The features a pass worked on: the cached record on a hit, the freshly prepared one otherwise. */
  function UsedRecord(env: Env, t: Target, st: State, v: Visit): FeatureRecord {
    if v.cacheHit && t.tag in st.featureDicts then st.featureDicts[t.tag] else Prepared(env, t)
  }

  /**
   * Lines 378-385: the model is traced exactly when the value read from rounded_seqlen exceeds
   * cur_tracing_interval, which then takes that value; otherwise it keeps its value. The trace
   * sees the features of this pass; when the compared length is the current target's, the
   * bucket is the bucket of those features.
   */
  predicate TracedSpec(env: Env, rule: BucketRule, m: nat, j: nat, t: Target, st: State, s: Step) {
    TraceTaken(env, t, st, s) && TraceDecision(env, rule, m, j, st, s)
  }

  /** What a trace records and how the interval moves. */
  predicate TraceTaken(env: Env, t: Target, st: State, s: Step) {
    var v, st' := s.visit, s.state;
    && (v.traced.None? ==> st'.curTracingInterval == st.curTracingInterval)
    && (v.traced.Some? ==>
          && Reached(v, Tracing) && st'.roundedSeqlen.Some?
          && v.traced.value.bucket == st'.roundedSeqlen.value == st'.curTracingInterval
          && st'.curTracingInterval > st.curTracingInterval
          && v.traced.value.featureLength == UsedRecord(env, t, st, v).numRes)
  }

  /** When a trace happens, and which bucket it is for under the corrected rule. */
  predicate TraceDecision(env: Env, rule: BucketRule, m: nat, j: nat, st: State, s: Step) {
    var v, st' := s.visit, s.state;
    && (rule == CurrentTarget && v.traced.Some? ==> v.traced.value.bucket == RoundUpSeqlen(v.traced.value.featureLength))
    && (env.traceModel && st'.roundedSeqlen.Some? && Reached(v, Tracing) ==>
          (v.traced.Some? <==> st'.roundedSeqlen.value > st.curTracingInterval && !env.fails(m, j, Tracing)))
  }

  /**
   * Lines 344-365: the statistics a pass saves are those get_msa_stats computes from the
   * features it used, split at the lengths of the two chains; the pass fails at that step exactly
   * when it gets there and one of the three tables fails an assertion; it has a report exactly
   * when it got past that step.
   */
  predicate StatsSpec(env: Env, m: nat, j: nat, t: Target, st: State, s: Step) {
    && StatsSaved(env, m, j, t, st, s)
    && StatsFailure(env, m, j, t, st, s)
    && (s.visit.report.Some? <==> Reached(s.visit, MsaStatistics) && s.visit.failure != Some(MsaStatistics))
  }

  /** A saved report is the one computed from the features this pass used. */
  predicate StatsSaved(env: Env, m: nat, j: nat, t: Target, st: State, s: Step) {
    var v := s.visit;
    var rec := UsedRecord(env, t, st, v);
    v.report.Some? ==>
      |t.seqs| == 2 && StatsReport(rec, env.process(m, j, rec), |t.seqs[0]|, |t.seqs[1]|) == Ok(v.report.value)
  }

  /** The pass fails at the statistics exactly when it gets there and they fail. */
  predicate StatsFailure(env: Env, m: nat, j: nat, t: Target, st: State, s: Step) {
    var v := s.visit;
    var rec := UsedRecord(env, t, st, v);
    v.failure == Some(MsaStatistics) <==>
      Reached(v, MsaStatistics) && |t.seqs| == 2 && StatsReport(rec, env.process(m, j, rec), |t.seqs[0]|, |t.seqs[1]|).Err?
  }

  /** What one pass of the try block is known to do. */
  predicate StepSpec(env: Env, rule: BucketRule, m: nat, outputDirectory: string, j: nat, t: Target, st: State, s: Step) {
    && OutcomeSpec(env, m, outputDirectory, j, t, s)
    && LookupSpec(t, st, s)
    && CacheUpdateSpec(env, t, st, s)
    && RoundedSpec(env, rule, t, st, s)
    && TracedSpec(env, rule, m, j, t, st, s)
    && StatsSpec(env, m, j, t, st, s)
  }

  lemma StepOutcomeOutputs(env: Env, rule: BucketRule, m: nat, outputDirectory: string, j: nat, t: Target, st: State)
    ensures var v := StepTarget(env, rule, m, outputDirectory, j, t, st).visit;
      && v.model == m && v.position == j && v.tag == t.tag
      && v.outputDir == FinalOutputDir(outputDirectory, env.configPreset, t.fileName)
      && OutputFacts(env, v)
  {
    var v := Visit(m, j, t.tag, FinalOutputDir(outputDirectory, env.configPreset, t.fileName),
                   false, false, None, None, false, false, false, None);
    if !env.fails(m, j, MakeOutputDir) && !env.fails(m, j, Alignment) {
      var f := Fetch(env, m, j, t, st, v);
      FetchFacts(env, m, j, t, st, v);
      if f.record.Ok? {
        var rec := f.record.value;
        var st1 := if rule == CurrentTarget && env.traceModel
                   then f.state.(roundedSeqlen := Some(RoundUpSeqlen(rec.numRes))) else f.state;
        if !env.fails(m, j, FeatureProcessing) && |t.seqs| == 2 {
          var report := StatsReport(rec, env.process(m, j, rec), |t.seqs[0]|, |t.seqs[1]|);
          if report.Ok? {
            TraceAndWriteFacts(env, m, j, st1, f.visit.(report := Some(report.value)), rec);
          }
        }
      }
    }
  }

  lemma StepOutcomeFailures(env: Env, rule: BucketRule, m: nat, outputDirectory: string, j: nat, t: Target, st: State)
    ensures var s := StepTarget(env, rule, m, outputDirectory, j, t, st);
      var v := s.visit;
      && (|t.seqs| != 2 ==> v.failure.Some? && StageIndex(v.failure.value) <= StageIndex(ChainLengths))
      && (v.failure == Some(ChainLengths) ==> |t.seqs| != 2)
      && (v.failure.Some? && !env.fails(m, j, v.failure.value) ==>
            v.failure.value == ChainLengths || v.failure.value == MsaStatistics
            || (v.failure.value == Tracing && env.traceModel && s.state.roundedSeqlen.None?))
  {
    var v := Visit(m, j, t.tag, FinalOutputDir(outputDirectory, env.configPreset, t.fileName),
                   false, false, None, None, false, false, false, None);
    if !env.fails(m, j, MakeOutputDir) && !env.fails(m, j, Alignment) {
      var f := Fetch(env, m, j, t, st, v);
      FetchFacts(env, m, j, t, st, v);
      if f.record.Ok? {
        var rec := f.record.value;
        var st1 := if rule == CurrentTarget && env.traceModel
                   then f.state.(roundedSeqlen := Some(RoundUpSeqlen(rec.numRes))) else f.state;
        if !env.fails(m, j, FeatureProcessing) && |t.seqs| == 2 {
          var report := StatsReport(rec, env.process(m, j, rec), |t.seqs[0]|, |t.seqs[1]|);
          if report.Ok? {
            TraceAndWriteFacts(env, m, j, st1, f.visit.(report := Some(report.value)), rec);
          }
        }
      }
    }
  }

  lemma StepOutcome(env: Env, rule: BucketRule, m: nat, outputDirectory: string, j: nat, t: Target, st: State)
    ensures OutcomeSpec(env, m, outputDirectory, j, t, StepTarget(env, rule, m, outputDirectory, j, t, st))
  {
    StepOutcomeOutputs(env, rule, m, outputDirectory, j, t, st);
    StepOutcomeFailures(env, rule, m, outputDirectory, j, t, st);
  }

  lemma StepStatsSaved(env: Env, rule: BucketRule, m: nat, outputDirectory: string, j: nat, t: Target, st: State)
    ensures StatsSaved(env, m, j, t, st, StepTarget(env, rule, m, outputDirectory, j, t, st))
  {
    var v := Visit(m, j, t.tag, FinalOutputDir(outputDirectory, env.configPreset, t.fileName),
                   false, false, None, None, false, false, false, None);
    if !env.fails(m, j, MakeOutputDir) && !env.fails(m, j, Alignment) {
      var f := Fetch(env, m, j, t, st, v);
      FetchFacts(env, m, j, t, st, v);
      if f.record.Ok? {
        var rec := f.record.value;
        var st1 := if rule == CurrentTarget && env.traceModel
                   then f.state.(roundedSeqlen := Some(RoundUpSeqlen(rec.numRes))) else f.state;
        if !env.fails(m, j, FeatureProcessing) && |t.seqs| == 2 {
          var report := StatsReport(rec, env.process(m, j, rec), |t.seqs[0]|, |t.seqs[1]|);
          if report.Ok? {
            TraceAndWriteFacts(env, m, j, st1, f.visit.(report := Some(report.value)), rec);
          }
        }
      }
    }
  }

  lemma StepStatsFailureCause(env: Env, rule: BucketRule, m: nat, outputDirectory: string, j: nat, t: Target, st: State)
    ensures var w := StepTarget(env, rule, m, outputDirectory, j, t, st).visit;
      var rec := UsedRecord(env, t, st, w);
      w.failure == Some(MsaStatistics) ==>
        |t.seqs| == 2 && StatsReport(rec, env.process(m, j, rec), |t.seqs[0]|, |t.seqs[1]|).Err?
  {
    var w := StepTarget(env, rule, m, outputDirectory, j, t, st).visit;
    var v := Visit(m, j, t.tag, FinalOutputDir(outputDirectory, env.configPreset, t.fileName),
                   false, false, None, None, false, false, false, None);
    if !env.fails(m, j, MakeOutputDir) && !env.fails(m, j, Alignment) {
      var f := Fetch(env, m, j, t, st, v);
      FetchFacts(env, m, j, t, st, v);
      if f.record.Ok? {
        var rec := f.record.value;
        var st1 := if rule == CurrentTarget && env.traceModel
                   then f.state.(roundedSeqlen := Some(RoundUpSeqlen(rec.numRes))) else f.state;
        if !env.fails(m, j, FeatureProcessing) && |t.seqs| == 2 {
          var report := StatsReport(rec, env.process(m, j, rec), |t.seqs[0]|, |t.seqs[1]|);
          if report.Ok? {
            var u := f.visit.(report := Some(report.value));
            TraceAndWriteFacts(env, m, j, st1, u, rec);
            assert StageIndex(MsaStatistics) < StageIndex(Tracing);
          } else {
            assert w == f.visit.(failure := Some(MsaStatistics));
            assert UsedRecord(env, t, st, w) == rec;
          }
        }
      }
    }
  }

  lemma StepStatsFailureReached(env: Env, rule: BucketRule, m: nat, outputDirectory: string, j: nat, t: Target, st: State)
    ensures var w := StepTarget(env, rule, m, outputDirectory, j, t, st).visit;
      var rec := UsedRecord(env, t, st, w);
      (Reached(w, MsaStatistics) && |t.seqs| == 2 && StatsReport(rec, env.process(m, j, rec), |t.seqs[0]|, |t.seqs[1]|).Err?
       ==> w.failure == Some(MsaStatistics))
  {
    var w := StepTarget(env, rule, m, outputDirectory, j, t, st).visit;
    var v := Visit(m, j, t.tag, FinalOutputDir(outputDirectory, env.configPreset, t.fileName),
                   false, false, None, None, false, false, false, None);
    if env.fails(m, j, MakeOutputDir) {
      assert w.failure == Some(MakeOutputDir);
    } else if env.fails(m, j, Alignment) {
      assert w.failure == Some(Alignment);
    } else {
      var f := Fetch(env, m, j, t, st, v);
      FetchFacts(env, m, j, t, st, v);
      if f.record.Err? {
        assert w.failure == Some(f.record.error);
      } else {
        var rec := f.record.value;
        var st1 := if rule == CurrentTarget && env.traceModel
                   then f.state.(roundedSeqlen := Some(RoundUpSeqlen(rec.numRes))) else f.state;
        if env.fails(m, j, FeatureProcessing) {
          assert w.failure == Some(FeatureProcessing);
        } else if |t.seqs| == 2 {
          var report := StatsReport(rec, env.process(m, j, rec), |t.seqs[0]|, |t.seqs[1]|);
          if report.Ok? {
            var u := f.visit.(report := Some(report.value));
            TraceAndWriteFacts(env, m, j, st1, u, rec);
            assert UsedRecord(env, t, st, w) == rec;
          }
        }
      }
    }
  }

  lemma StepStatsFailure(env: Env, rule: BucketRule, m: nat, outputDirectory: string, j: nat, t: Target, st: State)
    ensures StatsFailure(env, m, j, t, st, StepTarget(env, rule, m, outputDirectory, j, t, st))
  {
    StepStatsFailureCause(env, rule, m, outputDirectory, j, t, st);
    StepStatsFailureReached(env, rule, m, outputDirectory, j, t, st);
  }

  lemma StepReportMeansPassed(env: Env, rule: BucketRule, m: nat, outputDirectory: string, j: nat, t: Target, st: State)
    ensures var v := StepTarget(env, rule, m, outputDirectory, j, t, st).visit;
      v.report.Some? ==> Reached(v, MsaStatistics) && v.failure != Some(MsaStatistics)
  {
    var v := Visit(m, j, t.tag, FinalOutputDir(outputDirectory, env.configPreset, t.fileName),
                   false, false, None, None, false, false, false, None);
    if !env.fails(m, j, MakeOutputDir) && !env.fails(m, j, Alignment) {
      var f := Fetch(env, m, j, t, st, v);
      FetchFacts(env, m, j, t, st, v);
      if f.record.Ok? {
        var rec := f.record.value;
        var st1 := if rule == CurrentTarget && env.traceModel
                   then f.state.(roundedSeqlen := Some(RoundUpSeqlen(rec.numRes))) else f.state;
        if !env.fails(m, j, FeatureProcessing) && |t.seqs| == 2 {
          var report := StatsReport(rec, env.process(m, j, rec), |t.seqs[0]|, |t.seqs[1]|);
          if report.Ok? {
            TraceAndWriteFacts(env, m, j, st1, f.visit.(report := Some(report.value)), rec);
            assert StageIndex(MsaStatistics) < StageIndex(Tracing);
          }
        }
      }
    }
  }

  lemma StepPassedMeansReport(env: Env, rule: BucketRule, m: nat, outputDirectory: string, j: nat, t: Target, st: State)
    ensures var v := StepTarget(env, rule, m, outputDirectory, j, t, st).visit;
      Reached(v, MsaStatistics) && v.failure != Some(MsaStatistics) ==> v.report.Some?
  {
    var v := Visit(m, j, t.tag, FinalOutputDir(outputDirectory, env.configPreset, t.fileName),
                   false, false, None, None, false, false, false, None);
    if !env.fails(m, j, MakeOutputDir) && !env.fails(m, j, Alignment) {
      var f := Fetch(env, m, j, t, st, v);
      FetchFacts(env, m, j, t, st, v);
      if f.record.Ok? {
        var rec := f.record.value;
        var st1 := if rule == CurrentTarget && env.traceModel
                   then f.state.(roundedSeqlen := Some(RoundUpSeqlen(rec.numRes))) else f.state;
        if !env.fails(m, j, FeatureProcessing) && |t.seqs| == 2 {
          var report := StatsReport(rec, env.process(m, j, rec), |t.seqs[0]|, |t.seqs[1]|);
          if report.Ok? {
            TraceAndWriteFacts(env, m, j, st1, f.visit.(report := Some(report.value)), rec);
            assert StageIndex(MsaStatistics) < StageIndex(Tracing);
          }
        }
      }
    }
  }

  lemma StepReportPresent(env: Env, rule: BucketRule, m: nat, outputDirectory: string, j: nat, t: Target, st: State)
    ensures var v := StepTarget(env, rule, m, outputDirectory, j, t, st).visit;
      v.report.Some? <==> Reached(v, MsaStatistics) && v.failure != Some(MsaStatistics)
  {
    StepReportMeansPassed(env, rule, m, outputDirectory, j, t, st);
    StepPassedMeansReport(env, rule, m, outputDirectory, j, t, st);
  }

  lemma StepStats(env: Env, rule: BucketRule, m: nat, outputDirectory: string, j: nat, t: Target, st: State)
    ensures StatsSpec(env, m, j, t, st, StepTarget(env, rule, m, outputDirectory, j, t, st))
  {
    StepStatsSaved(env, rule, m, outputDirectory, j, t, st);
    StepStatsFailure(env, rule, m, outputDirectory, j, t, st);
    StepReportPresent(env, rule, m, outputDirectory, j, t, st);
  }

  lemma StepLookup(env: Env, rule: BucketRule, m: nat, outputDirectory: string, j: nat, t: Target, st: State)
    ensures LookupSpec(t, st, StepTarget(env, rule, m, outputDirectory, j, t, st))
  {
    var v := Visit(m, j, t.tag, FinalOutputDir(outputDirectory, env.configPreset, t.fileName),
                   false, false, None, None, false, false, false, None);
    if !env.fails(m, j, MakeOutputDir) && !env.fails(m, j, Alignment) {
      var f := Fetch(env, m, j, t, st, v);
      FetchFacts(env, m, j, t, st, v);
      if f.record.Ok? {
        var rec := f.record.value;
        var st1 := if rule == CurrentTarget && env.traceModel
                   then f.state.(roundedSeqlen := Some(RoundUpSeqlen(rec.numRes))) else f.state;
        if !env.fails(m, j, FeatureProcessing) && |t.seqs| == 2 {
          var report := StatsReport(rec, env.process(m, j, rec), |t.seqs[0]|, |t.seqs[1]|);
          if report.Ok? {
            TraceAndWriteFacts(env, m, j, st1, f.visit.(report := Some(report.value)), rec);
          }
        }
      }
    }
  }

  lemma StepCacheUpdate(env: Env, rule: BucketRule, m: nat, outputDirectory: string, j: nat, t: Target, st: State)
    ensures CacheUpdateSpec(env, t, st, StepTarget(env, rule, m, outputDirectory, j, t, st))
  {
    var v := Visit(m, j, t.tag, FinalOutputDir(outputDirectory, env.configPreset, t.fileName),
                   false, false, None, None, false, false, false, None);
    if !env.fails(m, j, MakeOutputDir) && !env.fails(m, j, Alignment) {
      var f := Fetch(env, m, j, t, st, v);
      FetchFacts(env, m, j, t, st, v);
      if f.record.Ok? {
        var rec := f.record.value;
        var st1 := if rule == CurrentTarget && env.traceModel
                   then f.state.(roundedSeqlen := Some(RoundUpSeqlen(rec.numRes))) else f.state;
        if !env.fails(m, j, FeatureProcessing) && |t.seqs| == 2 {
          var report := StatsReport(rec, env.process(m, j, rec), |t.seqs[0]|, |t.seqs[1]|);
          if report.Ok? {
            TraceAndWriteFacts(env, m, j, st1, f.visit.(report := Some(report.value)), rec);
          }
        }
      }
    }
  }

  lemma StepRounded(env: Env, rule: BucketRule, m: nat, outputDirectory: string, j: nat, t: Target, st: State)
    ensures RoundedSpec(env, rule, t, st, StepTarget(env, rule, m, outputDirectory, j, t, st))
  {
    var v := Visit(m, j, t.tag, FinalOutputDir(outputDirectory, env.configPreset, t.fileName),
                   false, false, None, None, false, false, false, None);
    if !env.fails(m, j, MakeOutputDir) && !env.fails(m, j, Alignment) {
      var f := Fetch(env, m, j, t, st, v);
      FetchFacts(env, m, j, t, st, v);
      if f.record.Ok? {
        var rec := f.record.value;
        var st1 := if rule == CurrentTarget && env.traceModel
                   then f.state.(roundedSeqlen := Some(RoundUpSeqlen(rec.numRes))) else f.state;
        if !env.fails(m, j, FeatureProcessing) && |t.seqs| == 2 {
          var report := StatsReport(rec, env.process(m, j, rec), |t.seqs[0]|, |t.seqs[1]|);
          if report.Ok? {
            TraceAndWriteFacts(env, m, j, st1, f.visit.(report := Some(report.value)), rec);
          }
        }
      }
    }
  }

  lemma StepTraceTaken(env: Env, rule: BucketRule, m: nat, outputDirectory: string, j: nat, t: Target, st: State)
    ensures TraceTaken(env, t, st, StepTarget(env, rule, m, outputDirectory, j, t, st))
  {
    var v := Visit(m, j, t.tag, FinalOutputDir(outputDirectory, env.configPreset, t.fileName),
                   false, false, None, None, false, false, false, None);
    if !env.fails(m, j, MakeOutputDir) && !env.fails(m, j, Alignment) {
      var f := Fetch(env, m, j, t, st, v);
      FetchFacts(env, m, j, t, st, v);
      if f.record.Ok? {
        var rec := f.record.value;
        var st1 := if rule == CurrentTarget && env.traceModel
                   then f.state.(roundedSeqlen := Some(RoundUpSeqlen(rec.numRes))) else f.state;
        if !env.fails(m, j, FeatureProcessing) && |t.seqs| == 2 {
          var report := StatsReport(rec, env.process(m, j, rec), |t.seqs[0]|, |t.seqs[1]|);
          if report.Ok? {
            TraceAndWriteFacts(env, m, j, st1, f.visit.(report := Some(report.value)), rec);
          }
        }
      }
    }
  }

  lemma StepTraceDecision(env: Env, rule: BucketRule, m: nat, outputDirectory: string, j: nat, t: Target, st: State)
    ensures TraceDecision(env, rule, m, j, st, StepTarget(env, rule, m, outputDirectory, j, t, st))
  {
    var v := Visit(m, j, t.tag, FinalOutputDir(outputDirectory, env.configPreset, t.fileName),
                   false, false, None, None, false, false, false, None);
    if !env.fails(m, j, MakeOutputDir) && !env.fails(m, j, Alignment) {
      var f := Fetch(env, m, j, t, st, v);
      FetchFacts(env, m, j, t, st, v);
      if f.record.Ok? {
        var rec := f.record.value;
        var st1 := if rule == CurrentTarget && env.traceModel
                   then f.state.(roundedSeqlen := Some(RoundUpSeqlen(rec.numRes))) else f.state;
        if !env.fails(m, j, FeatureProcessing) && |t.seqs| == 2 {
          var report := StatsReport(rec, env.process(m, j, rec), |t.seqs[0]|, |t.seqs[1]|);
          if report.Ok? {
            TraceAndWriteFacts(env, m, j, st1, f.visit.(report := Some(report.value)), rec);
          }
        }
      }
    }
  }

  lemma StepTraced(env: Env, rule: BucketRule, m: nat, outputDirectory: string, j: nat, t: Target, st: State)
    ensures TracedSpec(env, rule, m, j, t, st, StepTarget(env, rule, m, outputDirectory, j, t, st))
  {
    StepTraceTaken(env, rule, m, outputDirectory, j, t, st);
    StepTraceDecision(env, rule, m, outputDirectory, j, t, st);
  }

  lemma StepMeetsSpec(env: Env, rule: BucketRule, m: nat, outputDirectory: string, j: nat, t: Target, st: State)
    ensures StepSpec(env, rule, m, outputDirectory, j, t, st, StepTarget(env, rule, m, outputDirectory, j, t, st))
  {
    StepOutcome(env, rule, m, outputDirectory, j, t, st);
    StepLookup(env, rule, m, outputDirectory, j, t, st);
    StepCacheUpdate(env, rule, m, outputDirectory, j, t, st);
    StepRounded(env, rule, m, outputDirectory, j, t, st);
    StepTraced(env, rule, m, outputDirectory, j, t, st);
    StepStats(env, rule, m, outputDirectory, j, t, st);
  }

  // ---------------------------------------------------------------------------------------------
  // Invariants of the loops

  /**
   * A logged visit belongs to a loaded model and a worklist position, carries that target's tag
   * and output directory, and obeys what one pass guarantees.
   */
  predicate VisitSound(env: Env, outputDirs: seq<string>, targets: seq<Target>, v: Visit) {
    && v.model < |outputDirs| && v.position < |targets|
    && v.tag == targets[v.position].tag
    && v.outputDir == FinalOutputDir(outputDirs[v.model], env.configPreset, targets[v.position].fileName)
    && OutputFacts(env, v)
    && !(v.generated && v.cacheHit)
    && (|targets[v.position].seqs| != 2 ==> v.failure.Some? && StageIndex(v.failure.value) <= StageIndex(ChainLengths))
    && (v.failure == Some(ChainLengths) ==> |targets[v.position].seqs| != 2)
    && (v.traced.Some? ==> Reached(v, Tracing))
    && (v.report.Some? ==> |targets[v.position].seqs| == 2)
    && (v.report.Some? <==> Reached(v, MsaStatistics) && v.failure != Some(MsaStatistics))
    && (v.failure.Some? && !env.fails(v.model, v.position, v.failure.value) ==>
          v.failure.value == ChainLengths || v.failure.value == MsaStatistics)
  }

  /** Visit i is the pass of model i / |targets| over target i % |targets|. */
  predicate LogInv(env: Env, outputDirs: seq<string>, targets: seq<Target>, visits: seq<Visit>) {
    forall i | 0 <= i < |visits| ::
      VisitSound(env, outputDirs, targets, visits[i]) && visits[i].model * |targets| + visits[i].position == i
  }

  /**
   * feature_dicts holds, for each tag, the prepared record of a target with that tag, and its
   * tags are exactly those of the passes that got past line 332.
   */
  predicate CacheContents(env: Env, targets: seq<Target>, st: State, visits: seq<Visit>) {
    && (forall tag | tag in st.featureDicts ::
          exists j | 0 <= j < |targets| :: targets[j].tag == tag && st.featureDicts[tag] == Prepared(env, targets[j]))
    && (forall tag | tag in st.featureDicts ::
          exists i | 0 <= i < |visits| :: Cached(visits[i]) && visits[i].tag == tag)
    && (forall i | 0 <= i < |visits| && Cached(visits[i]) :: visits[i].tag in st.featureDicts)
  }

  /** A pass generates only when no earlier pass cached its tag. */
  predicate GeneratesOnce(visits: seq<Visit>) {
    forall i, k | 0 <= i < k < |visits| && visits[k].generated && visits[i].tag == visits[k].tag :: !Cached(visits[i])
  }

  /** A cache hit always follows a pass that cached that tag. */
  predicate HitsFollowCaching(visits: seq<Visit>) {
    forall k | 0 <= k < |visits| && visits[k].cacheHit ::
      exists i | 0 <= i < k :: Cached(visits[i]) && visits[i].tag == visits[k].tag
  }

  predicate CacheInv(env: Env, targets: seq<Target>, st: State, visits: seq<Visit>) {
    CacheContents(env, targets, st, visits) && GeneratesOnce(visits) && HitsFollowCaching(visits)
  }

  /**
   * Buckets are multiples of 50; once something is cached while tracing, rounded_seqlen is
   * assigned; cached records are padded to a bucket boundary; and a trace is only ever taken
   * while tracing, never because of a NameError.
   */
  predicate TraceInv(env: Env, st: State, visits: seq<Visit>) {
    && st.curTracingInterval % TracingInterval == 0
    && (st.roundedSeqlen.Some? ==> st.roundedSeqlen.value % TracingInterval == 0)
    && (env.traceModel && st.featureDicts != map[] ==> st.roundedSeqlen.Some?)
    && (env.traceModel ==> forall tag | tag in st.featureDicts :: st.featureDicts[tag].numRes % TracingInterval == 0)
    && (forall i | 0 <= i < |visits| && visits[i].traced.Some? ::
          env.traceModel && visits[i].traced.value.bucket % TracingInterval == 0)
    && (forall i | 0 <= i < |visits| && visits[i].failure == Some(Tracing) ::
          env.fails(visits[i].model, visits[i].position, Tracing))
  }

  /** While model m runs: no later model has started, and its traced buckets are at most the current interval. */
  predicate ModelInv(st: State, visits: seq<Visit>, m: nat) {
    && (forall i | 0 <= i < |visits| :: visits[i].model <= m)
    && (forall i | 0 <= i < |visits| && visits[i].model == m && visits[i].traced.Some? ::
          visits[i].traced.value.bucket <= st.curTracingInterval)
  }

  /** Within one model the traced buckets strictly increase. */
  predicate MonotoneInv(visits: seq<Visit>) {
    forall i, k | 0 <= i < k < |visits| && visits[i].model == visits[k].model
                  && visits[i].traced.Some? && visits[k].traced.Some? ::
      visits[i].traced.value.bucket < visits[k].traced.value.bucket
  }

  /** Every trace was taken for the bucket of the features it saw. */
  predicate MatchInv(visits: seq<Visit>) {
    forall i | 0 <= i < |visits| && visits[i].traced.Some? ::
      visits[i].traced.value.bucket == visits[i].traced.value.featureLength
  }

  /** Everything the loops keep, for a run in the middle of model m. */
  predicate RunInv(env: Env, rule: BucketRule, outputDirs: seq<string>, targets: seq<Target>, r: Run, m: nat) {
    && LogInv(env, outputDirs, targets, r.visits)
    && CacheInv(env, targets, r.state, r.visits)
    && TraceInv(env, r.state, r.visits)
    && ModelInv(r.state, r.visits, m)
    && MonotoneInv(r.visits)
    && (rule == CurrentTarget ==> MatchInv(r.visits))
  }

  // ---------------------------------------------------------------------------------------------
  // One pass keeps the invariants

  lemma StepKeepsLogInv(env: Env, rule: BucketRule, outputDirs: seq<string>, targets: seq<Target>, m: nat, j: nat,
                        st: State, s: Step, visits: seq<Visit>)
    requires m < |outputDirs| && j < |targets| && |visits| == m * |targets| + j
    requires StepSpec(env, rule, m, outputDirs[m], j, targets[j], st, s)
    requires LogInv(env, outputDirs, targets, visits)
    requires s.visit.failure == Some(Tracing) ==> env.fails(m, j, Tracing)
    ensures LogInv(env, outputDirs, targets, visits + [s.visit])
  {
    var visits' := visits + [s.visit];
    forall i | 0 <= i < |visits'|
      ensures VisitSound(env, outputDirs, targets, visits'[i]) && visits'[i].model * |targets| + visits'[i].position == i
    {
      if i < |visits| {
        assert visits'[i] == visits[i];
      }
    }
  }

  lemma StepKeepsCacheContents(env: Env, rule: BucketRule, outputDirectory: string, targets: seq<Target>, m: nat, j: nat,
                               st: State, s: Step, visits: seq<Visit>)
    requires j < |targets|
    requires StepSpec(env, rule, m, outputDirectory, j, targets[j], st, s)
    requires CacheContents(env, targets, st, visits)
    ensures CacheContents(env, targets, s.state, visits + [s.visit])
  {
    var t, v, st' := targets[j], s.visit, s.state;
    var visits' := visits + [v];
    assert forall i | 0 <= i < |visits| :: visits'[i] == visits[i];
    assert visits'[|visits|] == v;
    forall tag | tag in st'.featureDicts
      ensures exists j' | 0 <= j' < |targets| :: targets[j'].tag == tag && st'.featureDicts[tag] == Prepared(env, targets[j'])
      ensures exists i | 0 <= i < |visits'| :: Cached(visits'[i]) && visits'[i].tag == tag
    {
      if Cached(v) && tag == t.tag {
        assert targets[j].tag == tag && st'.featureDicts[tag] == Prepared(env, targets[j]);
        assert Cached(visits'[|visits|]) && visits'[|visits|].tag == tag;
      } else {
        assert tag in st.featureDicts && st'.featureDicts[tag] == st.featureDicts[tag];
        var i :| 0 <= i < |visits| && Cached(visits[i]) && visits[i].tag == tag;
        assert Cached(visits'[i]) && visits'[i].tag == tag;
      }
    }
  }

  lemma StepKeepsGeneratesOnce(env: Env, rule: BucketRule, outputDirectory: string, targets: seq<Target>, m: nat, j: nat,
                               st: State, s: Step, visits: seq<Visit>)
    requires j < |targets|
    requires StepSpec(env, rule, m, outputDirectory, j, targets[j], st, s)
    requires CacheContents(env, targets, st, visits) && GeneratesOnce(visits)
    ensures GeneratesOnce(visits + [s.visit])
  {
    var visits' := visits + [s.visit];
    assert forall i | 0 <= i < |visits| :: visits'[i] == visits[i];
    forall i, k | 0 <= i < k < |visits'| && visits'[k].generated && visits'[i].tag == visits'[k].tag
      ensures !Cached(visits'[i])
    {
      if k == |visits| {
        assert targets[j].tag !in st.featureDicts;
      }
    }
  }

  lemma StepKeepsHitsFollowCaching(env: Env, rule: BucketRule, outputDirectory: string, targets: seq<Target>, m: nat, j: nat,
                                   st: State, s: Step, visits: seq<Visit>)
    requires j < |targets|
    requires StepSpec(env, rule, m, outputDirectory, j, targets[j], st, s)
    requires CacheContents(env, targets, st, visits) && HitsFollowCaching(visits)
    ensures HitsFollowCaching(visits + [s.visit])
  {
    var visits' := visits + [s.visit];
    assert forall i | 0 <= i < |visits| :: visits'[i] == visits[i];
    forall k | 0 <= k < |visits'| && visits'[k].cacheHit
      ensures exists i | 0 <= i < k :: Cached(visits'[i]) && visits'[i].tag == visits'[k].tag
    {
      if k == |visits| {
        assert targets[j].tag in st.featureDicts;
        var i :| 0 <= i < |visits| && Cached(visits[i]) && visits[i].tag == targets[j].tag;
        assert Cached(visits'[i]) && visits'[i].tag == visits'[k].tag;
      } else {
        var i :| 0 <= i < k && Cached(visits[i]) && visits[i].tag == visits[k].tag;
        assert Cached(visits'[i]) && visits'[i].tag == visits'[k].tag;
      }
    }
  }

  lemma PreparedPadded(env: Env, t: Target)
    requires env.traceModel
    ensures Prepared(env, t).numRes % TracingInterval == 0
  {
  }

  lemma StepKeepsTraceInv(env: Env, rule: BucketRule, outputDirectory: string, m: nat, j: nat, t: Target,
                          st: State, s: Step, visits: seq<Visit>)
    requires StepSpec(env, rule, m, outputDirectory, j, t, st, s)
    requires TraceInv(env, st, visits)
    ensures s.visit.failure == Some(Tracing) ==> env.fails(m, j, Tracing)
    ensures TraceInv(env, s.state, visits + [s.visit])
  {
    var v, st' := s.visit, s.state;
    if env.traceModel {
      PreparedPadded(env, t);
    }
    var visits' := visits + [v];
    assert forall i | 0 <= i < |visits| :: visits'[i] == visits[i];
    if st'.featureDicts != map[] && env.traceModel && !Cached(v) {
      assert st.featureDicts != map[];
    }
  }

  lemma StepKeepsModelInv(env: Env, rule: BucketRule, outputDirectory: string, m: nat, j: nat, t: Target,
                          st: State, s: Step, visits: seq<Visit>)
    requires StepSpec(env, rule, m, outputDirectory, j, t, st, s)
    requires ModelInv(st, visits, m) && MonotoneInv(visits)
    ensures ModelInv(s.state, visits + [s.visit], m) && MonotoneInv(visits + [s.visit])
  {
    var visits' := visits + [s.visit];
    assert forall i | 0 <= i < |visits| :: visits'[i] == visits[i];
    assert st.curTracingInterval <= s.state.curTracingInterval;
  }

  lemma StepKeepsMatchInv(env: Env, m: nat, outputDirectory: string, j: nat, t: Target,
                          st: State, s: Step, visits: seq<Visit>)
    requires StepSpec(env, CurrentTarget, m, outputDirectory, j, t, st, s)
    requires TraceInv(env, st, visits) && MatchInv(visits)
    ensures MatchInv(visits + [s.visit])
  {
    var v := s.visit;
    var visits' := visits + [v];
    assert forall i | 0 <= i < |visits| :: visits'[i] == visits[i];
    if v.traced.Some? {
      var n := v.traced.value.featureLength;
      assert env.traceModel;
      PreparedPadded(env, t);
      assert n % TracingInterval == 0;
      RoundUpIsLeast(n, n);
    }
  }

  // ---------------------------------------------------------------------------------------------
  // The loops

  lemma {:induction false} RunTargetsKeeps(env: Env, rule: BucketRule, outputDirs: seq<string>, targets: seq<Target>,
                                           m: nat, j: nat, r0: Run)
    requires m < |outputDirs| && j <= |targets| && |r0.visits| == m * |targets|
    requires RunInv(env, rule, outputDirs, targets, r0, m)
    ensures var r := RunTargets(env, rule, m, outputDirs[m], targets[..j], r0);
      |r.visits| == m * |targets| + j && RunInv(env, rule, outputDirs, targets, r, m)
  {
    if j > 0 {
      RunTargetsKeeps(env, rule, outputDirs, targets, m, j - 1, r0);
      assert targets[..j][..j - 1] == targets[..j - 1];
      assert targets[..j][j - 1] == targets[j - 1];
      var before := RunTargets(env, rule, m, outputDirs[m], targets[..j - 1], r0);
      var s := StepTarget(env, rule, m, outputDirs[m], j - 1, targets[j - 1], before.state);
      assert RunTargets(env, rule, m, outputDirs[m], targets[..j], r0) == Run(s.state, before.visits + [s.visit]);
      StepMeetsSpec(env, rule, m, outputDirs[m], j - 1, targets[j - 1], before.state);
      StepKeepsTraceInv(env, rule, outputDirs[m], m, j - 1, targets[j - 1], before.state, s, before.visits);
      StepKeepsLogInv(env, rule, outputDirs, targets, m, j - 1, before.state, s, before.visits);
      StepKeepsCacheContents(env, rule, outputDirs[m], targets, m, j - 1, before.state, s, before.visits);
      StepKeepsGeneratesOnce(env, rule, outputDirs[m], targets, m, j - 1, before.state, s, before.visits);
      StepKeepsHitsFollowCaching(env, rule, outputDirs[m], targets, m, j - 1, before.state, s, before.visits);
      StepKeepsModelInv(env, rule, outputDirs[m], m, j - 1, targets[j - 1], before.state, s, before.visits);
      if rule == CurrentTarget {
        StepKeepsMatchInv(env, m, outputDirs[m], j - 1, targets[j - 1], before.state, s, before.visits);
      }
    }
  }

  /** Everything the loops keep, for a run that has finished the first k models. */
  predicate ModelsDone(env: Env, rule: BucketRule, outputDirs: seq<string>, targets: seq<Target>, r: Run, k: nat) {
    && LogInv(env, outputDirs, targets, r.visits)
    && CacheInv(env, targets, r.state, r.visits)
    && TraceInv(env, r.state, r.visits)
    && MonotoneInv(r.visits)
    && (rule == CurrentTarget ==> MatchInv(r.visits))
    && (forall i | 0 <= i < |r.visits| :: r.visits[i].model < k)
  }

  /** Resetting the interval for model m keeps the invariants, since no pass of model m has happened yet. */
  lemma ModelStartKeeps(env: Env, rule: BucketRule, outputDirs: seq<string>, targets: seq<Target>, m: nat, r: Run)
    requires ModelsDone(env, rule, outputDirs, targets, r, m)
    ensures RunInv(env, rule, outputDirs, targets, r.(state := r.state.(curTracingInterval := 0)), m)
  {
  }

  lemma ModelEndKeeps(env: Env, rule: BucketRule, outputDirs: seq<string>, targets: seq<Target>, m: nat, r: Run)
    requires RunInv(env, rule, outputDirs, targets, r, m)
    ensures ModelsDone(env, rule, outputDirs, targets, r, m + 1)
  {
  }

  /** One pass of the outer loop: model m runs over the whole worklist. */
  lemma ModelKeeps(env: Env, rule: BucketRule, outputDirs: seq<string>, targets: seq<Target>, m: nat, before: Run)
    requires m < |outputDirs| && |before.visits| == m * |targets|
    requires ModelsDone(env, rule, outputDirs, targets, before, m)
    ensures var after := RunModel(env, rule, m, outputDirs[m], targets, before);
      |after.visits| == (m + 1) * |targets| && ModelsDone(env, rule, outputDirs, targets, after, m + 1)
  {
    var start := before.(state := before.state.(curTracingInterval := 0));
    ModelStartKeeps(env, rule, outputDirs, targets, m, before);
    RunTargetsKeeps(env, rule, outputDirs, targets, m, |targets|, start);
    assert targets[..|targets|] == targets;
    ModelEndKeeps(env, rule, outputDirs, targets, m, RunModel(env, rule, m, outputDirs[m], targets, before));
    assert m * |targets| + |targets| == (m + 1) * |targets|;
  }

  /** The invariants of a run over the first k models, with no model of index k or later started. */
  lemma {:induction false} RunModelsKeeps(env: Env, rule: BucketRule, outputDirs: seq<string>, targets: seq<Target>, k: nat)
    requires k <= |outputDirs|
    ensures var r := RunModels(env, rule, outputDirs[..k], targets);
      |r.visits| == k * |targets| && ModelsDone(env, rule, outputDirs, targets, r, k)
  {
    if k > 0 {
      RunModelsKeeps(env, rule, outputDirs, targets, k - 1);
      assert outputDirs[..k][..k - 1] == outputDirs[..k - 1];
      assert outputDirs[..k][k - 1] == outputDirs[k - 1];
      ModelKeeps(env, rule, outputDirs, targets, k - 1, RunModels(env, rule, outputDirs[..k - 1], targets));
    }
  }

  // ---------------------------------------------------------------------------------------------
  // What the whole batch guarantees

  lemma RunFacts(env: Env, rule: BucketRule, outputDirs: seq<string>, targets: seq<Target>)
    ensures var r := RunModels(env, rule, outputDirs, targets);
      |r.visits| == |outputDirs| * |targets| && ModelsDone(env, rule, outputDirs, targets, r, |outputDirs|)
  {
    RunModelsKeeps(env, rule, outputDirs, targets, |outputDirs|);
    assert outputDirs[..|outputDirs|] == outputDirs;
  }

  /** Positions in a row-major log are unique: a * n + b names one (a, b) with b < n. */
  lemma RowMajorUnique(a: nat, b: nat, c: nat, d: nat, n: nat)
    requires b < n && d < n && a * n + b == c * n + d
    ensures a == c && b == d
  {
    if a < c {
      RowMajorLess(a, b, c, d, n);
    } else if c < a {
      RowMajorLess(c, d, a, b, n);
    }
  }

  lemma RowMajorLess(a: nat, b: nat, c: nat, d: nat, n: nat)
    requires a < c && b < n
    ensures a * n + b < c * n + d
  {
    var k := c - a - 1;
    assert c * n == a * n + n + k * n;
  }

  lemma RowMajorBound(m: nat, j: nat, models: nat, n: nat)
    requires m < models && j < n
    ensures m * n + j < models * n
  {
    assert m * n + n == (m + 1) * n;
    assert (m + 1) * n <= models * n;
  }

  /**
   * Failure isolation (lines 305-306, 459-463): a failing pass only ends its own target, so the
   * loops visit every (model, target) pair exactly once, model by model and in worklist order;
   * each visit is for its target and output directory, and a target without exactly two chains
   * always fails by line 351.
   */
  lemma EveryPairVisitedInOrder(env: Env, rule: BucketRule, outputDirs: seq<string>, targets: seq<Target>, m: nat, j: nat)
    requires m < |outputDirs| && j < |targets|
    ensures var visits := RunModels(env, rule, outputDirs, targets).visits;
      && |visits| == |outputDirs| * |targets|
      && m * |targets| + j < |visits|
      && var v := visits[m * |targets| + j];
      && v.model == m && v.position == j && v.tag == targets[j].tag
      && v.outputDir == FinalOutputDir(outputDirs[m], env.configPreset, targets[j].fileName)
      && (|targets[j].seqs| != 2 ==> v.failure.Some? && StageIndex(v.failure.value) <= StageIndex(ChainLengths))
      && (v.report.Some? ==> |targets[j].seqs| == 2)
      && (v.report.Some? <==> Reached(v, MsaStatistics) && v.failure != Some(MsaStatistics))
  {
    RunFacts(env, rule, outputDirs, targets);
    RowMajorBound(m, j, |outputDirs|, |targets|);
    var visits := RunModels(env, rule, outputDirs, targets).visits;
    var v := visits[m * |targets| + j];
    assert VisitSound(env, outputDirs, targets, v) && v.model * |targets| + v.position == m * |targets| + j;
    RowMajorUnique(v.model, v.position, m, j, |targets|);
  }

  /**
   * Lines 318-332 over all models: a tag's features are generated again only after every
   * earlier generation of that tag raised before the record was stored, and every cache hit
   * follows a pass that stored that tag.
   */
  lemma GenerationAtMostOncePerTag(env: Env, rule: BucketRule, outputDirs: seq<string>, targets: seq<Target>)
    ensures var visits := RunModels(env, rule, outputDirs, targets).visits;
      && (forall i, k | 0 <= i < k < |visits| && visits[i].generated && visits[k].generated && visits[i].tag == visits[k].tag ::
            visits[i].failure == Some(FeatureGeneration) || visits[i].failure == Some(Padding))
      && (forall k | 0 <= k < |visits| && visits[k].cacheHit ::
            exists i | 0 <= i < k :: visits[i].generated && visits[i].tag == visits[k].tag)
  {
    RunFacts(env, rule, outputDirs, targets);
  }

  /** At the end, feature_dicts maps each tag that was stored to the prepared record of a target with that tag. */
  lemma CacheHoldsPreparedRecords(env: Env, rule: BucketRule, outputDirs: seq<string>, targets: seq<Target>, tag: string)
    requires tag in RunModels(env, rule, outputDirs, targets).state.featureDicts
    ensures exists j | 0 <= j < |targets| ::
      targets[j].tag == tag && RunModels(env, rule, outputDirs, targets).state.featureDicts[tag] == Prepared(env, targets[j])
  {
    RunFacts(env, rule, outputDirs, targets);
  }

  /**
   * Lines 304 and 378-385: within one model the traces are taken for strictly increasing
   * buckets, every bucket is a multiple of 50, traces happen only when tracing is on, and a
   * pass never fails at the tracing check unless trace_model_ itself raised: rounded_seqlen is
   * always assigned by the time it is read.
   */
  lemma TracingBucketsIncrease(env: Env, rule: BucketRule, outputDirs: seq<string>, targets: seq<Target>)
    ensures var visits := RunModels(env, rule, outputDirs, targets).visits;
      && (forall i, k | 0 <= i < k < |visits| && visits[i].model == visits[k].model
            && visits[i].traced.Some? && visits[k].traced.Some? ::
            visits[i].traced.value.bucket < visits[k].traced.value.bucket)
      && (forall i | 0 <= i < |visits| && visits[i].traced.Some? ::
            env.traceModel && visits[i].traced.value.bucket % TracingInterval == 0)
      && (forall i | 0 <= i < |visits| && visits[i].failure == Some(Tracing) ::
            env.fails(visits[i].model, visits[i].position, Tracing))
  {
    RunFacts(env, rule, outputDirs, targets);
  }

  /** A log that satisfies LogInv over targets none of which has two chains holds no completed pass. */
  lemma NoTwoChainsNoOutputs(env: Env, outputDirs: seq<string>, targets: seq<Target>, visits: seq<Visit>)
    requires forall j | 0 <= j < |targets| :: |targets[j].seqs| != 2
    requires LogInv(env, outputDirs, targets, visits)
    ensures forall i | 0 <= i < |visits| ::
      && visits[i].failure.Some? && StageIndex(visits[i].failure.value) <= StageIndex(ChainLengths)
      && !visits[i].wroteUnrelaxed && !visits[i].savedStats && visits[i].traced.None?
  {
    forall i | 0 <= i < |visits|
      ensures && visits[i].failure.Some? && StageIndex(visits[i].failure.value) <= StageIndex(ChainLengths)
              && !visits[i].wroteUnrelaxed && !visits[i].savedStats && visits[i].traced.None?
    {
      assert VisitSound(env, outputDirs, targets, visits[i]);
    }
  }

  /** A worklist of targets none of which has exactly two chains gives a run in which no pass gets past line 351. */
  lemma TwoChainsRequired(env: Env, rule: BucketRule, outputDirs: seq<string>, targets: seq<Target>)
    requires forall j | 0 <= j < |targets| :: |targets[j].seqs| != 2
    ensures var visits := RunModels(env, rule, outputDirs, targets).visits;
      forall i | 0 <= i < |visits| ::
        && visits[i].failure.Some? && StageIndex(visits[i].failure.value) <= StageIndex(ChainLengths)
        && !visits[i].wroteUnrelaxed && !visits[i].savedStats && visits[i].traced.None?
  {
    RunFacts(env, rule, outputDirs, targets);
    NoTwoChainsNoOutputs(env, outputDirs, targets, RunModels(env, rule, outputDirs, targets).visits);
  }

  /** In monomer mode the worklist holds only targets of one record and at most one sequence. */
  lemma MonomerWorklist(listing: seq<string>, parse: string -> FastaContents, targets: seq<Target>)
    requires targets == SortByLength(CatalogOf(ListFilesWithExtensions(listing), false, parse))
    ensures forall j | 0 <= j < |targets| :: |targets[j].tags| == 1 && |targets[j].seqs| <= 1
  {
    var catalog := CatalogOf(ListFilesWithExtensions(listing), false, parse);
    SortByLengthSortedPermutation(catalog);
    forall j | 0 <= j < |targets| ensures |targets[j].tags| == 1 && |targets[j].seqs| <= 1 {
      assert targets[j] in multiset(targets);
      NonMultimerSingleChain(ListFilesWithExtensions(listing), parse, targets[j]);
    }
  }

  /**
   * Outside multimer mode line 283 keeps only files with one record, so the worklist holds
   * targets with at most one sequence; the unpacking into two chain lengths at line 351 then
   * fails for every pass of every model, and nothing is written.
   */
  lemma NonMultimerNeverCompletes(env: Env, rule: BucketRule, outputDirs: seq<string>, listing: seq<string>,
                                  parse: string -> FastaContents)
    ensures var targets := SortByLength(CatalogOf(ListFilesWithExtensions(listing), false, parse));
      var visits := RunModels(env, rule, outputDirs, targets).visits;
      forall i | 0 <= i < |visits| ::
        && visits[i].failure.Some? && StageIndex(visits[i].failure.value) <= StageIndex(ChainLengths)
        && !visits[i].wroteUnrelaxed && !visits[i].savedStats && visits[i].traced.None?
  {
    var targets := SortByLength(CatalogOf(ListFilesWithExtensions(listing), false, parse));
    MonomerWorklist(listing, parse, targets);
    TwoChainsRequired(env, rule, outputDirs, targets);
  }

  /**
   * With tracing on, a dimer whose chains do not add up to a multiple of 50 is padded to the next
   * bucket when its features are generated (lines 324-330). If padding widens the "msa" matrix to
   * that length, the unsampled alignment is then wider than the two chains and its statistics
   * fail the assertion of line 81, so the pass raises at lines 357-364, before tracing and before
   * anything is written. This holds under both bucket rules.
   */
  lemma PaddedDimerFailsStatistics(env: Env, rule: BucketRule, m: nat, outputDirectory: string, j: nat, t: Target,
                                   st: State)
    requires env.traceModel && forall s: Stage :: !env.fails(m, j, s)
    requires t.tag !in st.featureDicts && |t.seqs| == 2
    requires env.generate(t).numRes == |t.seqs[0]| + |t.seqs[1]|
    requires env.generate(t).numRes % TracingInterval != 0
    requires env.padMsa(env.generate(t).msa, RoundUpSeqlen(env.generate(t).numRes)).cols
             == RoundUpSeqlen(env.generate(t).numRes)
    requires env.process(m, j, Prepared(env, t)).trueMsa.depth > 0
    ensures var v := StepTarget(env, rule, m, outputDirectory, j, t, st).visit;
      && v.generated && v.failure == Some(MsaStatistics) && v.traced.None? && !v.wroteUnrelaxed && !v.savedStats
  {
    var g := env.generate(t);
    var n := RoundUpSeqlen(g.numRes);
    assert g.numRes < n;
    WiderThanChainsFails(Pad(env, g, n).msa, |t.seqs[0]|, |t.seqs[1]|, env.process(m, j, Prepared(env, t)).trueMsa.depth);
  }

  /**
   * A saved statistics table belongs to a pass that ran with saving on, wrote its unrelaxed
   * structure, and raised nowhere before msa_stats.csv was written: at most the raw-alignment
   * pickle after it raised.
   */
  lemma SavedStatsOnlyOnSuccess(env: Env, outputDirs: seq<string>, targets: seq<Target>, visits: seq<Visit>, i: nat)
    requires LogInv(env, outputDirs, targets, visits) && i < |visits|
    requires SavedStats(env, visits[i]).Some?
    ensures visits[i].failure.None? || visits[i].failure == Some(SaveRawMsa)
    ensures env.saveOutputs && visits[i].wroteUnrelaxed && visits[i].relaxed == !env.skipRelaxation
  {
    assert VisitSound(env, outputDirs, targets, visits[i]);
  }

  /**
   * Lines 403-408: under one model, targets with different file names write their unrelaxed
   * structures to different files.
   */
  lemma UnrelaxedPathsDistinct(outputDirectory: string, configPreset: string, cifOutput: bool, name1: string, name2: string)
    requires name1 != name2
    ensures PathJoin(FinalOutputDir(outputDirectory, configPreset, name1), UnrelaxedSuffix(cifOutput))
         != PathJoin(FinalOutputDir(outputDirectory, configPreset, name2), UnrelaxedSuffix(cifOutput))
  {
    var prefix := PathJoin(outputDirectory, configPreset) + "/";
    var tail := "/" + UnrelaxedSuffix(cifOutput);
    var p1 := PathJoin(FinalOutputDir(outputDirectory, configPreset, name1), UnrelaxedSuffix(cifOutput));
    var p2 := PathJoin(FinalOutputDir(outputDirectory, configPreset, name2), UnrelaxedSuffix(cifOutput));
    assert p1 == prefix + name1 + tail && p2 == prefix + name2 + tail;
    if |name1| == |name2| {
      var k :| 0 <= k < |name1| && name1[k] != name2[k];
      assert p1[|prefix| + k] == name1[k] && p2[|prefix| + k] == name2[k];
    } else {
      assert |p1| != |p2|;
    }
  }
}
