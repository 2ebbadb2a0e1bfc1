/**
 * The tracing check of lines 378-385 compares rounded_seqlen, which only a cache miss assigns
 * (lines 324-326). From the second model on every target is a cache hit, so the check sees the
 * bucket of the last target generated, not of the current one: the model is traced for a length
 * the current features do not have.
 *
 * This module exhibits that on a two-model, two-target batch run by the code as written
 * (BucketRule.CarriedOver), and proves that with the bucket of the current target
 * (BucketRule.CurrentTarget) every trace matches its features.
 */
module StaleBucket {
  import opened Wrappers
  import opened SeqLen
  import opened MsaStats
  import opened Catalog
  import opened Driver
  import opened DriverProperties

  /**
   * A multimer preset (line 226), so the worklist may hold dimers; tracing on, nothing raises,
   * one recycling iteration. Generation gives a target as many
   * residues as its chains have together and an alignment of that width (with no rows, so the
   * counts are all zero); padding widens the alignment to the requested length; processing gives
   * alignments of the record's width with one iteration.
   */
  const TracingEnv: Env := Env(
    "model_1_multimer_v3", true, false, true, false,
    (t: Target) => FeatureRecord(TotalLength(t), MatrixShape(TotalLength(t), [])),
    (msa: Matrix, n: nat) => MatrixShape(n, []),
    (m: nat, j: nat, rec: FeatureRecord) =>
      ProcessedFeatures(TensorShape(rec.numRes, 1, []), TensorShape(rec.numRes, 1, [])),
    (m: nat, j: nat) => 1,
    (m: nat, j: nat, s: Stage) => false)

  /** A chain of n residues; only its length matters to the driver. */
  function Chain(n: nat, residue: char): (c: string)
    ensures |c| == n
  {
    seq(n, i => residue)
  }

  /** Two dimers, of 25 + 25 and 75 + 75 residues, already in the order of the sort by total length. */
  const ShortTarget: Target := Target("A-B", ["A", "B"], [Chain(25, 'M'), Chain(25, 'K')], "short")
  const LongTarget: Target := Target("C-D", ["C", "D"], [Chain(75, 'M'), Chain(75, 'K')], "long")

  /** Both totals are already multiples of 50, so padding leaves their lengths as generated. */
  const ShortRecord: FeatureRecord := FeatureRecord(50, MatrixShape(50, []))
  const LongRecord: FeatureRecord := FeatureRecord(150, MatrixShape(150, []))

  lemma TargetLengths()
    ensures |ShortTarget.seqs| == 2 && |ShortTarget.seqs[0]| == 25 && |ShortTarget.seqs[1]| == 25
    ensures |LongTarget.seqs| == 2 && |LongTarget.seqs[0]| == 75 && |LongTarget.seqs[1]| == 75
    ensures TotalLength(ShortTarget) == 50 && TotalLength(LongTarget) == 150
  {
    assert SumLengths(ShortTarget.seqs[2..]) == 0 && SumLengths(LongTarget.seqs[2..]) == 0;
  }

  /**
   * A dimer whose alignment is exactly as wide as its two chains passes both shape assertions,
   * so its three tables are computed.
   */
  lemma ReportsSucceed(m: nat, j: nat, rec: FeatureRecord, t: Target)
    requires |t.seqs| == 2 && rec.numRes == rec.msa.cols == |t.seqs[0]| + |t.seqs[1]|
    ensures StatsReport(rec, TracingEnv.process(m, j, rec), |t.seqs[0]|, |t.seqs[1]|).Ok?
  {
    var l1, l2 := |t.seqs[0]|, |t.seqs[1]|;
    var proc := TracingEnv.process(m, j, rec);
    assert proc.trueMsa.depth == 1 && proc.trueMsa.cols == l1 + l2 && proc.extraMsa == proc.trueMsa;
    TableSucceeds(Flat(rec.msa), l1, l2, 1, false, TotalPrefix);
    TableSucceeds(Stacked(proc.trueMsa), l1, l2, 1, false, "");
    TableSucceeds(Stacked(proc.extraMsa), l1, l2, 1, false, ExtraPrefix);
  }

  /** The cache once both targets were generated. */
  const BothCached: map<string, FeatureRecord> := map["A-B" := ShortRecord, "C-D" := LongRecord]

  /** Model 1, short target: a cache miss, 50 residues already a bucket, traced for 50. */
  lemma FirstModelShort()
    ensures var s := StepTarget(TracingEnv, CarriedOver, 0, "out1", 0, ShortTarget, InitialState);
      && s.state == State(map["A-B" := ShortRecord], 50, Some(50))
      && s.visit.traced == Some(Trace(50, 50)) && !s.visit.cacheHit
      && s.visit.report.Some? && s.visit.failure.None?
  {
    TargetLengths();
    assert RoundUpSeqlen(50) == 50;
    ReportsSucceed(0, 0, ShortRecord, ShortTarget);
  }

  /** Model 1, long target: a cache miss, 150 residues already a bucket, traced for 150. */
  lemma FirstModelLong()
    ensures var s := StepTarget(TracingEnv, CarriedOver, 0, "out1", 1, LongTarget,
                                State(map["A-B" := ShortRecord], 50, Some(50)));
      && s.state == State(BothCached, 150, Some(150))
      && s.visit.traced == Some(Trace(150, 150)) && !s.visit.cacheHit
      && s.visit.report.Some? && s.visit.failure.None?
  {
    TargetLengths();
    assert RoundUpSeqlen(150) == 150;
    ReportsSucceed(0, 1, LongRecord, LongTarget);
  }

  /** Model 2, short target: a cache hit, rounded_seqlen still 150, so traced for 150 on features of 50. */
  lemma SecondModelShort()
    ensures var s := StepTarget(TracingEnv, CarriedOver, 1, "out2", 0, ShortTarget, State(BothCached, 0, Some(150)));
      && s.state == State(BothCached, 150, Some(150))
      && s.visit.traced == Some(Trace(150, 50)) && s.visit.cacheHit
      && s.visit.report.Some? && s.visit.failure.None?
  {
    TargetLengths();
    ReportsSucceed(1, 0, ShortRecord, ShortTarget);
  }

  /** Model 2, long target: a cache hit and 150 is not above 150, so no trace. */
  lemma SecondModelLong()
    ensures var s := StepTarget(TracingEnv, CarriedOver, 1, "out2", 1, LongTarget, State(BothCached, 150, Some(150)));
      && s.state == State(BothCached, 150, Some(150))
      && s.visit.traced.None? && s.visit.cacheHit
      && s.visit.report.Some? && s.visit.failure.None?
  {
    TargetLengths();
    ReportsSucceed(1, 1, LongRecord, LongTarget);
  }

  /** One model over the two targets, from the state st, as the two steps it is made of. */
  lemma TwoTargets(m: nat, outputDirectory: string, r: Run)
    ensures var targets := [ShortTarget, LongTarget];
      var st := r.state.(curTracingInterval := 0);
      var s0 := StepTarget(TracingEnv, CarriedOver, m, outputDirectory, 0, ShortTarget, st);
      var s1 := StepTarget(TracingEnv, CarriedOver, m, outputDirectory, 1, LongTarget, s0.state);
      RunModel(TracingEnv, CarriedOver, m, outputDirectory, targets, r) == Run(s1.state, r.visits + [s0.visit, s1.visit])
  {
    var targets := [ShortTarget, LongTarget];
    var r' := r.(state := r.state.(curTracingInterval := 0));
    assert targets[..1] == [ShortTarget] && [ShortTarget][..0] == [];
    assert RunTargets(TracingEnv, CarriedOver, m, outputDirectory, [], r') == r';
    var s0 := StepTarget(TracingEnv, CarriedOver, m, outputDirectory, 0, ShortTarget, r'.state);
    assert RunTargets(TracingEnv, CarriedOver, m, outputDirectory, [ShortTarget], r') == Run(s0.state, r.visits + [s0.visit]);
  }

  /** The pass computed its statistics report and raised nothing. */
  predicate Completed(v: Visit) {
    v.report.Some? && v.failure.None?
  }

  /** Model 1 over the worklist: both targets generated, traced for 50 and then for 150. */
  lemma FirstModel()
    ensures var r := RunModels(TracingEnv, CarriedOver, ["out1"], [ShortTarget, LongTarget]);
      && r.state == State(BothCached, 150, Some(150)) && |r.visits| == 2
      && r.visits[0].traced == Some(Trace(50, 50)) && !r.visits[0].cacheHit
      && r.visits[1].traced == Some(Trace(150, 150)) && !r.visits[1].cacheHit
      && Completed(r.visits[0]) && Completed(r.visits[1])
  {
    var targets := [ShortTarget, LongTarget];
    var r0 := Run(InitialState, []);
    assert ["out1"][..0] == [];
    assert RunModels(TracingEnv, CarriedOver, [], targets) == r0;
    TwoTargets(0, "out1", r0);
    FirstModelShort();
    FirstModelLong();
  }

  /** Model 2 after model 1: both targets are cache hits, the first traced for 150 on 50 residues. */
  lemma SecondModel(r1: Run)
    requires r1.state == State(BothCached, 150, Some(150))
    ensures var r := RunModel(TracingEnv, CarriedOver, 1, "out2", [ShortTarget, LongTarget], r1);
      && r.state == State(BothCached, 150, Some(150)) && |r.visits| == |r1.visits| + 2
      && r.visits[..|r1.visits|] == r1.visits
      && r.visits[|r1.visits|].cacheHit && r.visits[|r1.visits|].traced == Some(Trace(150, 50))
      && r.visits[|r1.visits| + 1].cacheHit && r.visits[|r1.visits| + 1].traced.None?
      && Completed(r.visits[|r1.visits|]) && Completed(r.visits[|r1.visits| + 1])
  {
    TwoTargets(1, "out2", r1);
    SecondModelShort();
    SecondModelLong();
  }

  /**
   * As written: in the second model the short target is a cache hit, rounded_seqlen still holds
   * 150 from the long target, and 150 > 0, so the model is traced for 150 residues while the
   * features of the short target have 50. The long target that follows is then not traced again,
   * so its 150-residue features run on the model traced with 50-residue ones.
   */
  lemma CarriedOverTracesWrongLength()
    ensures var r := RunModels(TracingEnv, CarriedOver, ["out1", "out2"], [ShortTarget, LongTarget]);
      var visits := r.visits;
      && |visits| == 4 && r.state.featureDicts == BothCached
      && visits[0].traced == Some(Trace(50, 50))
      && visits[1].traced == Some(Trace(150, 150))
      && visits[2].cacheHit && visits[2].traced == Some(Trace(150, 50))
      && visits[3].cacheHit && visits[3].traced.None?
      && Completed(visits[0]) && Completed(visits[1]) && Completed(visits[2]) && Completed(visits[3])
      && Contains(TracingEnv.configPreset, "multimer")
  {
    var targets := [ShortTarget, LongTarget];
    assert ["out1", "out2"][..1] == ["out1"];
    var r1 := RunModels(TracingEnv, CarriedOver, ["out1"], targets);
    assert RunModels(TracingEnv, CarriedOver, ["out1", "out2"], targets) == RunModel(TracingEnv, CarriedOver, 1, "out2", targets, r1);
    FirstModel();
    SecondModel(r1);
    MultimerPresets();
  }

  /**
   * Corrected: when the check compares the bucket of the features the current target uses, every
   * trace of every model was taken for exactly the length of its features, and that length is a
   * multiple of 50.
   */
  lemma CurrentTargetTracesMatchFeatures(env: Env, outputDirs: seq<string>, targets: seq<Target>)
    ensures var visits := RunModels(env, CurrentTarget, outputDirs, targets).visits;
      forall i | 0 <= i < |visits| && visits[i].traced.Some? ::
        && visits[i].traced.value.bucket == visits[i].traced.value.featureLength
        && visits[i].traced.value.featureLength % TracingInterval == 0
  {
    RunFacts(env, CurrentTarget, outputDirs, targets);
  }
}
