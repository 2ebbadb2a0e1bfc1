/**
 * Alignment-depth statistics per recycling iteration (run_pretrained_openfold.py, get_msa_stats).
 *
 * An alignment view is an integer token tensor. The "total" view is the unsampled alignment of
 * the feature record, shape [rows, cols]; the "used" and "extra" views come out of feature
 * processing with one slice per recycling iteration, shape [rows, cols, recycles]. A row's columns
 * are the concatenation of chain 1 (the first seq_length_1 columns) and chain 2 (the rest).
 */
module MsaStats {
  import opened Wrappers

  /** Token that fills padding rows: a row made only of it is dropped by the mask. */
  const PadToken: int := 0
  /** Gap token: a chain part made only of it carries no aligned sequence for that chain. */
  const GapToken: int := 21
  /** The prefix that selects the whole 2-D tensor instead of one recycling slice. */
  const TotalPrefix: string := "total_"

  /** A 2-D tensor. The column count is explicit: it survives when the mask keeps no row. */
  datatype MatrixShape = MatrixShape(cols: nat, rows: seq<seq<int>>) {
    predicate Rectangular() {
      forall r | 0 <= r < |rows| :: |rows[r]| == cols
    }
  }
  type Matrix = m: MatrixShape | m.Rectangular() witness MatrixShape(0, [])

  /** A 3-D tensor indexed [row][column][recycling iteration]. */
  datatype TensorShape = TensorShape(cols: nat, depth: nat, rows: seq<seq<seq<int>>>) {
    predicate Rectangular() {
      forall r | 0 <= r < |rows| ::
        |rows[r]| == cols && forall c | 0 <= c < cols :: |rows[r][c]| == depth
    }
  }
  type Tensor = t: TensorShape | t.Rectangular() witness TensorShape(0, 0, [])

  datatype View = Flat(matrix: Matrix) | Stacked(tensor: Tensor)

  /** The exceptions get_msa_stats can raise: a bad index (IndexError) or a failed shape assertion. */
  datatype StatsError = IndexOutOfRange | ShapeMismatch

  datatype Counts = Counts(paired: nat, unpairedChain1: nat, unpairedChain2: nat)

  /** One row of the returned table: its index (recycle_num, from 1) and its three counts. */
  datatype StatsRow = StatsRow(recycleNum: nat, counts: Counts)

  datatype StatsTable = StatsTable(columns: seq<string>, rows: seq<StatsRow>)

  function ColumnNames(prefix: string): (names: seq<string>)
    ensures |names| == 3
    ensures forall k | 0 <= k < 3 :: |names[k]| > |prefix| && names[k][..|prefix|] == prefix
  {
    [prefix + "paired", prefix + "unpaired_chain_1", prefix + "unpaired_chain_2"]
  }

  /** all_msa[:, :, i]: the alignment seen in recycling iteration i. */
  function SliceAt(t: Tensor, i: nat): (m: Matrix)
    requires i < t.depth
    ensures m.cols == t.cols && |m.rows| == |t.rows|
    ensures forall r, c | 0 <= r < |t.rows| && 0 <= c < t.cols :: m.rows[r][c] == t.rows[r][c][i]
  {
    MatrixShape(t.cols, seq(|t.rows|, r requires 0 <= r < |t.rows| =>
      seq(t.cols, c requires 0 <= c < t.cols => t.rows[r][c][i])))
  }

  /**
   * The 2-D tensor of iteration i: the whole tensor under the "total_" prefix, else slice i.
   * Indexing a 2-D tensor with three indices, or past the last iteration, raises IndexError; a
   * 3-D tensor under "total_" cannot be masked row-wise and is reported as a shape error.
   */
  function BatchMsa(allMsa: View, prefix: string, i: nat): Result<Matrix, StatsError> {
    if prefix == TotalPrefix then
      match allMsa
      case Flat(m) => Ok(m)
      case Stacked(_) => Err(ShapeMismatch)
    else
      match allMsa
      case Flat(_) => Err(IndexOutOfRange)
      case Stacked(t) => if i < t.depth then Ok(SliceAt(t, i)) else Err(IndexOutOfRange)
  }

  /** The mask of line 76: some position of the row differs from the padding token. */
  predicate HasToken(row: seq<int>) {
    exists c | 0 <= c < |row| :: row[c] != PadToken
  }

  /** batch_msa[mask, :]: the rows that are not entirely padding, in their original order. */
  function KeptRows(rows: seq<seq<int>>): seq<seq<int>> {
    if rows == [] then []
    else (if HasToken(rows[0]) then [rows[0]] else []) + KeptRows(rows[1..])
  }

  /** The mask keeps exactly the rows with a non-padding token, and never more rows than it gets. */
  lemma {:induction false} KeptRowsMembers(rows: seq<seq<int>>)
    ensures |KeptRows(rows)| <= |rows|
    ensures forall row :: row in KeptRows(rows) <==> row in rows && HasToken(row)
  {
    if rows != [] {
      KeptRowsMembers(rows[1..]);
      assert rows == [rows[0]] + rows[1..];
    }
  }

  /** A slice bound past the end is clamped, as in Python: s[:k] keeps Min(k, len(s)) elements. */
  function Min(a: nat, b: nat): nat {
    if a <= b then a else b
  }

  /** The chain-1 columns of a row: batch_msa[:, :seq_length_1]. */
  function Chain1(row: seq<int>, seqLength1: nat): seq<int> {
    row[..Min(seqLength1, |row|)]
  }

  /** The chain-2 columns: batch_msa[:, seq_length_1:], or the chain-1 part itself in homo mode. */
  function Chain2(row: seq<int>, seqLength1: nat, ifHomo: bool): seq<int> {
    if ifHomo then Chain1(row, seqLength1) else row[Min(seqLength1, |row|)..]
  }

  /** ~(part == 21).all(): the chain is present in the row when not every position is a gap. */
  predicate HasAlignment(part: seq<int>) {
    !(forall c | 0 <= c < |part| :: part[c] == GapToken)
  }

  function Indicator(b: bool): nat {
    if b then 1 else 0
  }

  /**
   * The contribution of one kept row: have_1 & have_2 is paired; have_1 ^ paired and
   * have_2 ^ paired are the unpaired flags. A row thus lands in at most one of the three columns.
   */
  function RowCounts(row: seq<int>, seqLength1: nat, ifHomo: bool): (c: Counts)
    ensures c.paired == 1 <==> HasAlignment(Chain1(row, seqLength1)) && HasAlignment(Chain2(row, seqLength1, ifHomo))
    ensures c.unpairedChain1 == 1 <==> HasAlignment(Chain1(row, seqLength1)) && !HasAlignment(Chain2(row, seqLength1, ifHomo))
    ensures c.unpairedChain2 == 1 <==> !HasAlignment(Chain1(row, seqLength1)) && HasAlignment(Chain2(row, seqLength1, ifHomo))
    ensures c.paired + c.unpairedChain1 + c.unpairedChain2 <= 1
  {
    var have1 := HasAlignment(Chain1(row, seqLength1));
    var have2 := HasAlignment(Chain2(row, seqLength1, ifHomo));
    var pair := have1 && have2;
    Counts(Indicator(pair), Indicator(have1 != pair), Indicator(have2 != pair))
  }

  /** The three .sum() calls over the kept rows. */
  function Tally(rows: seq<seq<int>>, seqLength1: nat, ifHomo: bool): Counts {
    if rows == [] then Counts(0, 0, 0)
    else
      var head := RowCounts(rows[0], seqLength1, ifHomo);
      var rest := Tally(rows[1..], seqLength1, ifHomo);
      Counts(head.paired + rest.paired, head.unpairedChain1 + rest.unpairedChain1,
             head.unpairedChain2 + rest.unpairedChain2)
  }

  /** Reference counts: rows whose chain-1 part, resp. chain-2 part, is not all gaps. */
  function CountChain1(rows: seq<seq<int>>, seqLength1: nat): nat {
    if rows == [] then 0
    else Indicator(HasAlignment(Chain1(rows[0], seqLength1))) + CountChain1(rows[1..], seqLength1)
  }

  function CountChain2(rows: seq<seq<int>>, seqLength1: nat, ifHomo: bool): nat {
    if rows == [] then 0
    else Indicator(HasAlignment(Chain2(rows[0], seqLength1, ifHomo))) + CountChain2(rows[1..], seqLength1, ifHomo)
  }

  /**
   * The shape assertions: the chain-2 part has seq_length_2 columns (line 81), or in homo mode
   * the whole row is chain 1 (line 84).
   */
  predicate ShapeAgrees(cols: nat, seqLength1: nat, seqLength2: nat, ifHomo: bool) {
    if ifHomo then cols == seqLength1 else cols - Min(seqLength1, cols) == seqLength2
  }

  /** Lines 76-94 for one 2-D tensor. */
  function IterationCounts(batchMsa: Matrix, seqLength1: nat, seqLength2: nat, ifHomo: bool): Result<Counts, StatsError> {
    if ShapeAgrees(batchMsa.cols, seqLength1, seqLength2, ifHomo) then
      Ok(Tally(KeptRows(batchMsa.rows), seqLength1, ifHomo))
    else
      Err(ShapeMismatch)
  }

  /** The body of the loop for iteration i (0-based). */
  function IterationStats(allMsa: View, seqLength1: nat, seqLength2: nat, ifHomo: bool, prefix: string, i: nat)
    : Result<Counts, StatsError>
  {
    match BatchMsa(allMsa, prefix, i)
    case Err(e) => Err(e)
    case Ok(m) => IterationCounts(m, seqLength1, seqLength2, ifHomo)
  }

  /** The table after the first k iterations, or the first exception raised among them. */
  function RowsUpTo(allMsa: View, seqLength1: nat, seqLength2: nat, ifHomo: bool, prefix: string, k: nat)
    : Result<seq<StatsRow>, StatsError>
  {
    if k == 0 then Ok([])
    else
      match RowsUpTo(allMsa, seqLength1, seqLength2, ifHomo, prefix, k - 1)
      case Err(e) => Err(e)
      case Ok(rows) =>
        match IterationStats(allMsa, seqLength1, seqLength2, ifHomo, prefix, k - 1)
        case Err(e) => Err(e)
        case Ok(c) => Ok(rows + [StatsRow(k, c)])
  }

  /**
   * The columns of the returned table: the frame starts with an index only, and the three count
   * columns come into being with the first row written, so a call with no iterations returns a
   * table without columns.
   */
  function TableColumns(prefix: string, numRecycle: nat): seq<string> {
    if numRecycle == 0 then [] else ColumnNames(prefix)
  }

  /** What get_msa_stats returns, or the exception it raises. */
  function MsaStatsTable(allMsa: View, seqLength1: nat, seqLength2: nat, numRecycle: nat, ifHomo: bool, prefix: string)
    : Result<StatsTable, StatsError>
  {
    match RowsUpTo(allMsa, seqLength1, seqLength2, ifHomo, prefix, numRecycle)
    case Err(e) => Err(e)
    case Ok(rows) => Ok(StatsTable(TableColumns(prefix, numRecycle), rows))
  }

  /** Once an iteration has raised, the loop never gets further: later prefixes carry that error. */
  lemma {:induction false} ErrorPersists(allMsa: View, seqLength1: nat, seqLength2: nat, ifHomo: bool, prefix: string,
                                         k: nat, k': nat, e: StatsError)
    requires k <= k'
    requires RowsUpTo(allMsa, seqLength1, seqLength2, ifHomo, prefix, k) == Err(e)
    ensures RowsUpTo(allMsa, seqLength1, seqLength2, ifHomo, prefix, k') == Err(e)
  {
    if k < k' {
      ErrorPersists(allMsa, seqLength1, seqLength2, ifHomo, prefix, k, k' - 1, e);
    }
  }

  /** One more iteration of the loop: its row is appended, or its error ends the table. */
  lemma RowsUpToNext(allMsa: View, seqLength1: nat, seqLength2: nat, ifHomo: bool, prefix: string, i: nat,
                     rows: seq<StatsRow>)
    requires RowsUpTo(allMsa, seqLength1, seqLength2, ifHomo, prefix, i) == Ok(rows)
    ensures var next := IterationStats(allMsa, seqLength1, seqLength2, ifHomo, prefix, i);
      RowsUpTo(allMsa, seqLength1, seqLength2, ifHomo, prefix, i + 1)
        == if next.Ok? then Ok(rows + [StatsRow(i + 1, next.value)]) else Err(next.error)
  {
  }

  /** get_msa_stats: one loop iteration per recycle, each filling table row i + 1. */
  method GetMsaStats(allMsa: View, seqLength1: nat, seqLength2: nat, numRecycle: nat, ifHomo: bool, prefix: string)
    returns (res: Result<StatsTable, StatsError>)
    ensures res == MsaStatsTable(allMsa, seqLength1, seqLength2, numRecycle, ifHomo, prefix)
  {
    var rows: seq<StatsRow> := [];
    for i := 0 to numRecycle
      invariant RowsUpTo(allMsa, seqLength1, seqLength2, ifHomo, prefix, i) == Ok(rows)
    {
      RowsUpToNext(allMsa, seqLength1, seqLength2, ifHomo, prefix, i, rows);
      var batchMsa: Matrix;
      if prefix == TotalPrefix {
        if !allMsa.Flat? {
          ErrorPersists(allMsa, seqLength1, seqLength2, ifHomo, prefix, i + 1, numRecycle, ShapeMismatch);
          return Err(ShapeMismatch);
        }
        batchMsa := allMsa.matrix;
      } else {
        if !allMsa.Stacked? || i >= allMsa.tensor.depth {
          ErrorPersists(allMsa, seqLength1, seqLength2, ifHomo, prefix, i + 1, numRecycle, IndexOutOfRange);
          return Err(IndexOutOfRange);
        }
        batchMsa := SliceAt(allMsa.tensor, i);
      }
      assert BatchMsa(allMsa, prefix, i) == Ok(batchMsa);
      var kept := KeptRows(batchMsa.rows);
      var chain2Cols := if ifHomo then batchMsa.cols else batchMsa.cols - Min(seqLength1, batchMsa.cols);
      var expected := if ifHomo then seqLength1 else seqLength2;
      if chain2Cols != expected {
        ErrorPersists(allMsa, seqLength1, seqLength2, ifHomo, prefix, i + 1, numRecycle, ShapeMismatch);
        return Err(ShapeMismatch);
      }
      var counts := Tally(kept, seqLength1, ifHomo);
      rows := rows + [StatsRow(i + 1, counts)];
    }
    res := Ok(StatsTable(TableColumns(prefix, numRecycle), rows));
  }

  // ---------------------------------------------------------------------------------------------
  // Properties of the statistics

  /** paired + unpaired_chain_1 and paired + unpaired_chain_2 count the rows with that chain present. */
  lemma {:induction false} TallyIdentities(rows: seq<seq<int>>, seqLength1: nat, ifHomo: bool)
    ensures var t := Tally(rows, seqLength1, ifHomo);
      && t.paired + t.unpairedChain1 == CountChain1(rows, seqLength1)
      && t.paired + t.unpairedChain2 == CountChain2(rows, seqLength1, ifHomo)
      && t.paired + t.unpairedChain1 + t.unpairedChain2 <= |rows|
  {
    if rows != [] {
      TallyIdentities(rows[1..], seqLength1, ifHomo);
    }
  }

  /**
   * For one iteration: the counts are taken over the rows that survive the mask, each such row
   * lands in at most one column, and the per-chain sums are the per-chain presence counts.
   */
  lemma IterationIdentities(batchMsa: Matrix, seqLength1: nat, seqLength2: nat, ifHomo: bool)
    requires IterationCounts(batchMsa, seqLength1, seqLength2, ifHomo).Ok?
    ensures var c := IterationCounts(batchMsa, seqLength1, seqLength2, ifHomo).value;
      var kept := KeptRows(batchMsa.rows);
      && c.paired + c.unpairedChain1 == CountChain1(kept, seqLength1)
      && c.paired + c.unpairedChain2 == CountChain2(kept, seqLength1, ifHomo)
      && c.paired + c.unpairedChain1 + c.unpairedChain2 <= |kept|
  {
    TallyIdentities(KeptRows(batchMsa.rows), seqLength1, ifHomo);
  }

  lemma {:induction false} HomoTally(rows: seq<seq<int>>, seqLength1: nat)
    ensures Tally(rows, seqLength1, true).unpairedChain1 == 0
    ensures Tally(rows, seqLength1, true).unpairedChain2 == 0
  {
    if rows != [] {
      var row := rows[0];
      assert Chain2(row, seqLength1, true) == Chain1(row, seqLength1);
      assert RowCounts(row, seqLength1, true).unpairedChain1 == 0;
      assert RowCounts(row, seqLength1, true).unpairedChain2 == 0;
      HomoTally(rows[1..], seqLength1);
    }
  }

  /** In homo mode chain 2 aliases chain 1: nothing is unpaired and every present row is paired. */
  lemma HomoDegenerates(batchMsa: Matrix, seqLength1: nat, seqLength2: nat)
    requires IterationCounts(batchMsa, seqLength1, seqLength2, true).Ok?
    ensures var c := IterationCounts(batchMsa, seqLength1, seqLength2, true).value;
      && c.unpairedChain1 == 0 && c.unpairedChain2 == 0
      && c.paired == CountChain1(KeptRows(batchMsa.rows), seqLength1)
  {
    HomoTally(KeptRows(batchMsa.rows), seqLength1);
    TallyIdentities(KeptRows(batchMsa.rows), seqLength1, true);
  }

  lemma {:induction false} KeptRowsAppend(a: seq<seq<int>>, b: seq<seq<int>>)
    ensures KeptRows(a + b) == KeptRows(a) + KeptRows(b)
  {
    if a != [] {
      var head := if HasToken(a[0]) then [a[0]] else [];
      assert (a + b)[0] == a[0];
      assert (a + b)[1..] == a[1..] + b;
      KeptRowsAppend(a[1..], b);
      calc {
        KeptRows(a + b);
        head + KeptRows(a[1..] + b);
        head + (KeptRows(a[1..]) + KeptRows(b));
        (head + KeptRows(a[1..])) + KeptRows(b);
        KeptRows(a) + KeptRows(b);
      }
    } else {
      assert a + b == b;
    }
  }

  /** The tensor with row z inserted before position p. */
  function InsertRow(m: Matrix, p: nat, z: seq<int>): (m': Matrix)
    requires |z| == m.cols && p <= |m.rows|
    ensures m'.cols == m.cols && |m'.rows| == |m.rows| + 1
  {
    MatrixShape(m.cols, m.rows[..p] + [z] + m.rows[p..])
  }

  /** A row made only of padding is removed by the mask and so changes no count and no error. */
  lemma ZeroRowIgnored(m: Matrix, p: nat, z: seq<int>, seqLength1: nat, seqLength2: nat, ifHomo: bool)
    requires |z| == m.cols && p <= |m.rows|
    requires forall c | 0 <= c < |z| :: z[c] == PadToken
    ensures IterationCounts(InsertRow(m, p, z), seqLength1, seqLength2, ifHomo)
         == IterationCounts(m, seqLength1, seqLength2, ifHomo)
  {
    var a, b := m.rows[..p], m.rows[p..];
    assert m.rows == a + b;
    assert !HasToken(z);
    assert KeptRows([z]) == [];
    KeptRowsAppend(a + [z], b);
    KeptRowsAppend(a, [z]);
    KeptRowsAppend(a, b);
    assert InsertRow(m, p, z).rows == (a + [z]) + b;
    assert KeptRows(InsertRow(m, p, z).rows) == KeptRows(m.rows);
  }

  /** The loop over k iterations succeeds exactly when none of them raised. */
  lemma {:induction false} RowsUpToOk(allMsa: View, seqLength1: nat, seqLength2: nat, ifHomo: bool, prefix: string, k: nat)
    ensures RowsUpTo(allMsa, seqLength1, seqLength2, ifHomo, prefix, k).Ok?
        <==> forall j | 0 <= j < k :: IterationStats(allMsa, seqLength1, seqLength2, ifHomo, prefix, j).Ok?
  {
    if k > 0 {
      RowsUpToOk(allMsa, seqLength1, seqLength2, ifHomo, prefix, k - 1);
    }
  }

  /** A successful loop over k iterations gives k rows, row j holding iteration j under the index j + 1. */
  lemma {:induction false} RowsUpToRows(allMsa: View, seqLength1: nat, seqLength2: nat, ifHomo: bool, prefix: string, k: nat)
    requires RowsUpTo(allMsa, seqLength1, seqLength2, ifHomo, prefix, k).Ok?
    ensures var rows := RowsUpTo(allMsa, seqLength1, seqLength2, ifHomo, prefix, k).value;
      && |rows| == k
      && forall j | 0 <= j < k ::
           rows[j] == StatsRow(j + 1, IterationStats(allMsa, seqLength1, seqLength2, ifHomo, prefix, j).value)
  {
    if k > 0 {
      var before := RowsUpTo(allMsa, seqLength1, seqLength2, ifHomo, prefix, k - 1);
      var last := IterationStats(allMsa, seqLength1, seqLength2, ifHomo, prefix, k - 1);
      assert before.Ok? && last.Ok?;
      RowsUpToRows(allMsa, seqLength1, seqLength2, ifHomo, prefix, k - 1);
      var rows := before.value + [StatsRow(k, last.value)];
      assert RowsUpTo(allMsa, seqLength1, seqLength2, ifHomo, prefix, k).value == rows;
      forall j | 0 <= j < k
        ensures rows[j] == StatsRow(j + 1, IterationStats(allMsa, seqLength1, seqLength2, ifHomo, prefix, j).value)
      {
        if j < k - 1 {
          assert rows[j] == before.value[j];
        }
      }
    }
  }

  /** The table after k iterations exists exactly when no iteration among them raised, and row j is iteration j. */
  lemma RowsUpToShape(allMsa: View, seqLength1: nat, seqLength2: nat, ifHomo: bool, prefix: string, k: nat)
    ensures RowsUpTo(allMsa, seqLength1, seqLength2, ifHomo, prefix, k).Ok?
        <==> forall j | 0 <= j < k :: IterationStats(allMsa, seqLength1, seqLength2, ifHomo, prefix, j).Ok?
    ensures RowsUpTo(allMsa, seqLength1, seqLength2, ifHomo, prefix, k).Ok? ==>
      var rows := RowsUpTo(allMsa, seqLength1, seqLength2, ifHomo, prefix, k).value;
      && |rows| == k
      && forall j | 0 <= j < k ::
           rows[j] == StatsRow(j + 1, IterationStats(allMsa, seqLength1, seqLength2, ifHomo, prefix, j).value)
  {
    RowsUpToOk(allMsa, seqLength1, seqLength2, ifHomo, prefix, k);
    if RowsUpTo(allMsa, seqLength1, seqLength2, ifHomo, prefix, k).Ok? {
      RowsUpToRows(allMsa, seqLength1, seqLength2, ifHomo, prefix, k);
    }
  }

  /**
   * The table has exactly num_recycle rows, indexed 1..num_recycle, under the three column
   * names, and row i holds the counts of iteration i - 1; it is returned exactly when every
   * iteration succeeds.
   */
  lemma TableShape(allMsa: View, seqLength1: nat, seqLength2: nat, numRecycle: nat, ifHomo: bool, prefix: string)
    ensures MsaStatsTable(allMsa, seqLength1, seqLength2, numRecycle, ifHomo, prefix).Ok?
        <==> forall j | 0 <= j < numRecycle :: IterationStats(allMsa, seqLength1, seqLength2, ifHomo, prefix, j).Ok?
    ensures MsaStatsTable(allMsa, seqLength1, seqLength2, numRecycle, ifHomo, prefix).Ok? ==>
      var t := MsaStatsTable(allMsa, seqLength1, seqLength2, numRecycle, ifHomo, prefix).value;
      && (numRecycle > 0 ==> t.columns == ColumnNames(prefix))
      && (numRecycle == 0 ==> t.columns == [])
      && |t.rows| == numRecycle
      && forall j | 0 <= j < numRecycle ::
           && t.rows[j].recycleNum == j + 1
           && Ok(t.rows[j].counts) == IterationStats(allMsa, seqLength1, seqLength2, ifHomo, prefix, j)
  {
    RowsUpToShape(allMsa, seqLength1, seqLength2, ifHomo, prefix, numRecycle);
  }

  /**
   * When get_msa_stats raises: never for zero iterations; otherwise when the view has the wrong
   * rank for its prefix, when a sliced view has fewer iterations than num_recycle, or when a
   * shape assertion fails.
   */
  lemma TableSucceeds(allMsa: View, seqLength1: nat, seqLength2: nat, numRecycle: nat, ifHomo: bool, prefix: string)
    ensures MsaStatsTable(allMsa, seqLength1, seqLength2, numRecycle, ifHomo, prefix).Ok? <==>
      || numRecycle == 0
      || (prefix == TotalPrefix && allMsa.Flat? && ShapeAgrees(allMsa.matrix.cols, seqLength1, seqLength2, ifHomo))
      || (prefix != TotalPrefix && allMsa.Stacked? && numRecycle <= allMsa.tensor.depth
          && ShapeAgrees(allMsa.tensor.cols, seqLength1, seqLength2, ifHomo))
  {
    TableShape(allMsa, seqLength1, seqLength2, numRecycle, ifHomo, prefix);
    if numRecycle > 0 {
      var first := IterationStats(allMsa, seqLength1, seqLength2, ifHomo, prefix, 0);
      var last := IterationStats(allMsa, seqLength1, seqLength2, ifHomo, prefix, numRecycle - 1);
      if first.Ok? && last.Ok? && prefix != TotalPrefix {
        assert allMsa.Stacked? && numRecycle - 1 < allMsa.tensor.depth;
        assert SliceAt(allMsa.tensor, 0).cols == allMsa.tensor.cols;
      }
    }
  }

  /**
   * An unsampled alignment wider than the two chains together fails the assertion of line 81 in
   * the first iteration: the chain-2 part takes every column after chain 1, so it is wider than
   * seq_length_2.
   */
  lemma WiderThanChainsFails(m: Matrix, seqLength1: nat, seqLength2: nat, numRecycle: nat)
    requires numRecycle > 0 && seqLength1 + seqLength2 < m.cols
    ensures MsaStatsTable(Flat(m), seqLength1, seqLength2, numRecycle, false, TotalPrefix) == Err(ShapeMismatch)
  {
    assert RowsUpTo(Flat(m), seqLength1, seqLength2, false, TotalPrefix, 1) == Err(ShapeMismatch);
    ErrorPersists(Flat(m), seqLength1, seqLength2, false, TotalPrefix, 1, numRecycle, ShapeMismatch);
  }

  /** Under the "total_" prefix every iteration reads the same tensor, so all table rows agree. */
  lemma TotalRowsIdentical(allMsa: View, seqLength1: nat, seqLength2: nat, numRecycle: nat, ifHomo: bool)
    requires MsaStatsTable(allMsa, seqLength1, seqLength2, numRecycle, ifHomo, TotalPrefix).Ok?
    ensures var t := MsaStatsTable(allMsa, seqLength1, seqLength2, numRecycle, ifHomo, TotalPrefix).value;
      forall j, k | 0 <= j < |t.rows| && 0 <= k < |t.rows| :: t.rows[j].counts == t.rows[k].counts
  {
    TableShape(allMsa, seqLength1, seqLength2, numRecycle, ifHomo, TotalPrefix);
  }

  /** The mask keeps the rows that hold a non-padding token. */
  lemma PlantedKept(b: seq<int>, z: seq<int>, f: seq<int>, g: seq<int>)
    requires b == [5, 7, 9, 3] && z == [0, 0, 0, 0] && f == [5, 7, 21, 21] && g == [21, 21, 9, 3]
    ensures KeptRows([b, z, f, g]) == [b, f, g]
  {
    assert b[0] != PadToken && f[0] != PadToken && g[0] != PadToken;
    assert HasToken(b) && HasToken(f) && HasToken(g) && !HasToken(z);
    assert KeptRows([g]) == [g];
    assert [f, g][1..] == [g];
    assert KeptRows([f, g]) == [f, g];
    assert [z, f, g][1..] == [f, g];
    assert KeptRows([z, f, g]) == [f, g];
    assert [b, z, f, g][1..] == [z, f, g];
  }

  /** Row b has both chains present (columns 1-2 and 3-4), row f only chain 1, row g only chain 2. */
  lemma PlantedRowCounts(b: seq<int>, f: seq<int>, g: seq<int>)
    requires b == [5, 7, 9, 3] && f == [5, 7, 21, 21] && g == [21, 21, 9, 3]
    ensures RowCounts(b, 2, false) == Counts(1, 0, 0)
    ensures RowCounts(f, 2, false) == Counts(0, 1, 0)
    ensures RowCounts(g, 2, false) == Counts(0, 0, 1)
  {
    assert Chain1(b, 2) == [5, 7] && Chain2(b, 2, false) == [9, 3];
    assert Chain1(f, 2) == [5, 7] && Chain2(f, 2, false) == [21, 21];
    assert Chain1(g, 2) == [21, 21] && Chain2(g, 2, false) == [9, 3];
    assert [5, 7][0] != GapToken && [9, 3][0] != GapToken;
    assert HasAlignment([5, 7]) && HasAlignment([9, 3]) && !HasAlignment([21, 21]);
  }

  lemma PlantedTally(b: seq<int>, f: seq<int>, g: seq<int>)
    requires b == [5, 7, 9, 3] && f == [5, 7, 21, 21] && g == [21, 21, 9, 3]
    ensures Tally([b, f, g], 2, false) == Counts(1, 1, 1)
  {
    PlantedRowCounts(b, f, g);
    assert Tally([g], 2, false) == Counts(0, 0, 1);
    assert [f, g][1..] == [g];
    assert Tally([f, g], 2, false) == Counts(0, 1, 1);
    assert [b, f, g][1..] == [f, g];
  }

  lemma SliceRows(t: Tensor, m: Matrix, b: seq<int>, z: seq<int>, f: seq<int>, g: seq<int>)
    requires t == TensorShape(4, 1, [[[5], [7], [9], [3]], [[0], [0], [0], [0]], [[5], [7], [21], [21]], [[21], [21], [9], [3]]])
    requires m == SliceAt(t, 0)
    requires b == [5, 7, 9, 3] && z == [0, 0, 0, 0] && f == [5, 7, 21, 21] && g == [21, 21, 9, 3]
    ensures m.rows == [b, z, f, g]
  {
    assert |m.rows| == 4 && forall r | 0 <= r < 4 :: |m.rows[r]| == 4;
    assert m.rows[0] == b;
    assert m.rows[1] == z;
    assert m.rows[2] == f;
    assert m.rows[3] == g;
  }

  /** The iteration-0 counts of the planted rows. */
  lemma PlantedIteration(m: Matrix, b: seq<int>, z: seq<int>, f: seq<int>, g: seq<int>)
    requires b == [5, 7, 9, 3] && z == [0, 0, 0, 0] && f == [5, 7, 21, 21] && g == [21, 21, 9, 3]
    requires m.cols == 4 && m.rows == [b, z, f, g]
    ensures IterationCounts(m, 2, 2, false) == Ok(Counts(1, 1, 1))
  {
    PlantedKept(b, z, f, g);
    PlantedTally(b, f, g);
  }

  /** With one iteration the table is that iteration's row under the three prefixed columns. */
  lemma OneIterationTable(allMsa: View, seqLength1: nat, seqLength2: nat, ifHomo: bool, prefix: string, c: Counts)
    requires IterationStats(allMsa, seqLength1, seqLength2, ifHomo, prefix, 0) == Ok(c)
    ensures MsaStatsTable(allMsa, seqLength1, seqLength2, 1, ifHomo, prefix)
         == Ok(StatsTable(ColumnNames(prefix), [StatsRow(1, c)]))
  {
    assert RowsUpTo(allMsa, seqLength1, seqLength2, ifHomo, prefix, 0) == Ok([]);
    assert [] + [StatsRow(1, c)] == [StatsRow(1, c)];
  }

  /**
   * A planted pattern: in one iteration, a row with both chains, a padding row, a row with only
   * chain 1 and a row with only chain 2 give one count in each column.
   */
  lemma PlantedPattern(t: Tensor)
    requires t == TensorShape(4, 1, [[[5], [7], [9], [3]], [[0], [0], [0], [0]], [[5], [7], [21], [21]], [[21], [21], [9], [3]]])
    ensures MsaStatsTable(Stacked(t), 2, 2, 1, false, "")
         == Ok(StatsTable(ColumnNames(""), [StatsRow(1, Counts(1, 1, 1))]))
  {
    var m := SliceAt(t, 0);
    var b, z, f, g := [5, 7, 9, 3], [0, 0, 0, 0], [5, 7, 21, 21], [21, 21, 9, 3];
    SliceRows(t, m, b, z, f, g);
    PlantedIteration(m, b, z, f, g);
    assert IterationStats(Stacked(t), 2, 2, false, "", 0) == Ok(Counts(1, 1, 1));
    OneIterationTable(Stacked(t), 2, 2, false, "", Counts(1, 1, 1));
  }
}
