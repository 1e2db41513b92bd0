/** The data-quality views of the overview and exploration tabs: per-column non-null and
    missing counts, the "Missing Values" metric, and the missing-values summary chart. A cell
    is `None` when pandas reports it as null; what a present cell holds does not matter here. */
module Profile {
  import opened Wrappers
  import Sequences
  import Sorting

  datatype Column<C> = Column(name: string, cells: seq<Option<C>>)

  /** A loaded table: `height` rows, stored column by column. */
  datatype Table<C> = Table(height: nat, columns: seq<Column<C>>)

  /** Every column holds one cell per row, as in any pandas DataFrame. */
  ghost predicate Rectangular<C>(t: Table<C>) {
    forall j :: 0 <= j < |t.columns| ==> |t.columns[j].cells| == t.height
  }

  /** `Series.count()`: the number of present cells. */
  function NonNullCount<C>(cells: seq<Option<C>>): nat {
    if |cells| == 0 then 0 else (if cells[0].Some? then 1 else 0) + NonNullCount(cells[1..])
  }

  /** `Series.isnull().sum()`: the number of missing cells. */
  function MissingCount<C>(cells: seq<Option<C>>): nat {
    if |cells| == 0 then 0 else (if cells[0].None? then 1 else 0) + MissingCount(cells[1..])
  }

  /** Every cell is counted exactly once, as present or as missing. */
  lemma {:induction false} CountsPartition<C>(cells: seq<Option<C>>)
    ensures NonNullCount(cells) + MissingCount(cells) == |cells|
  {
    if |cells| > 0 {
      CountsPartition(cells[1..]);
    }
  }

  /** A column has no missing count exactly when none of its cells is missing. */
  lemma {:induction false} NoMissingIffAllPresent<C>(cells: seq<Option<C>>)
    ensures MissingCount(cells) == 0 <==> forall i :: 0 <= i < |cells| ==> cells[i].Some?
  {
    if |cells| > 0 {
      NoMissingIffAllPresent(cells[1..]);
      assert forall i :: 1 <= i < |cells| ==> cells[i] == cells[1..][i - 1];
    }
  }

  lemma {:induction false} MissingCountAppend<C>(a: seq<Option<C>>, b: seq<Option<C>>)
    ensures MissingCount(a + b) == MissingCount(a) + MissingCount(b)
  {
    if |a| == 0 {
      assert a + b == b;
    } else {
      assert (a + b)[1..] == a[1..] + b;
      MissingCountAppend(a[1..], b);
    }
  }

  /** One row of the "Column Information" table (its dtype and percentage are not modelled). */
  datatype ColumnInfo = ColumnInfo(name: string, nonNull: nat, missing: nat)

  /** The "Column Information" rows for the given columns, in column order. */
  function Profile<C>(cols: seq<Column<C>>): (r: seq<ColumnInfo>)
    ensures |r| == |cols|
    ensures forall j :: 0 <= j < |r| ==> r[j].name == cols[j].name
    ensures forall j :: 0 <= j < |r| ==> r[j].nonNull + r[j].missing == |cols[j].cells|
    ensures forall j :: 0 <= j < |r| ==> r[j].missing == MissingCount(cols[j].cells)
  {
    if |cols| == 0 then []
    else
      var c := cols[0];
      CountsPartition(c.cells);
      [ColumnInfo(c.name, NonNullCount(c.cells), MissingCount(c.cells))] + Profile(cols[1..])
  }

  /** The "Column Information" table: one row per column, whose non-null and missing counts
      add up to the number of rows of the table. */
  function ColumnProfile<C>(t: Table<C>): (r: seq<ColumnInfo>)
    ensures |r| == |t.columns|
    ensures forall j :: 0 <= j < |r| ==> r[j].name == t.columns[j].name
    ensures forall j :: 0 <= j < |r| ==> r[j].missing == MissingCount(t.columns[j].cells)
    ensures Rectangular(t) ==> forall j :: 0 <= j < |r| ==> r[j].nonNull + r[j].missing == t.height
  {
    Profile(t.columns)
  }

  /** All cells of the table, column after column. */
  function AllCells<C>(cols: seq<Column<C>>): seq<Option<C>> {
    if |cols| == 0 then [] else cols[0].cells + AllCells(cols[1..])
  }

  /** The "Missing Values" metric `df.isnull().sum().sum()`: the missing cells of the table. */
  function MissingValues<C>(t: Table<C>): nat {
    MissingCount(AllCells(t.columns))
  }

  function SumMissing(infos: seq<ColumnInfo>): nat {
    if |infos| == 0 then 0 else infos[0].missing + SumMissing(infos[1..])
  }

  /** The metric is the total of the "Missing" column of the profile. */
  lemma MissingMetricIsColumnSum<C>(t: Table<C>)
    ensures MissingValues(t) == SumMissing(ColumnProfile(t))
  {
    ProfileSum(t.columns);
  }

  lemma {:induction false} ProfileSum<C>(cols: seq<Column<C>>)
    ensures MissingCount(AllCells(cols)) == SumMissing(Profile(cols))
  {
    if |cols| > 0 {
      ProfileSum(cols[1..]);
      MissingCountAppend(cols[0].cells, AllCells(cols[1..]));
    }
  }

  /** One bar of the missing-values chart: a column and its missing count. */
  datatype MissingEntry = MissingEntry(column: string, count: nat)

  /** `df.isnull().sum()`: the missing count of every column, in column order. It agrees, column
      by column, with the "Missing" column of the column profile. */
  function MissingByColumn<C>(t: Table<C>): (r: seq<MissingEntry>)
    ensures |r| == |t.columns|
    ensures forall j :: 0 <= j < |r| ==>
              r[j].column == ColumnProfile(t)[j].name && r[j].count == ColumnProfile(t)[j].missing
  {
    seq(|t.columns|, j requires 0 <= j < |t.columns| =>
      MissingEntry(t.columns[j].name, MissingCount(t.columns[j].cells)))
  }

  function SumCounts(entries: seq<MissingEntry>): nat {
    if |entries| == 0 then 0 else entries[0].count + SumCounts(entries[1..])
  }

  /** The per-column counts of the chart data add up to the "Missing Values" metric. */
  lemma MissingByColumnSumsToMetric<C>(t: Table<C>)
    ensures SumCounts(MissingByColumn(t)) == MissingValues(t)
  {
    MissingMetricIsColumnSum(t);
    SumsAgree(MissingByColumn(t), ColumnProfile(t));
  }

  lemma {:induction false} SumsAgree(entries: seq<MissingEntry>, infos: seq<ColumnInfo>)
    requires |entries| == |infos|
    requires forall j :: 0 <= j < |entries| ==> entries[j].count == infos[j].missing
    ensures SumCounts(entries) == SumMissing(infos)
  {
    if |entries| > 0 {
      SumsAgree(entries[1..], infos[1..]);
    }
  }

  predicate Reported(e: MissingEntry) {
    e.count > 0
  }

  /** Sort key putting larger counts first. */
  function LargestFirst(e: MissingEntry): int {
    -(e.count as int)
  }

  /** `missing_data[missing_data > 0].sort_values(ascending=False)`: exactly the columns that
      have missing cells, with their counts, largest count first. */
  function MissingSummary<C>(t: Table<C>): (r: seq<MissingEntry>)
    ensures forall i :: 0 <= i < |r| ==> r[i].count > 0
    ensures forall i, j :: 0 <= i < j < |r| ==> r[i].count >= r[j].count
    ensures forall e :: multiset(r)[e] == if e.count > 0 then multiset(MissingByColumn(t))[e] else 0
  {
    var kept := Sequences.Filter(MissingByColumn(t), Reported);
    var r := Sorting.SortBy(kept, LargestFirst);
    LargestFirstOrder(r);
    OnlyReported(r, kept);
    r
  }

  lemma LargestFirstOrder(r: seq<MissingEntry>)
    requires Sorting.SortedBy(r, LargestFirst)
    ensures forall i, j :: 0 <= i < j < |r| ==> r[i].count >= r[j].count
  {
  }

  lemma OnlyReported(r: seq<MissingEntry>, kept: seq<MissingEntry>)
    requires multiset(r) == multiset(kept)
    requires forall i :: 0 <= i < |kept| ==> Reported(kept[i])
    ensures forall i :: 0 <= i < |r| ==> r[i].count > 0
  {
    forall i | 0 <= i < |r|
      ensures r[i].count > 0
    {
      assert r[i] in multiset(r);
      assert r[i] in kept;
    }
  }

  /** A column appears in the summary exactly when it has a missing cell. */
  lemma SummaryListsColumnsWithMissing<C>(t: Table<C>, j: nat)
    requires j < |t.columns|
    ensures MissingEntry(t.columns[j].name, MissingCount(t.columns[j].cells)) in MissingSummary(t)
            <==> MissingCount(t.columns[j].cells) > 0
  {
  }

  /** The chart is shown (the summary is non-empty) exactly when the metric is non-zero;
      otherwise the dashboard reports that no value is missing. */
  lemma SummaryEmptyIffNoMissing<C>(t: Table<C>)
    ensures |MissingSummary(t)| == 0 <==> MissingValues(t) == 0
  {
    MissingByColumnSumsToMetric(t);
    if |MissingSummary(t)| == 0 {
      EmptySummaryZeroCounts(t);
      SumOfZeros(MissingByColumn(t));
    } else {
      var j := SummarizedColumn(t);
      SumAtLeastEach(MissingByColumn(t), j);
    }
  }

  lemma EmptySummaryZeroCounts<C>(t: Table<C>)
    requires |MissingSummary(t)| == 0
    ensures forall j :: 0 <= j < |MissingByColumn(t)| ==> MissingByColumn(t)[j].count == 0
  {
    var byCol := MissingByColumn(t);
    forall j | 0 <= j < |byCol|
      ensures byCol[j].count == 0
    {
      assert byCol[j] in multiset(byCol);
    }
  }

  lemma SummarizedColumn<C>(t: Table<C>) returns (j: nat)
    requires |MissingSummary(t)| > 0
    ensures j < |MissingByColumn(t)| && MissingByColumn(t)[j].count > 0
  {
    var e := MissingSummary(t)[0];
    assert e in multiset(MissingSummary(t));
    assert e in multiset(MissingByColumn(t));
    j :| 0 <= j < |MissingByColumn(t)| && MissingByColumn(t)[j] == e;
  }

  lemma {:induction false} SumOfZeros(entries: seq<MissingEntry>)
    requires forall j :: 0 <= j < |entries| ==> entries[j].count == 0
    ensures SumCounts(entries) == 0
  {
    if |entries| > 0 {
      SumOfZeros(entries[1..]);
    }
  }

  lemma {:induction false} SumAtLeastEach(entries: seq<MissingEntry>, j: nat)
    requires j < |entries|
    ensures entries[j].count <= SumCounts(entries)
  {
    if j > 0 {
      SumAtLeastEach(entries[1..], j - 1);
    }
  }
}
