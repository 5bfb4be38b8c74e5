/** The peak table: one row per deblender peak, flattened from the parent
    detections, with a NaN-initialised flux column per filter. */
module PeakTables {
  import opened Wrappers
  import opened Numerics

  /** A peak of a footprint; the table keeps its integer pixel position. */
  datatype Peak = Peak(ix: int, iy: int)

  /** A detection footprint and its ordered peak catalogue. */
  datatype Footprint = Footprint(peaks: seq<Peak>)

  /** An entry of the merged detection catalogue: a source id and its footprint. */
  datatype Source = Source(id: int, footprint: Footprint)

  /** The fixed columns of a peak-table row: "parent", "peakIdx", "x", "y",
      "blended", "peak" and "parent footprint". */
  datatype PeakRow = PeakRow(parent: int, peakIdx: nat, x: int, y: int, blended: bool,
                             peak: Peak, footprint: Footprint)

  /** A footprint is a blend when it holds at least two peaks. */
  predicate IsBlended(fp: Footprint)
  {
    |fp.peaks| >= 2
  }

  /** The row of peak `k` of footprint `fp`, whose parent has id `sid`. */
  function FootprintRow(sid: int, fp: Footprint, k: nat): PeakRow
    requires k < |fp.peaks|
  {
    PeakRow(sid, k, fp.peaks[k].ix, fp.peaks[k].iy, IsBlended(fp), fp.peaks[k], fp)
  }

  /** The rows of one footprint, in peak order. */
  function FootprintRows(sid: int, fp: Footprint): seq<PeakRow>
  {
    seq(|fp.peaks|, k requires 0 <= k < |fp.peaks| => FootprintRow(sid, fp, k))
  }

  /** The rows of all sources: parent after parent, each parent's peaks in order. */
  function PeakRows(sources: seq<Source>): seq<PeakRow>
  {
    if |sources| == 0 then []
    else
      var last := sources[|sources| - 1];
      PeakRows(sources[..|sources| - 1]) + FootprintRows(last.id, last.footprint)
  }

  /** The number of peaks over all sources. */
  function TotalPeaks(sources: seq<Source>): nat
  {
    if |sources| == 0 then 0
    else TotalPeaks(sources[..|sources| - 1]) + |sources[|sources| - 1].footprint.peaks|
  }

  /** The position of the first row of source `i`. */
  function Offset(sources: seq<Source>, i: nat): nat
    requires i <= |sources|
  {
    TotalPeaks(sources[..i])
  }

  /** What every row of a peak table says about its own footprint. */
  ghost predicate RowOfFootprint(row: PeakRow)
  {
    && row.peakIdx < |row.footprint.peaks|
    && row.peak == row.footprint.peaks[row.peakIdx]
    && row.x == row.peak.ix && row.y == row.peak.iy
    && (row.blended <==> |row.footprint.peaks| >= 2)
  }

  /** The table has exactly one row per peak. */
  lemma {:induction false} PeakRowsLength(sources: seq<Source>)
    ensures |PeakRows(sources)| == TotalPeaks(sources)
  {
    if |sources| > 0 {
      PeakRowsLength(sources[..|sources| - 1]);
    }
  }

  /** The rows of the first `j` sources are a prefix of the rows of all of them. */
  lemma {:induction false} PeakRowsPrefix(sources: seq<Source>, j: nat)
    requires j <= |sources|
    ensures PeakRows(sources[..j]) <= PeakRows(sources)
  {
    if j < |sources| {
      var init := sources[..|sources| - 1];
      assert init[..j] == sources[..j];
      PeakRowsPrefix(init, j);
    } else {
      assert sources[..j] == sources;
    }
  }

  /** Row `Offset(sources, i) + k` is peak `k` of source `i`. */
  lemma PeakRowsAt(sources: seq<Source>, i: nat, k: nat)
    requires i < |sources| && k < |sources[i].footprint.peaks|
    ensures Offset(sources, i) + k < |PeakRows(sources)|
    ensures PeakRows(sources)[Offset(sources, i) + k] == FootprintRow(sources[i].id, sources[i].footprint, k)
  {
    var upto := sources[..i + 1];
    assert upto[..i] == sources[..i];
    PeakRowsLength(sources[..i]);
    PeakRowsPrefix(sources, i + 1);
  }

  /** Sources come in order: every row of source `i` precedes every row of a later source. */
  lemma {:induction false} OffsetsOrdered(sources: seq<Source>, i: nat, j: nat)
    requires i < j <= |sources|
    ensures Offset(sources, i) + |sources[i].footprint.peaks| <= Offset(sources, j)
  {
    var upto := sources[..j];
    assert upto[..j - 1] == sources[..j - 1];
    if i < j - 1 {
      OffsetsOrdered(sources, i, j - 1);
    } else {
      assert sources[..j - 1] == sources[..i];
    }
  }

  /** Every row comes from some peak of some source. */
  lemma {:induction false} PeakRowOrigin(sources: seq<Source>, r: nat) returns (i: nat, k: nat)
    requires r < |PeakRows(sources)|
    ensures i < |sources| && k < |sources[i].footprint.peaks|
    ensures r == Offset(sources, i) + k
  {
    var n := |sources|;
    var init := sources[..n - 1];
    PeakRowsLength(init);
    if r < |PeakRows(init)| {
      i, k := PeakRowOrigin(init, r);
      assert init[..i] == sources[..i];
    } else {
      assert sources[..n - 1] == init;
      i, k := n - 1, r - |PeakRows(init)|;
    }
  }

  /** Every row is consistent with its footprint: its peak, its position and
      its blended flag, which holds iff the footprint has two or more peaks. */
  lemma PeakRowsConsistent(sources: seq<Source>)
    ensures forall r :: 0 <= r < |PeakRows(sources)| ==> RowOfFootprint(PeakRows(sources)[r])
  {
    forall r | 0 <= r < |PeakRows(sources)|
      ensures RowOfFootprint(PeakRows(sources)[r])
    {
      var i, k := PeakRowOrigin(sources, r);
      PeakRowsAt(sources, i, k);
    }
  }

  /** A single source flattens to the rows of its own footprint. */
  lemma SingleSourceRows(sid: int, fp: Footprint)
    ensures PeakRows([Source(sid, fp)]) == FootprintRows(sid, fp)
  {
    assert [Source(sid, fp)][..0] == [];
  }

  /** A column of NaN placeholders, one per row. */
  function NaNColumn(n: nat): seq<Option<real>>
  {
    seq(n, _ => None)
  }

  /** The flux columns of a fresh peak table: one all-NaN column per filter name. */
  function EmptyFluxColumns(filters: seq<string>, n: nat): map<string, seq<Option<real>>>
  {
    map f | f in filters :: NaNColumn(n)
  }

  /** A peak table: fixed per-row columns, a "flux_<f>" column per filter and
      an optional "sed" column; the flux and sed columns are updated in place. */
  class PeakTable {
    var rows: seq<PeakRow>
    var flux: map<string, seq<Option<real>>>
    var sed: Option<seq<seq<Float>>>

    /** Every column has one cell per row. */
    ghost predicate Valid()
      reads this
    {
      && (forall f :: f in flux ==> |flux[f]| == |rows|)
      && (sed.Some? ==> |sed.value| == |rows|)
    }

    /** A table holding only the fixed columns. */
    constructor (rows: seq<PeakRow>)
      ensures Valid()
      ensures this.rows == rows && flux == map[] && sed == None
    {
      this.rows := rows;
      flux := map[];
      sed := None;
    }
  }

  /** The exception raised while the flux columns are added: the table library
      refuses a scalar value for a new column of a table with no rows. */
  datatype TableError = ScalarColumnOnEmptyTable

  /** Adds an all-NaN "flux_<f>" column for every filter to a fresh table; the
      first column already fails when the table has no rows. */
  method AddEmptyFluxColumns(t: PeakTable, filters: seq<string>) returns (ok: bool)
    requires t.Valid() && t.flux == map[]
    modifies t
    ensures ok <==> |t.rows| > 0 || |filters| == 0
    ensures t.Valid() && t.rows == old(t.rows) && t.sed == old(t.sed)
    ensures t.flux == if ok then EmptyFluxColumns(filters, |t.rows|) else map[]
  {
    if |t.rows| == 0 && |filters| > 0 {
      return false;
    }
    for j := 0 to |filters|
      invariant t.Valid() && t.rows == old(t.rows) && t.sed == old(t.sed)
      invariant t.flux == EmptyFluxColumns(filters[..j], |t.rows|)
    {
      assert filters[..j + 1] == filters[..j] + [filters[j]];
      t.flux := t.flux[filters[j] := NaNColumn(|t.rows|)];
    }
    assert filters[..|filters|] == filters;
    return true;
  }

  /** The peak table of a single footprint; a missing source id defaults to 0. */
  method BuildFootprintPeakTable(footprint: Footprint, filters: seq<string>, sid: Option<int>)
    returns (res: Result<PeakTable, TableError>)
    ensures res.Success? <==> |footprint.peaks| > 0 || |filters| == 0
    ensures res.Failure? ==> res.error == ScalarColumnOnEmptyTable
    ensures res.Success? ==>
              && fresh(res.value) && res.value.Valid()
              && res.value.rows == FootprintRows(if sid.Some? then sid.value else 0, footprint)
              && res.value.flux == EmptyFluxColumns(filters, |res.value.rows|)
              && res.value.sed == None
  {
    var blended := |footprint.peaks| >= 2;
    var parent := if sid.Some? then sid.value else 0;
    var rows: seq<PeakRow> := [];
    for pk := 0 to |footprint.peaks|
      invariant rows == FootprintRows(parent, footprint)[..pk]
    {
      var peak := footprint.peaks[pk];
      rows := rows + [PeakRow(parent, pk, peak.ix, peak.iy, blended, peak, footprint)];
    }
    var t := new PeakTable(rows);
    var ok := AddEmptyFluxColumns(t, filters);
    if !ok {
      return Failure(ScalarColumnOnEmptyTable);
    }
    return Success(t);
  }

  /** The peak table of every source of the merged detection catalogue. */
  method BuildPeakTable(sources: seq<Source>, filters: seq<string>) returns (res: Result<PeakTable, TableError>)
    ensures res.Success? <==> TotalPeaks(sources) > 0 || |filters| == 0
    ensures res.Failure? ==> res.error == ScalarColumnOnEmptyTable
    ensures res.Success? ==>
              && fresh(res.value) && res.value.Valid()
              && res.value.rows == PeakRows(sources)
              && res.value.flux == EmptyFluxColumns(filters, |res.value.rows|)
              && res.value.sed == None
  {
    var rows: seq<PeakRow> := [];
    for i := 0 to |sources|
      invariant rows == PeakRows(sources[..i])
    {
      var src := sources[i];
      var footprint := src.footprint;
      var blended := |footprint.peaks| >= 2;
      for pk := 0 to |footprint.peaks|
        invariant rows == PeakRows(sources[..i]) + FootprintRows(src.id, footprint)[..pk]
      {
        var peak := footprint.peaks[pk];
        rows := rows + [PeakRow(src.id, pk, peak.ix, peak.iy, blended, peak, footprint)];
      }
      assert sources[..i + 1][..i] == sources[..i];
    }
    assert sources[..|sources|] == sources;
    PeakRowsLength(sources);
    var t := new PeakTable(rows);
    var ok := AddEmptyFluxColumns(t, filters);
    if !ok {
      return Failure(ScalarColumnOnEmptyTable);
    }
    return Success(t);
  }
}
