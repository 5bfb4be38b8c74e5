/** The outcome of building a peak table and matching it, proved for small catalogues. */
module MatchScenarios {
  import opened Wrappers
  import opened Numerics
  import opened PeakTables
  import opened Matching

  /** A truth source observed in the single filter "i". */
  function TruthAt(id: int, x: real, y: real, flux: real, patch: seq<real>): TruthRow
  {
    TruthRow(id, x, y, map["i" := flux], map["i" := patch], 1.5, 0.3, [0.25, 0.75])
  }

  /** One truth source: every peak points at it, and it is undetected exactly
      when the only peak is outside the search radius. */
  lemma SingleTruth(peaks: seq<PeakRow>, truth: TruthRow, maxSeparation: real)
    requires |peaks| == 1
    ensures NearestIndices(peaks, [truth]) == [0]
    ensures MatchedFlags(peaks, [truth], maxSeparation) ==
              [WithinSeparation(SquaredDistance(peaks[0].x, peaks[0].y, truth), maxSeparation)]
    ensures UndetectedOf(peaks, [truth], maxSeparation) ==
              if WithinSeparation(SquaredDistance(peaks[0].x, peaks[0].y, truth), maxSeparation) then [] else [0]
  {
    var idx := NearestIndices(peaks, [truth]);
    assert idx == [0];
    var flags := MatchedFlags(peaks, [truth], maxSeparation);
    var hit := MatchedTruth(idx, flags);
    if flags[0] {
      assert 0 in hit;
      assert hit == {0};
      assert Unhit(hit, 1) == [];
    } else {
      assert hit == {};
      assert Unhit(hit, 1) == Unhit(hit, 0) + [0];
    }
  }

  /** A peak one pixel away from a truth source, with a search radius of three,
      is matched to it and leaves no truth source undetected. */
  method CloseSourceMatches() returns (out: MatchOutput)
    ensures |out.matchTable| == 1 && out.idx == [0]
    ensures out.matchTable[0].matched && !out.matchTable[0].duplicate
    ensures out.matchTable[0].distanceSq == 1.0
    ensures out.matchTable[0].truth.flux == map["i" := 100.0]
    ensures out.matchTable[0].truth.sed == [0.0, 0.0]
    ensures out.unmatchedTable == []
  {
    var built := BuildFootprintPeakTable(Footprint([Peak(10, 11)]), ["i"], Some(7));
    var t := built.value;
    var rows := t.rows;
    var truth := TruthAt(1, 10.0, 10.0, 100.0, [3.0, 5.0]);
    assert rows[0].x == 10 && rows[0].y == 11;
    assert SquaredDistance(10, 11, truth) == 1.0;
    assert WithinSeparation(1.0, 3.0);
    SingleTruth(rows, truth, 3.0);
    var res := MatchToRef(rows, [truth], ["i"], 3.0, None);
    out := res.value;
  }

  /** The distant-source catalogue: one peak at (10, 10), one truth source at
      the origin with a two-pixel intensity patch. */
  method DistantSourceInputs() returns (rows: seq<PeakRow>, truth: TruthRow)
    ensures |rows| == 1 && rows[0].x == 10 && rows[0].y == 10
    ensures truth == TruthAt(4, 0.0, 0.0, 80.0, [1.0, 6.0])
    ensures SquaredDistance(10, 10, truth) == 200.0
    ensures UndetectedOf(rows, [truth], 3.0) == [0]
    ensures ZerosLike(truth, "i") == [0.0, 0.0]
  {
    var built := BuildFootprintPeakTable(Footprint([Peak(10, 10)]), ["i"], None);
    var t := built.value;
    rows := t.rows;
    truth := TruthAt(4, 0.0, 0.0, 80.0, [1.0, 6.0]);
    assert rows[0].x == 10 && rows[0].y == 10;
    assert SquaredDistance(10, 10, truth) == 200.0;
    assert !WithinSeparation(200.0, 3.0);
    SingleTruth(rows, truth, 3.0);
  }

  /** A blanked unmatched row of a one-filter catalogue: its flux and patch columns. */
  lemma BlankedOneFilter(o: MatchRow, r: MatchRow, x: int, y: int, patch: seq<real>, sed: seq<real>)
    requires Blanked(o, r, x, y, ["i"], patch, sed) && !r.matched
    requires r.truth.flux.Keys == {"i"} && r.truth.intensity.Keys == {"i"}
    ensures o.truth.flux == map["i" := 0.0] && o.truth.intensity == map["i" := patch]
    ensures o.truth.x == x as real && o.truth.y == y as real
    ensures o.truth.size == 0.0 && o.truth.redshift == 0.0
  {
    assert "i" in ["i"];
  }

  /** A truth source far from every peak gives a blanked match row at the
      peak's position: zero flux, a zero patch and zero size and redshift. */
  method DistantSourceBlanked() returns (row: MatchRow)
    ensures !row.matched && !row.duplicate && row.distanceSq == 200.0
    ensures row.truth.x == 10.0 && row.truth.y == 10.0
    ensures row.truth.size == 0.0 && row.truth.redshift == 0.0
    ensures row.truth.flux == map["i" := 0.0] && row.truth.intensity == map["i" := [0.0, 0.0]]
  {
    var rows, truth := DistantSourceInputs();
    SingleTruth(rows, truth, 3.0);
    var table, idx := BuildMatchTable(rows, [truth], ["i"], 3.0);
    row := table[0];
    assert !row.matched && row.distanceSq == 200.0;
    BlankedOneFilter(row, MatchRow(truth, false, 200.0, row.duplicate), 10, 10, [0.0, 0.0], [0.0, 0.0]);
  }

  /** The same source is listed as undetected with the ratio of its brightest
      pixel to the noise. */
  method DistantSourceUndetected() returns (out: MatchOutput)
    ensures |out.unmatchedTable| == 1
    ensures out.unmatchedTable[0].truth.id == 4
    ensures out.unmatchedTable[0].peakNoise == [Finite(3.0)]
  {
    var rows, truth := DistantSourceInputs();
    assert Max([1.0, 6.0]) == 6.0;
    assert PeakNoiseRatio(truth, "i", 0, Some([2.0])) == Success(Finite(3.0));
    var res := MatchToRef(rows, [truth], ["i"], 3.0, Some([2.0]));
    assert res.Success?;
    out := res.value;
  }

  /** The nearer of two truth sources is the nearest one. */
  lemma NearerOfTwo(x: int, y: int, sim: seq<TruthRow>)
    requires |sim| == 2 && SquaredDistance(x, y, sim[0]) < SquaredDistance(x, y, sim[1])
    ensures Nearest(x, y, sim) == 0
  {
    var j := Nearest(x, y, sim);
    assert IsNearest(x, y, sim, j);
  }

  /** The truth catalogue of the duplicate scenario: two sources one pixel apart. */
  function SharedSim(): seq<TruthRow>
  {
    [TruthAt(1, 0.0, 0.0, 50.0, [2.0]), TruthAt(2, 0.0, 1.0, 60.0, [4.0])]
  }

  /** Two peaks on top of the first of the two truth sources both point at it
      and are within the radius, so only the second is undetected. */
  lemma SharedSourceFacts(peaks: seq<PeakRow>)
    requires peaks == FootprintRows(3, Footprint([Peak(0, 0), Peak(0, 0)]))
    ensures NearestIndices(peaks, SharedSim()) == [0, 0]
    ensures MatchedFlags(peaks, SharedSim(), 3.0) == [true, true]
    ensures UndetectedOf(peaks, SharedSim(), 3.0) == [1]
  {
    var sim := SharedSim();
    assert peaks[0].x == 0 && peaks[0].y == 0 && peaks[1].x == 0 && peaks[1].y == 0;
    assert SquaredDistance(0, 0, sim[0]) == 0.0 && SquaredDistance(0, 0, sim[1]) == 1.0;
    NearerOfTwo(0, 0, sim);
    var idx := NearestIndices(peaks, sim);
    assert idx == [0, 0];
    assert WithinSeparation(0.0, 3.0);
    var flags := MatchedFlags(peaks, sim, 3.0);
    assert flags == [true, true];
    var hit := MatchedTruth(idx, flags);
    assert idx[0] in hit;
    assert hit == {0};
    assert Unhit(hit, 1) == Unhit(hit, 0);
    assert Unhit(hit, 2) == Unhit(hit, 1) + [1];
  }

  /** Two peaks nearest to the same truth source are both flagged as duplicates. */
  method SharedSourceDuplicates() returns (table: seq<MatchRow>, idx: seq<nat>)
    ensures |table| == 2 && idx == [0, 0]
    ensures table[0].matched && table[1].matched
    ensures table[0].duplicate && table[1].duplicate
  {
    var built := BuildFootprintPeakTable(Footprint([Peak(0, 0), Peak(0, 0)]), ["i"], Some(3));
    var t := built.value;
    var rows := t.rows;
    SharedSourceFacts(rows);
    table, idx := BuildMatchTable(rows, SharedSim(), ["i"], 3.0);
    assert MatchedColumn(table) == [true, true];
    assert table[1].matched && idx[1] == idx[0];
    assert table[0].matched && idx[0] == idx[1];
  }

  /** The truth source no peak points at is the one undetected source. */
  method SharedSourceUndetected() returns (out: MatchOutput)
    ensures |out.unmatchedTable| == 1 && out.unmatchedTable[0].truth.id == 2
  {
    var built := BuildFootprintPeakTable(Footprint([Peak(0, 0), Peak(0, 0)]), ["i"], Some(3));
    var t := built.value;
    var rows := t.rows;
    var sim := SharedSim();
    SharedSourceFacts(rows);
    assert PeakNoiseRatio(sim[1], "i", 0, Some([1.0])).Success?;
    var res := MatchToRef(rows, sim, ["i"], 3.0, Some([1.0]));
    out := res.value;
  }

  /** An undetected truth source without a noise estimate is an error. */
  method MissingNoiseFails() returns (err: MatchError)
    ensures err == MissingNoise
  {
    var built := BuildFootprintPeakTable(Footprint([Peak(10, 10)]), ["i"], None);
    var t := built.value;
    var rows := t.rows;
    var truth := TruthAt(4, 0.0, 0.0, 80.0, [1.0, 6.0]);
    assert rows[0].x == 10 && rows[0].y == 10;
    assert SquaredDistance(10, 10, truth) == 200.0;
    SingleTruth(rows, truth, 3.0);
    assert PeakNoiseRatio(truth, "i", 0, None) == Failure(MissingNoise);
    var res := MatchToRef(rows, [truth], ["i"], 3.0, None);
    err := res.error;
  }

  /** A footprint without peaks cannot be given flux columns. */
  method PeakFreeFootprintFails() returns (failed: bool)
    ensures failed
  {
    var built := BuildFootprintPeakTable(Footprint([]), ["i"], None);
    failed := built == Failure(ScalarColumnOnEmptyTable);
  }

  /** Without filters a footprint without peaks gives an empty table. */
  method PeakFreeFootprintNoFilters() returns (rows: seq<PeakRow>)
    ensures rows == []
  {
    var built := BuildFootprintPeakTable(Footprint([]), [], None);
    rows := built.value.rows;
  }

  /** A failing ratio is raised before the repeated filter name is noticed:
      an undetected source with an empty patch and the filter list ["i", "i"]. */
  method EmptyPatchBeforeDuplicateFilter() returns (err: MatchError)
    ensures err == EmptyIntensity
  {
    var built := BuildFootprintPeakTable(Footprint([Peak(10, 10)]), ["i"], None);
    var rows := built.value.rows;
    var truth := TruthRow(4, 0.0, 0.0, map["i" := 80.0], map["i" := []], 1.5, 0.3, [0.25, 0.75]);
    assert rows[0].x == 10 && rows[0].y == 10;
    assert SquaredDistance(10, 10, truth) == 200.0;
    SingleTruth(rows, truth, 3.0);
    assert PeakNoiseRatio(truth, "i", 0, None) == Failure(EmptyIntensity);
    var res := MatchToRef(rows, [truth], ["i", "i"], 3.0, None);
    err := res.error;
  }
}
