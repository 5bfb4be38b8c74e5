/** Scoring peaks against the simulated truth catalogue: nearest-truth
    matching, the separation cut, duplicate flags, blanking of unmatched
    rows and the peak-to-noise ratios of truth sources nobody detected. */
module Matching {
  import opened Wrappers
  import opened Numerics
  import opened PeakTables

  /** A row of the simulated truth catalogue; "flux_<f>" and "intensity_<f>"
      are looked up by filter name. */
  datatype TruthRow = TruthRow(id: int, x: real, y: real, flux: map<string, real>,
                               intensity: map<string, seq<real>>, size: real, redshift: real,
                               sed: seq<real>)

  /** A row of the match table: the (possibly blanked) truth columns plus
      "matched", "distance" (kept squared) and "duplicate". */
  datatype MatchRow = MatchRow(truth: TruthRow, matched: bool, distanceSq: real, duplicate: bool)

  /** A row of the table of undetected truth sources with its
      "<f> peak/noise" columns, in filter order. */
  datatype UnmatchedRow = UnmatchedRow(truth: TruthRow, peakNoise: seq<Float>)

  /** The three values the matcher returns. */
  datatype MatchOutput = MatchOutput(matchTable: seq<MatchRow>, idx: seq<nat>,
                                     unmatchedTable: seq<UnmatchedRow>)

  /** The exceptions the matcher raises before it returns. */
  datatype MatchError =
    | EmptyTruthTable   // the k-d tree cannot be built over no coordinates
    | EmptyPeakTable    // the query array has no coordinate pairs
    | NoFilters         // `filters[0]` does not exist
    | EmptyIntensity    // `np.max` of an empty intensity patch
    | MissingNoise      // `avgNoise` is None or shorter than the filter list
    | DuplicateFilter   // a repeated filter name gives a ratio column of the wrong length

  /** Every truth row has a flux and an intensity column for every filter. */
  ghost predicate HasFilterColumns(sim: seq<TruthRow>, filters: seq<string>)
  {
    forall t, f :: t in sim && f in filters ==> f in t.flux && f in t.intensity
  }

  // ---------------------------------------------------------------------
  // Nearest truth source and the separation cut

  /** Squared Euclidean distance from the integer peak position (x, y) to a truth source. */
  function SquaredDistance(x: int, y: int, t: TruthRow): real
  {
    var dx := x as real - t.x;
    var dy := y as real - t.y;
    dx * dx + dy * dy
  }

  /** Truth row `j` is at minimal distance from (x, y). */
  ghost predicate IsNearest(x: int, y: int, sim: seq<TruthRow>, j: nat)
  {
    j < |sim| && forall k :: 0 <= k < |sim| ==> SquaredDistance(x, y, sim[j]) <= SquaredDistance(x, y, sim[k])
  }

  /** No truth row before `j` is as near as row `j`: the tie-break of this model. */
  ghost predicate FirstAmongNearest(x: int, y: int, sim: seq<TruthRow>, j: nat)
    requires j < |sim|
  {
    forall k :: 0 <= k < j ==> SquaredDistance(x, y, sim[k]) > SquaredDistance(x, y, sim[j])
  }

  /** The nearest truth source of (x, y); among equidistant ones, the lowest index. */
  function Nearest(x: int, y: int, sim: seq<TruthRow>): (j: nat)
    requires |sim| > 0
    ensures IsNearest(x, y, sim, j) && FirstAmongNearest(x, y, sim, j)
  {
    if |sim| == 1 then 0
    else
      var init := sim[..|sim| - 1];
      var j := Nearest(x, y, init);
      assert forall k :: 0 <= k < |init| ==> init[k] == sim[k];
      if SquaredDistance(x, y, sim[|sim| - 1]) < SquaredDistance(x, y, sim[j]) then |sim| - 1 else j
  }

  /** Whatever nearest truth source a search returns, its distance is the
      same, and the lowest-index choice is never after it. */
  lemma NearestDistanceUnique(x: int, y: int, sim: seq<TruthRow>, j: nat)
    requires |sim| > 0 && IsNearest(x, y, sim, j)
    ensures SquaredDistance(x, y, sim[j]) == SquaredDistance(x, y, sim[Nearest(x, y, sim)])
    ensures Nearest(x, y, sim) <= j
  {
  }

  /** The separation cut on a squared distance: `distance < maxSeparation`. */
  predicate WithinSeparation(distanceSq: real, maxSeparation: real)
  {
    0.0 < maxSeparation && distanceSq < maxSeparation * maxSeparation
  }

  /** The cut on the squared distance is the strict cut on the linear distance. */
  lemma SeparationTest(d: real, maxSeparation: real)
    requires 0.0 <= d
    ensures WithinSeparation(d * d, maxSeparation) <==> d < maxSeparation
  {
    if 0.0 < maxSeparation {
      var e := maxSeparation - d;
      assert maxSeparation * maxSeparation == d * d + 2.0 * d * e + e * e;
      if d < maxSeparation {
        assert d * e >= 0.0;
        assert e * e > 0.0;
      } else {
        assert d * d == maxSeparation * maxSeparation - 2.0 * maxSeparation * e + e * e;
        assert -maxSeparation * e >= 0.0;
      }
    }
  }

  /** `idx`: the nearest truth index of every peak. */
  function NearestIndices(peaks: seq<PeakRow>, sim: seq<TruthRow>): seq<nat>
    requires |sim| > 0
  {
    seq(|peaks|, i requires 0 <= i < |peaks| => Nearest(peaks[i].x, peaks[i].y, sim))
  }

  /** The squared distance of every peak to its nearest truth source. */
  function NearestDistances(peaks: seq<PeakRow>, sim: seq<TruthRow>): seq<real>
    requires |sim| > 0
  {
    seq(|peaks|, i requires 0 <= i < |peaks| =>
      SquaredDistance(peaks[i].x, peaks[i].y, sim[Nearest(peaks[i].x, peaks[i].y, sim)]))
  }

  /** `matched`: the separation cut applied to every peak. */
  function MatchedFlags(peaks: seq<PeakRow>, sim: seq<TruthRow>, maxSeparation: real): seq<bool>
    requires |sim| > 0
  {
    var d := NearestDistances(peaks, sim);
    seq(|peaks|, i requires 0 <= i < |peaks| => WithinSeparation(d[i], maxSeparation))
  }

  // ---------------------------------------------------------------------
  // Duplicates

  /** The matched peaks whose nearest truth index is `t`. */
  function PeaksMatchedTo(idx: seq<nat>, matched: seq<bool>, t: nat): set<nat>
    requires |idx| == |matched|
  {
    set j: nat | j < |idx| && matched[j] && idx[j] == t
  }

  /** `duplicate`: a matched peak whose truth index is matched more than once,
      computed, as the source does, from the count of each matched index. */
  function DuplicateFlags(idx: seq<nat>, matched: seq<bool>): (d: seq<bool>)
    requires |idx| == |matched|
    ensures |d| == |idx| && forall i :: 0 <= i < |d| && d[i] ==> matched[i]
  {
    seq(|idx|, i requires 0 <= i < |idx| => matched[i] && |PeaksMatchedTo(idx, matched, idx[i])| > 1)
  }

  /** A peak is a duplicate iff it is matched and another matched peak shares its truth index. */
  lemma DuplicateIffShared(idx: seq<nat>, matched: seq<bool>, i: nat)
    requires |idx| == |matched| && i < |idx|
    ensures DuplicateFlags(idx, matched)[i] <==>
              matched[i] && exists j :: 0 <= j < |idx| && j != i && matched[j] && idx[j] == idx[i]
  {
    if matched[i] {
      var s := PeaksMatchedTo(idx, matched, idx[i]);
      assert i in s;
      if exists j :: 0 <= j < |idx| && j != i && matched[j] && idx[j] == idx[i] {
        var j :| 0 <= j < |idx| && j != i && matched[j] && idx[j] == idx[i];
        assert j in s - {i};
        assert |s| == |s - {i}| + 1;
      } else {
        assert s == {i};
      }
    }
  }

  // ---------------------------------------------------------------------
  // Undetected truth sources

  /** The truth indices some matched peak points at. */
  function MatchedTruth(idx: seq<nat>, matched: seq<bool>): set<nat>
    requires |idx| == |matched|
  {
    set i | 0 <= i < |idx| && matched[i] :: idx[i]
  }

  /** The indices below `m` that are not in `hit`, in ascending order. */
  function Unhit(hit: set<nat>, m: nat): (r: seq<nat>)
    ensures forall u :: u in r <==> 0 <= u < m && u !in hit
    ensures forall a :: 0 <= a < |r| ==> r[a] < m
    ensures forall a, b :: 0 <= a < b < |r| ==> r[a] < r[b]
  {
    if m == 0 then []
    else
      var init := Unhit(hit, m - 1);
      var last := if m - 1 in hit then [] else [m - 1];
      assert forall u :: u in init + last <==> u in init || u in last;
      init + last
  }

  /** The members of `hit` below `m`. */
  function HitBelow(hit: set<nat>, m: nat): set<nat>
  {
    set u | u in hit && u < m
  }

  /** Raising the bound by one adds `m - 1` to the hit members exactly when it is hit. */
  lemma HitBelowStep(hit: set<nat>, m: nat)
    requires m > 0
    ensures |HitBelow(hit, m)| == |HitBelow(hit, m - 1)| + if m - 1 in hit then 1 else 0
  {
    if m - 1 in hit {
      assert HitBelow(hit, m) == HitBelow(hit, m - 1) + {m - 1};
    } else {
      assert HitBelow(hit, m) == HitBelow(hit, m - 1);
    }
  }

  /** Every index below `m` is either listed as unhit or is hit. */
  lemma {:induction false} UnhitCount(hit: set<nat>, m: nat)
    ensures |Unhit(hit, m)| + |HitBelow(hit, m)| == m
  {
    if m > 0 {
      UnhitCount(hit, m - 1);
      HitBelowStep(hit, m);
    }
  }

  /** The undetected truth sources number M minus the distinct matched truth indices. */
  lemma UndetectedCount(idx: seq<nat>, matched: seq<bool>, m: nat)
    requires |idx| == |matched|
    requires forall i :: 0 <= i < |idx| ==> idx[i] < m
    ensures |Unhit(MatchedTruth(idx, matched), m)| == m - |MatchedTruth(idx, matched)|
  {
    UnhitCount(MatchedTruth(idx, matched), m);
    assert HitBelow(MatchedTruth(idx, matched), m) == MatchedTruth(idx, matched);
  }

  /** The undetected truth indices of a matcher run, in ascending order. */
  function UndetectedOf(peaks: seq<PeakRow>, sim: seq<TruthRow>, maxSeparation: real): seq<nat>
    requires |sim| > 0
  {
    Unhit(MatchedTruth(NearestIndices(peaks, sim), MatchedFlags(peaks, sim, maxSeparation)), |sim|)
  }

  // ---------------------------------------------------------------------
  // Blanking of unmatched rows

  /** `np.zeros` of length `n`. */
  function ZeroVector(n: nat): seq<real>
  {
    seq(n, _ => 0.0)
  }

  /** `np.zeros_like` of the intensity patch of `t` in filter `f`. */
  function ZerosLike(t: TruthRow, f: string): seq<real>
  {
    ZeroVector(if f in t.intensity then |t.intensity[f]| else 0)
  }

  /** Row `o` is row `r` after the zeroing loop has run over the filters `fs`,
      for a peak at (x, y): the sed becomes `sed` on every row; an unmatched
      row also gets zero flux and the `patch` intensity in each of `fs`, zero
      size and redshift, and the peak's own coordinates. */
  ghost predicate Blanked(o: MatchRow, r: MatchRow, x: int, y: int, fs: seq<string>,
                          patch: seq<real>, sed: seq<real>)
  {
    && o.matched == r.matched && o.distanceSq == r.distanceSq && o.duplicate == r.duplicate
    && (|fs| == 0 ==> o == r)
    && (|fs| > 0 && r.matched ==> o.truth == r.truth.(sed := sed))
    && (|fs| > 0 && !r.matched ==>
          && o.truth.id == r.truth.id && o.truth.sed == sed
          && o.truth.x == x as real && o.truth.y == y as real
          && o.truth.size == 0.0 && o.truth.redshift == 0.0
          && o.truth.flux.Keys == r.truth.flux.Keys
          && o.truth.intensity.Keys == r.truth.intensity.Keys
          && (forall f :: f in o.truth.flux ==>
                o.truth.flux[f] == if f in fs then 0.0 else r.truth.flux[f])
          && (forall f :: f in o.truth.intensity ==>
                o.truth.intensity[f] == if f in fs then patch else r.truth.intensity[f]))
  }

  /** One pass of the zeroing loop body for filter `f`. */
  function FilterPass(r: MatchRow, x: int, y: int, f: string, patch: seq<real>, sed: seq<real>): MatchRow
  {
    var t := r.truth.(sed := sed);
    if r.matched then r.(truth := t)
    else r.(truth := t.(intensity := t.intensity[f := patch], flux := t.flux[f := 0.0],
                        size := 0.0, redshift := 0.0, x := x as real, y := y as real))
  }

  lemma FilterPassStep(o: MatchRow, r: MatchRow, x: int, y: int, fs: seq<string>, f: string,
                       patch: seq<real>, sed: seq<real>)
    requires Blanked(o, r, x, y, fs, patch, sed)
    requires f in r.truth.flux && f in r.truth.intensity
    ensures Blanked(FilterPass(o, x, y, f, patch, sed), r, x, y, fs + [f], patch, sed)
  {
  }

  /** Lines 211-218: zero out the unmatched rows, filter by filter. */
  method BlankUnmatched(table: seq<MatchRow>, peaks: seq<PeakRow>, filters: seq<string>,
                        patch: seq<real>, sed: seq<real>) returns (blanked: seq<MatchRow>)
    requires |table| == |peaks|
    requires forall i, f :: 0 <= i < |table| && f in filters ==>
               f in table[i].truth.flux && f in table[i].truth.intensity
    ensures |blanked| == |table|
    ensures forall i :: 0 <= i < |table| ==>
              Blanked(blanked[i], table[i], peaks[i].x, peaks[i].y, filters, patch, sed)
  {
    blanked := table;
    for k := 0 to |filters|
      invariant |blanked| == |table|
      invariant forall i :: 0 <= i < |table| ==>
                  Blanked(blanked[i], table[i], peaks[i].x, peaks[i].y, filters[..k], patch, sed)
    {
      var f := filters[k];
      assert f in filters;
      var before := blanked;
      blanked := seq(|before|, i requires 0 <= i < |before| =>
                     FilterPass(before[i], peaks[i].x, peaks[i].y, f, patch, sed));
      assert filters[..k + 1] == filters[..k] + [f];
      forall i | 0 <= i < |table|
        ensures Blanked(blanked[i], table[i], peaks[i].x, peaks[i].y, filters[..k + 1], patch, sed)
      {
        FilterPassStep(before[i], table[i], peaks[i].x, peaks[i].y, filters[..k], f, patch, sed);
      }
    }
    assert filters[..|filters|] == filters;
  }

  // ---------------------------------------------------------------------
  // Peak-to-noise ratios of undetected sources

  /** Line 232 for truth row `t` and `f`, the `k`-th filter: the brightest
      pixel of its intensity patch over the filter's noise, or the exception
      raised on the way (`np.max` of an empty patch, then a missing noise value). */
  function PeakNoiseRatio(t: TruthRow, f: string, k: nat, avgNoise: Option<seq<real>>): Result<Float, MatchError>
  {
    if f !in t.intensity || |t.intensity[f]| == 0 then Failure(EmptyIntensity)
    else if avgNoise.None? || k >= |avgNoise.value| then Failure(MissingNoise)
    else Success(Divide(Max(t.intensity[f]), avgNoise.value[k]))
  }

  /** No two filters share a name. */
  predicate Distinct(s: seq<string>)
  {
    forall a, b :: 0 <= a < b < |s| ==> s[a] != s[b]
  }

  /** Every ratio of every listed source can be computed. */
  ghost predicate RatiosDefined(sim: seq<TruthRow>, undetected: seq<nat>, filters: seq<string>,
                                avgNoise: Option<seq<real>>)
    requires forall u :: 0 <= u < |undetected| ==> undetected[u] < |sim|
  {
    forall u, k :: 0 <= u < |undetected| && 0 <= k < |filters| ==>
      PeakNoiseRatio(sim[undetected[u]], filters[k], k, avgNoise).Success?
  }

  /** (u, k) is the first pair, in loop order, whose ratio cannot be computed. */
  ghost predicate FirstUndefined(sim: seq<TruthRow>, undetected: seq<nat>, filters: seq<string>,
                                 avgNoise: Option<seq<real>>, u: nat, k: nat)
    requires forall u :: 0 <= u < |undetected| ==> undetected[u] < |sim|
  {
    && u < |undetected| && k < |filters|
    && PeakNoiseRatio(sim[undetected[u]], filters[k], k, avgNoise).Failure?
    && (forall u', k' :: 0 <= u' < u && 0 <= k' < |filters| ==>
          PeakNoiseRatio(sim[undetected[u']], filters[k'], k', avgNoise).Success?)
    && (forall k' :: 0 <= k' < k ==> PeakNoiseRatio(sim[undetected[u]], filters[k'], k', avgNoise).Success?)
  }

  /** Lines 227-236: the rows of the undetected sources with their ratio columns. */
  method PeakNoiseTable(sim: seq<TruthRow>, undetected: seq<nat>, filters: seq<string>,
                        avgNoise: Option<seq<real>>) returns (res: Result<seq<UnmatchedRow>, MatchError>)
    requires forall u :: 0 <= u < |undetected| ==> undetected[u] < |sim|
    requires HasFilterColumns(sim, filters)
    ensures res.Success? <==>
              RatiosDefined(sim, undetected, filters, avgNoise) && (|undetected| == 0 || Distinct(filters))
    ensures res.Success? ==> |res.value| == |undetected|
    ensures res.Success? ==> forall u :: 0 <= u < |undetected| ==>
              && res.value[u].truth == sim[undetected[u]]
              && |res.value[u].peakNoise| == |filters|
              && forall k :: 0 <= k < |filters| ==>
                   PeakNoiseRatio(sim[undetected[u]], filters[k], k, avgNoise) == Success(res.value[u].peakNoise[k])
    ensures res == Failure(DuplicateFilter) ==>
              RatiosDefined(sim, undetected, filters, avgNoise) && |undetected| > 0 && !Distinct(filters)
    ensures res.Failure? && res.error != DuplicateFilter ==>
              exists u: nat, k: nat :: FirstUndefined(sim, undetected, filters, avgNoise, u, k) &&
                             PeakNoiseRatio(sim[undetected[u]], filters[k], k, avgNoise) == Failure(res.error)
  {
    var table: seq<UnmatchedRow> := [];
    for u := 0 to |undetected|
      invariant |table| == u
      invariant forall u' :: 0 <= u' < u ==>
                  && table[u'].truth == sim[undetected[u']]
                  && |table[u'].peakNoise| == |filters|
                  && forall k :: 0 <= k < |filters| ==>
                       PeakNoiseRatio(sim[undetected[u']], filters[k], k, avgNoise) == Success(table[u'].peakNoise[k])
    {
      var t := sim[undetected[u]];
      var ratios: seq<Float> := [];
      for k := 0 to |filters|
        invariant |ratios| == k
        invariant forall k' :: 0 <= k' < k ==>
                    PeakNoiseRatio(t, filters[k'], k', avgNoise) == Success(ratios[k'])
      {
        var f := filters[k];
        assert t in sim && f in filters;
        var patch := t.intensity[f];
        if |patch| == 0 || avgNoise.None? || k >= |avgNoise.value| {
          assert FirstUndefined(sim, undetected, filters, avgNoise, u, k);
          return Failure(PeakNoiseRatio(t, f, k, avgNoise).error);
        }
        ratios := ratios + [Divide(Max(patch), avgNoise.value[k])];
      }
      table := table + [UnmatchedRow(t, ratios)];
    }
    if |undetected| > 0 && !Distinct(filters) {
      return Failure(DuplicateFilter);
    }
    return Success(table);
  }

  // ---------------------------------------------------------------------
  // The matcher

  /** The matched column of a match table. */
  function MatchedColumn(table: seq<MatchRow>): seq<bool>
  {
    seq(|table|, i requires 0 <= i < |table| => table[i].matched)
  }

  /** Lines 196-206: each peak's nearest truth row with its distance, its
      separation flag and its duplicate flag, before any blanking. */
  function Gathered(peaks: seq<PeakRow>, sim: seq<TruthRow>, maxSeparation: real): seq<MatchRow>
    requires |sim| > 0
  {
    var idx := NearestIndices(peaks, sim);
    var distance := NearestDistances(peaks, sim);
    var matched := MatchedFlags(peaks, sim, maxSeparation);
    var duplicate := DuplicateFlags(idx, matched);
    seq(|peaks|, i requires 0 <= i < |peaks| => MatchRow(sim[idx[i]], matched[i], distance[i], duplicate[i]))
  }

  /** The gathered rows point at a nearest truth row, are matched iff within the
      separation, and are duplicates iff another matched peak shares the truth row. */
  lemma GatheredFacts(peaks: seq<PeakRow>, sim: seq<TruthRow>, maxSeparation: real)
    requires |sim| > 0
    ensures |Gathered(peaks, sim, maxSeparation)| == |peaks|
    ensures MatchedColumn(Gathered(peaks, sim, maxSeparation)) == MatchedFlags(peaks, sim, maxSeparation)
    ensures forall i :: 0 <= i < |peaks| ==>
              var g := Gathered(peaks, sim, maxSeparation)[i];
              var j := NearestIndices(peaks, sim)[i];
              && IsNearest(peaks[i].x, peaks[i].y, sim, j)
              && FirstAmongNearest(peaks[i].x, peaks[i].y, sim, j)
              && g.truth == sim[j]
              && g.distanceSq == SquaredDistance(peaks[i].x, peaks[i].y, sim[j])
              && (g.matched <==> WithinSeparation(g.distanceSq, maxSeparation))
    ensures forall i :: 0 <= i < |peaks| ==>
              var g := Gathered(peaks, sim, maxSeparation);
              var idx := NearestIndices(peaks, sim);
              (g[i].duplicate <==>
                 g[i].matched && exists j :: 0 <= j < |peaks| && j != i && g[j].matched && idx[j] == idx[i])
  {
    var g := Gathered(peaks, sim, maxSeparation);
    var idx := NearestIndices(peaks, sim);
    var matched := MatchedFlags(peaks, sim, maxSeparation);
    assert MatchedColumn(g) == matched;
    forall i | 0 <= i < |peaks|
      ensures g[i].duplicate <==>
                g[i].matched && exists j :: 0 <= j < |peaks| && j != i && g[j].matched && idx[j] == idx[i]
    {
      DuplicateIffShared(idx, matched, i);
    }
  }

  /** Lines 193-218: the match table of non-empty peak and truth tables. */
  method BuildMatchTable(peaks: seq<PeakRow>, sim: seq<TruthRow>, filters: seq<string>,
                         maxSeparation: real) returns (table: seq<MatchRow>, idx: seq<nat>)
    requires |sim| > 0 && |peaks| > 0 && |filters| > 0
    requires HasFilterColumns(sim, filters)
    ensures |table| == |peaks| && idx == NearestIndices(peaks, sim)
    ensures MatchedColumn(table) == MatchedFlags(peaks, sim, maxSeparation)
    ensures forall i :: 0 <= i < |peaks| ==>
              && IsNearest(peaks[i].x, peaks[i].y, sim, idx[i])
              && FirstAmongNearest(peaks[i].x, peaks[i].y, sim, idx[i])
              && table[i].distanceSq == SquaredDistance(peaks[i].x, peaks[i].y, sim[idx[i]])
    ensures forall i :: 0 <= i < |peaks| ==>
              (table[i].matched <==> WithinSeparation(table[i].distanceSq, maxSeparation))
    ensures forall i :: 0 <= i < |peaks| ==>
              (table[i].duplicate <==>
                 table[i].matched &&
                 exists j :: 0 <= j < |peaks| && j != i && table[j].matched && idx[j] == idx[i])
    ensures forall i :: 0 <= i < |peaks| ==>
              Blanked(table[i], MatchRow(sim[idx[i]], table[i].matched, table[i].distanceSq, table[i].duplicate),
                      peaks[i].x, peaks[i].y, filters,
                      ZerosLike(sim[idx[0]], filters[0]), ZeroVector(|sim[idx[0]].sed|))
  {
    idx := NearestIndices(peaks, sim);
    var gathered := Gathered(peaks, sim, maxSeparation);
    GatheredFacts(peaks, sim, maxSeparation);
    var patch := ZerosLike(gathered[0].truth, filters[0]);
    var sed := ZeroVector(|gathered[0].truth.sed|);
    table := BlankUnmatched(gathered, peaks, filters, patch, sed);
    assert forall i :: 0 <= i < |peaks| ==>
             table[i].matched == gathered[i].matched && table[i].distanceSq == gathered[i].distanceSq &&
             table[i].duplicate == gathered[i].duplicate;
    assert MatchedColumn(table) == MatchedColumn(gathered);
  }

  /** Lines 193-236 of the matcher (its plots left out). */
  method MatchToRef(peaks: seq<PeakRow>, sim: seq<TruthRow>, filters: seq<string>,
                    maxSeparation: real, avgNoise: Option<seq<real>>)
    returns (res: Result<MatchOutput, MatchError>)
    requires HasFilterColumns(sim, filters)
    // the exceptions raised before any ratio is computed
    ensures res == Failure(EmptyTruthTable) <==> |sim| == 0
    ensures res == Failure(EmptyPeakTable) <==> |sim| > 0 && |peaks| == 0
    ensures res == Failure(NoFilters) <==> |sim| > 0 && |peaks| > 0 && |filters| == 0
    // the exceptions raised while the ratios are computed
    ensures res.Failure? <==>
              |sim| == 0 || |peaks| == 0 || |filters| == 0 ||
              var undetected := UndetectedOf(peaks, sim, maxSeparation);
              !(RatiosDefined(sim, undetected, filters, avgNoise) && (|undetected| == 0 || Distinct(filters)))
    ensures res == Failure(DuplicateFilter) ==>
              && |sim| > 0 && |UndetectedOf(peaks, sim, maxSeparation)| > 0 && !Distinct(filters)
              && RatiosDefined(sim, UndetectedOf(peaks, sim, maxSeparation), filters, avgNoise)
    ensures res == Failure(EmptyIntensity) || res == Failure(MissingNoise) ==>
              |sim| > 0 &&
              var undetected := UndetectedOf(peaks, sim, maxSeparation);
              exists u: nat, k: nat :: FirstUndefined(sim, undetected, filters, avgNoise, u, k) &&
                                       PeakNoiseRatio(sim[undetected[u]], filters[k], k, avgNoise) == Failure(res.error)
    // one match row per peak, pointing at a nearest truth source
    ensures res.Success? ==>
              && |res.value.matchTable| == |peaks|
              && res.value.idx == NearestIndices(peaks, sim)
    ensures res.Success? ==> forall i :: 0 <= i < |peaks| ==>
              && IsNearest(peaks[i].x, peaks[i].y, sim, res.value.idx[i])
              && FirstAmongNearest(peaks[i].x, peaks[i].y, sim, res.value.idx[i])
              && res.value.matchTable[i].distanceSq ==
                   SquaredDistance(peaks[i].x, peaks[i].y, sim[res.value.idx[i]])
    // the strict separation cut and the duplicate flag
    ensures res.Success? ==> forall i :: 0 <= i < |peaks| ==>
              (res.value.matchTable[i].matched <==>
                 WithinSeparation(res.value.matchTable[i].distanceSq, maxSeparation))
    ensures res.Success? ==> forall i :: 0 <= i < |peaks| ==>
              (res.value.matchTable[i].duplicate <==>
                 && res.value.matchTable[i].matched
                 && exists j :: 0 <= j < |peaks| && j != i && res.value.matchTable[j].matched &&
                                res.value.idx[j] == res.value.idx[i])
    // the truth columns: the nearest truth row, blanked where unmatched
    ensures res.Success? ==> forall i :: 0 <= i < |peaks| ==>
              var m := res.value.matchTable[i];
              var first := sim[res.value.idx[0]];
              Blanked(m, MatchRow(sim[res.value.idx[i]], m.matched, m.distanceSq, m.duplicate),
                      peaks[i].x, peaks[i].y, filters,
                      ZerosLike(first, filters[0]), ZeroVector(|first.sed|))
    // the undetected truth sources, ascending, with their ratios
    ensures res.Success? ==>
              |res.value.unmatchedTable| == |sim| - |MatchedTruth(res.value.idx, MatchedColumn(res.value.matchTable))|
    ensures res.Success? ==>
              var undetected := Unhit(MatchedTruth(res.value.idx, MatchedColumn(res.value.matchTable)), |sim|);
              && |res.value.unmatchedTable| == |undetected|
              && forall u :: 0 <= u < |undetected| ==>
                   && res.value.unmatchedTable[u].truth == sim[undetected[u]]
                   && |res.value.unmatchedTable[u].peakNoise| == |filters|
                   && forall k :: 0 <= k < |filters| ==>
                        PeakNoiseRatio(sim[undetected[u]], filters[k], k, avgNoise) ==
                          Success(res.value.unmatchedTable[u].peakNoise[k])
  {
    if |sim| == 0 { return Failure(EmptyTruthTable); }
    if |peaks| == 0 { return Failure(EmptyPeakTable); }
    if |filters| == 0 { return Failure(NoFilters); }
    var table, idx := BuildMatchTable(peaks, sim, filters, maxSeparation);
    var undetected := Unhit(MatchedTruth(idx, MatchedColumn(table)), |sim|);
    assert undetected == UndetectedOf(peaks, sim, maxSeparation);
    var unmatched := PeakNoiseTable(sim, undetected, filters, avgNoise);
    if unmatched.Failure? { return Failure(unmatched.error); }
    UndetectedCount(idx, MatchedColumn(table), |sim|);
    return Success(MatchOutput(table, idx, unmatched.value));
  }
}
