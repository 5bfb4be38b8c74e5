/** Filling the flux columns of a peak table in place from the deblender's
    results, for the peaks of the parents that were deblended. */
module FluxFill {
  import opened Wrappers
  import opened PeakTables
  import opened Numerics

  /** What a deblended parent hands back per filter index and peak index:
      its apportioned flux (`peakFlux`) and its pixel templates. */
  datatype DeblendedParent = DeblendedParent(peakFlux: seq<seq<real>>, templates: seq<seq<seq<real>>>)

  /** The deblending context of one exposure set: its filter list and its
      deblended parents, keyed by parent id. */
  datatype ExposureDeblend = ExposureDeblend(filters: seq<string>, deblendedParents: map<int, DeblendedParent>)

  /** Where the flux of a peak comes from: the apportioned flux
      (`calculateFluxPortion`) or the sum of the template (`calculateNmfFlux`). */
  datatype FluxMethod = FluxPortion | TemplateSum

  /** The value for filter index `fidx` and peak index `peakIdx` exists. */
  predicate ValueAvailable(m: FluxMethod, p: DeblendedParent, fidx: nat, peakIdx: nat)
  {
    match m
    case FluxPortion => fidx < |p.peakFlux| && peakIdx < |p.peakFlux[fidx]|
    case TemplateSum => fidx < |p.templates| && peakIdx < |p.templates[fidx]|
  }

  /** `peakFlux[fidx][peakIdx]`, or `np.sum(getTemplate(fidx, peakIdx))`. */
  function PeakValue(m: FluxMethod, p: DeblendedParent, fidx: nat, peakIdx: nat): real
    requires ValueAvailable(m, p, fidx, peakIdx)
  {
    match m
    case FluxPortion => p.peakFlux[fidx][peakIdx]
    case TemplateSum => Sum(p.templates[fidx][peakIdx])
  }

  /** The last position of `f` in `s`: a filter named twice is written twice,
      and the later write is the one that stays. */
  function LastIndex(s: seq<string>, f: string): (i: nat)
    requires f in s
    ensures i < |s| && s[i] == f
    ensures forall j :: i < j < |s| ==> s[j] != f
  {
    if s[|s| - 1] == f then |s| - 1 else LastIndex(s[..|s| - 1], f)
  }

  lemma LastIndexSnoc(s: seq<string>, x: string, f: string)
    requires f in s + [x]
    ensures LastIndex(s + [x], f) == if x == f then |s| else LastIndex(s, f)
  {
    assert (s + [x])[..|s|] == s;
  }

  /** Every write the loops make finds its column and its value: the source
      raises a KeyError or an IndexError otherwise. */
  ghost predicate Fillable(m: FluxMethod, e: ExposureDeblend, rows: seq<PeakRow>,
                           flux: map<string, seq<Option<real>>>)
  {
    forall pk, fidx :: 0 <= pk < |rows| && rows[pk].parent in e.deblendedParents && 0 <= fidx < |e.filters| ==>
      e.filters[fidx] in flux &&
      ValueAvailable(m, e.deblendedParents[rows[pk].parent], fidx, rows[pk].peakIdx)
  }

  /** The cell of column `f` in `row` after the filter loop of that row has run
      over the filters `fs`: the value of the last matching filter index when
      the row's parent was deblended, the old cell otherwise. */
  function FilledCell(m: FluxMethod, e: ExposureDeblend, row: PeakRow, f: string, fs: seq<string>,
                      cell: Option<real>): Option<real>
  {
    if row.parent in e.deblendedParents && f in fs &&
       ValueAvailable(m, e.deblendedParents[row.parent], LastIndex(fs, f), row.peakIdx)
    then Some(PeakValue(m, e.deblendedParents[row.parent], LastIndex(fs, f), row.peakIdx))
    else cell
  }

  /** Column `f` once rows before `done` are complete and row `done` has seen the filters `fs`. */
  function PartlyFilled(m: FluxMethod, e: ExposureDeblend, rows: seq<PeakRow>, col: seq<Option<real>>,
                        f: string, done: nat, fs: seq<string>): seq<Option<real>>
    requires |col| == |rows|
  {
    seq(|col|, r requires 0 <= r < |col| =>
      if r < done then FilledCell(m, e, rows[r], f, e.filters, col[r])
      else if r == done then FilledCell(m, e, rows[r], f, fs, col[r])
      else col[r])
  }

  /** The flux columns once every row has been visited. */
  function FilledFlux(m: FluxMethod, e: ExposureDeblend, rows: seq<PeakRow>,
                      flux: map<string, seq<Option<real>>>): map<string, seq<Option<real>>>
    requires forall f :: f in flux ==> |flux[f]| == |rows|
  {
    map f | f in flux :: PartlyFilled(m, e, rows, flux[f], f, |rows|, [])
  }

  /** The loops shared by the two fill-in operations (same rows, same filters,
      a different value per peak). */
  method FillFlux(m: FluxMethod, e: ExposureDeblend, t: PeakTable)
    requires t.Valid() && Fillable(m, e, t.rows, t.flux)
    modifies t
    ensures t.Valid() && t.rows == old(t.rows) && t.sed == old(t.sed)
    ensures t.flux == FilledFlux(m, e, old(t.rows), old(t.flux))
  {
    ghost var flux0 := t.flux;
    for pk := 0 to |t.rows|
      invariant t.rows == old(t.rows) && t.sed == old(t.sed) && t.flux.Keys == flux0.Keys
      invariant forall f :: f in t.flux ==> t.flux[f] == PartlyFilled(m, e, t.rows, flux0[f], f, pk, [])
    {
      var row := t.rows[pk];
      if row.parent in e.deblendedParents {
        var parent := e.deblendedParents[row.parent];
        for fidx := 0 to |e.filters|
          invariant t.rows == old(t.rows) && t.sed == old(t.sed) && t.flux.Keys == flux0.Keys
          invariant forall f :: f in t.flux ==>
                      t.flux[f] == PartlyFilled(m, e, t.rows, flux0[f], f, pk, e.filters[..fidx])
        {
          var f := e.filters[fidx];
          var v := PeakValue(m, parent, fidx, row.peakIdx);
          forall g | g in t.flux {
            ColumnStep(m, e, t.rows, flux0[g], g, pk, fidx);
          }
          t.flux := t.flux[f := t.flux[f][pk := Some(v)]];
        }
        assert e.filters[..|e.filters|] == e.filters;
      } else {
        forall g | g in t.flux {
          RowSkipped(m, e, t.rows, flux0[g], g, pk);
        }
      }
      forall g | g in t.flux {
        RowDone(m, e, t.rows, flux0[g], g, pk);
      }
    }
  }

  /** One write of the inner loop, seen from column `g`. */
  lemma ColumnStep(m: FluxMethod, e: ExposureDeblend, rows: seq<PeakRow>, col: seq<Option<real>>,
                   g: string, pk: nat, fidx: nat)
    requires |col| == |rows| && pk < |rows| && fidx < |e.filters|
    requires rows[pk].parent in e.deblendedParents
    requires ValueAvailable(m, e.deblendedParents[rows[pk].parent], fidx, rows[pk].peakIdx)
    ensures g == e.filters[fidx] ==>
              PartlyFilled(m, e, rows, col, g, pk, e.filters[..fidx])
                [pk := Some(PeakValue(m, e.deblendedParents[rows[pk].parent], fidx, rows[pk].peakIdx))]
              == PartlyFilled(m, e, rows, col, g, pk, e.filters[..fidx + 1])
    ensures g != e.filters[fidx] ==>
              PartlyFilled(m, e, rows, col, g, pk, e.filters[..fidx])
              == PartlyFilled(m, e, rows, col, g, pk, e.filters[..fidx + 1])
  {
    var f := e.filters[fidx];
    assert e.filters[..fidx + 1] == e.filters[..fidx] + [f];
    if g in e.filters[..fidx + 1] {
      LastIndexSnoc(e.filters[..fidx], f, g);
    }
  }

  /** A row whose parent was not deblended ends its visit as it began. */
  lemma RowSkipped(m: FluxMethod, e: ExposureDeblend, rows: seq<PeakRow>, col: seq<Option<real>>,
                   g: string, pk: nat)
    requires |col| == |rows| && pk < |rows| && rows[pk].parent !in e.deblendedParents
    ensures PartlyFilled(m, e, rows, col, g, pk, []) == PartlyFilled(m, e, rows, col, g, pk, e.filters)
  {
  }

  /** Row `pk` having seen every filter is row `pk + 1` having seen none. */
  lemma RowDone(m: FluxMethod, e: ExposureDeblend, rows: seq<PeakRow>, col: seq<Option<real>>,
                g: string, pk: nat)
    requires |col| == |rows| && pk < |rows|
    ensures PartlyFilled(m, e, rows, col, g, pk, e.filters) == PartlyFilled(m, e, rows, col, g, pk + 1, [])
  {
  }

  /** `calculateFluxPortion`: each cell of a deblended parent's peak takes the apportioned flux. */
  method CalculateFluxPortion(e: ExposureDeblend, t: PeakTable)
    requires t.Valid() && Fillable(FluxPortion, e, t.rows, t.flux)
    modifies t
    ensures t.Valid() && t.rows == old(t.rows) && t.sed == old(t.sed)
    ensures t.flux == FilledFlux(FluxPortion, e, old(t.rows), old(t.flux))
  {
    FillFlux(FluxPortion, e, t);
  }

  /** `calculateNmfFlux`: each cell of a deblended parent's peak takes the sum of its template. */
  method CalculateNmfFlux(e: ExposureDeblend, t: PeakTable)
    requires t.Valid() && Fillable(TemplateSum, e, t.rows, t.flux)
    modifies t
    ensures t.Valid() && t.rows == old(t.rows) && t.sed == old(t.sed)
    ensures t.flux == FilledFlux(TemplateSum, e, old(t.rows), old(t.flux))
  {
    FillFlux(TemplateSum, e, t);
  }

  /** Filling never adds or drops a column or a row. */
  lemma FilledFluxShape(m: FluxMethod, e: ExposureDeblend, rows: seq<PeakRow>, flux: map<string, seq<Option<real>>>)
    requires forall f :: f in flux ==> |flux[f]| == |rows|
    ensures FilledFlux(m, e, rows, flux).Keys == flux.Keys
    ensures forall f :: f in flux ==> |FilledFlux(m, e, rows, flux)[f]| == |rows|
  {
  }

  /** Rows whose parent was not deblended, and columns of filters the
      deblender does not list, keep their cells. */
  lemma FilledFluxKeepsOthers(m: FluxMethod, e: ExposureDeblend, rows: seq<PeakRow>,
                              flux: map<string, seq<Option<real>>>, f: string, r: nat)
    requires forall g :: g in flux ==> |flux[g]| == |rows|
    requires f in flux && r < |rows|
    requires rows[r].parent !in e.deblendedParents || f !in e.filters
    ensures FilledFlux(m, e, rows, flux)[f][r] == flux[f][r]
  {
  }

  /** With distinct filter names, the cell of filter `e.filters[fidx]` in a row
      of a deblended parent holds that parent's value for `fidx` and the row's peak index. */
  lemma FilledFluxWrites(m: FluxMethod, e: ExposureDeblend, rows: seq<PeakRow>,
                         flux: map<string, seq<Option<real>>>, fidx: nat, r: nat)
    requires forall g :: g in flux ==> |flux[g]| == |rows|
    requires Fillable(m, e, rows, flux)
    requires forall a, b :: 0 <= a < b < |e.filters| ==> e.filters[a] != e.filters[b]
    requires fidx < |e.filters| && r < |rows| && rows[r].parent in e.deblendedParents
    ensures e.filters[fidx] in flux
    ensures ValueAvailable(m, e.deblendedParents[rows[r].parent], fidx, rows[r].peakIdx)
    ensures FilledFlux(m, e, rows, flux)[e.filters[fidx]][r] ==
              Some(PeakValue(m, e.deblendedParents[rows[r].parent], fidx, rows[r].peakIdx))
  {
  }
}
