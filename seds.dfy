/** Normalised spectral energy distributions from the flux columns of a table. */
module Seds {
  import opened Wrappers
  import opened Numerics
  import opened PeakTables

  /** No cell of the row is NaN. */
  predicate AllDefined(row: seq<Option<real>>)
  {
    forall j :: 0 <= j < |row| ==> row[j].Some?
  }

  function Values(row: seq<Option<real>>): (v: seq<real>)
    requires AllDefined(row)
    ensures |v| == |row| && forall j :: 0 <= j < |row| ==> Some(v[j]) == row[j]
  {
    seq(|row|, j requires 0 <= j < |row| => row[j].value)
  }

  /** The row sum as numpy computes it: NaN as soon as one cell is NaN. */
  function Normalization(row: seq<Option<real>>): Option<real>
  {
    if AllDefined(row) then Some(Sum(Values(row))) else None
  }

  /** One cell divided by the row's normalisation, NaN when either is NaN. */
  function Quotient(a: Option<real>, b: Option<real>): Float
  {
    if a.Some? && b.Some? then Divide(a.value, b.value) else NaN
  }

  /** The normalised SED of one row. */
  function Sed(row: seq<Option<real>>): seq<Float>
  {
    var n := Normalization(row);
    seq(|row|, j requires 0 <= j < |row| => Quotient(row[j], n))
  }

  /** The `len(tbl) x len(filters)` array of the flux columns named by `filters`. */
  function FluxMatrix(flux: map<string, seq<Option<real>>>, filters: seq<string>, n: nat): (a: seq<seq<Option<real>>>)
    requires forall f :: f in filters ==> f in flux && |flux[f]| == n
    ensures |a| == n && forall r :: 0 <= r < n ==> |a[r]| == |filters|
    ensures forall j :: 0 <= j < |filters| ==> seq(n, r requires 0 <= r < n => a[r][j]) == flux[filters[j]]
  {
    seq(n, r requires 0 <= r < n => seq(|filters|, j requires 0 <= j < |filters| => flux[filters[j]][r]))
  }

  /** The SED of every row and the normalisation it was divided by. */
  function SedsFromFlux(a: seq<seq<Option<real>>>): (seq<seq<Float>>, seq<Option<real>>)
  {
    (seq(|a|, r requires 0 <= r < |a| => Sed(a[r])), seq(|a|, r requires 0 <= r < |a| => Normalization(a[r])))
  }

  /** A row with no NaN and a non-zero total has a finite SED summing to one. */
  lemma SedSumsToOne(row: seq<Option<real>>)
    requires AllDefined(row) && Sum(Values(row)) != 0.0
    ensures forall j :: 0 <= j < |row| ==> Sed(row)[j].Finite?
    ensures Sum(seq(|row|, j requires 0 <= j < |row| => Sed(row)[j].value)) == 1.0
  {
    var v := Values(row);
    var total := Sum(v);
    SumScaled(v, total);
    forall j | 0 <= j < |row|
      ensures Sed(row)[j] == Divide(v[j], total) && Sed(row)[j].value == v[j] / total
    {
      assert row[j] == Some(v[j]);
    }
    assert seq(|row|, j requires 0 <= j < |row| => Sed(row)[j].value)
        == seq(|v|, j requires 0 <= j < |v| => v[j] / total);
    assert total / total == 1.0;
  }

  /** Multiplying an SED back by its normalisation gives the flux it came from. */
  lemma SedTimesNormalization(row: seq<Option<real>>, j: nat)
    requires j < |row| && AllDefined(row) && Sum(Values(row)) != 0.0
    ensures Normalization(row).Some? && Sed(row)[j].Finite?
    ensures Some(Sed(row)[j].value * Normalization(row).value) == row[j]
  {
    var total := Sum(Values(row));
    var q := Divide(row[j].value, total);
    assert Normalization(row) == Some(total);
    assert Sed(row)[j] == q;
    assert q.value * total == row[j].value;
  }

  /** One NaN flux turns the normalisation and every cell of the SED into NaN. */
  lemma SedNaNPropagates(row: seq<Option<real>>, j: nat)
    requires j < |row| && !AllDefined(row)
    ensures Normalization(row) == None && Sed(row)[j] == NaN
  {
  }

  /** A row summing to zero gives infinities of the cells' signs, NaN for zero cells. */
  lemma SedZeroTotal(row: seq<Option<real>>, j: nat)
    requires j < |row| && AllDefined(row) && Sum(Values(row)) == 0.0
    ensures row[j].value > 0.0 ==> Sed(row)[j] == PosInf
    ensures row[j].value < 0.0 ==> Sed(row)[j] == NegInf
    ensures row[j].value == 0.0 ==> Sed(row)[j] == NaN
  {
  }

  /** `calculateSedsFromFlux`: the SEDs and normalisations of every row, also
      stored as the table's sed column when `inPlace`. */
  method CalculateSedsFromFlux(tbl: PeakTable, filters: seq<string>, inPlace: bool)
      returns (seds: seq<seq<Float>>, normalization: seq<Option<real>>)
    requires tbl.Valid()
    requires forall f :: f in filters ==> f in tbl.flux
    modifies tbl
    ensures (seds, normalization) == SedsFromFlux(FluxMatrix(old(tbl.flux), filters, |old(tbl.rows)|))
    ensures tbl.rows == old(tbl.rows) && tbl.flux == old(tbl.flux)
    ensures tbl.sed == if inPlace then Some(seds) else old(tbl.sed)
    ensures tbl.Valid()
  {
    var a := FluxMatrix(tbl.flux, filters, |tbl.rows|);
    seds, normalization := SedsFromFlux(a).0, SedsFromFlux(a).1;
    if inPlace {
      tbl.sed := Some(seds);
    }
  }
}
