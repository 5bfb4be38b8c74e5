/** A blend of two peaks taken from an empty peak table to its SEDs. */
module FluxScenarios {
  import opened Wrappers
  import opened Numerics
  import opened PeakTables
  import opened FluxFill
  import opened Seds

  /** The flux columns of the blend, read row by row. */
  lemma BlendFluxMatrix(flux: map<string, seq<Option<real>>>)
    requires "g" in flux && flux["g"] == [Some(1.0), Some(2.0)]
    requires "r" in flux && flux["r"] == [Some(3.0), Some(6.0)]
    ensures FluxMatrix(flux, ["g", "r"], 2) == [[Some(1.0), Some(3.0)], [Some(2.0), Some(6.0)]]
  {
    var a := FluxMatrix(flux, ["g", "r"], 2);
    assert a[0] == [Some(1.0), Some(3.0)];
    assert a[1] == [Some(2.0), Some(6.0)];
  }

  /** Both rows have the same colour, so the same SED and different normalisations. */
  lemma BlendSeds()
    ensures SedsFromFlux([[Some(1.0), Some(3.0)], [Some(2.0), Some(6.0)]]) ==
              ([[Finite(0.25), Finite(0.75)], [Finite(0.25), Finite(0.75)]], [Some(4.0), Some(8.0)])
  {
    var a := [[Some(1.0), Some(3.0)], [Some(2.0), Some(6.0)]];
    assert Values(a[0]) == [1.0, 3.0] && Values(a[1]) == [2.0, 6.0];
    assert Sum([1.0, 3.0]) == 4.0 && Sum([2.0, 6.0]) == 8.0;
    assert Sed(a[0]) == [Finite(0.25), Finite(0.75)];
    assert Sed(a[1]) == [Finite(0.25), Finite(0.75)];
    assert Normalization(a[0]) == Some(4.0) && Normalization(a[1]) == Some(8.0);
    var r := SedsFromFlux(a);
    assert r.0 == [Sed(a[0]), Sed(a[1])];
    assert r.1 == [Normalization(a[0]), Normalization(a[1])];
  }

  /** The deblending result of the blend: parent 11 with apportioned flux
      (1, 2) in g and (3, 6) in r for its two peaks. */
  function BlendDeblend(): ExposureDeblend
  {
    ExposureDeblend(["g", "r"], map[11 := DeblendedParent([[1.0, 2.0], [3.0, 6.0]], [])])
  }

  /** Every write of the fill-in finds its column and its value. */
  lemma BlendFillable(rows: seq<PeakRow>)
    requires |rows| == 2 && rows[0].parent == 11 && rows[0].peakIdx == 0
    requires rows[1].parent == 11 && rows[1].peakIdx == 1
    ensures Fillable(FluxPortion, BlendDeblend(), rows, EmptyFluxColumns(["g", "r"], 2))
  {
  }

  /** Filling the empty g and r columns of the blend's rows from its apportioned flux. */
  lemma BlendFilled(rows: seq<PeakRow>)
    requires |rows| == 2 && rows[0].parent == 11 && rows[0].peakIdx == 0
    requires rows[1].parent == 11 && rows[1].peakIdx == 1
    ensures Fillable(FluxPortion, BlendDeblend(), rows, EmptyFluxColumns(["g", "r"], 2))
    ensures FilledFlux(FluxPortion, BlendDeblend(), rows, EmptyFluxColumns(["g", "r"], 2)) ==
              map["g" := [Some(1.0), Some(2.0)], "r" := [Some(3.0), Some(6.0)]]
  {
    var e := BlendDeblend();
    var flux0 := EmptyFluxColumns(["g", "r"], 2);
    BlendFillable(rows);
    assert "g" != "r";
    FilledFluxShape(FluxPortion, e, rows, flux0);
    FilledFluxWrites(FluxPortion, e, rows, flux0, 0, 0);
    FilledFluxWrites(FluxPortion, e, rows, flux0, 0, 1);
    FilledFluxWrites(FluxPortion, e, rows, flux0, 1, 0);
    FilledFluxWrites(FluxPortion, e, rows, flux0, 1, 1);
    var filled := FilledFlux(FluxPortion, e, rows, flux0);
    assert filled["g"] == [Some(1.0), Some(2.0)];
    assert filled["r"] == [Some(3.0), Some(6.0)];
    assert filled.Keys == {"g", "r"};
  }

  /** A parent with two peaks in filters g and r: the apportioned flux fills
      both rows, and each row's SED is a quarter in g and three quarters in r. */
  method TwoPeakBlendSeds() returns (seds: seq<seq<Float>>, normalization: seq<Option<real>>)
    ensures normalization == [Some(4.0), Some(8.0)]
    ensures seds == [[Finite(0.25), Finite(0.75)], [Finite(0.25), Finite(0.75)]]
  {
    var filters := ["g", "r"];
    var built := BuildFootprintPeakTable(Footprint([Peak(4, 5), Peak(9, 5)]), filters, Some(11));
    var t := built.value;
    assert t.rows[0].parent == 11 && t.rows[0].peakIdx == 0;
    assert t.rows[1].parent == 11 && t.rows[1].peakIdx == 1;
    BlendFilled(t.rows);
    CalculateFluxPortion(BlendDeblend(), t);
    BlendFluxMatrix(t.flux);
    BlendSeds();
    seds, normalization := CalculateSedsFromFlux(t, filters, true);
  }
}
