/** The stages as the application chains them: extract the band, subtract the background,
    save the corrected region. */
module Pipeline {
  import opened Outcomes
  import opened Text
  import opened Import
  import opened Band
  import opened Baseline
  import opened Export

  /** The extracted region keeps its lists paired, so its background correction is exactly
      zero at both ends and fails only for fewer than two points or a zero wavenumber span. */
  lemma ExtractThenSubtract(xs: seq<real>, ys: seq<real>)
    requires ExtractAmideI(xs, ys).Ok?
    ensures var band := ExtractAmideI(xs, ys).value;
            var c := SubtractBackground(band.xs, band.ys);
            && (c.Ok? <==> |band.xs| >= 2 && band.xs[0] != band.xs[|band.xs| - 1])
            && (c.Ok? ==> |c.value| == |band.xs| && c.value[0] == 0.0 && c.value[|c.value| - 1] == 0.0)
  {
    var band := ExtractAmideI(xs, ys).value;
    if SubtractBackground(band.xs, band.ys).Ok? {
      EndpointsZero(band.xs, band.ys);
    }
  }

  /** Saving the corrected region and loading the file again gives back the region's
      wavenumbers and corrected absorptions, point for point. */
  lemma SavedRegionReloads(xs: seq<real>, ys: seq<real>, show: Shower, parse: Parser)
    requires ExtractAmideI(xs, ys).Ok?
    requires var band := ExtractAmideI(xs, ys).value;
             SubtractBackground(band.xs, band.ys).Ok?
    requires var band := ExtractAmideI(xs, ys).value;
             forall i :: 0 <= i < |band.xs| ==> Reparses(band.xs[i], show, parse)
    requires var band := ExtractAmideI(xs, ys).value;
             var c := SubtractBackground(band.xs, band.ys).value;
             forall i :: 0 <= i < |c| ==> Reparses(c[i], show, parse)
    ensures var band := ExtractAmideI(xs, ys).value;
            var c := SubtractBackground(band.xs, band.ys).value;
            ImportData(SplitLines(SaveText(band.xs, c, show)), parse) == Ok(Spectrum(band.xs, c))
  {
    var band := ExtractAmideI(xs, ys).value;
    var c := SubtractBackground(band.xs, band.ys).value;
    SavedPairsReload(band.xs, c, show, parse);
  }

  /** Two lists of equal length, saved and loaded again, come back whole. */
  lemma SavedPairsReload(xs: seq<real>, ys: seq<real>, show: Shower, parse: Parser)
    requires |xs| == |ys|
    requires forall i :: 0 <= i < |xs| ==> Reparses(xs[i], show, parse)
    requires forall i :: 0 <= i < |ys| ==> Reparses(ys[i], show, parse)
    ensures ImportData(SplitLines(SaveText(xs, ys, show)), parse) == Ok(Spectrum(xs, ys))
  {
    SaveThenImport(xs, ys, show, parse);
    assert xs[..|xs|] == xs;
    assert ys[..|ys|] == ys;
  }

  /** Three points inside the band: all are kept by the extraction. */
  lemma ExampleExtract()
    ensures ExtractAmideI([1645.0, 1652.0, 1660.0], [0.3, 0.5, 0.2])
            == Ok(Spectrum([1645.0, 1652.0, 1660.0], [0.3, 0.5, 0.2]))
  {
    var xs := [1645.0, 1652.0, 1660.0];
    var ys := [0.3, 0.5, 0.2];
    BandIndicesAll(xs);
    var r := ExtractAmideI(xs, ys);
    assert r.Ok?;
    assert r.value.xs == xs && r.value.ys == ys;
  }

  /** The same three points: the line through (1645, 0.3) and (1660, 0.2) has gradient
      -1/150 and intercept 169/15, so the middle point is corrected to
      0.5 + 1652/150 - 169/15 = 37/150 and both ends to zero. */
  lemma ExampleSubtract()
    ensures Background(1645.0, 0.3, 1660.0, 0.2) == Line(-1.0 / 150.0, 169.0 / 15.0)
    ensures SubtractBackground([1645.0, 1652.0, 1660.0], [0.3, 0.5, 0.2]) == Ok([0.0, 37.0 / 150.0, 0.0])
  {
    var l := Background(1645.0, 0.3, 1660.0, 0.2);
    LineUnique(l, Line(-1.0 / 150.0, 169.0 / 15.0), 1645.0, 1660.0);
    var c := SubtractBackground([1645.0, 1652.0, 1660.0], [0.3, 0.5, 0.2]).value;
    assert c[0] + l.At(1645.0) == 0.3;
    assert c[1] + l.At(1652.0) == 0.5;
    assert c[2] + l.At(1660.0) == 0.2;
    assert c == [0.0, 37.0 / 150.0, 0.0];
  }
}
