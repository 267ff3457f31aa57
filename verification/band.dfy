/** `extract_amid1_band`: the part of a spectrum inside the Amide I band. */
module Band {
  import opened Outcomes
  import opened Import

  /** The band's bounds, both exclusive. */
  const BandLow: real := 1600.0
  const BandHigh: real := 1700.0

  predicate InBand(x: real) {
    BandLow < x < BandHigh
  }

  /** The indices of the in-band wavenumbers, in increasing order: the positions the
      extraction keeps. */
  function BandIndices(xs: seq<real>): (idx: seq<nat>)
    ensures forall k :: 0 <= k < |idx| ==> idx[k] < |xs| && InBand(xs[idx[k]])
    ensures forall k, l :: 0 <= k < l < |idx| ==> idx[k] < idx[l]
    ensures forall i :: 0 <= i < |xs| && InBand(xs[i]) ==> i in idx
    decreases |xs|
  {
    if |xs| == 0 then []
    else
      var n := |xs| - 1;
      var before := BandIndices(xs[..n]);
      if InBand(xs[n]) then before + [n] else before
  }

  /** The loop of `extract_amid1_band` over its first `n` indices: it appends each in-band
      point, reading `datay[i]` only for those, so a `datay` shorter than `datax` fails
      only if an in-band index lies past its end. */
  function ExtractPrefix(xs: seq<real>, ys: seq<real>, n: nat): Result<Spectrum, Error>
    requires n <= |xs|
    decreases n
  {
    if n == 0 then Ok(Spectrum([], []))
    else
      match ExtractPrefix(xs, ys, n - 1)
      case Err(e) => Err(e)
      case Ok(sp) =>
        var i := n - 1;
        if !InBand(xs[i]) then Ok(sp)
        else if i < |ys| then Ok(Spectrum(sp.xs + [xs[i]], sp.ys + [ys[i]]))
        else Err(IndexError)
  }

  /** `extract_amid1_band(datax, datay)`: the in-band points, in their original order, each
      wavenumber still paired with the absorption at its own index. */
  function ExtractAmideI(xs: seq<real>, ys: seq<real>): (r: Result<Spectrum, Error>)
    ensures r.Ok? <==> forall i :: 0 <= i < |xs| && InBand(xs[i]) ==> i < |ys|
    ensures r.Err? ==> r.error == IndexError
    ensures r.Ok? ==>
              var idx := BandIndices(xs);
              && |r.value.xs| == |idx| && |r.value.ys| == |idx|
              && forall k :: 0 <= k < |idx| ==> r.value.xs[k] == xs[idx[k]] && r.value.ys[k] == ys[idx[k]]
  {
    ExtractPrefixCorrect(xs, ys, |xs|);
    assert xs[..|xs|] == xs;
    ExtractPrefix(xs, ys, |xs|)
  }

  lemma {:induction false} ExtractPrefixCorrect(xs: seq<real>, ys: seq<real>, n: nat)
    requires n <= |xs|
    ensures var r := ExtractPrefix(xs, ys, n);
            && (r.Ok? <==> forall i :: 0 <= i < n && InBand(xs[i]) ==> i < |ys|)
            && (r.Err? ==> r.error == IndexError)
            && (r.Ok? ==>
                  var idx := BandIndices(xs[..n]);
                  && |r.value.xs| == |idx| && |r.value.ys| == |idx|
                  && forall k :: 0 <= k < |idx| ==> r.value.xs[k] == xs[idx[k]] && r.value.ys[k] == ys[idx[k]])
    decreases n
  {
    if n > 0 {
      ExtractPrefixCorrect(xs, ys, n - 1);
      assert xs[..n][..n - 1] == xs[..n - 1];
    }
  }

  /** Every extracted wavenumber lies strictly inside the band: points at exactly 1600 or
      1700 are dropped. */
  lemma ExtractedInBand(xs: seq<real>, ys: seq<real>)
    requires ExtractAmideI(xs, ys).Ok?
    ensures var out := ExtractAmideI(xs, ys).value;
            forall k :: 0 <= k < |out.xs| ==> 1600.0 < out.xs[k] < 1700.0
  {
  }

  /** No in-band point is lost: input point `i` appears in the output, paired as it was. */
  lemma ExtractKeepsBandPoint(xs: seq<real>, ys: seq<real>, i: nat)
    requires ExtractAmideI(xs, ys).Ok?
    requires i < |xs| && InBand(xs[i])
    ensures var out := ExtractAmideI(xs, ys).value;
            exists k :: 0 <= k < |out.xs| && out.xs[k] == xs[i] && out.ys[k] == ys[i]
  {
    var idx := BandIndices(xs);
    var k :| 0 <= k < |idx| && idx[k] == i;
  }

  /** When every wavenumber is in the band, the kept indices are all of them. */
  lemma {:induction false} BandIndicesAll(xs: seq<real>)
    requires forall i :: 0 <= i < |xs| ==> InBand(xs[i])
    ensures BandIndices(xs) == seq(|xs|, i => i)
    decreases |xs|
  {
    if |xs| > 0 {
      var n := |xs| - 1;
      BandIndicesAll(xs[..n]);
      assert seq(n, i => i) + [n] == seq(|xs|, i => i);
    }
  }

  /** Extracting the band a second time changes nothing. */
  lemma ExtractIdempotent(xs: seq<real>, ys: seq<real>)
    requires ExtractAmideI(xs, ys).Ok?
    ensures var out := ExtractAmideI(xs, ys).value;
            ExtractAmideI(out.xs, out.ys) == Ok(out)
  {
    var out := ExtractAmideI(xs, ys).value;
    BandIndicesAll(out.xs);
    var again := ExtractAmideI(out.xs, out.ys);
    assert again.value.xs == out.xs;
    assert again.value.ys == out.ys;
  }
}
