/** `display_fit_results`: the five-row table of fitted Gaussian components shown after a
    fit. */
module Table {
  import opened Outcomes

  /** Centres (cm^-1) of the five Gaussians of the fit model, in parameter order. */
  const PeakPositions: seq<nat> := [1652, 1630, 1679, 1671, 1645]

  /** The secondary structure each component stands for, in the same order. */
  const Structures: seq<string> :=
    ["\U{03B1} - Helix", "\U{03B2} - Sheet", "\U{03B2} - Sheet", "Loop", "Disordered"]

  /** The position column, as the literal strings the table carries. */
  const PositionLabels: seq<string> := ["1652", "1630", "1679", "1671", "1645"]

  /** One row: structure, position, amplitude cell, width cell. */
  datatype Row = Row(structure: string, position: string, amplitude: string, width: string)

  /** Python's `'{:.4f}'.format(v)`, abstracted. */
  type Fixed = real -> string

  /** `'{:.4f} +/- {:.4f}'.format(value, error)`. */
  function Cell(value: real, error: real, fixed: Fixed): string {
    fixed(value) + " +/- " + fixed(error)
  }

  /** The cells of the loop over `range(len(parameters))` at indices `lo <= i < hi`; each
      reads `error_bars[i]`, so the loop fails when the errors run out first. */
  function Cells(params: seq<real>, errs: seq<real>, lo: nat, hi: nat, fixed: Fixed): (r: Result<seq<string>, Error>)
    requires lo <= hi <= |params|
    ensures r.Ok? <==> hi <= |errs| || lo == hi
    ensures r.Err? ==> r.error == IndexError
    ensures r.Ok? ==> |r.value| == hi - lo
                      && forall k :: 0 <= k < hi - lo ==> r.value[k] == Cell(params[lo + k], errs[lo + k], fixed)
    decreases hi - lo
  {
    if lo == hi then Ok([])
    else if lo >= |errs| then Err(IndexError)
    else
      match Cells(params, errs, lo + 1, hi, fixed)
      case Err(e) => Err(e)
      case Ok(rest) => Ok([Cell(params[lo], errs[lo], fixed)] + rest)
  }

  /** `display_fit_results(parameters, error_bars)`: the loop sorts the first five cells
      into `A` (amplitudes) and the rest into `s` (widths); the table then reads `A[0..4]`
      and `s[0..4]`, so fewer than ten parameters, or fewer errors than parameters, raise
      IndexError. */
  function DisplayFitResults(params: seq<real>, errs: seq<real>, fixed: Fixed): (r: Result<seq<Row>, Error>)
    ensures r.Ok? <==> 10 <= |params| <= |errs|
    ensures r.Err? ==> r.error == IndexError
    ensures r.Ok? ==> |r.value| == 5
                      && forall k :: 0 <= k < 5 ==>
                           r.value[k] == Row(Structures[k], PositionLabels[k],
                                             Cell(params[k], errs[k], fixed),
                                             Cell(params[k + 5], errs[k + 5], fixed))
  {
    var split := if |params| < 5 then |params| else 5;
    match Cells(params, errs, 0, split, fixed)
    case Err(e) => Err(e)
    case Ok(a) =>
      match Cells(params, errs, split, |params|, fixed)
      case Err(e) => Err(e)
      case Ok(s) =>
        if |a| < 5 || |s| < 5 then Err(IndexError)
        else Ok(seq(5, k requires 0 <= k < 5 => Row(Structures[k], PositionLabels[k], a[k], s[k])))
  }

  /** Decimal digits of a natural number, as `str(n)` writes them. */
  function Decimal(n: nat): (r: string)
    ensures |r| >= 1
    decreases n
  {
    if n < 10 then [Digit(n)] else Decimal(n / 10) + [Digit(n % 10)]
  }

  function Digit(d: nat): char
    requires d < 10
  {
    "0123456789"[d]
  }

  /** The table's position column names the centre of the Gaussian whose parameters fill
      that row. */
  lemma PositionsMatchPeaks()
    ensures forall k :: 0 <= k < 5 ==> PositionLabels[k] == Decimal(PeakPositions[k])
  {
  }

  /** The table depends only on the first ten parameters and errors: further entries of
      the error vector are never shown. */
  lemma TableIgnoresExtraErrors(params: seq<real>, errs: seq<real>, more: seq<real>, fixed: Fixed)
    requires DisplayFitResults(params, errs, fixed).Ok?
    ensures DisplayFitResults(params, errs + more, fixed) == DisplayFitResults(params, errs, fixed)
  {
    var r := DisplayFitResults(params, errs, fixed).value;
    var r' := DisplayFitResults(params, errs + more, fixed).value;
    forall k | 0 <= k < 5 ensures r'[k] == r[k] {
      assert (errs + more)[k] == errs[k];
      assert (errs + more)[k + 5] == errs[k + 5];
    }
    assert r' == r;
  }
}
