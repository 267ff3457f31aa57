/** `subtract_background`: removal of the straight line through the first and last points
    of a region, worked over exact reals. */
module Baseline {
  import opened Outcomes

  /** The straight line `y = grad * x + intercept`. */
  datatype Line = Line(grad: real, intercept: real) {
    function At(x: real): real {
      grad * x + intercept
    }
  }

  /** The background: gradient and intercept as `subtract_background` computes them from
      `(x0, y0)` and `(xN, yN)`. */
  function Background(x0: real, y0: real, xN: real, yN: real): (l: Line)
    requires x0 != xN
    ensures l.At(x0) == y0 && l.At(xN) == yN
  {
    var d := x0 - xN;
    Line((y0 - yN) / d, (yN * x0 - y0 * xN) / d)
  }

  /** Two points with different abscissae determine a single line. */
  lemma LineUnique(l: Line, m: Line, x0: real, xN: real)
    requires x0 != xN
    requires l.At(x0) == m.At(x0) && l.At(xN) == m.At(xN)
    ensures l == m
  {
  }

  /** `subtract_background(datax, datay)`. `datay[0]`, `datay[-1]`, `datax[0]` and
      `datax[-1]` are read first (IndexError on an empty list), the division fails when the
      end wavenumbers coincide (in particular for a single point), and the comprehension
      reads `datay[i]` for every index of `datax`. */
  function SubtractBackground(xs: seq<real>, ys: seq<real>): (r: Result<seq<real>, Error>)
    ensures r.Ok? <==> |xs| >= 2 && |ys| >= |xs| && xs[0] != xs[|xs| - 1]
    ensures |xs| == 0 || |ys| == 0 ==> r == Err(IndexError)
    ensures |xs| >= 1 && |ys| >= 1 && xs[0] == xs[|xs| - 1] ==> r == Err(ZeroDivisionError)
    ensures r.Ok? ==>
              var l := Background(xs[0], ys[0], xs[|xs| - 1], ys[|ys| - 1]);
              && |r.value| == |xs|
              && forall i :: 0 <= i < |xs| ==> r.value[i] + l.At(xs[i]) == ys[i]
  {
    if |ys| == 0 || |xs| == 0 then Err(IndexError)
    else if xs[0] == xs[|xs| - 1] then Err(ZeroDivisionError)
    else if |ys| < |xs| then Err(IndexError)
    else
      var l := Background(xs[0], ys[0], xs[|xs| - 1], ys[|ys| - 1]);
      Ok(seq(|xs|, i requires 0 <= i < |xs| => ys[i] - l.grad * xs[i] - l.intercept))
  }

  /** Over the reals the corrected first and last values are exactly zero, whenever the
      two lists have the same length (`datay[-1]` is then the last point's absorption). */
  lemma EndpointsZero(xs: seq<real>, ys: seq<real>)
    requires |xs| == |ys|
    requires SubtractBackground(xs, ys).Ok?
    ensures var c := SubtractBackground(xs, ys).value;
            c[0] == 0.0 && c[|c| - 1] == 0.0
  {
  }

  /** Points that all lie on one straight line are corrected to zero everywhere: the
      background is that very line. */
  lemma CollinearCorrectsToZero(xs: seq<real>, ys: seq<real>, m: Line)
    requires |xs| == |ys|
    requires SubtractBackground(xs, ys).Ok?
    requires forall i :: 0 <= i < |xs| ==> ys[i] == m.At(xs[i])
    ensures forall i :: 0 <= i < |xs| ==> SubtractBackground(xs, ys).value[i] == 0.0
  {
    var n := |xs| - 1;
    var l := Background(xs[0], ys[0], xs[n], ys[n]);
    LineUnique(l, m, xs[0], xs[n]);
  }

  /** Adding any straight line to the absorptions leaves the corrected spectrum unchanged:
      the correction removes exactly the linear part fixed by the end points. */
  lemma AddedLineRemoved(xs: seq<real>, ys: seq<real>, m: Line)
    requires |xs| == |ys|
    requires SubtractBackground(xs, ys).Ok?
    ensures var ys' := seq(|ys|, i requires 0 <= i < |ys| => ys[i] + m.At(xs[i]));
            SubtractBackground(xs, ys') == SubtractBackground(xs, ys)
  {
    var n := |xs| - 1;
    var ys' := seq(|ys|, i requires 0 <= i < |ys| => ys[i] + m.At(xs[i]));
    var l := Background(xs[0], ys[0], xs[n], ys[n]);
    var l' := Background(xs[0], ys'[0], xs[n], ys'[n]);
    var sum := Line(l.grad + m.grad, l.intercept + m.intercept);
    assert sum.At(xs[0]) == l.At(xs[0]) + m.At(xs[0]);
    assert sum.At(xs[n]) == l.At(xs[n]) + m.At(xs[n]);
    LineUnique(l', sum, xs[0], xs[n]);
    var a := SubtractBackground(xs, ys').value;
    var b := SubtractBackground(xs, ys).value;
    forall i | 0 <= i < |xs| ensures a[i] == b[i] {
      assert a[i] + l'.At(xs[i]) == ys'[i];
      assert b[i] + l.At(xs[i]) == ys[i];
      assert sum.At(xs[i]) == l.At(xs[i]) + m.At(xs[i]);
    }
    assert a == b;
  }
}
