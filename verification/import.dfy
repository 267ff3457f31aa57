/** Reading a spectrum: `import_data` turns lines of the form `x\ty` into the parallel
    lists of wavenumbers and absorptions. */
module Import {
  import opened Outcomes
  import opened Text

  /** The two parallel lists the pipeline passes between stages (Python's `datax`,
      `datay`); nothing forces them to the same length. */
  datatype Spectrum = Spectrum(xs: seq<real>, ys: seq<real>)

  /** Python's `float(token)`, abstracted: `None` where it raises ValueError. */
  type Parser = string -> Option<real>

  /** `float(token)` with the exception it raises. */
  function ParseToken(token: string, parse: Parser): (r: Result<real, Error>)
    ensures r.Ok? <==> parse(token).Some?
    ensures r.Ok? ==> r.value == parse(token).value
    ensures r.Err? ==> r.error == NotANumber(token)
  {
    match parse(token)
    case Some(v) => Ok(v)
    case None => Err(NotANumber(token))
  }

  /** One loop iteration of `import_data`: field 0 is converted first, then field 1 is
      looked up (IndexError when the line has no tab) and converted. */
  function ParseLine(line: string, parse: Parser): (r: Result<(real, real), Error>)
    ensures r.Ok? ==> '\t' in line
    ensures r.Err? ==> r.error == IndexError
                       || (r.error.NotANumber? && '\t' !in r.error.token && parse(r.error.token).None?)
  {
    var fields := SplitOn(line, '\t');
    assert '\t' !in line ==> fields == [line] by {
      if '\t' !in line { SplitOnFree(line, '\t'); }
    }
    match ParseToken(fields[0], parse)
    case Err(e) => Err(e)
    case Ok(x) =>
      if |fields| < 2 then Err(IndexError)
      else
        match ParseToken(fields[1], parse)
        case Err(e) => Err(e)
        case Ok(y) => Ok((x, y))
  }

  /** `import_data(text)`: one point per line, in order; the first line that cannot be
      read aborts the whole import, with no partial result. */
  function ImportData(lines: seq<string>, parse: Parser): (r: Result<Spectrum, LineFailure>)
    ensures r.Ok? <==> forall i :: 0 <= i < |lines| ==> ParseLine(lines[i], parse).Ok?
    ensures r.Ok? ==> |r.value.xs| == |lines| && |r.value.ys| == |lines|
    ensures r.Ok? ==> forall i :: 0 <= i < |lines| ==>
                        ParseLine(lines[i], parse) == Ok((r.value.xs[i], r.value.ys[i]))
    ensures r.Err? ==> r.error.line < |lines|
                       && ParseLine(lines[r.error.line], parse) == Err(r.error.cause)
                       && forall i :: 0 <= i < r.error.line ==> ParseLine(lines[i], parse).Ok?
    decreases |lines|
  {
    if |lines| == 0 then Ok(Spectrum([], []))
    else
      var n := |lines| - 1;
      match ImportData(lines[..n], parse)
      case Err(f) => Err(f)
      case Ok(sp) =>
        match ParseLine(lines[n], parse)
        case Err(e) => Err(LineFailure(n, e))
        case Ok(p) => Ok(Spectrum(sp.xs + [p.0], sp.ys + [p.1]))
  }

  /** A line without a tab can never be imported: `float` fails on the whole line, or
      else the missing second field raises IndexError. */
  lemma ParseLineNeedsTab(line: string, parse: Parser)
    requires '\t' !in line
    ensures ParseLine(line, parse) == if parse(line).None? then Err(NotANumber(line)) else Err(IndexError)
  {
    SplitOnFree(line, '\t');
  }

  /** The first two fields of `a\tb[\t...]` are `a` and `b`. */
  lemma {:induction false} LeadingFields(a: string, b: string, extra: seq<string>)
    requires '\t' !in a && '\t' !in b
    ensures var fields := SplitOn(Join([a, b] + extra, '\t'), '\t');
            |fields| >= 2 && fields[0] == a && fields[1] == b
  {
    var tail := [b] + extra;
    assert ([a, b] + extra)[1..] == tail;
    assert Join([a, b] + extra, '\t') == a + ['\t'] + Join(tail, '\t');
    SplitOnFirst(a, '\t', Join(tail, '\t'));
    if |extra| == 0 {
      SplitOnFree(b, '\t');
    } else {
      assert tail[1..] == extra;
      SplitOnFirst(b, '\t', Join(extra, '\t'));
    }
  }

  /** A line `a\tb[\t...]` yields the pair parsed from its first two fields, or the
      ValueError of the first of them that does not parse; whatever follows a further tab
      is ignored. */
  lemma ParseLineFields(a: string, b: string, extra: seq<string>, parse: Parser)
    requires '\t' !in a && '\t' !in b
    ensures ParseLine(Join([a, b] + extra, '\t'), parse)
            == if parse(a).None? then Err(NotANumber(a))
               else if parse(b).None? then Err(NotANumber(b))
               else Ok((parse(a).value, parse(b).value))
  {
    LeadingFields(a, b, extra);
  }
}
