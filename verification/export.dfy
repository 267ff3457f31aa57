/** Writing a spectrum back out: the text `save_to_file_as_txt` writes, and the row pairing
    of `create_file_to_save`. */
module Export {
  import opened Outcomes
  import opened Text
  import opened Import

  /** Python's `str(v)` for a float, abstracted. */
  type Shower = real -> string

  /** `"{}\t{}\n".format(x, y)` for two already-printed tokens, without its newline. */
  function Record(x: string, y: string): string {
    x + "\t" + y
  }

  /** The concatenation of the lines written by `writelines`, one `x\ty\n` per token pair. */
  function Render(pairs: seq<(string, string)>): (r: string)
    ensures |pairs| == 0 <==> |r| == 0
    ensures |pairs| > 0 ==> r[|r| - 1] == '\n'
    decreases |pairs|
  {
    if |pairs| == 0 then ""
    else Record(pairs[0].0, pairs[0].1) + "\n" + Render(pairs[1..])
  }

  /** The records of the rendered pairs, without their newlines. */
  function Records(pairs: seq<(string, string)>): (r: seq<string>)
    ensures |r| == |pairs|
  {
    seq(|pairs|, i requires 0 <= i < |pairs| => Record(pairs[i].0, pairs[i].1))
  }

  /** The text of `save_to_file_as_txt(filename, datax, datay)`: `zip` pairs the lists up
      to the shorter one, and each value is printed with `str`. */
  function SaveText(xs: seq<real>, ys: seq<real>, show: Shower): (r: string)
    ensures var n := if |xs| < |ys| then |xs| else |ys|;
            && (n == 0 <==> |r| == 0)
            && (n > 0 ==> r == Join(seq(n, i requires 0 <= i < n => show(xs[i]) + "\t" + show(ys[i])), '\n') + "\n")
  {
    var n := if |xs| < |ys| then |xs| else |ys|;
    var pairs := seq(n, i requires 0 <= i < n => (show(xs[i]), show(ys[i])));
    if n > 0 then
      RenderIsJoin(pairs);
      assert Records(pairs) == seq(n, i requires 0 <= i < n => show(xs[i]) + "\t" + show(ys[i]));
      Render(pairs)
    else Render(pairs)
  }

  /** `create_file_to_save(xdata, ydata)`: the rows `[x_i, y_i]` of the stacked and
      transposed arrays; stacking lists of different lengths raises ValueError. */
  function CreateFileToSave(xs: seq<real>, ys: seq<real>): (r: Result<seq<(real, real)>, Error>)
    ensures r.Ok? <==> |xs| == |ys|
    ensures r.Err? ==> r.error == ShapeMismatch
    ensures r.Ok? ==> |r.value| == |xs| && forall i :: 0 <= i < |xs| ==> r.value[i] == (xs[i], ys[i])
  {
    if |xs| != |ys| then Err(ShapeMismatch)
    else Ok(seq(|xs|, i requires 0 <= i < |xs| => (xs[i], ys[i])))
  }

  /** Un-pairing the rows of `create_file_to_save` gives back both input lists. */
  lemma CreateFileToSaveUnzips(xs: seq<real>, ys: seq<real>)
    requires |xs| == |ys|
    ensures var rows := CreateFileToSave(xs, ys).value;
            && seq(|rows|, i requires 0 <= i < |rows| => rows[i].0) == xs
            && seq(|rows|, i requires 0 <= i < |rows| => rows[i].1) == ys
  {
  }

  /** The rendered text is the records joined by newlines, plus a final newline. */
  lemma {:induction false} RenderIsJoin(pairs: seq<(string, string)>)
    requires |pairs| >= 1
    ensures Render(pairs) == Join(Records(pairs), '\n') + "\n"
    decreases |pairs|
  {
    if |pairs| > 1 {
      RenderIsJoin(pairs[1..]);
      assert Records(pairs)[1..] == Records(pairs[1..]);
    }
  }

  /** A token that survives the file format: no tab and no newline in it. */
  predicate Plain(t: string) {
    '\t' !in t && '\n' !in t
  }

  /** Token round trip: splitting the written text into lines, and each line on its tab,
      gives back the token pairs in order. */
  lemma TokensRoundTrip(pairs: seq<(string, string)>)
    requires forall i :: 0 <= i < |pairs| ==> Plain(pairs[i].0) && Plain(pairs[i].1)
    ensures |SplitLines(Render(pairs))| == |pairs|
    ensures forall i :: 0 <= i < |pairs| ==>
              SplitOn(SplitLines(Render(pairs))[i], '\t') == [pairs[i].0, pairs[i].1]
  {
    if |pairs| > 0 {
      var recs := Records(pairs);
      RenderIsJoin(pairs);
      SplitLinesTerminated(recs);
      forall i | 0 <= i < |pairs| ensures SplitOn(recs[i], '\t') == [pairs[i].0, pairs[i].1] {
        SplitOnFirst(pairs[i].0, '\t', pairs[i].1);
        SplitOnFree(pairs[i].1, '\t');
      }
    }
  }

  /** A value whose printed form is a plain token that `float` reads back exactly. */
  predicate Reparses(v: real, show: Shower, parse: Parser) {
    Plain(show(v)) && parse(show(v)) == Some(v)
  }

  /** The lines read back from saved text are the saved records, one per zipped pair. */
  lemma SavedLines(xs: seq<real>, ys: seq<real>, show: Shower)
    requires forall i :: 0 <= i < |xs| ==> Plain(show(xs[i]))
    requires forall i :: 0 <= i < |ys| ==> Plain(show(ys[i]))
    ensures var n := if |xs| < |ys| then |xs| else |ys|;
            SplitLines(SaveText(xs, ys, show)) == seq(n, i requires 0 <= i < n => show(xs[i]) + "\t" + show(ys[i]))
  {
    var n := if |xs| < |ys| then |xs| else |ys|;
    var recs := seq(n, i requires 0 <= i < n => show(xs[i]) + "\t" + show(ys[i]));
    if n > 0 {
      SplitLinesTerminated(recs);
    }
  }

  /** Saving and re-importing: reading the saved text back with `splitlines` and
      `import_data` yields the zipped prefix of both lists, whenever every saved value
      prints to a token that reads back as itself. */
  lemma SaveThenImport(xs: seq<real>, ys: seq<real>, show: Shower, parse: Parser)
    requires forall i :: 0 <= i < |xs| ==> Reparses(xs[i], show, parse)
    requires forall i :: 0 <= i < |ys| ==> Reparses(ys[i], show, parse)
    ensures var n := if |xs| < |ys| then |xs| else |ys|;
            ImportData(SplitLines(SaveText(xs, ys, show)), parse) == Ok(Spectrum(xs[..n], ys[..n]))
  {
    var n := if |xs| < |ys| then |xs| else |ys|;
    var lines := SplitLines(SaveText(xs, ys, show));
    SavedLines(xs, ys, show);
    forall i | 0 <= i < n ensures ParseLine(lines[i], parse) == Ok((xs[i], ys[i])) {
      var a, b := show(xs[i]), show(ys[i]);
      assert lines[i] == Join([a, b] + [], '\t');
      ParseLineFields(a, b, [], parse);
    }
    var r := ImportData(lines, parse);
    assert r.value.xs == xs[..n];
    assert r.value.ys == ys[..n];
  }
}
