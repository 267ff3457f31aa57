# FTIR Amide I pipeline — Dafny model

This project models the data-transformation core of a desktop tool for FTIR absorption
spectra of proteins (`main.py`). A spectrum is read from two-column `x\ty` text
(`import_data`). The Amide I band, 1600 < x < 1700 cm⁻¹, is cut out
(`extract_amid1_band`). The straight line through the region's first and last points is
subtracted (`subtract_background`). The ten fit parameters and their errors are laid out
as a fixed five-row table (`display_fit_results`). The corrected region is written back as
`x\ty\n` lines (`save_to_file_as_txt`), and two lists can be paired into rows
(`create_file_to_save`).

Modules, one per stage:

- `Outcomes`: `Option`, `Result` and the Python exceptions the helpers raise
  (`NotANumber` for `float`'s ValueError, `IndexError`, `ZeroDivisionError`, and
  `ShapeMismatch` for numpy's stacking ValueError).
- `Text`: `str.split('\t')` (`SplitOn`) and `str.splitlines()` (`SplitLines`). `Join` is a proof helper: it lays pieces out with a separator between them, which is the file layout, and it is the inverse of `SplitOn`.
- `Import`: `import_data`.
- `Band`: `extract_amid1_band`.
- `Baseline`: `subtract_background`, over exact reals.
- `Table`: `display_fit_results`.
- `Export`: the text `save_to_file_as_txt` builds, and `create_file_to_save`.
- `Pipeline`: the stages chained as the event loop chains them, and a worked example of three points inside the band.

Python's lists `datax`/`datay` are kept as two sequences (`Spectrum`). Python never forces
them to the same length, so every index error that unequal lengths can cause is modelled
as an error result rather than excluded by a precondition. `float(token)` is the parameter
`parse: string -> Option<real>`, where `None` stands for ValueError. `str(v)` is the
parameter `show`, and `'{:.4f}'` is the parameter `fixed`.

## Model

| member | source | states |
|---|---|---|
| Text.SplitOn | main.py:63 | `line.split('\t')` yields at least one field, and no field contains a tab |
| Text.SplitJoin | main.py:63 | splitting separator-free pieces joined by the separator gives the pieces back |
| Text.JoinSplit | main.py:63 | joining the fields of a split with the separator rebuilds the line exactly |
| Text.SplitLines | main.py:341 | `splitlines()` yields lines free of '\n', and no lines exactly for empty text; joining the lines with '\n' rebuilds the text minus at most one final '\n' |
| Text.SplitLinesTerminated | main.py:341 | newline-free lines, each written with a trailing '\n', are split back into the same lines |
| Import.ParseToken | main.py:63 | `float(token)` succeeds exactly when the token parses, and otherwise raises ValueError naming that token |
| Import.ParseLineNeedsTab | main.py:62-64 | a line with no tab is never imported: ValueError if the whole line is not a number, otherwise IndexError for the missing second field |
| Import.ParseLine | main.py:63-64 | a line that imports contains a tab; a failing line raises IndexError, or ValueError for a tab-free field that does not parse |
| Import.LeadingFields | main.py:63-64 | splitting `a\tb[\t...]` on tabs gives at least two fields, the first `a` and the second `b` |
| Import.ParseLineFields | main.py:62-64 | a line `a\tb[\t...]` raises ValueError for `a` if it does not parse, else ValueError for `b` if that does not parse, else yields the parsed pair, whatever extra fields follow |
| Import.ImportData | main.py:56-65 | the import succeeds iff every line parses; then there is one point per line, and point i comes from line i; otherwise it fails at the first bad line with that line's error and returns no partial data |
| Band.BandIndices | main.py:93-94 | the kept indices are strictly increasing, each is in band, and every in-band index is among them |
| Band.ExtractPrefixCorrect | main.py:93-96 | after the first n iterations, the lists built so far are the in-band points of the first n indices, each x paired with the y of its own index |
| Band.ExtractAmideI | main.py:89-97 | the extraction fails (IndexError) iff an in-band index lies past the end of `datay`; otherwise the output is exactly the in-band points in their original order, with x and y at the same input index |
| Band.ExtractedInBand | main.py:94 | every returned wavenumber satisfies 1600 < x < 1700 strictly |
| Band.ExtractKeepsBandPoint | main.py:93-96 | no in-band input point is dropped: each one appears in the output with its own absorption |
| Band.BandIndicesAll | main.py:93-94 | when every wavenumber is in band, every index is kept |
| Band.ExtractIdempotent | main.py:89-97 | extracting the band from an already extracted band changes nothing |
| Baseline.Background | main.py:103-105 | the gradient and intercept describe a line through both the first and the last point |
| Baseline.LineUnique | main.py:101-102 | two lines that agree at two distinct wavenumbers are the same line, so the background is the only line through the end points |
| Baseline.SubtractBackground | main.py:100-107 | the subtraction succeeds iff there are at least two wavenumbers, `datay` is at least as long, and the end wavenumbers differ; an empty list raises IndexError, and equal end wavenumbers (a single point included) raise ZeroDivisionError; on success, each output value plus the background at its x gives back the input absorption |
| Baseline.EndpointsZero | main.py:101-106 | for paired lists, the corrected first and last values are exactly zero |
| Baseline.CollinearCorrectsToZero | main.py:101-106 | if all points lie on one straight line, every corrected value is zero |
| Baseline.AddedLineRemoved | main.py:101-106 | adding any straight line to the absorptions leaves the corrected spectrum unchanged |
| Table.Cells | main.py:142-146 | the loop's cells fail with IndexError iff the errors run out inside the range; otherwise cell k formats parameter k with error k |
| Table.DisplayFitResults | main.py:139-150 | the table exists iff there are at least ten parameters and at least as many errors as parameters; it has exactly five rows in the fixed order α-Helix 1652, β-Sheet 1630, β-Sheet 1679, Loop 1671, Disordered 1645, and row k shows amplitude k and width k+5, each with its own error |
| Table.PositionsMatchPeaks | main.py:147-149 | the position column is the decimal form of the Gaussian centre (1652, 1630, 1679, 1671, 1645) of each row's component |
| Table.TableIgnoresExtraErrors | main.py:142-149 | errors beyond those the table reads do not change the table |
| Export.Render | main.py:153-155 | the written text is empty iff there are no points, and otherwise ends with a newline |
| Export.RenderIsJoin | main.py:153 | the written text is the `x\ty` records joined by newlines, plus a final newline |
| Export.TokensRoundTrip | main.py:153 | splitting the written text into lines, and each line on its tab, recovers the token pairs in order, when no token holds a tab or newline |
| Export.SaveText | main.py:152-153 | the written text is empty iff the shorter list is empty; otherwise it is the `str(x)\tstr(y)` records of the zipped pairs joined by newlines, plus a final newline |
| Export.SavedLines | main.py:152-153 | reading the saved text back with `splitlines` gives one `str(x)\tstr(y)` record per zipped pair, in order, when no printed value holds a tab or newline |
| Export.SaveThenImport | main.py:152-155 | re-importing the saved text yields the zipped prefix of both lists, when every value prints to a tab- and newline-free token that `float` reads back as itself |
| Export.CreateFileToSave | main.py:157-159 | the pairing succeeds iff the lists have equal length (otherwise ShapeMismatch); row i is `(x_i, y_i)` |
| Export.CreateFileToSaveUnzips | main.py:157-159 | taking the first and second column of the rows gives back both lists |
| Pipeline.ExtractThenSubtract | main.py:358-372 | after extraction, the background step fails only for fewer than two points or equal end wavenumbers, and otherwise zeroes both ends |
| Pipeline.SavedRegionReloads | main.py:410-413 | saving the band's wavenumbers with their corrected absorptions and loading the file again gives back exactly those two lists, when each saved value prints to a token that reads back as itself |
| Pipeline.SavedPairsReload | main.py:152-155 | two lists of equal length, saved and loaded again, come back whole, when each value prints to a tab- and newline-free token that `float` reads back as itself |
| Pipeline.ExampleExtract | main.py:89-97 | the points 1645, 1652 and 1660 are all kept |
| Pipeline.ExampleSubtract | main.py:100-107 | for (1645, 0.3), (1652, 0.5), (1660, 0.2): gradient -1/150, intercept 169/15, corrected values 0, 37/150, 0 |

## Left out

- `fit_gauss5` (main.py:110-136): the five-Gaussian least-squares fit is a call into scipy's `curve_fit` with `exp` and a square root of the covariance diagonal. It is floating-point numerics in a foreign solver, so only its fixed centres appear (as `Table.PeakPositions`).
- Float parsing and printing: `float(...)`, `str(float)` and `'{:.4f}'` are uninterpreted parameters. The round-trip lemmas assume, for each saved value only, that its printed form holds no tab or newline and reads back as itself. For Python this holds for finite floats under shortest-repr printing.
- Non-finite floats: `float` also accepts 'nan' and 'inf', which no real stands for. So the model cannot express a nan wavenumber, which main.py:94 drops because both comparisons are False. It also cannot express a nan absorption carried forward, or the failure of `float(str(nan)) == nan`.
- Floating-point arithmetic: the baseline is worked over exact reals. In IEEE doubles the corrected end values are only close to zero, not exactly zero.
- Text.SplitLines: only '\n' is treated as a line boundary. Python's `splitlines` also breaks at '\r', "\r\n", '\x0b', '\x0c', '\x1c'–'\x1e', '\x85', U+2028 and U+2029.
- File I/O: `open`/`writelines` (main.py:154-155), the UTF-8 read at main.py:340-341, `os.listdir` (main.py:322) and write failures are outside the model. Only the text written and the lines read are modelled.
- GUI and plotting: `name`, `popup_text`, `draw_figure`, `make_plot`, `delete_figure_agg`, the window layout, the event loop's blanket `except: pass`, and the display-only `[1:-310]` slice at main.py:347.
- Import.ImportData: the failure also records the index of the failing line. Python raises the bare exception, so this is added information; the exception kind itself is the same.
- `import_data` splits each line on '\t' only (main.py:63-64), so a space-separated line fails to import. The model does the same.
- The source does not require exactly ten parameters and ten errors for the table. Extra parameters are accepted as long as there are at least as many errors. The model follows the code.
- The source's failure for fewer than two region points is an IndexError for an empty region and a ZeroDivisionError for a single point. It is not a distinct error kind, and the model follows the code.
