# PySuperfish output parsers, modelled in Dafny

This project models the parsers of PySuperfish (`superfish/parsers.py`). They read the text output of the Poisson/Superfish codes.

- **SFO report.** An SFO report is cut into groups at separator lines. Each group is dispatched on its title line to one of three parsers:
  - the summary of computed cavity quantities;
  - a wall segment with its table of fields;
  - the beam energy.

  The results are filed into one report. The header block becomes a table of variables. The summary's kinetic energy is then replaced by the beam energy in MeV.
- **T7 field maps.** T7 files hold a field map as a short header of axis lines followed by a numeric table. The table is reshaped into one grid per field component.

Every parser is a pure function over the lines of the file. Every Python exception the code can raise on malformed input is an explicit `Err` carrying the exception's kind, so the error paths are part of the model:
- an index past the end;
- a number that does not convert;
- a failed tuple unpacking;
- a failed `assert`;
- a local read before assignment;
- a missing dict key.

Python's string operations are modelled exactly, with whitespace as `str.isspace`:
- `strip()`;
- `split()`;
- `split(sep)`, which keeps empty pieces;
- `startswith`;
- `join`.

Which strings `int()` and `float()` accept is a parameter (`Numbers.Conversions`), applied to the stripped token as Python does. Floats are `real`.

Modules follow the structure of the source:

| module | file | models |
|---|---|---|
| `Results` | results.dfy | exceptions as `Result`, list indexing, unpacking, slicing, list comprehensions |
| `PyStr` | pystr.dfy | Python's `strip`, `split`, `split(sep)`, `join`, `startswith` |
| `Numbers` | numbers.dfy | `int()`, `float()`, `int(float)` truncation, the int-else-float fallback |
| `Segmenter` | segmenter.dfy | `parse_sfo_into_groups` |
| `Header` | header.dfy | `parse_header_variable`, `parse_header_lines` |
| `Wall` | wall.dfy | `parse_wall_segment_line1`, `parse_sfo_segment` |
| `Summary` | summary.dfy | `parse_sfo_summary_group`, `parse_sfo_summary_group_line`, `parse_simple_summary_line` |
| `Beam` | beam.dfy | `parse_sfo_beam_energy` |
| `Dispatch` | dispatch.dfy | `process_group` |
| `Report` | report.dfy | `parse_sfo` |
| `T7` | t7.dfy | `parse_fish_t7`, `parse_poisson_t7` |
| `WallExamples`, `SummaryExamples` | wall_examples.dfy, summary_examples.dfy | lines quoted in the source, read by the model |

Most loops have two definitions: the loop as written, and an independent declarative reading. For example, "parse every line before the first empty one, fail with the first failure, merge in order". A lemma proves the two equal for all inputs. The properties are then proved about the declarative reading:
- the last definition wins;
- untouched keys keep their values;
- round trips from a rendered form back to the data;
- where every number in a table ends up.

## Model

| member | source | states |
|---|---|---|
| Results.Index | superfish/parsers.py:427-429 | `xs[i]` succeeds exactly when `i` is in range, giving that element; otherwise it raises IndexError |
| Results.Unpack2 | superfish/parsers.py:337 | `a, b = xs` succeeds exactly when there are two pieces; otherwise it is an unpacking error |
| Results.Drop | superfish/parsers.py:278-282 | `xs[n:]` is the suffix from `n`, and empty past the end |
| Results.MapAllOk | superfish/parsers.py:399 | a list comprehension over a conversion succeeds exactly when every element converts |
| Results.MapAllEach | superfish/parsers.py:399 | each element of a successful comprehension is the image of the element in the same place |
| Results.MapAllFirstError | superfish/parsers.py:399 | a failing comprehension raises the error of the first element that fails |
| Results.MapAllError | superfish/parsers.py:399 | when every failure of the conversion is the same exception, so is the comprehension's |
| PyStr.StripBy | superfish/parsers.py:373 | `strip(chars)` leaves no stripped character at either end; it gives the empty string exactly when all characters are stripped; an already trimmed string is unchanged |
| PyStr.TrimmedUnchanged | superfish/parsers.py:77 | stripping a string that is already trimmed changes nothing |
| PyStr.FindFrom | superfish/parsers.py:337 | the search finds the leftmost occurrence at or after the start, and reports none only when there is none |
| PyStr.SplitJoin | superfish/parsers.py:453 | joining the pieces of `s.split(sep)` with `sep` gives `s` back |
| PyStr.SplitPieces | superfish/parsers.py:453 | no piece of `s.split(sep)` contains `sep` |
| PyStr.SplitWs | superfish/parsers.py:270 | every token of `s.split()` is a non-empty run without whitespace |
| PyStr.SplitWsJoin | superfish/parsers.py:270 | `split()` undoes joining words with single spaces |
| PyStr.SplitWsWord | superfish/parsers.py:270 | a word followed by whitespace or nothing is the first token |
| PyStr.StripPadded | superfish/parsers.py:425 | stripping removes exactly the whitespace padding around a trimmed core |
| Numbers.ToInt | superfish/parsers.py:341 | `int(s)` succeeds exactly when the stripped token is an integer literal; otherwise it raises ValueError |
| Numbers.ToFloat | superfish/parsers.py:428 | `float(s)` succeeds exactly when the stripped token is a float literal; otherwise it raises ValueError |
| Numbers.Trunc | superfish/parsers.py:338 | `int(x)` on a float truncates toward zero: the result is within one of `x`, on the side of zero |
| Numbers.IntElseFloat | superfish/parsers.py:286-289 | `int` when the token is an integer; otherwise `float`; fails only when both fail |
| Segmenter.AppendLine | superfish/parsers.py:97 | a regular line goes to the end of the open group's body and nothing else changes |
| Segmenter.Step | superfish/parsers.py:76-97 | an empty line changes nothing; a separator only marks a label as pending; any other line clears the pending mark; the first group stays first |
| Segmenter.Segment | superfish/parsers.py:66-99 | the groups start with one named `header`, and every stored label and line is stripped, non-empty and not a separator |
| Segmenter.SegmentFromOk | superfish/parsers.py:76-97 | the loop only ever stores storable labels and lines |
| Segmenter.SegmentFromBodies | superfish/parsers.py:76-97 | the loop stores in group bodies exactly the stripped non-empty lines that are neither separators nor labels, in file order |
| Segmenter.SegmentFromLabels | superfish/parsers.py:83-94 | the loop opens groups labelled exactly by the first non-separator lines after separators, in file order |
| Segmenter.SegmentContents | superfish/parsers.py:51-99 | over a whole report, every body line lands in exactly one group in file order; the labels after `header` are the lines following separators |
| Segmenter.OpenSteps | superfish/parsers.py:84-94 | a separator followed by a label opens a new empty group with that label |
| Segmenter.SegmentRender | superfish/parsers.py:51-99 | segmenting the rendering of well-formed groups (header body, then separator, label and body for each group) gives the groups back |
| Segmenter.SegmentIdempotent | superfish/parsers.py:51-99 | rendering the groups of a report and segmenting again gives the same groups |
| Segmenter.SegmentNoEmptyLine | superfish/parsers.py:79-81 | no stored body line is empty |
| Header.ParseHeaderVariable | superfish/parsers.py:260-291 | fewer than two tokens raise IndexError; the key is the first token; the Automesh flag holds exactly when the second token is `A` |
| Header.ParseTokens | superfish/parsers.py:272-291 | the same, on the tokens of the line |
| Header.VariableRoundTrip | superfish/parsers.py:260-291 | a variable line written as key, optional mark, value and description words reads back as that key, value, mark and the words joined by single spaces |
| Header.Record | superfish/parsers.py:319-321 | recording a variable keeps the three dictionaries describing the same keys |
| Header.ScanHeader | superfish/parsers.py:308-321 | the loop keeps the three dictionaries consistent |
| Header.ParseHeaderLines | superfish/parsers.py:294-323 | a parsed header's value, description and Automesh dictionaries have the same keys |
| Header.TitleAt | superfish/parsers.py:309-312 | the first title line is found, and reported absent only when there is none |
| Header.ScanTable | superfish/parsers.py:309-321 | after the title, title lines are skipped and every other line is one variable, recorded in order; the first failure fails the header |
| Header.ScanComments | superfish/parsers.py:309-315 | before the title every line is a comment; the loop switches to variables after the first title line |
| Header.HeaderReference | superfish/parsers.py:294-323 | the loop equals the declarative reading: the comments are the lines before the first title, joined by newlines; the variables are the later non-title lines |
| Header.NoTitleAllComments | superfish/parsers.py:306-323 | without a title line every line is a comment and no variable is read |
| Header.CollectKeys | superfish/parsers.py:319-321 | the recorded keys are the earlier keys plus the keys of the variables read |
| Header.CollectUntouched | superfish/parsers.py:319-321 | a key no variable names keeps its value, description and flag |
| Header.CollectLast | superfish/parsers.py:319-321 | a key takes its value, description and flag from the last variable naming it |
| Header.HeaderLastWins | superfish/parsers.py:309-321 | in a parsed header, a variable named on several lines takes everything from the last of them |
| Wall.ParseWallTitle | superfish/parsers.py:332-344 | no `segment` in the title raises IndexError; a split at ` K,L =` that does not give two pieces is an unpacking error; otherwise the text after the first `segment` is read as the rest of the title |
| Wall.ParseTitleRest | superfish/parsers.py:337-344 | the text after `segment` must split at ` K,L =` into two pieces; once the segment number reads, the end points must split at `to` into two pieces, and each end point at its comma into two pieces; any other count is an unpacking error |
| Wall.TitleRoundTrip | superfish/parsers.py:332-344 | a title assembled from number tokens free of the separators reads back as those numbers |
| Wall.AfterSegment | superfish/parsers.py:337 | the split at `segment` happens at the first occurrence after a prefix that cannot hold it |
| Wall.Dedup | superfish/parsers.py:373 | the keys of the dict built from the names are distinct, and are exactly the names; names that are already distinct keep their order |
| Wall.StripBars | superfish/parsers.py:373 | every column name is its token with surrounding `\|` removed |
| Wall.NewTable | superfish/parsers.py:373 | a header line starts a table with one empty column per name |
| Wall.Zip | superfish/parsers.py:388 | `dict(zip(fields, unit_labels))` maps each column to the unit in its place |
| Wall.AppendRow | superfish/parsers.py:403-404 | a data row appends its value to each column, in column order, and adds one row |
| Wall.WallStep | superfish/parsers.py:361-404 | one loop iteration keeps the table well formed |
| Wall.WallRun | superfish/parsers.py:361-404 | the loop keeps the table well formed |
| Wall.Start | superfish/parsers.py:355-359 | the loop starts with no fields, no units and outside the data |
| Wall.ParseSfoSegment | superfish/parsers.py:347-410 | a parsed segment has one column per name and columns of equal length; no lines at all raise IndexError |
| Wall.InfoLine | superfish/parsers.py:366-369 | a `key = value` line records the raw value under the stripped key and changes nothing else; a second `=` is an unpacking error |
| Wall.HeaderLine | superfish/parsers.py:371-378 | a column header starts an empty table named by its tokens after the skipped columns, with `\|` removed, in their order when they are distinct; it skips 2 columns exactly for `K    L` |
| Wall.UnitsMismatch | superfish/parsers.py:384-386 | a units line with a different count of units than columns fails the assertion |
| Wall.UnitsLine | superfish/parsers.py:384-389 | a units line with one unit per column records each column with the unit in its place, starts the data rows, and changes nothing else |
| Wall.DataRow | superfish/parsers.py:398-404 | a data row appends to every column: the values after the skipped ones when the row holds exactly that many extra values, otherwise the leading values |
| Wall.SummaryLine | superfish/parsers.py:393-394 | a `Summary` line ends the data rows and leaves the table unchanged |
| Wall.StoppedStep | superfish/parsers.py:380-404 | once the data rows ended, one more line never adds a row |
| Wall.StoppedStaysStopped | superfish/parsers.py:380-404 | once the data rows ended, no later line adds a row |
| Wall.NoHeaderNoFields | superfish/parsers.py:371-381 | without a column header the fields stay unset |
| Wall.NoHeaderFails | superfish/parsers.py:406-408 | a segment without a column header fails; once its title and its lines read, the failure is the AttributeError of converting the unset fields |
| Summary.Merge | superfish/parsers.py:445-446 | `update` adds the new keys, overwrites the shared ones, keeps the others, and keeps values and units paired |
| Summary.PrefixesExclusive | superfish/parsers.py:470-607 | no line starts with two of the recognised prefixes, so the order of the tests does not matter |
| Summary.KindOfPrefix | superfish/parsers.py:467-629 | a line is of a recognised kind exactly when it starts with that kind's prefix, and simple exactly when it starts with none |
| Summary.ReadNormalization | superfish/parsers.py:470-477 | the normalization line defines exactly `Enorm` |
| Summary.ReadEndpoint | superfish/parsers.py:479-509 | an integration end-point line defines exactly its z and r keys, both in cm |
| Summary.ReadPair | superfish/parsers.py:510-572 | the `Beta`, `Q`, `Rs*Q` and `r/Q` lines define exactly their two keys with their fixed units; a line without `=` raises IndexError |
| Summary.PairFields | superfish/parsers.py:526-540 | a line `p = x1 = x2` gives the first word of each field as the two values |
| Summary.ReadAverage | superfish/parsers.py:574-584 | the average-field line defines exactly `AvgH`, in A/m |
| Summary.ReadMaximum | superfish/parsers.py:586-626 | a maximum-field line defines exactly its z, r and value keys, with z and r in cm |
| Summary.ReadSimple | superfish/parsers.py:449-465 | a line without `=` defines nothing; otherwise at most the stripped text before the first `=`, with a unit |
| Summary.SimpleNoEquals | superfish/parsers.py:453-455 | an unrecognised line without `=` contributes nothing |
| Summary.SimpleWithUnit | superfish/parsers.py:449-464 | `key = ... = value unit`, with any number of `=`: the stripped text before the first `=` names the first word after the last `=`, with the next word as its unit |
| Summary.SimpleWithoutUnit | superfish/parsers.py:449-464 | `key = ... = value` alone, with any number of `=`, gives that value with an empty unit |
| Summary.NormalizationFormat | superfish/parsers.py:470-477 | a normalization line `... = value unit` reads as `Enorm`, the value after the last `=`, with the word after it as unit |
| Summary.EndpointFormat | superfish/parsers.py:479-509 | an end-point line `... = z u1, r u2` reads its z and r keys as the value before the comma and the first value after it, both in cm whatever units it prints |
| Summary.AverageFormat | superfish/parsers.py:574-584 | an average-field line `... = value unit, rest` reads as `AvgH`, the leading value after the last `=`, in A/m |
| Summary.MaximumFormat | superfish/parsers.py:586-626 | a maximum-field line `... (at Z,R = z,r) = value unit, rest` reads its z and r keys from the position between the first two `=`, in cm, and its value key as the leading value after the last `=`, in the line's fixed unit |
| Summary.ParseSummaryLine | superfish/parsers.py:467-629 | a recognised line defines exactly the keys of its kind; every value has a unit |
| Summary.SummaryFrom | superfish/parsers.py:440-446 | the loop keeps every value paired with a unit |
| Summary.ParseSummaryGroup | superfish/parsers.py:435-447 | a parsed summary pairs every value with a unit |
| Summary.BeforeBlank | superfish/parsers.py:440-442 | the lines read are the prefix before the first empty line, all of them when none is empty |
| Summary.SummaryReference | superfish/parsers.py:438-447 | the loop equals parsing every line before the first empty one, failing with the first failure, and merging in order |
| Summary.MergeUntouched | superfish/parsers.py:445-446 | a name no later line defines keeps its value and unit |
| Summary.MergeLastWins | superfish/parsers.py:445-446 | a name takes its value and unit from the last dict that defines it |
| Summary.SummaryLastWins | superfish/parsers.py:435-447 | in a parsed summary, a name's value and unit are those of the last line read that defines it |
| Summary.BreakUnreachable | superfish/parsers.py:441-442 | on groups from the segmenter, the stop at an empty line never fires |
| Beam.BeamFrom | superfish/parsers.py:421-429 | once a `V0` line was read, a result stays set |
| Beam.ParseBeamEnergy | superfish/parsers.py:418-432 | a parsed beam energy defines exactly `BeamEnergy` |
| Beam.BeamReference | superfish/parsers.py:421-429 | the loop equals reading every stripped `V0` line, failing with the first failure, and keeping the last |
| Beam.NoV0Unbound | superfish/parsers.py:430-431 | without a `V0` line the result variables are unbound |
| Beam.BeamLastWins | superfish/parsers.py:418-432 | when every `V0` line reads, the energy and unit are those of the last one |
| Beam.BeamFirstError | superfish/parsers.py:421-429 | a failing `V0` line fails the group with its error unless an earlier one failed |
| Beam.V0Format | superfish/parsers.py:422-429 | a line `V0 ... = energy unit` is a `V0` line and reads as that energy and unit |
| Beam.ReadValueUnit | superfish/parsers.py:425-429 | a `V0` field reads exactly when its first space-separated piece is a float and a second piece exists; it gives that float and the second piece as unit; failures are a ValueError or an IndexError |
| Beam.ValueAndUnit | superfish/parsers.py:425-426 | a padded `value unit` field splits on spaces into the value and the unit |
| Dispatch.ProcessGroup | superfish/parsers.py:102-132 | a group no parser claims passes through with its title and lines; anything else comes only from a claimed title |
| Dispatch.TitlesExclusive | superfish/parsers.py:112-120 | no title starts with two of the recognised title texts |
| Dispatch.ProcessRouting | superfish/parsers.py:112-122 | each title text selects its parser; the wall parser reads the title line followed by the body |
| Dispatch.ProcessedKind | superfish/parsers.py:112-130 | a group is a summary, a wall segment or a beam energy exactly when its title claims it; otherwise it is passed through unchanged |
| Dispatch.WallTypeName | superfish/parsers.py:113-129 | a group is filed under `wall_segment` when it is a wall segment, or a raw group titled that word |
| Dispatch.HeaderPassesThrough | superfish/parsers.py:124-130 | the leading `header` group passes through unchanged |
| Report.File | superfish/parsers.py:29-39 | filing a group fails only for a `header` group whose lines do not parse as a header |
| Report.FileAll | superfish/parsers.py:27-39 | filing the groups in turn keeps every earlier wall segment, in order, as a prefix, and never drops a filed header |
| Report.FileStep | superfish/parsers.py:29-39 | filing one group changes only the place its type name selects |
| Report.FileAllReference | superfish/parsers.py:27-39 | a successful run processes every group; its output is the filing of the processed groups in order |
| Report.FileAllSucceeds | superfish/parsers.py:27-39 | the run succeeds when every group processes and every `header` group parses |
| Report.Kinetic | superfish/parsers.py:41-44 | with both a summary and a beam energy filed, the update succeeds exactly when both are parsed groups and the beam energy is present, and then the summary's kinetic energy becomes the beam energy over 1e6 in MeV and nothing else changes; every failure is a KeyError; without both the report is unchanged |
| Report.HeaderFirst | superfish/parsers.py:35-36 | a run whose first group is `header` files a header block |
| Report.ReportReference | superfish/parsers.py:10-46 | a parsed report's contents: wall segments in order, the last beam energy, the last group of every other name, the last summary with the kinetic update exactly when both were filed |
| Report.ParseSfo | superfish/parsers.py:10-46 | every parsed report holds a header block |
| T7.ParseAxis | superfish/parsers.py:174 | an axis line reads exactly when it has three tokens, the first two floats and the third an integer; it gives that extent, with the point count one more than the interval count; no tokens raise IndexError; every failure is a ValueError or an IndexError |
| T7.AxisRoundTrip | superfish/parsers.py:168-176 | an axis written as three words reads back as its extent and point count |
| T7.DataRowsAppend | superfish/parsers.py:182 | reading one more line after the header: a blank line adds no row, any other line adds its tokens as the last row, so the table rows are the non-blank lines in file order |
| T7.FlattenAt | superfish/parsers.py:182-184 | the value at row `i` and column `j` of a table `w` wide is at `i * w + j` of the flat array |
| T7.FlattenLength | superfish/parsers.py:182-184 | a rectangular table flattens to rows times width values |
| T7.LoadRowsValueError | superfish/parsers.py:182 | every failure to load the table is a ValueError |
| T7.LoadTxt | superfish/parsers.py:182 | every failure to load the table is a ValueError |
| T7.LoadTxtTable | superfish/parsers.py:182 | once every number converts, the table loads exactly when every row is as wide as the first, and then holds the rows in row-major order |
| T7.Reshape | superfish/parsers.py:184 | the shape holds exactly the size; given dimensions are kept; a size they do not match, or two inferred dimensions, is a ValueError |
| T7.Component | superfish/parsers.py:188 | component `k` of the reshaped array is a grid of the first two dimensions |
| T7.Transpose | superfish/parsers.py:244 | `.T` swaps rows and columns |
| T7.CellOf | superfish/parsers.py:184 | value `m` of an array shaped `(d0, d1, c)` sits at component `m % c` of row and column `(m / c) / d1`, `(m / c) % d1` |
| T7.ComponentsAt | superfish/parsers.py:187-188 | with distinct labels, label `k` holds component `k` |
| T7.ComponentsKeys | superfish/parsers.py:187-188 | the grids are keyed by the labels and nothing else |
| T7.GridsAt | superfish/parsers.py:184-188 | with both dimensions given, grid `labels[k]` has `a` rows of `b` values, and its point `(i, j)` is value `k` of table row `i * b + j`; transposed, its point `(j, i)` is |
| T7.GridsCover | superfish/parsers.py:184-188 | every value of the table lands in the grid of its component, at the point of its row in the reshaped shape |
| T7.Grids | superfish/parsers.py:184-188 | the grids are keyed by exactly the labels; every failure of the reshape is a ValueError |
| T7.FishFromLayout | superfish/parsers.py:182-188 | grid `labels[k]` of a Fish file holds at radius `i` and axial `j` column `k` of table row `i * nz + j` |
| T7.ParseFishT7 | superfish/parsers.py:139-191 | a parsed Fish file has as z axis the reading of line 1, as frequency the float of line 2 and as r axis the reading of line 3, and holds exactly the grids `Ez`, `Er`, `E` and `Hphi`; every failure is a ValueError or an IndexError |
| T7.FishLayout | superfish/parsers.py:167-191 | in a parsed Fish file, grid `labels[k]` holds at radius `i` and axial `j` column `k` of row `i * nz + j` of the table after the three header lines |
| T7.FishSizeMismatch | superfish/parsers.py:184 | a table whose size is not `nr * nz * 4` is a ValueError |
| T7.FishFrequencyFirst | superfish/parsers.py:168-170 | a frequency line that is not a number fails the file before either axis is converted |
| T7.PoissonLabels | superfish/parsers.py:221-224 | each known field type has two labels |
| T7.PoissonFromLayout | superfish/parsers.py:239-244 | grid `labels[k]` of a Poisson file holds at radius `j` and axial `i` column `k` of table row `i * nr + j` |
| T7.ParsePoissonT7 | superfish/parsers.py:193-247 | a parsed Poisson file has a known field type, as r axis the reading of line 1 and as z axis the reading of line 2, and holds exactly that type's grids; every failure is a ValueError, an IndexError, a failed assertion or an unbound local |
| T7.PoissonLayout | superfish/parsers.py:229-247 | in a parsed Poisson file, grid `labels[k]` holds at radius `j` and axial `i` column `k` of row `i * nr + j` of the table after the two header lines |
| T7.PoissonErrors | superfish/parsers.py:219-240 | the geometry is asserted before anything is read; an unknown field type fails as an unbound local only after the axes and table are read |
| T7.PoissonSizeMismatch | superfish/parsers.py:239-241 | for a known field type, a table whose size is not `nz * nr * 2` is a ValueError |
| WallExamples.TitleExample | superfish/parsers.py:332-344 | a wall title for segment 3 from K,L = 1,2 to 5,6 reads as those numbers |
| SummaryExamples.QExample | superfish/parsers.py:525-540 | the quality-factor line quoted in the source reads as its Q and shunt impedance with their units |

## Left out

- `parse_automesh`, and opening and reading files: every parser takes the file's lines. Trailing newlines are not modelled; every reader strips or splits them away.
- The `verbose` flag of `parse_sfo` and `process_group`: it only prints.
- Which strings Python's `int()` and `float()` accept, and IEEE rounding: conversions are the parameter `Numbers.Conversions`, and floats are `real`. This includes the division by 1e6 in the kinetic-energy update.
- `np.array` conversion of the wall columns: a column is a sequence of reals.
- The `print` passed as the message of the units assertion: it only prints.
- `np.loadtxt` is modelled for whitespace-separated numeric rows. Blank lines are skipped. Its comment character (`#`), its other options, and its handling of a table with a single row or column are left out; they do not change the flat row-major values the reshape sees.
- `T7.Reshape`: a negative dimension is treated as the one numpy infers, as numpy's `reshape` does for `-1`. Versions of numpy that reject other negative values are not distinguished.
- The other output keys of the T7 readers (`zmin`, `zmax`, `rmin`, …): they are the fields of the `Axis` values, stored in a record instead of one dict.
- `OverflowError` of `int(float)` on an infinite value: infinities are not among the reals.
- ReadNormalization: its contract gives the key `Enorm` for every line; the value and unit read are stated by NormalizationFormat, for lines of the printed shape (single-space separated words, padded by whitespace).
- ReadEndpoint: its contract gives the two keys, both in cm, for every line; the values read are stated by EndpointFormat, for lines of the printed shape.
- ReadAverage: its contract gives the key `AvgH` in A/m for every line; the value read is stated by AverageFormat, for lines of the printed shape.
- ReadMaximum: its contract gives the three keys and their units for every line; the values read are stated by MaximumFormat, for lines of the printed shape.
- ReadSimple: its contract gives the key; the value and unit are stated by SimpleWithUnit and SimpleWithoutUnit for lines whose value field has the printed shape.
- The other files of the repository (`superfish.py`, `plot.py`, `interpolate.py`, `writers.py`) are not part of this model.
