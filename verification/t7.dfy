/** The T7 field-map readers (`parse_fish_t7`, `parse_poisson_t7`).

    A T7 file starts with a short header, one axis per line as
    `min max intervals` (a Fish file puts the frequency in MHz between the
    two axis lines), followed by a table with one row per grid point and
    one column per field component. The table is reshaped into a grid and
    split into one two-dimensional array per component.

    The file is given as its lines. Python's `readline` past the end of the
    file returns an empty line; `np.loadtxt` is modelled on the lines after
    the header: blank lines are skipped, every token is converted with
    `float`, and a row with a different number of values than the first is
    a ValueError. A grid is a sequence of rows.
 */
module T7 {

  import opened Results
  import opened PyStr
  import opened Numbers

  const FISH_LABELS := ["Ez", "Er", "E", "Hphi"]
  const ELECTRIC_LABELS := ["Er", "Ez"]
  const MAGNETIC_LABELS := ["Br", "Bz"]
  const ELECTRIC := "electric"
  const MAGNETIC := "magnetic"
  const CYLINDRICAL := "cylindrical"

  /** One header line: the extent of an axis and its number of grid points
      (the file holds the number of intervals, one less). */
  datatype Axis = Axis(min: real, max: real, n: int)

  type Grid = seq<seq<real>>

  datatype FishT7 = FishT7(z: Axis, freq: real, r: Axis, fields: map<string, Grid>)
  datatype PoissonT7 = PoissonT7(r: Axis, z: Axis, fields: map<string, Grid>)

  /** `f.readline()` for the `i`-th line: empty past the end of the file. */
  function Line(lines: seq<string>, i: nat): string
  {
    if i < |lines| then lines[i] else ""
  }

  // ---------------------------------------------------------------------
  // Header.

  /** `float(t[0]), float(t[1]), int(t[2]) + 1`, evaluated left to right. */
  function ParseAxis(num: Conversions, tokens: seq<string>): (r: Result<Axis>)
    ensures r.Ok? <==> |tokens| >= 3 && ToFloat(num, tokens[0]).Ok? && ToFloat(num, tokens[1]).Ok? && ToInt(num, tokens[2]).Ok?
    ensures r.Ok? ==> (ToFloat(num, tokens[0]) == Ok(r.value.min) && ToFloat(num, tokens[1]) == Ok(r.value.max) &&
                       ToInt(num, tokens[2]) == Ok(r.value.n - 1))
    ensures tokens == [] ==> r == Err(IndexError)
    ensures r.Err? ==> r.error == ValueError || r.error == IndexError
  {
    var t0 :- Index(tokens, 0);
    var lo :- ToFloat(num, t0);
    var t1 :- Index(tokens, 1);
    var hi :- ToFloat(num, t1);
    var t2 :- Index(tokens, 2);
    var intervals :- ToInt(num, t2);
    Ok(Axis(lo, hi, intervals + 1))
  }

  /** Writing an axis line as three words and reading it back gives the
      extent and the number of points. */
  lemma AxisRoundTrip(num: Conversions, line: string, ws: seq<string>, a: Axis)
    requires line == Join(" ", ws) && |ws| == 3
    requires forall i :: 0 <= i < |ws| ==> IsWord(ws[i])
    requires ToFloat(num, ws[0]) == Ok(a.min) && ToFloat(num, ws[1]) == Ok(a.max) && ToInt(num, ws[2]) == Ok(a.n - 1)
    ensures ParseAxis(num, SplitWs(line)) == Ok(a)
  {
    SplitWsJoin(ws);
  }

  // ---------------------------------------------------------------------
  // The table.

  /** The whitespace-separated tokens of each non-blank line. */
  function DataRows(lines: seq<string>): (r: seq<seq<string>>)
    ensures forall i :: 0 <= i < |r| ==> r[i] != []
    decreases |lines|
  {
    if lines == [] then [] else RowOf(lines[0]) + DataRows(lines[1..])
  }

  /** The row a line contributes: none when it is blank. */
  function RowOf(line: string): (r: seq<seq<string>>)
    ensures forall i :: 0 <= i < |r| ==> r[i] != []
  {
    var tokens := SplitWs(line);
    if tokens == [] then [] else [tokens]
  }

  /** Reading one more line: a blank line adds no row, any other line adds
      its tokens as the last row. */
  lemma DataRowsAppend(lines: seq<string>, l: string)
    ensures SplitWs(l) == [] ==> DataRows(lines + [l]) == DataRows(lines)
    ensures SplitWs(l) != [] ==> DataRows(lines + [l]) == DataRows(lines) + [SplitWs(l)]
  {
    DataRowsSnoc(lines, l);
  }

  lemma {:induction false} DataRowsSnoc(lines: seq<string>, l: string)
    ensures DataRows(lines + [l]) == DataRows(lines) + RowOf(l)
    decreases |lines|
  {
    if lines == [] {
      assert [l][1..] == [];
    } else {
      assert (lines + [l])[0] == lines[0];
      assert (lines + [l])[1..] == lines[1..] + [l];
      DataRowsSnoc(lines[1..], l);
    }
  }

  function RowReader(num: Conversions): seq<string> -> Result<seq<real>>
  {
    tokens => MapAll((t: string) => ToFloat(num, t), tokens)
  }

  /** Every row holds `w` values. */
  predicate Rectangular(rows: seq<seq<real>>, w: nat)
  {
    forall i :: 0 <= i < |rows| ==> |rows[i]| == w
  }

  /** The rows one after the other. */
  function Flatten(rows: seq<seq<real>>): seq<real>
    decreases |rows|
  {
    if rows == [] then [] else rows[0] + Flatten(rows[1..])
  }

  /** `np.loadtxt` on the lines after the header, as a flat row-major array. */
  function LoadTxt(num: Conversions, lines: seq<string>): (r: Result<seq<real>>)
    ensures r.Err? ==> r.error == ValueError
  {
    var r := LoadRows(num, DataRows(lines));
    if r.Err? then LoadRowsValueError(num, DataRows(lines)); r else r
  }

  /** The conversion and shape check of `np.loadtxt` on the token rows. */
  function LoadRows(num: Conversions, tokenRows: seq<seq<string>>): (r: Result<seq<real>>)
  {
    var rows :- MapAll(RowReader(num), tokenRows);
    if rows != [] && !Rectangular(rows, |rows[0]|) then Err(ValueError)
    else Ok(Flatten(rows))
  }

  /** The value in row `i` and column `j` of a table `w` wide sits at
      `i * w + j` of the flat array. */
  lemma {:induction false} FlattenAt(rows: seq<seq<real>>, w: nat, i: nat, j: nat)
    requires Rectangular(rows, w) && i < |rows| && j < w
    ensures i * w + j < |Flatten(rows)| && Flatten(rows)[i * w + j] == rows[i][j]
    decreases i
  {
    assert |rows[0]| == w;
    if i > 0 {
      var tail := rows[1..];
      assert Rectangular(tail, w) by {
        assert forall x :: 0 <= x < |tail| ==> tail[x] == rows[x + 1];
      }
      FlattenAt(tail, w, i - 1, j);
      MulPred(i, w);
      assert tail[i - 1] == rows[i];
    }
  }

  lemma MulPred(i: nat, w: nat)
    requires i > 0
    ensures i * w == w + (i - 1) * w
  {
  }

  lemma {:induction false} FlattenLength(rows: seq<seq<real>>, w: nat)
    requires Rectangular(rows, w)
    ensures |Flatten(rows)| == |rows| * w
    decreases |rows|
  {
    if rows != [] {
      var tail := rows[1..];
      assert Rectangular(tail, w) by {
        assert forall x :: 0 <= x < |tail| ==> tail[x] == rows[x + 1];
      }
      FlattenLength(tail, w);
      MulPred(|rows|, w);
    }
  }

  /** `flat` holds the `rows`, `w` values each, row after row: the value
      in row `i` and column `j` sits at `i * w + j`. */
  predicate RowMajor(flat: seq<real>, rows: seq<seq<real>>, w: nat)
  {
    |flat| == |rows| * w &&
    forall i, j :: 0 <= i < |rows| && 0 <= j < |rows[i]| ==> i * w + j < |flat| && flat[i * w + j] == rows[i][j]
  }

  lemma FlattenRowMajor(rows: seq<seq<real>>, w: nat)
    requires Rectangular(rows, w)
    ensures RowMajor(Flatten(rows), rows, w)
  {
    FlattenLength(rows, w);
    forall i, j | 0 <= i < |rows| && 0 <= j < |rows[i]|
      ensures i * w + j < |Flatten(rows)| && Flatten(rows)[i * w + j] == rows[i][j]
    {
      FlattenAt(rows, w, i, j);
    }
  }

  /** Once every number of the table converts, the table loads exactly
      when every row has as many values as the first, and then holds the
      rows in row-major order. */
  lemma LoadTxtTable(num: Conversions, lines: seq<string>, rows: seq<seq<real>>, w: nat)
    requires MapAll(RowReader(num), DataRows(lines)) == Ok(rows)
    requires rows != [] && w == |rows[0]|
    ensures LoadTxt(num, lines).Ok? <==> Rectangular(rows, w)
    ensures LoadTxt(num, lines).Ok? ==> RowMajor(LoadTxt(num, lines).value, rows, w)
  {
    if Rectangular(rows, w) {
      FlattenRowMajor(rows, w);
    }
  }

  /** Every way loading the table fails is a ValueError: a token that is not
      a number, or a row of the wrong width. */
  lemma LoadRowsValueError(num: Conversions, tokenRows: seq<seq<string>>)
    requires LoadRows(num, tokenRows).Err?
    ensures LoadRows(num, tokenRows).error == ValueError
  {
    forall i | 0 <= i < |tokenRows| && RowReader(num)(tokenRows[i]).Err?
      ensures RowReader(num)(tokenRows[i]).error == ValueError
    {
      MapAllError((t: string) => ToFloat(num, t), tokenRows[i], ValueError);
    }
    MapAllError(RowReader(num), tokenRows, ValueError);
  }

  // ---------------------------------------------------------------------
  // Reshaping.

  /** numpy's `reshape(a, b, c)` of an array of `size` values, `c > 0`
      known: the first two dimensions of the result. A negative dimension
      is the one numpy infers from the size; two of them, or a size the
      known dimensions do not divide, are a ValueError. */
  function Reshape(size: nat, a: int, b: int, c: nat): (r: Result<(nat, nat)>)
    requires c > 0
    ensures r.Ok? ==> r.value.0 * r.value.1 * c == size
    ensures a >= 0 && b >= 0 ==> (r.Ok? <==> a * b * c == size)
    ensures a >= 0 && b >= 0 && r.Ok? ==> r.value == (a, b)
    ensures a < 0 && b < 0 ==> r.Err?
    ensures r.Err? ==> r.error == ValueError
  {
    if a < 0 && b < 0 then Err(ValueError)
    else if a < 0 then
      if b == 0 || size % (b * c) != 0 then Err(ValueError)
      else Inferred(size, b * c); Ok((size / (b * c), b))
    else if b < 0 then
      if a == 0 || size % (a * c) != 0 then Err(ValueError)
      else Inferred(size, a * c); Ok((a, size / (a * c)))
    else if a * b * c == size then Ok((a, b))
    else Err(ValueError)
  }

  lemma Inferred(size: nat, known: nat)
    requires known > 0 && size % known == 0
    ensures (size / known) * known == size
  {
  }

  // ---------------------------------------------------------------------
  // Splitting the grid into components.

  lemma CellBound(d0: nat, d1: nat, c: nat, i: nat, j: nat, k: nat)
    requires i < d0 && j < d1 && k < c
    ensures (i * d1 + j) * c + k < d0 * d1 * c
  {
    assert i * d1 + j < d0 * d1 by {
      assert i * d1 + j < i * d1 + d1 == (i + 1) * d1;
      assert (i + 1) * d1 <= d0 * d1 by { MulMono(i + 1, d0, d1); }
    }
    assert (i * d1 + j) * c + k < (i * d1 + j) * c + c == (i * d1 + j + 1) * c;
    MulMono(i * d1 + j + 1, d0 * d1, c);
  }

  lemma MulMono(x: nat, y: nat, m: nat)
    requires x <= y
    ensures x * m <= y * m
  {
  }

  /** `dat[:, :, k]` of the array reshaped to `(d0, d1, c)`. */
  function Component(flat: seq<real>, d0: nat, d1: nat, c: nat, k: nat): (g: Grid)
    requires |flat| == d0 * d1 * c && k < c
    ensures |g| == d0 && forall i :: 0 <= i < d0 ==> |g[i]| == d1
  {
    seq(d0, i requires 0 <= i < d0 =>
      seq(d1, j requires 0 <= j < d1 => CellBound(d0, d1, c, i, j, k); flat[(i * d1 + j) * c + k]))
  }

  /** The transpose `.T` of a grid whose rows hold `cols` values. */
  function Transpose(g: Grid, cols: nat): (t: Grid)
    requires forall i :: 0 <= i < |g| ==> |g[i]| == cols
    ensures |t| == cols && forall j :: 0 <= j < cols ==> |t[j]| == |g|
    ensures forall j, i :: 0 <= j < cols && 0 <= i < |g| ==> t[j][i] == g[i][j]
  {
    seq(cols, j requires 0 <= j < cols => seq(|g|, i requires 0 <= i < |g| => g[i][j]))
  }

  /** Value `m` of an array shaped `(d0, d1, c)` is component `m % c` of
      grid point `m / c`, which sits at row `(m / c) / d1` and column
      `(m / c) % d1`. */
  lemma CellOf(d0: nat, d1: nat, c: nat, m: nat)
    requires c > 0 && m < d0 * d1 * c
    ensures var p := m / c;
      d1 > 0 && p / d1 < d0 && p % d1 < d1 && m == (p / d1 * d1 + p % d1) * c + m % c
  {
    var p := m / c;
    var k := m % c;
    assert m == p * c + k;
    assert p < d0 * d1 by {
      if p >= d0 * d1 {
        MulMono(d0 * d1, p, c);
      }
    }
    assert d1 > 0;
    var i := p / d1;
    var j := p % d1;
    assert p == i * d1 + j;
    assert i < d0 by {
      if i >= d0 {
        MulMono(d0, i, d1);
      }
    }
  }

  lemma KnownLabels()
    ensures Distinct(FISH_LABELS) && Distinct(ELECTRIC_LABELS) && Distinct(MAGNETIC_LABELS)
  {
  }

  /** Component `k`, transposed (`.T`) when `transpose` holds. */
  function Field(flat: seq<real>, d0: nat, d1: nat, c: nat, k: nat, transpose: bool): Grid
    requires |flat| == d0 * d1 * c && k < c
  {
    var g := Component(flat, d0, d1, c, k);
    if transpose then Transpose(g, d1) else g
  }

  /** `d[label] = ...` for every label in order, the `k`-th label getting
      component `k`; a repeated label keeps its last component. */
  function Components(labels: seq<string>, flat: seq<real>, d0: nat, d1: nat, c: nat, transpose: bool): map<string, Grid>
    requires |labels| <= c && |flat| == d0 * d1 * c
    decreases |labels|
  {
    if labels == [] then map[]
    else
      var k := |labels| - 1;
      Components(labels[..k], flat, d0, d1, c, transpose)[labels[k] := Field(flat, d0, d1, c, k, transpose)]
  }

  /** With distinct labels, label `k` holds component `k`. */
  lemma {:induction false} ComponentsAt(labels: seq<string>, flat: seq<real>, d0: nat, d1: nat, c: nat, transpose: bool, k: nat)
    requires |labels| <= c && |flat| == d0 * d1 * c && k < |labels| && Distinct(labels)
    ensures labels[k] in Components(labels, flat, d0, d1, c, transpose)
    ensures Components(labels, flat, d0, d1, c, transpose)[labels[k]] == Field(flat, d0, d1, c, k, transpose)
    decreases |labels|
  {
    var n := |labels| - 1;
    if k < n {
      var init := labels[..n];
      assert Distinct(init) by {
        assert forall x :: 0 <= x < n ==> init[x] == labels[x];
      }
      assert labels[k] != labels[n];
      assert init[k] == labels[k];
      ComponentsAt(init, flat, d0, d1, c, transpose, k);
    }
  }

  /** The grids are keyed by exactly the labels. */
  ghost predicate KeyedBy(fields: map<string, Grid>, labels: seq<string>)
  {
    forall name :: name in fields <==> name in labels
  }

  /** `dat.reshape(a, b, len(labels))` split into one grid per label. */
  function Grids(flat: seq<real>, a: int, b: int, labels: seq<string>, transpose: bool): (r: Result<map<string, Grid>>)
    requires |labels| > 0
    ensures r.Ok? ==> KeyedBy(r.value, labels)
    ensures r.Err? ==> r.error == ValueError
  {
    var dims :- Reshape(|flat|, a, b, |labels|);
    ComponentsKeys(labels, flat, dims.0, dims.1, |labels|, transpose);
    Ok(Components(labels, flat, dims.0, dims.1, |labels|, transpose))
  }

  // ---------------------------------------------------------------------
  // The two readers.

  /** The three header lines of a Fish file: the z axis, the frequency and
      the r axis. The frequency line is converted as soon as it is read,
      before either axis line. */
  function FishHeader(num: Conversions, lines: seq<string>): (r: Result<(Axis, real, Axis)>)
    ensures r.Err? ==> r.error == ValueError || r.error == IndexError
    ensures r.Ok? ==> ParseAxis(num, SplitWs(Line(lines, 0))) == Ok(r.value.0) &&
                      ToFloat(num, Line(lines, 1)) == Ok(r.value.1) &&
                      ParseAxis(num, SplitWs(Line(lines, 2))) == Ok(r.value.2)
  {
    var line1 := SplitWs(Line(lines, 0));
    var freq :- ToFloat(num, Line(lines, 1));
    var line3 := SplitWs(Line(lines, 2));
    var z :- ParseAxis(num, line1);
    var r :- ParseAxis(num, line3);
    Ok((z, freq, r))
  }

  /** `parse_fish_t7`: the header, then the table reshaped to `(nr, nz, 4)`. */
  function ParseFishT7(num: Conversions, lines: seq<string>): (r: Result<FishT7>)
    ensures r.Ok? ==> KeyedBy(r.value.fields, FISH_LABELS)
    ensures r.Ok? ==> ParseAxis(num, SplitWs(Line(lines, 0))) == Ok(r.value.z) &&
                      ToFloat(num, Line(lines, 1)) == Ok(r.value.freq) &&
                      ParseAxis(num, SplitWs(Line(lines, 2))) == Ok(r.value.r)
    ensures r.Err? ==> r.error == ValueError || r.error == IndexError
  {
    var header :- FishHeader(num, lines);
    var flat :- LoadTxt(num, Drop(lines, 3));
    FishFrom(header, flat)
  }

  /** The grids of a Fish file from its header and its loaded table. */
  function FishFrom(header: (Axis, real, Axis), flat: seq<real>): (r: Result<FishT7>)
    ensures r.Err? ==> r.error == ValueError
    ensures r.Ok? ==> r.value.z == header.0 && r.value.freq == header.1 && r.value.r == header.2
    ensures r.Ok? ==> KeyedBy(r.value.fields, FISH_LABELS)
  {
    var grids :- Grids(flat, header.2.n, header.0.n, FISH_LABELS, false);
    Ok(FishT7(header.0, header.1, header.2, grids))
  }

  /** The labels of a Poisson field type, unbound for any other type. */
  function PoissonLabels(kind: string): (r: Option<seq<string>>)
    ensures r.Some? ==> |r.value| == 2
  {
    if kind == ELECTRIC then Some(ELECTRIC_LABELS)
    else if kind == MAGNETIC then Some(MAGNETIC_LABELS)
    else None
  }

  /** `parse_poisson_t7`: the r axis, the z axis, then the table reshaped to
      `(nz, nr, 2)` and each component transposed. Only the cylindrical
      geometry is handled; an unknown field type leaves the labels unbound,
      which shows only once the table is loaded. */
  function ParsePoissonT7(num: Conversions, lines: seq<string>, kind: string, geometry: string): (r: Result<PoissonT7>)
    ensures r.Ok? ==> PoissonLabels(kind).Some? && KeyedBy(r.value.fields, PoissonLabels(kind).value)
    ensures r.Ok? ==> ParseAxis(num, SplitWs(Line(lines, 0))) == Ok(r.value.r) &&
                      ParseAxis(num, SplitWs(Line(lines, 1))) == Ok(r.value.z)
    ensures r.Err? ==> r.error == ValueError || r.error == IndexError || r.error == AssertionError || r.error == UnboundLocalError
  {
    if geometry != CYLINDRICAL then Err(AssertionError)
    else
      var labels := PoissonLabels(kind);
      var axes :- PoissonAxes(num, lines);
      var flat :- LoadTxt(num, Drop(lines, 2));
      PoissonFrom(axes.0, axes.1, labels, flat)
  }

  /** The two header lines of a Poisson file: the r axis, then the z axis. */
  function PoissonAxes(num: Conversions, lines: seq<string>): (r: Result<(Axis, Axis)>)
    ensures r.Err? ==> r.error == ValueError || r.error == IndexError
    ensures r.Ok? ==> ParseAxis(num, SplitWs(Line(lines, 0))) == Ok(r.value.0) &&
                      ParseAxis(num, SplitWs(Line(lines, 1))) == Ok(r.value.1)
  {
    var r :- ParseAxis(num, SplitWs(Line(lines, 0)));
    var z :- ParseAxis(num, SplitWs(Line(lines, 1)));
    Ok((r, z))
  }

  /** The grids of a Poisson file from its axes, its labels (if bound) and
      its loaded table. */
  function PoissonFrom(r: Axis, z: Axis, labels: Option<seq<string>>, flat: seq<real>): (p: Result<PoissonT7>)
    requires labels.Some? ==> |labels.value| > 0
    ensures p.Ok? ==> labels.Some? && KeyedBy(p.value.fields, labels.value)
    ensures p.Err? ==> p.error == ValueError || p.error == UnboundLocalError
    ensures p.Ok? ==> p.value.r == r && p.value.z == z
  {
    if labels.None? then Err(UnboundLocalError)
    else
      var grids :- Grids(flat, z.n, r.n, labels.value, true);
      Ok(PoissonT7(r, z, grids))
  }

  // ---------------------------------------------------------------------
  // Where every loaded value ends up.

  /** Point `(i, j)` of component `k` is value `k` of row `i * d1 + j`;
      transposed, point `(j, i)` is. */
  lemma FieldAt(flat: seq<real>, d0: nat, d1: nat, c: nat, k: nat, transpose: bool, i: nat, j: nat)
    requires |flat| == d0 * d1 * c && k < c && i < d0 && j < d1
    ensures (i * d1 + j) * c + k < |flat|
    ensures var f := Field(flat, d0, d1, c, k, transpose);
      if transpose then |f| == d1 && |f[j]| == d0 && f[j][i] == flat[(i * d1 + j) * c + k]
      else |f| == d0 && |f[i]| == d1 && f[i][j] == flat[(i * d1 + j) * c + k]
  {
    CellBound(d0, d1, c, i, j, k);
  }

  /** A successful split holds one grid per label, laid out as the reshape
      settled. */
  lemma GridsValue(flat: seq<real>, a: int, b: int, labels: seq<string>, transpose: bool, g: map<string, Grid>, d: (nat, nat))
    requires |labels| > 0
    requires Reshape(|flat|, a, b, |labels|) == Ok(d)
    requires Grids(flat, a, b, labels, transpose) == Ok(g)
    ensures |flat| == d.0 * d.1 * |labels| && g == Components(labels, flat, d.0, d.1, |labels|, transpose)
  {
  }

  /** Grid `f` is `rows` by `cols` and holds `v` at point `(i, j)`; with
      `transpose` it is `cols` by `rows` and holds `v` at point `(j, i)`. */
  predicate HoldsAt(f: Grid, transpose: bool, rows: nat, cols: nat, i: nat, j: nat, v: real)
  {
    i < rows && j < cols &&
    if transpose then |f| == cols && |f[j]| == rows && f[j][i] == v
    else |f| == rows && |f[i]| == cols && f[i][j] == v
  }

  /** Grid `f` holds, at its point for row `i` and column `j` of a
      `rows` by `cols` shape, value `k` of table row `i * cols + j` of a table
      `c` wide. */
  predicate CellAt(f: Grid, flat: seq<real>, transpose: bool, rows: nat, cols: nat, c: nat, k: nat, i: nat, j: nat)
  {
    (i * cols + j) * c + k < |flat| && HoldsAt(f, transpose, rows, cols, i, j, flat[(i * cols + j) * c + k])
  }

  /** With both dimensions given, grid `labels[k]` has `a` rows of `b`
      values, and its point `(i, j)` is value `k` of row `i * b + j` of the
      table; transposed, its point `(j, i)` is. */
  lemma GridsAt(flat: seq<real>, a: int, b: int, labels: seq<string>, transpose: bool, g: map<string, Grid>, k: nat, i: nat, j: nat)
    requires |labels| > 0 && Distinct(labels)
    requires Grids(flat, a, b, labels, transpose) == Ok(g)
    requires 0 <= a && 0 <= b && k < |labels| && i < a && j < b
    ensures |flat| == a * b * |labels| && labels[k] in g
    ensures CellAt(g[labels[k]], flat, transpose, a, b, |labels|, k, i, j)
  {
    var c := |labels|;
    var d := (a as nat, b as nat);
    assert Reshape(|flat|, a, b, c) == Ok(d);
    GridsValue(flat, a, b, labels, transpose, g, d);
    ComponentsAt(labels, flat, d.0, d.1, c, transpose, k);
    FieldAt(flat, d.0, d.1, c, k, transpose, i, j);
  }

  /** Every value of the table lands in a grid: value `m` is component
      `m % c` of grid point `m / c`, which is row `i` and column `j` of the
      grid shape the reshape settled on (column `i` of row `j` once
      transposed). */
  lemma GridsCover(flat: seq<real>, a: int, b: int, labels: seq<string>, transpose: bool, g: map<string, Grid>, d: (nat, nat), m: nat, i: nat, j: nat)
    requires |labels| > 0 && Distinct(labels)
    requires Reshape(|flat|, a, b, |labels|) == Ok(d)
    requires Grids(flat, a, b, labels, transpose) == Ok(g) && m < |flat|
    requires i == m / |labels| / d.1 && j == m / |labels| % d.1
    ensures i < d.0 && j < d.1 && labels[m % |labels|] in g
    ensures HoldsAt(g[labels[m % |labels|]], transpose, d.0, d.1, i, j, flat[m])
  {
    var c := |labels|;
    GridsValue(flat, a, b, labels, transpose, g, d);
    CellOf(d.0, d.1, c, m);
    ComponentsAt(labels, flat, d.0, d.1, c, transpose, m % c);
    FieldAt(flat, d.0, d.1, c, m % c, transpose, i, j);
  }

  /** The grids are keyed by the labels and nothing else. */
  lemma {:induction false} ComponentsKeys(labels: seq<string>, flat: seq<real>, d0: nat, d1: nat, c: nat, transpose: bool)
    requires |labels| <= c && |flat| == d0 * d1 * c
    ensures forall name :: name in Components(labels, flat, d0, d1, c, transpose) <==> name in labels
    decreases |labels|
  {
    if labels != [] {
      var n := |labels| - 1;
      ComponentsKeys(labels[..n], flat, d0, d1, c, transpose);
      assert labels == labels[..n] + [labels[n]];
    }
  }

  // ---------------------------------------------------------------------
  // The readers end to end.

  /** Grid `FISH_LABELS[k]` of a Fish file holds, at radius index `i` and
      axial index `j`, column `k` of table row `i * nz + j`. */
  lemma FishFromLayout(h: (Axis, real, Axis), flat: seq<real>, t: FishT7, k: nat, i: nat, j: nat)
    requires FishFrom(h, flat) == Ok(t) && t.r == h.2 && t.z == h.0
    requires k < 4 && i < t.r.n && j < t.z.n
    ensures (i * t.z.n + j) * 4 + k < |flat| && FISH_LABELS[k] in t.fields
    ensures |t.fields[FISH_LABELS[k]]| == t.r.n && |t.fields[FISH_LABELS[k]][i]| == t.z.n
    ensures t.fields[FISH_LABELS[k]][i][j] == flat[(i * t.z.n + j) * 4 + k]
  {
    KnownLabels();
    GridsAt(flat, t.r.n, t.z.n, FISH_LABELS, false, t.fields, k, i, j);
  }

  /** A table whose size is not `nr * nz * 4` cannot be reshaped. */
  lemma FishSizeMismatch(num: Conversions, lines: seq<string>, h: (Axis, real, Axis), flat: seq<real>)
    requires FishHeader(num, lines) == Ok(h) && LoadTxt(num, Drop(lines, 3)) == Ok(flat)
    requires h.2.n >= 0 && h.0.n >= 0 && |flat| != h.2.n * h.0.n * 4
    ensures ParseFishT7(num, lines) == Err(ValueError)
  {
    assert FishFrom(h, flat) == Err(ValueError);
  }

  /** A table whose size is not `nz * nr * 2` cannot be reshaped, for either
      known field type. */
  lemma PoissonSizeMismatch(num: Conversions, lines: seq<string>, kind: string, axes: (Axis, Axis), flat: seq<real>)
    requires kind == ELECTRIC || kind == MAGNETIC
    requires PoissonAxes(num, lines) == Ok(axes) && LoadTxt(num, Drop(lines, 2)) == Ok(flat)
    requires axes.0.n >= 0 && axes.1.n >= 0 && |flat| != axes.1.n * axes.0.n * 2
    ensures ParsePoissonT7(num, lines, kind, CYLINDRICAL) == Err(ValueError)
  {
    PoissonReads(num, lines, kind, axes, flat);
    PoissonFromMismatch(axes.0, axes.1, PoissonLabels(kind), flat);
  }

  lemma PoissonReads(num: Conversions, lines: seq<string>, kind: string, axes: (Axis, Axis), flat: seq<real>)
    requires PoissonAxes(num, lines) == Ok(axes) && LoadTxt(num, Drop(lines, 2)) == Ok(flat)
    ensures ParsePoissonT7(num, lines, kind, CYLINDRICAL) == PoissonFrom(axes.0, axes.1, PoissonLabels(kind), flat)
  {
  }

  lemma PoissonFromMismatch(r: Axis, z: Axis, labels: Option<seq<string>>, flat: seq<real>)
    requires labels.Some? && |labels.value| == 2
    requires r.n >= 0 && z.n >= 0 && |flat| != z.n * r.n * 2
    ensures PoissonFrom(r, z, labels, flat) == Err(ValueError)
  {
    assert Reshape(|flat|, z.n, r.n, |labels.value|).Err?;
  }

  /** In a parsed Fish file, grid `labels[k]` holds at radius index `i`
      and axial index `j` column `k` of row `i * nz + j` of the table after
      the three header lines. */
  lemma FishLayout(num: Conversions, lines: seq<string>, t: FishT7, k: nat, i: nat, j: nat)
    requires ParseFishT7(num, lines) == Ok(t) && k < 4 && i < t.r.n && j < t.z.n
    ensures LoadTxt(num, Drop(lines, 3)).Ok? && FISH_LABELS[k] in t.fields
    ensures CellAt(t.fields[FISH_LABELS[k]], LoadTxt(num, Drop(lines, 3)).value, false, t.r.n, t.z.n, 4, k, i, j)
  {
    var flat := FishParsed(num, lines, t);
    KnownLabels();
    GridsAt(flat, t.r.n, t.z.n, FISH_LABELS, false, t.fields, k, i, j);
  }

  lemma FishParsed(num: Conversions, lines: seq<string>, t: FishT7) returns (flat: seq<real>)
    requires ParseFishT7(num, lines) == Ok(t)
    ensures LoadTxt(num, Drop(lines, 3)) == Ok(flat)
    ensures Grids(flat, t.r.n, t.z.n, FISH_LABELS, false) == Ok(t.fields)
  {
    var h := FishHeader(num, lines).value;
    flat := LoadTxt(num, Drop(lines, 3)).value;
    assert FishFrom(h, flat) == Ok(t);
    var grids := Grids(flat, h.2.n, h.0.n, FISH_LABELS, false).value;
    assert t == FishT7(h.0, h.1, h.2, grids);
  }

  /** The frequency is read before either axis: a frequency line that is
      not a number fails the file with a ValueError whatever the axis lines
      hold. Past the end of the file that line is empty. */
  lemma FishFrequencyFirst(num: Conversions, lines: seq<string>)
    requires ToFloat(num, Line(lines, 1)).Err?
    ensures ParseFishT7(num, lines) == Err(ValueError)
  {
  }

  /** Grid `labels[k]` of a Poisson file holds, at radius index `j` and
      axial index `i`, column `k` of table row `i * nr + j`: the table runs
      over r fastest, and the transpose puts r first. */
  lemma PoissonFromLayout(r: Axis, z: Axis, labels: Option<seq<string>>, flat: seq<real>, t: PoissonT7, k: nat, i: nat, j: nat)
    requires labels.Some? ==> |labels.value| == 2 && Distinct(labels.value)
    requires PoissonFrom(r, z, labels, flat) == Ok(t) && t.r == r && t.z == z
    requires k < 2 && i < z.n && j < r.n
    ensures labels.Some? && (i * r.n + j) * 2 + k < |flat|
    ensures var name := labels.value[k];
      name in t.fields && |t.fields[name]| == r.n && |t.fields[name][j]| == z.n &&
      t.fields[name][j][i] == flat[(i * r.n + j) * 2 + k]
  {
    GridsAt(flat, z.n, r.n, labels.value, true, t.fields, k, i, j);
  }

  /** In a parsed Poisson file, grid `labels[k]` holds at radius index `j`
      and axial index `i` column `k` of row `i * nr + j` of the table after
      the two header lines. */
  lemma PoissonLayout(num: Conversions, lines: seq<string>, kind: string, geometry: string, t: PoissonT7, k: nat, i: nat, j: nat)
    requires ParsePoissonT7(num, lines, kind, geometry) == Ok(t) && k < 2 && i < t.z.n && j < t.r.n
    ensures LoadTxt(num, Drop(lines, 2)).Ok? && PoissonLabels(kind).Some? && PoissonLabels(kind).value[k] in t.fields
    ensures CellAt(t.fields[PoissonLabels(kind).value[k]], LoadTxt(num, Drop(lines, 2)).value, true, t.z.n, t.r.n, 2, k, i, j)
  {
    var flat := PoissonParsed(num, lines, kind, geometry, t);
    KnownLabels();
    GridsAt(flat, t.z.n, t.r.n, PoissonLabels(kind).value, true, t.fields, k, i, j);
  }

  lemma PoissonParsed(num: Conversions, lines: seq<string>, kind: string, geometry: string, t: PoissonT7) returns (flat: seq<real>)
    requires ParsePoissonT7(num, lines, kind, geometry) == Ok(t)
    ensures LoadTxt(num, Drop(lines, 2)) == Ok(flat) && PoissonLabels(kind).Some?
    ensures Grids(flat, t.z.n, t.r.n, PoissonLabels(kind).value, true) == Ok(t.fields)
  {
    assert geometry == CYLINDRICAL;
    var labels := PoissonLabels(kind);
    var axes := PoissonAxes(num, lines).value;
    flat := LoadTxt(num, Drop(lines, 2)).value;
    assert PoissonFrom(axes.0, axes.1, labels, flat) == Ok(t);
    assert labels.Some?;
    var grids := Grids(flat, axes.1.n, axes.0.n, labels.value, true).value;
    assert t == PoissonT7(axes.0, axes.1, grids);
  }

  /** The geometry is checked before anything is read, and an unknown field
      type fails only once the axes and the table have been read. */
  lemma PoissonErrors(num: Conversions, lines: seq<string>, kind: string, geometry: string)
    ensures geometry != CYLINDRICAL ==> ParsePoissonT7(num, lines, kind, geometry) == Err(AssertionError)
    ensures geometry == CYLINDRICAL && kind != ELECTRIC && kind != MAGNETIC &&
            PoissonAxes(num, lines).Ok? && LoadTxt(num, Drop(lines, 2)).Ok? ==>
              ParsePoissonT7(num, lines, kind, geometry) == Err(UnboundLocalError)
  {
  }
}
