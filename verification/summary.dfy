/** The summary group of an SFO report (`parse_sfo_summary_group` and the
    line parsers it calls).

    Each line is classified by the first of a fixed list of prefixes; a
    recognised line yields a fixed set of named quantities, any other line
    is read as `key = value unit`. The per-line dicts are merged into one
    pair of dicts, later keys overwriting earlier ones, and reading stops at
    the first empty line.
 */
module Summary {

  import opened Results
  import opened PyStr
  import opened Numbers
  import opened Segmenter

  /** The `d_vals` and `d_units` dicts a summary parser returns. */
  datatype Quantities = Quantities(values: map<string, real>, units: map<string, string>)

  const NOTHING := Quantities(map[], map[])

  /** Every value has a unit and every unit a value. */
  predicate Paired(q: Quantities)
  {
    q.values.Keys == q.units.Keys
  }

  /** `d_vals.update(e.values); d_units.update(e.units)`. */
  function Merge(q: Quantities, e: Quantities): (r: Quantities)
    ensures r.values.Keys == q.values.Keys + e.values.Keys
    ensures r.units.Keys == q.units.Keys + e.units.Keys
    ensures forall k :: k in e.values ==> r.values[k] == e.values[k]
    ensures forall k :: k in q.values && k !in e.values ==> r.values[k] == q.values[k]
    ensures forall k :: k in e.units ==> r.units[k] == e.units[k]
    ensures forall k :: k in q.units && k !in e.units ==> r.units[k] == q.units[k]
    ensures Paired(q) && Paired(e) ==> Paired(r)
  {
    Quantities(q.values + e.values, q.units + e.units)
  }

  // ---------------------------------------------------------------------
  // Classifying a line.

  /** The line kinds of `parse_sfo_summary_group_line`, in the order tried. */
  datatype Kind =
    | FieldNormalization
    | IntegrationStart
    | IntegrationEnd
    | BetaLine
    | QLine
    | RsQLine
    | RQLine
    | AverageH
    | MaximumH
    | MaximumE
    | Simple

  /** The prefix that selects each recognised kind. */
  function Prefix(k: Kind): (p: string)
    requires k != Simple
    ensures |p| >= 2
  {
    match k
    case FieldNormalization => "Field normalization"
    case IntegrationStart => "for the integration path"
    case IntegrationEnd => "to ending point"
    case BetaLine => "Beta "
    case QLine => "Q "
    case RsQLine => "Rs*Q "
    case RQLine => "r/Q "
    case AverageH => "Average magnetic "
    case MaximumH => "Maximum H "
    case MaximumE => "Maximum E "
  }

  /** The first kind, in the order of the source's `if` chain, whose prefix
      starts the line; `Simple` when none does. */
  function KindOf(line: string): Kind
  {
    if StartsWith(line, Prefix(FieldNormalization)) then FieldNormalization
    else if StartsWith(line, Prefix(IntegrationStart)) then IntegrationStart
    else if StartsWith(line, Prefix(IntegrationEnd)) then IntegrationEnd
    else if StartsWith(line, Prefix(BetaLine)) then BetaLine
    else if StartsWith(line, Prefix(QLine)) then QLine
    else if StartsWith(line, Prefix(RsQLine)) then RsQLine
    else if StartsWith(line, Prefix(RQLine)) then RQLine
    else if StartsWith(line, Prefix(AverageH)) then AverageH
    else if StartsWith(line, Prefix(MaximumH)) then MaximumH
    else if StartsWith(line, Prefix(MaximumE)) then MaximumE
    else Simple
  }

  /** No line starts with two different prefixes, so the order of the
      `if` chain never matters. */
  lemma PrefixesExclusive(line: string, k1: Kind, k2: Kind)
    requires k1 != Simple && k2 != Simple
    requires StartsWith(line, Prefix(k1)) && StartsWith(line, Prefix(k2))
    ensures k1 == k2
  {
    assert line[0] == Prefix(k1)[0] == Prefix(k2)[0];
    if Prefix(k1)[0] == 'M' {
      assert line[8] == Prefix(k1)[8] == Prefix(k2)[8];
    }
  }

  /** A line is of a recognised kind exactly when it starts with that
      kind's prefix, and `Simple` exactly when it starts with none. */
  lemma KindOfPrefix(line: string, k: Kind)
    ensures k != Simple ==> (KindOf(line) == k <==> StartsWith(line, Prefix(k)))
    ensures k == Simple ==> (KindOf(line) == Simple <==> forall j: Kind :: j != Simple ==> !StartsWith(line, Prefix(j)))
  {
    if k != Simple && StartsWith(line, Prefix(k)) && KindOf(line) != Simple {
      PrefixesExclusive(line, k, KindOf(line));
    }
  }

  // ---------------------------------------------------------------------
  // Reading one line.

  /** Python's `s.split(" ")[0]`. */
  function Head(s: string): string
  {
    Split(s, " ")[0]
  }

  /** `line.split("=")[-1].strip()`: the field after the last `=`. */
  function LastField(line: string): string
  {
    Strip(Last(Split(line, "=")))
  }

  /** One named quantity. */
  function One(k: string, x: real, u: string): (q: Quantities)
    ensures q.values.Keys == q.units.Keys == {k}
    ensures q.values[k] == x && q.units[k] == u
  {
    Quantities(map[k := x], map[k := u])
  }

  /** Two named quantities. */
  function Two(k1: string, x1: real, u1: string, k2: string, x2: real, u2: string): (q: Quantities)
    requires k1 != k2
    ensures q.values.Keys == q.units.Keys == {k1, k2}
    ensures q.values[k1] == x1 && q.values[k2] == x2 && q.units[k1] == u1 && q.units[k2] == u2
  {
    Quantities(map[k1 := x1, k2 := x2], map[k1 := u1, k2 := u2])
  }

  /** Three named quantities. */
  function Three(k1: string, x1: real, u1: string, k2: string, x2: real, u2: string, k3: string, x3: real, u3: string): (q: Quantities)
    requires k1 != k2 && k1 != k3 && k2 != k3
    ensures q.values.Keys == q.units.Keys == {k1, k2, k3}
    ensures q.values[k1] == x1 && q.values[k2] == x2 && q.values[k3] == x3
    ensures q.units[k1] == u1 && q.units[k2] == u2 && q.units[k3] == u3
  {
    Quantities(map[k1 := x1, k2 := x2, k3 := x3], map[k1 := u1, k2 := u2, k3 := u3])
  }

  /** The `Field normalization` line: a value and the unit after it. */
  function ReadNormalization(num: Conversions, line: string): (r: Result<Quantities>)
    ensures r.Ok? ==> r.value.values.Keys == r.value.units.Keys == {"Enorm"}
  {
    var val := Split(LastField(line), " ");
    var x :- ToFloat(num, val[0]);
    var unit :- Index(val, 1);
    Ok(One("Enorm", x, unit))
  }

  /** The two `integration path` lines: `z cm, r cm` after the last `=`. */
  function ReadEndpoint(num: Conversions, line: string, zKey: string, rKey: string): (r: Result<Quantities>)
    requires zKey != rKey
    ensures r.Ok? ==> r.value.values.Keys == r.value.units.Keys == {zKey, rKey}
    ensures r.Ok? ==> r.value.units[zKey] == r.value.units[rKey] == "cm"
  {
    var val := Split(LastField(line), ",");
    var second :- Index(val, 1);
    var z :- ToFloat(num, Head(val[0]));
    var rr :- ToFloat(num, FirstWord(second));
    Ok(Two(zKey, z, "cm", rKey, rr, "cm"))
  }

  /** The `Beta`, `Q`, `Rs*Q` and `r/Q` lines: the first word after the
      first `=` and the first word after the last `=`. */
  function ReadPair(num: Conversions, line: string, k1: string, u1: string, k2: string, u2: string): (r: Result<Quantities>)
    requires k1 != k2
    ensures r.Ok? ==> r.value.values.Keys == r.value.units.Keys == {k1, k2}
    ensures r.Ok? ==> r.value.units[k1] == u1 && r.value.units[k2] == u2
    ensures |Split(line, "=")| < 2 ==> r == Err(IndexError)
  {
    var parts := Split(line, "=");
    var first :- Index(parts, 1);
    var a :- ToFloat(num, FirstWord(first));
    var b :- ToFloat(num, FirstWord(Last(parts)));
    Ok(Two(k1, a, u1, k2, b, u2))
  }

  /** The `Average magnetic` line: the word before the first comma after the last `=`. */
  function ReadAverage(num: Conversions, line: string): (r: Result<Quantities>)
    ensures r.Ok? ==> r.value.values.Keys == r.value.units.Keys == {"AvgH"}
    ensures r.Ok? ==> r.value.units["AvgH"] == "A/m"
  {
    var x :- ToFloat(num, Head(Split(LastField(line), ",")[0]));
    Ok(One("AvgH", x, "A/m"))
  }

  /** The `Maximum H` and `Maximum E` lines: `(at Z,R = z,r)` and the
      field value after the last `=`. */
  function ReadMaximum(num: Conversions, line: string, zKey: string, rKey: string, key: string, unit: string): (r: Result<Quantities>)
    requires zKey != rKey && zKey != key && rKey != key
    ensures r.Ok? ==> r.value.values.Keys == r.value.units.Keys == {zKey, rKey, key}
    ensures r.Ok? ==> r.value.units[zKey] == r.value.units[rKey] == "cm" && r.value.units[key] == unit
  {
    var parts := Split(line, "=");
    var first :- Index(parts, 1);
    var at := Split(Strip(first), ",");
    var rest :- Index(at, 1);
    var z :- ToFloat(num, at[0]);
    var rr :- ToFloat(num, Split(rest, ")")[0]);
    var m :- ToFloat(num, Head(Split(LastField(line), ",")[0]));
    Ok(Three(zKey, z, "cm", rKey, rr, "cm", key, m, unit))
  }

  /** `parse_simple_summary_line`: `key = value [unit]`, nothing when there is no `=`. */
  function ReadSimple(num: Conversions, line: string): (r: Result<Quantities>)
    ensures r.Ok? ==> Paired(r.value) && |r.value.values| <= 1
    ensures |Split(line, "=")| == 1 ==> r == Ok(NOTHING)
    ensures |Split(line, "=")| > 1 && r.Ok? ==> r.value.values.Keys == {Strip(Split(line, "=")[0])}
  {
    var parts := Split(line, "=");
    if |parts| == 1 then Ok(NOTHING)
    else
      var key := Strip(parts[0]);
      var val := Split(LastField(line), " ");
      var x :- ToFloat(num, val[0]);
      Ok(One(key, x, if |val| > 1 then val[1] else ""))
  }

  /** The names a recognised kind of line defines. */
  function KeysOf(k: Kind): set<string>
    requires k != Simple
  {
    match k
    case FieldNormalization => {"Enorm"}
    case IntegrationStart => {"integration_Z1", "integration_R1"}
    case IntegrationEnd => {"integration_Z2", "integration_R2"}
    case BetaLine => {"beta", "kinetic_energy"}
    case QLine => {"Q", "Shunt impedance"}
    case RsQLine => {"Rs*Q", "Z*T*T"}
    case RQLine => {"r/Q", "Wake loss parameter"}
    case AverageH => {"AvgH"}
    case MaximumH => {"MaxH_z", "MaxH_r", "MaxH"}
    case MaximumE => {"MaxE_z", "MaxE_r", "MaxE"}
  }

  /** `parse_sfo_summary_group_line`. */
  function ParseSummaryLine(num: Conversions, line: string): (r: Result<Quantities>)
    ensures r.Ok? ==> Paired(r.value)
    ensures r.Ok? && KindOf(line) != Simple ==> r.value.values.Keys == KeysOf(KindOf(line))
  {
    match KindOf(line)
    case FieldNormalization => ReadNormalization(num, line)
    case IntegrationStart => ReadEndpoint(num, line, "integration_Z1", "integration_R1")
    case IntegrationEnd => ReadEndpoint(num, line, "integration_Z2", "integration_R2")
    case BetaLine => ReadPair(num, line, "beta", "", "kinetic_energy", "MeV")
    case QLine => ReadPair(num, line, "Q", "", "Shunt impedance", "MOhm/m")
    case RsQLine => ReadPair(num, line, "Rs*Q", "Ohm", "Z*T*T", "MOhm/m")
    case RQLine => ReadPair(num, line, "r/Q", "Ohm", "Wake loss parameter", "V/pC")
    case AverageH => ReadAverage(num, line)
    case MaximumH => ReadMaximum(num, line, "MaxH_z", "MaxH_r", "MaxH", "A/m")
    case MaximumE => ReadMaximum(num, line, "MaxE_z", "MaxE_r", "MaxE", "MV/m")
    case Simple => ReadSimple(num, line)
  }

  // ---------------------------------------------------------------------
  // Reading the group.

  /** The loop of `parse_sfo_summary_group`, from accumulated dicts `acc`. */
  function SummaryFrom(num: Conversions, acc: Quantities, lines: seq<string>): (r: Result<Quantities>)
    requires Paired(acc)
    ensures r.Ok? ==> Paired(r.value)
    decreases |lines|
  {
    if lines == [] || lines[0] == "" then Ok(acc)
    else
      var q :- ParseSummaryLine(num, lines[0]);
      SummaryFrom(num, Merge(acc, q), lines[1..])
  }

  /** `parse_sfo_summary_group`. */
  function ParseSummaryGroup(num: Conversions, lines: seq<string>): (r: Result<Quantities>)
    ensures r.Ok? ==> Paired(r.value)
  {
    SummaryFrom(num, NOTHING, lines)
  }

  // ---------------------------------------------------------------------
  // The group as parse-each-line-then-merge.

  /** The lines the loop reads: those before the first empty line. */
  function BeforeBlank(lines: seq<string>): (r: seq<string>)
    ensures |r| <= |lines| && r == lines[..|r|]
    ensures forall i :: 0 <= i < |r| ==> r[i] != ""
    ensures |r| < |lines| ==> lines[|r|] == ""
    ensures (forall i :: 0 <= i < |lines| ==> lines[i] != "") ==> r == lines
    decreases |lines|
  {
    if lines == [] || lines[0] == "" then []
    else
      var rest := BeforeBlank(lines[1..]);
      assert forall i :: 0 <= i < |lines| - 1 ==> lines[1..][i] == lines[i + 1];
      [lines[0]] + rest
  }

  /** The dicts of `qs` merged in order onto `acc`. */
  function MergeFrom(acc: Quantities, qs: seq<Quantities>): Quantities
    decreases |qs|
  {
    if qs == [] then acc else MergeFrom(Merge(acc, qs[0]), qs[1..])
  }

  function LineReader(num: Conversions): string -> Result<Quantities>
  {
    line => ParseSummaryLine(num, line)
  }

  /** Reading the group is parsing every line before the first empty one,
      failing with the first line that fails, and merging the per-line
      dicts in order. */
  lemma {:induction false} SummaryReference(num: Conversions, acc: Quantities, lines: seq<string>)
    requires Paired(acc)
    ensures SummaryFrom(num, acc, lines) ==
      (var qs :- MapAll(LineReader(num), BeforeBlank(lines)); Ok(MergeFrom(acc, qs)))
    decreases |lines|
  {
    if lines != [] && lines[0] != "" {
      var pre := BeforeBlank(lines);
      assert pre[0] == lines[0] && pre[1..] == BeforeBlank(lines[1..]);
      match ParseSummaryLine(num, lines[0])
      case Err(_) =>
      case Ok(q) =>
        SummaryReference(num, Merge(acc, q), lines[1..]);
    }
  }

  /** A name no later dict defines keeps the value and unit it had. */
  lemma {:induction false} MergeUntouched(acc: Quantities, qs: seq<Quantities>, k: string)
    requires Paired(acc) && forall j :: 0 <= j < |qs| ==> Paired(qs[j])
    requires forall j :: 0 <= j < |qs| ==> k !in qs[j].values
    ensures k in MergeFrom(acc, qs).values <==> k in acc.values
    ensures k in acc.values ==> MergeFrom(acc, qs).values[k] == acc.values[k]
    ensures k in acc.units ==> k in MergeFrom(acc, qs).units && MergeFrom(acc, qs).units[k] == acc.units[k]
    decreases |qs|
  {
    if qs != [] {
      assert forall j :: 0 <= j < |qs| - 1 ==> qs[1..][j] == qs[j + 1];
      MergeUntouched(Merge(acc, qs[0]), qs[1..], k);
    }
  }

  /** The value and unit of a name come from the last dict that defines it. */
  lemma {:induction false} MergeLastWins(acc: Quantities, qs: seq<Quantities>, i: nat, k: string)
    requires Paired(acc) && forall j :: 0 <= j < |qs| ==> Paired(qs[j])
    requires i < |qs| && k in qs[i].values
    requires forall j :: i < j < |qs| ==> k !in qs[j].values
    ensures k in MergeFrom(acc, qs).values && k in MergeFrom(acc, qs).units
    ensures MergeFrom(acc, qs).values[k] == qs[i].values[k]
    ensures k in qs[i].units && MergeFrom(acc, qs).units[k] == qs[i].units[k]
    decreases i
  {
    assert forall j :: 0 <= j < |qs| - 1 ==> qs[1..][j] == qs[j + 1];
    if i == 0 {
      MergeUntouched(Merge(acc, qs[0]), qs[1..], k);
    } else {
      MergeLastWins(Merge(acc, qs[0]), qs[1..], i - 1, k);
    }
  }

  /** In a summary group, the value and unit of a name are those of the
      last line read that defines it. */
  lemma SummaryLastWins(num: Conversions, lines: seq<string>, i: nat, k: string)
    requires ParseSummaryGroup(num, lines).Ok?
    requires i < |BeforeBlank(lines)|
    requires ParseSummaryLine(num, lines[i]).Ok? && k in ParseSummaryLine(num, lines[i]).value.values
    requires forall j :: i < j < |BeforeBlank(lines)| && ParseSummaryLine(num, lines[j]).Ok?
               ==> k !in ParseSummaryLine(num, lines[j]).value.values
    ensures var q := ParseSummaryGroup(num, lines).value;
      k in q.values && k in q.units &&
      q.values[k] == ParseSummaryLine(num, lines[i]).value.values[k] &&
      q.units[k] == ParseSummaryLine(num, lines[i]).value.units[k]
  {
    var pre := BeforeBlank(lines);
    var f := LineReader(num);
    SummaryReference(num, NOTHING, lines);
    var qs := MapAll(f, pre).value;
    forall j | 0 <= j < |qs| ensures Paired(qs[j]) && f(pre[j]) == Ok(qs[j]) {
      MapAllEach(f, pre, j);
    }
    assert pre[i] == lines[i];
    forall j | i < j < |qs| ensures k !in qs[j].values {
      assert pre[j] == lines[j];
    }
    MergeLastWins(NOTHING, qs, i, k);
  }

  /** The segmenter never stores an empty line, so on the groups it
      produces the summary reader's stop at an empty line never fires. */
  lemma BreakUnreachable(lines: seq<string>, g: nat)
    requires g < |Segment(lines)|
    ensures BeforeBlank(Segment(lines)[g].lines) == Segment(lines)[g].lines
  {
    var body := Segment(lines)[g].lines;
    forall j | 0 <= j < |body| ensures body[j] != "" {
      SegmentNoEmptyLine(lines, g, j);
    }
  }

  // ---------------------------------------------------------------------
  // Line formats.

  /** A two-value line `p = x1 = x2` yields the first word of each field. */
  lemma PairFields(num: Conversions, p: string, x1: string, x2: string, w1: string, w2: string,
                   k1: string, u1: string, k2: string, u2: string, v1: real, v2: real)
    requires k1 != k2 && '=' !in p && '=' !in x1 && '=' !in x2
    requires FirstWord(x1) == w1 && FirstWord(x2) == w2
    requires ToFloat(num, w1) == Ok(v1) && ToFloat(num, w2) == Ok(v2)
    ensures ReadPair(num, p + "=" + x1 + "=" + x2, k1, u1, k2, u2) == Ok(Two(k1, v1, u1, k2, v2, u2))
  {
    var line := p + "=" + x1 + "=" + x2;
    assert line == p + ['='] + x1 + ['='] + x2;
    SplitAtChar2(p, '=', x1, x2);
    PairOfFields(num, line, p, x1, x2, w1, w2, k1, u1, k2, u2, v1, v2);
  }

  lemma PairOfFields(num: Conversions, line: string, p: string, x1: string, x2: string, w1: string, w2: string,
                     k1: string, u1: string, k2: string, u2: string, v1: real, v2: real)
    requires k1 != k2 && Split(line, "=") == [p, x1, x2]
    requires FirstWord(x1) == w1 && FirstWord(x2) == w2
    requires ToFloat(num, w1) == Ok(v1) && ToFloat(num, w2) == Ok(v2)
    ensures ReadPair(num, line, k1, u1, k2, u2) == Ok(Two(k1, v1, u1, k2, v2, u2))
  {
  }

  /** A line without `=` that no prefix claims contributes nothing. */
  lemma SimpleNoEquals(num: Conversions, line: string)
    requires KindOf(line) == Simple && '=' !in line
    ensures ParseSummaryLine(num, line) == Ok(NOTHING)
  {
    SplitNoChar(line, '=');
  }

  /** The field after the last `=`, when it holds no `=` itself. */
  lemma LastFieldOf(p: string, x: string)
    requires '=' !in x
    ensures LastField(p + "=" + x) == Strip(x)
  {
    assert p + "=" + x == p + ['='] + x;
    LastPiece(p, '=', x);
  }

  /** The pieces of `key = mid x`, where `mid` is empty or ends with `=`:
      the key first and the field `x` last. */
  lemma FieldsAround(key: string, mid: string, x: string)
    requires '=' !in key && '=' !in x
    requires mid == [] || mid[|mid| - 1] == '='
    ensures var parts := Split(key + "=" + mid + x, "=");
      |parts| >= 2 && parts[0] == key && Last(parts) == x
  {
    if mid == [] {
      assert key + "=" + mid + x == key + ['='] + x;
      SplitAtChar(key, '=', x);
    } else {
      var m0 := mid[..|mid| - 1];
      assert key + "=" + mid + x == (key + ['='] + m0) + ['='] + x;
      SplitAppendChar(key + ['='] + m0, '=', x);
      SplitCharHead(key, '=', m0);
    }
  }

  lemma SimpleOfFields(num: Conversions, line: string, key: string, x: string, val: seq<string>, v: real)
    requires |Split(line, "=")| >= 2 && Split(line, "=")[0] == key && Last(Split(line, "=")) == x
    requires Split(Strip(x), " ") == val && val != []
    requires ToFloat(num, val[0]) == Ok(v)
    ensures ReadSimple(num, line) == Ok(One(Strip(key), v, if |val| > 1 then val[1] else ""))
  {
  }

  /** `key = ... = value unit`: the stripped text before the first `=`
      names the value after the last `=`, and the word after the value is
      its unit; `mid` is whatever lies between (nothing, or text ending
      with `=`). */
  lemma SimpleWithUnit(num: Conversions, key: string, mid: string, a: string, w: string, unit: string, b: string, v: real)
    requires '=' !in key && (mid == [] || mid[|mid| - 1] == '=')
    requires All(a, IsSpace) && All(b, IsSpace)
    requires IsWord(w) && IsWord(unit) && '=' !in w && '=' !in unit
    requires ToFloat(num, w) == Ok(v)
    ensures ReadSimple(num, key + "=" + mid + a + w + " " + unit + b) == Ok(One(Strip(key), v, unit))
  {
    var x := a + (w + " " + unit) + b;
    var line := key + "=" + mid + a + w + " " + unit + b;
    UnitLine(key + "=" + mid, a, w, unit, b);
    assert '=' !in w + " " + unit;
    SpacesNoChar(a, '=');
    SpacesNoChar(b, '=');
    FieldsAround(key, mid, x);
    UnitField(a, w, unit, b);
    SimpleOfFields(num, line, key, x, [w, unit], v);
  }

  lemma UnitLine(p: string, a: string, w: string, unit: string, b: string)
    ensures p + a + w + " " + unit + b == p + (a + (w + " " + unit) + b)
  {
  }

  /** A padded `value unit` field strips to the two words and splits into them. */
  lemma UnitField(a: string, w: string, unit: string, b: string)
    requires All(a, IsSpace) && All(b, IsSpace) && IsWord(w) && IsWord(unit)
    ensures Strip(a + (w + " " + unit) + b) == w + " " + unit
    ensures Split(w + " " + unit, " ") == [w, unit]
  {
    UnitTrimmed(w, unit);
    StripPadded(a, w + " " + unit, b);
    UnitSplit(w, unit);
  }

  lemma UnitTrimmed(w: string, unit: string)
    requires IsWord(w) && IsWord(unit)
    ensures w + " " + unit != [] && Trimmed(w + " " + unit, IsSpace)
  {
    var core := w + " " + unit;
    assert core[0] == w[0] && core[|core| - 1] == unit[|unit| - 1];
  }

  lemma UnitSplit(w: string, unit: string)
    requires IsWord(w) && IsWord(unit)
    ensures Split(w + " " + unit, " ") == [w, unit]
  {
    WordNoSpace(w);
    WordNoSpace(unit);
    SplitAtChar(w, ' ', unit);
  }

  /** `key = ... = value` with nothing after the value: the unit is empty. */
  lemma SimpleWithoutUnit(num: Conversions, key: string, mid: string, a: string, w: string, b: string, v: real)
    requires '=' !in key && (mid == [] || mid[|mid| - 1] == '=')
    requires All(a, IsSpace) && All(b, IsSpace)
    requires IsWord(w) && '=' !in w
    requires ToFloat(num, w) == Ok(v)
    ensures ReadSimple(num, key + "=" + mid + a + w + b) == Ok(One(Strip(key), v, ""))
  {
    var x := a + w + b;
    var line := key + "=" + mid + a + w + b;
    SpacesNoChar(a, '=');
    SpacesNoChar(b, '=');
    assert line == key + "=" + mid + x;
    FieldsAround(key, mid, x);
    StripPadded(a, w, b);
    WordNoSpace(w);
    SplitNoChar(w, ' ');
    SimpleOfFields(num, line, key, x, [w], v);
  }

  /** `... = value unit`, padded: the normalization value after the last
      `=`, with the word after it as unit. */
  lemma NormalizationFormat(num: Conversions, p: string, a: string, w: string, unit: string, b: string, v: real)
    requires All(a, IsSpace) && All(b, IsSpace)
    requires IsWord(w) && IsWord(unit) && '=' !in w && '=' !in unit
    requires ToFloat(num, w) == Ok(v)
    ensures ReadNormalization(num, p + "=" + (a + w + " " + unit + b)) == Ok(One("Enorm", v, unit))
  {
    var x := a + w + " " + unit + b;
    Regroup3(a, w, " ", unit, b);
    NoChar3(w, " ", unit, '=');
    PaddedNoChar(a, w + " " + unit, b, '=');
    LastFieldOf(p, x);
    UnitField(a, w, unit, b);
    NormalizationOfField(num, p + "=" + x, w, unit, v);
  }

  lemma NormalizationOfField(num: Conversions, line: string, w: string, unit: string, v: real)
    requires Split(LastField(line), " ") == [w, unit] && ToFloat(num, w) == Ok(v)
    ensures ReadNormalization(num, line) == Ok(One("Enorm", v, unit))
  {
  }

  lemma Regroup3(a: string, b: string, c: string, d: string, e: string)
    ensures a + b + c + d + e == a + (b + c + d) + e
  {
  }

  lemma Regroup(a: string, b: string, c: string, d: string, e: string, f: string)
    ensures a + b + c + d + e + f == a + (b + c + d + e) + f
  {
  }

  lemma NoChar3(x: string, y: string, z: string, c: char)
    requires c !in x && c !in y && c !in z
    ensures c !in x + y + z
  {
  }

  /** Padding adds no character that is not a space. */
  lemma PaddedNoChar(a: string, core: string, b: string, c: char)
    requires All(a, IsSpace) && All(b, IsSpace) && !IsSpace(c) && c !in core
    ensures c !in a + core + b
  {
    SpacesNoChar(a, c);
    SpacesNoChar(b, c);
  }

  /** None of four words holds the character `c`. */
  predicate NoneOf(w1: string, w2: string, w3: string, w4: string, c: char)
  {
    c !in w1 && c !in w2 && c !in w3 && c !in w4
  }

  /** `... = z u1, r u2`, padded: the integration end point is the word
      before the comma and the first word after it, both in cm whatever
      units the line prints. */
  lemma EndpointFormat(num: Conversions, p: string, a: string, z: string, u1: string, a2: string, r: string, u2: string, b: string,
                       zKey: string, rKey: string, vz: real, vr: real)
    requires zKey != rKey
    requires All(a, IsSpace) && All(a2, IsSpace) && All(b, IsSpace)
    requires IsWord(z) && IsWord(u1) && IsWord(r) && IsWord(u2)
    requires NoneOf(z, u1, r, u2, '=') && NoneOf(z, u1, r, u2, ',')
    requires ToFloat(num, z) == Ok(vz) && ToFloat(num, r) == Ok(vr)
    ensures ReadEndpoint(num, p + "=" + (a + z + " " + u1 + "," + a2 + r + " " + u2 + b), zKey, rKey)
            == Ok(Two(zKey, vz, "cm", rKey, vr, "cm"))
  {
    var f1 := z + " " + u1;
    var f2 := a2 + r + " " + u2;
    var x := a + z + " " + u1 + "," + a2 + r + " " + u2 + b;
    EndpointField(a, z, u1, a2, r, u2, b);
    EndpointCore(a, z, u1, a2, r, u2, b);
    LastFieldOf(p, x);
    EndpointPieces(z, u1, a2, r, u2);
    EndpointOfFields(num, p + "=" + x, f1, f2, z, r, zKey, rKey, vz, vr);
  }

  lemma EndpointField(a: string, z: string, u1: string, a2: string, r: string, u2: string, b: string)
    ensures a + z + " " + u1 + "," + a2 + r + " " + u2 + b
            == a + ((z + " " + u1) + "," + (a2 + r + " " + u2)) + b
  {
  }

  /** The padded end-point field holds no `=` and strips to its core. */
  lemma EndpointCore(a: string, z: string, u1: string, a2: string, r: string, u2: string, b: string)
    requires All(a, IsSpace) && All(a2, IsSpace) && All(b, IsSpace)
    requires IsWord(z) && IsWord(u2) && NoneOf(z, u1, r, u2, '=')
    ensures var core := (z + " " + u1) + "," + (a2 + r + " " + u2);
      '=' !in a + core + b && Strip(a + core + b) == core
  {
    var f1 := z + " " + u1;
    var f2 := a2 + r + " " + u2;
    var core := f1 + "," + f2;
    NoChar3(z, " ", u1, '=');
    SpacesNoChar(a2, '=');
    NoChar4(a2, r, " ", u2, '=');
    NoChar3(f1, ",", f2, '=');
    PaddedNoChar(a, core, b, '=');
    assert core[0] == z[0] && core[|core| - 1] == u2[|u2| - 1];
    StripPadded(a, core, b);
  }

  lemma NoChar4(x: string, y: string, z: string, t: string, c: char)
    requires c !in x && c !in y && c !in z && c !in t
    ensures c !in x + y + z + t
  {
  }

  /** The end-point core splits at its comma; the value before it is the
      first word of the first piece, the value after it the first word of
      the second. */
  lemma EndpointPieces(z: string, u1: string, a2: string, r: string, u2: string)
    requires All(a2, IsSpace) && IsWord(z) && IsWord(r)
    requires NoneOf(z, u1, r, u2, ',')
    ensures var f1, f2 := z + " " + u1, a2 + r + " " + u2;
      Split(f1 + "," + f2, ",") == [f1, f2] && Head(f1) == z && FirstWord(f2) == r
  {
    var f1, f2 := z + " " + u1, a2 + r + " " + u2;
    SpacesNoChar(a2, ',');
    NoChar3(z, " ", u1, ',');
    NoChar4(a2, r, " ", u2, ',');
    SplitAtChar(f1, ',', f2);
    Regroup2(z, " ", u1);
    SpaceSplitHead(z, " " + u1);
    Regroup2(a2 + r, " ", u2);
    FirstWordOf(a2, r, " " + u2);
  }

  lemma Regroup2(a: string, b: string, c: string)
    ensures a + b + c == a + (b + c)
  {
  }

  lemma EndpointOfFields(num: Conversions, line: string, f1: string, f2: string, z: string, r: string,
                         zKey: string, rKey: string, vz: real, vr: real)
    requires zKey != rKey
    requires Split(LastField(line), ",") == [f1, f2] && Head(f1) == z && FirstWord(f2) == r
    requires ToFloat(num, z) == Ok(vz) && ToFloat(num, r) == Ok(vr)
    ensures ReadEndpoint(num, line, zKey, rKey) == Ok(Two(zKey, vz, "cm", rKey, vr, "cm"))
  {
  }

  /** A field `value unit, rest` after padding: its leading value is the
      word before the first space, whatever follows the comma. */
  lemma LeadingValue(a: string, w: string, u: string, t: string)
    requires All(a, IsSpace) && IsWord(w) && ',' !in w && ',' !in u
    ensures Head(Split(Strip(a + w + " " + u + "," + t), ",")[0]) == w
  {
    var c := w + " " + u + ",";
    var m := StripKeeps(a, c, t);
    Regroup(a, w, " ", u, ",", t);
    HeadBeforeComma(w, u, t[..m]);
  }

  /** Stripping a padded field whose core `c` starts and ends with a
      non-space keeps `c` and a prefix of what follows. */
  lemma StripKeeps(a: string, c: string, t: string) returns (m: nat)
    requires All(a, IsSpace) && c != [] && !IsSpace(c[0]) && !IsSpace(c[|c| - 1])
    ensures m <= |t| && Strip(a + c + t) == c + t[..m]
  {
    assert a + c + t == a + (c + t);
    assert (c + t)[0] == c[0];
    PaddedStart(a, c + t);
    m := TrimEndKeeps(c, t);
  }

  lemma HeadBeforeComma(w: string, u: string, rest: string)
    requires IsWord(w) && ',' !in w && ',' !in u
    ensures Head(Split(w + " " + u + "," + rest, ",")[0]) == w
  {
    NoChar3(w, " ", u, ',');
    SplitCharHead(w + " " + u, ',', rest);
    Regroup2(w, " ", u);
    SpaceSplitHead(w, " " + u);
  }

  /** The field after the last `=` holds no `=` when none of its parts does. */
  lemma ValueFieldNoEquals(a: string, w: string, u: string, t: string)
    requires All(a, IsSpace) && '=' !in w && '=' !in u && '=' !in t
    ensures '=' !in a + w + " " + u + "," + t
  {
    SpacesNoChar(a, '=');
  }

  /** `... = value unit, rest`: the average field is the leading value after
      the last `=`, in A/m. */
  lemma AverageFormat(num: Conversions, p: string, a: string, w: string, u: string, t: string, v: real)
    requires All(a, IsSpace) && IsWord(w) && ',' !in w && ',' !in u
    requires '=' !in w && '=' !in u && '=' !in t
    requires ToFloat(num, w) == Ok(v)
    ensures ReadAverage(num, p + "=" + (a + w + " " + u + "," + t)) == Ok(One("AvgH", v, "A/m"))
  {
    var x := a + w + " " + u + "," + t;
    ValueFieldNoEquals(a, w, u, t);
    LastFieldOf(p, x);
    LeadingValue(a, w, u, t);
    AverageOfField(num, p + "=" + x, w, v);
  }

  lemma AverageOfField(num: Conversions, line: string, w: string, v: real)
    requires Head(Split(LastField(line), ",")[0]) == w && ToFloat(num, w) == Ok(v)
    ensures ReadAverage(num, line) == Ok(One("AvgH", v, "A/m"))
  {
  }

  /** `... (at Z,R = z,r) = value unit, rest`: the position is read from the
      text between the first two `=`, in cm, and the field value is the
      leading value after the last `=`, in the line's fixed unit. */
  lemma MaximumFormat(num: Conversions, p: string, a1: string, z: string, r: string, b1: string,
                      a: string, w: string, u: string, t: string,
                      zKey: string, rKey: string, key: string, unit: string, vz: real, vr: real, vm: real)
    requires zKey != rKey && zKey != key && rKey != key
    requires '=' !in p && All(a1, IsSpace) && All(b1, IsSpace) && All(a, IsSpace)
    requires IsWord(z) && ',' !in z && '=' !in z && ',' !in r && ')' !in r && '=' !in r
    requires IsWord(w) && ',' !in w && ',' !in u && '=' !in w && '=' !in u && '=' !in t
    requires ToFloat(num, z) == Ok(vz) && ToFloat(num, r) == Ok(vr) && ToFloat(num, w) == Ok(vm)
    ensures ReadMaximum(num, p + "=" + (a1 + z + "," + r + ")" + b1) + "=" + (a + w + " " + u + "," + t), zKey, rKey, key, unit)
            == Ok(Three(zKey, vz, "cm", rKey, vr, "cm", key, vm, unit))
  {
    var y := a1 + z + "," + r + ")" + b1;
    var x := a + w + " " + u + "," + t;
    MaximumField(a1, z, r, b1);
    MaximumAt(a1, z, r, b1);
    ValueFieldNoEquals(a, w, u, t);
    LeadingValue(a, w, u, t);
    MaximumOfParts(num, p, y, x, z, r, w, zKey, rKey, key, unit, vz, vr, vm);
  }

  lemma MaximumOfParts(num: Conversions, p: string, y: string, x: string, z: string, r: string, w: string,
                       zKey: string, rKey: string, key: string, unit: string, vz: real, vr: real, vm: real)
    requires zKey != rKey && zKey != key && rKey != key
    requires '=' !in p && '=' !in y && '=' !in x
    requires Split(Strip(y), ",") == [z, r + ")"] && Split(r + ")", ")")[0] == r
    requires Head(Split(Strip(x), ",")[0]) == w
    requires ToFloat(num, z) == Ok(vz) && ToFloat(num, r) == Ok(vr) && ToFloat(num, w) == Ok(vm)
    ensures ReadMaximum(num, p + "=" + y + "=" + x, zKey, rKey, key, unit)
            == Ok(Three(zKey, vz, "cm", rKey, vr, "cm", key, vm, unit))
  {
    ThreeFields(p, y, x);
    MaximumOfFields(num, p + "=" + y + "=" + x, y, x, z, r, w, zKey, rKey, key, unit, vz, vr, vm);
  }

  lemma ThreeFields(p: string, y: string, x: string)
    requires '=' !in p && '=' !in y && '=' !in x
    ensures var parts := Split(p + "=" + y + "=" + x, "=");
      |parts| == 3 && parts[1] == y && parts[2] == x
  {
    SplitAtChar2(p, '=', y, x);
  }

  lemma MaximumField(a1: string, z: string, r: string, b1: string)
    ensures a1 + z + "," + r + ")" + b1 == a1 + (z + "," + (r + ")")) + b1
  {
  }

  /** The padded position `z,r)` holds no `=`, strips to itself, and splits
      into `z` and the `r` before the parenthesis. */
  lemma MaximumAt(a1: string, z: string, r: string, b1: string)
    requires All(a1, IsSpace) && All(b1, IsSpace)
    requires IsWord(z) && ',' !in z && '=' !in z && ',' !in r && ')' !in r && '=' !in r
    ensures var at := z + "," + (r + ")");
      '=' !in a1 + at + b1 && Strip(a1 + at + b1) == at &&
      Split(at, ",") == [z, r + ")"] && Split(r + ")", ")")[0] == r
  {
    MaximumAtStrip(a1, z, r, b1);
    MaximumAtSplit(z, r);
  }

  lemma MaximumAtStrip(a1: string, z: string, r: string, b1: string)
    requires All(a1, IsSpace) && All(b1, IsSpace)
    requires IsWord(z) && '=' !in z && '=' !in r
    ensures var at := z + "," + (r + ")");
      '=' !in a1 + at + b1 && Strip(a1 + at + b1) == at
  {
    var at := z + "," + (r + ")");
    NoChar3(z, ",", r + ")", '=');
    PaddedNoChar(a1, at, b1, '=');
    assert at[0] == z[0] && at[|at| - 1] == ')';
    StripPadded(a1, at, b1);
  }

  lemma MaximumAtSplit(z: string, r: string)
    requires ',' !in z && ',' !in r && ')' !in r
    ensures Split(z + "," + (r + ")"), ",") == [z, r + ")"] && Split(r + ")", ")")[0] == r
  {
    assert ',' !in r + ")";
    SplitAtChar(z, ',', r + ")");
    assert r + ")" == r + [')'] + [];
    SplitCharHead(r, ')', []);
  }

  lemma MaximumOfFields(num: Conversions, line: string, y: string, x: string, z: string, r: string, w: string,
                        zKey: string, rKey: string, key: string, unit: string, vz: real, vr: real, vm: real)
    requires zKey != rKey && zKey != key && rKey != key
    requires |Split(line, "=")| == 3 && Split(line, "=")[1] == y && Split(line, "=")[2] == x
    requires Split(Strip(y), ",") == [z, r + ")"] && Split(r + ")", ")")[0] == r
    requires Head(Split(Strip(x), ",")[0]) == w
    requires ToFloat(num, z) == Ok(vz) && ToFloat(num, r) == Ok(vr) && ToFloat(num, w) == Ok(vm)
    ensures ReadMaximum(num, line, zKey, rKey, key, unit) == Ok(Three(zKey, vz, "cm", rKey, vr, "cm", key, vm, unit))
  {
  }
}
