/** A wall-segment group of an SFO report (`parse_wall_segment_line1`,
    `parse_sfo_segment`).

    The group label is the title line naming the segment and its mesh end
    points, for example
    `Power and fields on wall segment   3 K,L =    1,   2 to    5,   6`.
    The body holds `key = value` lines, a column header, a line of units and
    then one data row per mesh point, until a line starting with `Summary`.
 */
module Wall {

  import opened Results
  import opened PyStr
  import opened Numbers

  const SEGMENT_WORD := "segment"
  const KL_MARK := " K,L ="
  const TO_WORD := "to"
  const COMMA := ","
  const EQUALS := "="
  const HEADER_KL := "K    L"
  const HEADER_MKL := "m     K     L"
  const SUMMARY_MARK := "Summary"
  const BAR := '|'

  datatype WallTitle = WallTitle(segment: int, kBeg: int, lBeg: int, kEnd: int, lEnd: int)

  /** `parse_wall_segment_line1`: the text after the first `segment` is split
      at ` K,L =` into the segment number and the end points, the end points
      at `to`, and each end point at the comma; every split must give exactly
      two pieces. The segment number goes through `float` and then `int`. */
  function ParseWallTitle(num: Conversions, line: string): (r: Result<WallTitle>)
    ensures |Split(line, SEGMENT_WORD)| < 2 ==> r == Err(IndexError)
    ensures |Split(line, SEGMENT_WORD)| >= 2 && |Split(Split(line, SEGMENT_WORD)[1], KL_MARK)| != 2
      ==> r == Err(UnpackError)
    ensures |Split(line, SEGMENT_WORD)| >= 2 ==> r == ParseTitleRest(num, Split(line, SEGMENT_WORD)[1])
  {
    var after :- Index(Split(line, SEGMENT_WORD), 1);
    ParseTitleRest(num, after)
  }

  /** The title after its first `segment`. */
  function ParseTitleRest(num: Conversions, after: string): (r: Result<WallTitle>)
    ensures |Split(after, KL_MARK)| != 2 ==> r == Err(UnpackError)
    ensures var parts := Split(after, KL_MARK);
      (|parts| == 2 && ToFloat(num, parts[0]).Ok?) ==>
        var points := Split(parts[1], TO_WORD);
        (|points| != 2 ==> r == Err(UnpackError)) &&
        (|points| == 2 ==>
          var first := Split(points[0], COMMA);
          (|first| != 2 ==> r == Err(UnpackError)) &&
          ((|first| == 2 && ToInt(num, first[0]).Ok? && ToInt(num, first[1]).Ok? &&
            |Split(points[1], COMMA)| != 2) ==> r == Err(UnpackError)))
  {
    var parts :- Unpack2(Split(after, KL_MARK));
    var seg :- ToFloat(num, parts.0);
    var points :- Unpack2(Split(parts.1, TO_WORD));
    var first :- Unpack2(Split(points.0, COMMA));
    var kBeg :- ToInt(num, first.0);
    var lBeg :- ToInt(num, first.1);
    var last :- Unpack2(Split(points.1, COMMA));
    var kEnd :- ToInt(num, last.0);
    var lEnd :- ToInt(num, last.1);
    Ok(WallTitle(Trunc(seg), kBeg, lBeg, kEnd, lEnd))
  }

  /** A title line assembled from its pieces. */
  function TitleLine(prefix: string, ix: string, k0: string, l0: string, k1: string, l1: string): string
  {
    prefix + SEGMENT_WORD + (ix + KL_MARK + (k0 + COMMA + l0 + TO_WORD + (k1 + COMMA + l1)))
  }

  lemma SplitPair(a: string, sep: string, b: string, n: nat)
    requires sep != [] && n < |sep|
    requires sep[|sep| - 1] !in sep[..|sep| - 1]
    requires sep[|sep| - 1] !in a && sep[n] !in b
    ensures Split(a + sep + b, sep) == [a, b]
  {
    AbsentChar(a + sep[..|sep| - 1], sep, |sep| - 1);
    SplitFirst(a, sep, b);
    AbsentChar(b, sep, n);
    SplitNone(b, sep);
  }

  lemma SplitKL(a: string, b: string)
    requires '=' !in a && '=' !in b
    ensures Split(a + KL_MARK + b, KL_MARK) == [a, b]
  {
    SplitPair(a, KL_MARK, b, 5);
  }

  lemma SplitTo(a: string, b: string)
    requires 'o' !in a && 'o' !in b
    ensures Split(a + TO_WORD + b, TO_WORD) == [a, b]
  {
    SplitPair(a, TO_WORD, b, 1);
  }

  lemma SplitComma(a: string, b: string)
    requires ',' !in a && ',' !in b
    ensures Split(a + COMMA + b, COMMA) == [a, b]
  {
    assert COMMA[..0] == [];
    SplitPair(a, COMMA, b, 0);
  }

  /** A title line built from pieces that hold none of the separators reads
      back as those pieces' numbers. */
  lemma TitleRoundTrip(num: Conversions, prefix: string, ix: string, k0: string, l0: string, k1: string, l1: string,
                       seg: real, kBeg: int, lBeg: int, kEnd: int, lEnd: int)
    requires 't' !in prefix
    requires 'g' !in ix && 'g' !in k0 && 'g' !in l0 && 'g' !in k1 && 'g' !in l1
    requires '=' !in ix && '=' !in k0 && '=' !in l0 && '=' !in k1 && '=' !in l1
    requires 'o' !in k0 && 'o' !in l0 && 'o' !in k1 && 'o' !in l1
    requires ',' !in k0 && ',' !in l0 && ',' !in k1 && ',' !in l1
    requires ToFloat(num, ix) == Ok(seg)
    requires ToInt(num, k0) == Ok(kBeg) && ToInt(num, l0) == Ok(lBeg)
    requires ToInt(num, k1) == Ok(kEnd) && ToInt(num, l1) == Ok(lEnd)
    ensures ParseWallTitle(num, TitleLine(prefix, ix, k0, l0, k1, l1)) == Ok(WallTitle(Trunc(seg), kBeg, lBeg, kEnd, lEnd))
  {
    var kl1 := k1 + COMMA + l1;
    var kl0 := k0 + COMMA + l0;
    var x := kl0 + TO_WORD + kl1;
    var rest := ix + KL_MARK + x;
    SeparatorChars();
    Absent3('g', k0, COMMA, l0);
    Absent3('g', k1, COMMA, l1);
    Absent3('g', kl0, TO_WORD, kl1);
    Absent3('g', ix, KL_MARK, x);
    Absent3('=', k0, COMMA, l0);
    Absent3('=', k1, COMMA, l1);
    Absent3('=', kl0, TO_WORD, kl1);
    Absent3('o', k0, COMMA, l0);
    Absent3('o', k1, COMMA, l1);
    assert TitleLine(prefix, ix, k0, l0, k1, l1) == prefix + SEGMENT_WORD + rest;
    AfterSegment(prefix, rest);
    TitlePieces(ix, x, kl0, kl1, k0, l0, k1, l1);
    TitleRestReads(num, rest, ix, x, kl0, kl1, k0, l0, k1, l1, seg, kBeg, lBeg, kEnd, lEnd);
    TitleFromRest(num, TitleLine(prefix, ix, k0, l0, k1, l1), prefix, rest, WallTitle(Trunc(seg), kBeg, lBeg, kEnd, lEnd));
  }

  lemma TitleFromRest(num: Conversions, line: string, prefix: string, rest: string, t: WallTitle)
    requires line == prefix + SEGMENT_WORD + rest
    requires Split(prefix + SEGMENT_WORD + rest, SEGMENT_WORD) == [prefix, rest]
    requires ParseTitleRest(num, rest) == Ok(t)
    ensures ParseWallTitle(num, line) == Ok(t)
  {
  }

  lemma SeparatorChars()
    ensures 'g' !in KL_MARK && 'g' !in TO_WORD && 'g' !in COMMA
    ensures '=' !in TO_WORD && '=' !in COMMA && 'o' !in COMMA
  {
  }

  lemma Absent3(c: char, a: string, b: string, d: string)
    requires c !in a && c !in b && c !in d
    ensures c !in a + b + d
  {
  }

  /** The first `segment` is the one after a prefix without a `t`. */
  lemma AfterSegment(prefix: string, rest: string)
    requires 't' !in prefix && 'g' !in rest
    ensures Split(prefix + SEGMENT_WORD + rest, SEGMENT_WORD) == [prefix, rest]
  {
    AbsentChar(prefix + SEGMENT_WORD[..6], SEGMENT_WORD, 6);
    SplitFirst(prefix, SEGMENT_WORD, rest);
    AbsentChar(rest, SEGMENT_WORD, 2);
    SplitNone(rest, SEGMENT_WORD);
  }

  lemma TitlePieces(ix: string, x: string, kl0: string, kl1: string, k0: string, l0: string, k1: string, l1: string)
    requires '=' !in ix && '=' !in x
    requires 'o' !in kl0 && 'o' !in kl1 && x == kl0 + TO_WORD + kl1
    requires ',' !in k0 && ',' !in l0 && ',' !in k1 && ',' !in l1
    requires kl0 == k0 + COMMA + l0 && kl1 == k1 + COMMA + l1
    ensures Split(ix + KL_MARK + x, KL_MARK) == [ix, x]
    ensures Split(x, TO_WORD) == [kl0, kl1]
    ensures Split(kl0, COMMA) == [k0, l0] && Split(kl1, COMMA) == [k1, l1]
  {
    SplitKL(ix, x);
    SplitTo(kl0, kl1);
    SplitComma(k0, l0);
    SplitComma(k1, l1);
  }

  lemma TitleRestReads(num: Conversions, rest: string, ix: string, x: string, kl0: string, kl1: string,
                       k0: string, l0: string, k1: string, l1: string,
                       seg: real, kBeg: int, lBeg: int, kEnd: int, lEnd: int)
    requires Split(rest, KL_MARK) == [ix, x]
    requires Split(x, TO_WORD) == [kl0, kl1]
    requires Split(kl0, COMMA) == [k0, l0] && Split(kl1, COMMA) == [k1, l1]
    requires ToFloat(num, ix) == Ok(seg)
    requires ToInt(num, k0) == Ok(kBeg) && ToInt(num, l0) == Ok(lBeg)
    requires ToInt(num, k1) == Ok(kEnd) && ToInt(num, l1) == Ok(lEnd)
    ensures ParseTitleRest(num, rest) == Ok(WallTitle(Trunc(seg), kBeg, lBeg, kEnd, lEnd))
  {
  }

  // ---------------------------------------------------------------------
  // The data table.

  /** A value in the segment's `info` dictionary: the numbers read from the
      title, or the raw text after the `=` of a `key = value` line. */
  datatype InfoValue = IntInfo(n: int) | TextInfo(text: string)

  function TitleInfo(t: WallTitle): map<string, InfoValue>
  {
    map["segment_number" := IntInfo(t.segment), "K_beg" := IntInfo(t.kBeg), "L_beg" := IntInfo(t.lBeg),
        "K_end" := IntInfo(t.kEnd), "L_end" := IntInfo(t.lEnd)]
  }

  /** The `fields` dictionary: its column names in order and one column of
      values per name. */
  datatype Table = Table(names: seq<string>, columns: seq<seq<real>>)

  /** One column per name, no name twice, all columns of the same length. */
  predicate TableOk(t: Table)
  {
    |t.columns| == |t.names| && Distinct(t.names) &&
    forall c, d :: 0 <= c < |t.columns| && 0 <= d < |t.columns| ==> |t.columns[c]| == |t.columns[d]|
  }

  function RowCount(t: Table): nat
  {
    if t.columns == [] then 0 else |t.columns[0]|
  }

  /** The loop variables of `parse_sfo_segment`. */
  datatype WallState = WallState(info: map<string, InfoValue>, fields: Option<Table>, nskip: nat,
                                 units: Option<map<string, string>>, inside: bool)

  predicate StateOk(st: WallState)
  {
    st.fields.Some? ==> TableOk(st.fields.value)
  }

  /** Python's truth value of `fields` and of `units`: set and not empty. */
  predicate HasFields(st: WallState)
  {
    st.fields.Some? && |st.fields.value.names| > 0
  }

  predicate HasUnits(st: WallState)
  {
    st.units.Some? && |st.units.value| > 0
  }

  /** The keys of a dict built from `xs` in order: first occurrences kept. */
  function Dedup(xs: seq<string>): (r: seq<string>)
    ensures Distinct(r)
    ensures forall x :: x in r <==> x in xs
    ensures Distinct(xs) ==> r == xs
    decreases |xs|
  {
    if xs == [] then []
    else
      var init := xs[..|xs| - 1];
      var d := Dedup(init);
      assert Distinct(xs) ==> Distinct(init) && Last(xs) !in init;
      if Last(xs) in d then d else assert Distinct(xs) ==> init + [Last(xs)] == xs; d + [Last(xs)]
  }

  function StripBars(tokens: seq<string>): (r: seq<string>)
    ensures |r| == |tokens| && forall i :: 0 <= i < |r| ==> r[i] == StripChar(tokens[i], BAR)
  {
    seq(|tokens|, i requires 0 <= i < |tokens| => StripChar(tokens[i], BAR))
  }

  /** The column names of a header line: the tokens after the first `nskip`,
      with surrounding `|` removed. */
  function ColumnNames(line: string, nskip: nat): seq<string>
  {
    Dedup(StripBars(Drop(SplitWs(line), nskip)))
  }

  function NewTable(names: seq<string>): (t: Table)
    requires Distinct(names)
    ensures TableOk(t) && t.names == names && RowCount(t) == 0
  {
    Table(names, seq(|names|, _ => []))
  }

  /** `dict(zip(fields, unit_labels))` */
  function Zip(names: seq<string>, labels: seq<string>): (m: map<string, string>)
    requires Distinct(names) && |labels| == |names|
    ensures m.Keys == set i | 0 <= i < |names| :: names[i]
    ensures forall i :: 0 <= i < |names| ==> m[names[i]] == labels[i]
  {
    map i | 0 <= i < |names| :: names[i] := labels[i]
  }

  /** Appends one value to each column. */
  function AppendRow(t: Table, x: seq<real>): (r: Table)
    requires TableOk(t) && |x| >= |t.names|
    ensures TableOk(r) && r.names == t.names
    ensures t.columns != [] ==> RowCount(r) == RowCount(t) + 1
    ensures forall c :: 0 <= c < |t.columns| ==> r.columns[c] == t.columns[c] + [x[c]]
  {
    var r := Table(t.names, seq(|t.columns|, c requires 0 <= c < |t.columns| => t.columns[c] + [x[c]]));
    assert t.columns != [] ==> |r.columns[0]| == |t.columns[0]| + 1;
    r
  }

  /** The values of a data row: `[float(y) for y in L.split()]`. */
  function RowValues(num: Conversions, line: string): Result<seq<real>>
  {
    MapAll(y => ToFloat(num, y), SplitWs(line))
  }

  /** The values stored from a row: the first `nskip` dropped when the row
      has exactly `nskip` more values than there are columns. */
  function Stored(x: seq<real>, columns: nat, nskip: nat): seq<real>
  {
    if |x| == columns + nskip then x[nskip..] else x
  }

  /** One iteration of the loop of `parse_sfo_segment` on a body line. */
  function WallStep(num: Conversions, st: WallState, raw: string): (r: Result<WallState>)
    requires StateOk(st)
    ensures r.Ok? ==> StateOk(r.value)
  {
    var line := Strip(raw);
    if '=' in line then
      var kv :- Unpack2(Split(line, EQUALS));
      Ok(st.(info := st.info[Strip(kv.0) := TextInfo(kv.1)]))
    else if StartsWith(line, HEADER_KL) then
      Ok(st.(fields := Some(NewTable(ColumnNames(line, 2))), nskip := 2))
    else if StartsWith(line, HEADER_MKL) then
      Ok(st.(fields := Some(NewTable(ColumnNames(line, 3))), nskip := 3))
    else if !HasFields(st) then Ok(st)
    else if !HasUnits(st) then
      var labels := SplitWs(line);
      var names := st.fields.value.names;
      if |labels| != |names| then Err(AssertionError)
      else Ok(st.(units := Some(Zip(names, labels)), inside := true))
    else if StartsWith(line, SUMMARY_MARK) || !st.inside then Ok(st.(inside := false))
    else
      var t := st.fields.value;
      var values :- RowValues(num, line);
      var x := Stored(values, |t.names|, st.nskip);
      if |x| < |t.names| then Err(IndexError)
      else Ok(st.(fields := Some(AppendRow(t, x))))
  }

  function WallRun(num: Conversions, st: WallState, lines: seq<string>): (r: Result<WallState>)
    requires StateOk(st)
    ensures r.Ok? ==> StateOk(r.value)
    decreases |lines|
  {
    if lines == [] then Ok(st)
    else
      var next :- WallStep(num, st, lines[0]);
      WallRun(num, next, lines[1..])
  }

  datatype WallSegment = WallSegment(wall: Table, info: map<string, InfoValue>, units: Option<map<string, string>>)

  function Start(info: map<string, InfoValue>): (st: WallState)
    ensures StateOk(st)
  {
    WallState(info, None, 0, None, false)
  }

  /** `parse_sfo_segment` on the title line followed by the body lines. */
  function ParseSfoSegment(num: Conversions, lines: seq<string>): (r: Result<WallSegment>)
    ensures r.Ok? ==> TableOk(r.value.wall)
    ensures lines == [] ==> r == Err(IndexError)
  {
    var first :- Index(lines, 0);
    var title :- ParseWallTitle(num, first);
    var st :- WallRun(num, Start(TitleInfo(title)), lines[1..]);
    if st.fields.None? then Err(AttributeError)
    else Ok(WallSegment(st.fields.value, st.info, st.units))
  }

  // ---------------------------------------------------------------------
  // What one line does.

  /** A `key = value` line records the raw value under the stripped key and
      changes nothing else; a second `=` is an unpacking error. */
  lemma InfoLine(num: Conversions, st: WallState, raw: string)
    requires StateOk(st) && '=' in Strip(raw)
    ensures var parts := Split(Strip(raw), EQUALS);
      WallStep(num, st, raw) == if |parts| == 2 then Ok(st.(info := st.info[Strip(parts[0]) := TextInfo(parts[1])]))
                                else Err(UnpackError)
  {
  }

  /** A column header starts a fresh table whose columns are the header's
      remaining tokens stripped of `|`, each once. */
  lemma HeaderLine(num: Conversions, st: WallState, raw: string)
    requires StateOk(st) && '=' !in Strip(raw)
    requires StartsWith(Strip(raw), HEADER_KL) || StartsWith(Strip(raw), HEADER_MKL)
    ensures WallStep(num, st, raw).Ok?
    ensures var next := WallStep(num, st, raw).value;
      var tokens := StripBars(Drop(SplitWs(Strip(raw)), next.nskip));
      next.fields.Some? && RowCount(next.fields.value) == 0 &&
      (forall name :: name in next.fields.value.names <==> name in tokens) &&
      (Distinct(tokens) ==> next.fields.value.names == tokens) &&
      (next.nskip == 2 <==> StartsWith(Strip(raw), HEADER_KL)) &&
      next.info == st.info && next.units == st.units && next.inside == st.inside
  {
  }

  /** The first line after the column header must hold one unit per column. */
  lemma UnitsMismatch(num: Conversions, st: WallState, raw: string)
    requires StateOk(st) && HasFields(st) && !HasUnits(st)
    requires '=' !in Strip(raw) && !StartsWith(Strip(raw), HEADER_KL) && !StartsWith(Strip(raw), HEADER_MKL)
    requires |SplitWs(Strip(raw))| != |st.fields.value.names|
    ensures WallStep(num, st, raw) == Err(AssertionError)
  {
  }

  /** A units line with one unit per column records `dict(zip(fields,
      units))`, each column paired with the unit in its place, and starts
      the data rows. */
  lemma UnitsLine(num: Conversions, st: WallState, raw: string)
    requires StateOk(st) && HasFields(st) && !HasUnits(st)
    requires '=' !in Strip(raw) && !StartsWith(Strip(raw), HEADER_KL) && !StartsWith(Strip(raw), HEADER_MKL)
    requires |SplitWs(Strip(raw))| == |st.fields.value.names|
    ensures var names, labels := st.fields.value.names, SplitWs(Strip(raw));
      Distinct(names) &&
      WallStep(num, st, raw) == Ok(st.(units := Some(Zip(names, labels)), inside := true)) &&
      forall i :: 0 <= i < |names| ==> WallStep(num, st, raw).value.units.value[names[i]] == labels[i]
  {
  }

  /** A data row appends to every column: the values after the first
      `nskip` when the row holds exactly `nskip` more values than columns,
      otherwise the leading values. */
  lemma DataRow(num: Conversions, st: WallState, raw: string)
    requires StateOk(st) && HasFields(st) && HasUnits(st) && st.inside
    requires '=' !in Strip(raw) && !StartsWith(Strip(raw), HEADER_KL) && !StartsWith(Strip(raw), HEADER_MKL)
    requires !StartsWith(Strip(raw), SUMMARY_MARK)
    requires WallStep(num, st, raw).Ok?
    ensures var t := st.fields.value;
      var x := Stored(RowValues(num, Strip(raw)).value, |t.names|, st.nskip);
      var next := WallStep(num, st, raw).value;
      RowValues(num, Strip(raw)).Ok? && |x| >= |t.names| &&
      next == st.(fields := Some(AppendRow(t, x))) &&
      forall c :: 0 <= c < |t.columns| ==> next.fields.value.columns[c] == t.columns[c] + [x[c]]
  {
  }

  /** A `Summary` line ends the data rows without touching the table. */
  lemma SummaryLine(num: Conversions, st: WallState, raw: string)
    requires StateOk(st) && HasFields(st) && HasUnits(st)
    requires '=' !in Strip(raw) && !StartsWith(Strip(raw), HEADER_KL) && !StartsWith(Strip(raw), HEADER_MKL)
    requires StartsWith(Strip(raw), SUMMARY_MARK)
    ensures WallStep(num, st, raw) == Ok(st.(inside := false))
  {
  }

  // ---------------------------------------------------------------------
  // Whole-body properties.

  /** Once the units are known and data collection has stopped, it never
      starts again: no later line adds a row. */
  lemma {:induction false} StoppedStaysStopped(num: Conversions, st: WallState, lines: seq<string>)
    requires StateOk(st) && HasUnits(st) && !st.inside
    requires WallRun(num, st, lines).Ok?
    ensures HasUnits(WallRun(num, st, lines).value) && !WallRun(num, st, lines).value.inside
    ensures st.fields.Some? && WallRun(num, st, lines).value.fields.Some?
      ==> RowCount(WallRun(num, st, lines).value.fields.value) <= RowCount(st.fields.value)
    ensures st.fields.None? && WallRun(num, st, lines).value.fields.Some?
      ==> RowCount(WallRun(num, st, lines).value.fields.value) == 0
    decreases |lines|
  {
    if lines != [] {
      var next := WallStep(num, st, lines[0]).value;
      StoppedStep(num, st, lines[0]);
      StoppedStaysStopped(num, next, lines[1..]);
    }
  }

  lemma StoppedStep(num: Conversions, st: WallState, raw: string)
    requires StateOk(st) && HasUnits(st) && !st.inside
    requires WallStep(num, st, raw).Ok?
    ensures var next := WallStep(num, st, raw).value;
      HasUnits(next) && !next.inside &&
      (st.fields.Some? && next.fields.Some? ==> RowCount(next.fields.value) <= RowCount(st.fields.value)) &&
      (next.fields.Some? ==> st.fields.Some? || RowCount(next.fields.value) == 0)
  {
    var line := Strip(raw);
    if '=' in line {
      InfoLine(num, st, raw);
    } else if StartsWith(line, HEADER_KL) || StartsWith(line, HEADER_MKL) {
      HeaderLine(num, st, raw);
    } else if !HasFields(st) {
      assert WallStep(num, st, raw) == Ok(st);
    } else {
      assert WallStep(num, st, raw) == Ok(st.(inside := false));
    }
  }

  predicate NoHeader(lines: seq<string>)
  {
    forall i :: 0 <= i < |lines| ==> !StartsWith(Strip(lines[i]), HEADER_KL) && !StartsWith(Strip(lines[i]), HEADER_MKL)
  }

  lemma {:induction false} NoHeaderNoFields(num: Conversions, st: WallState, lines: seq<string>)
    requires StateOk(st) && st.fields.None? && NoHeader(lines)
    requires WallRun(num, st, lines).Ok?
    ensures WallRun(num, st, lines).value.fields.None?
    decreases |lines|
  {
    if lines != [] {
      assert !StartsWith(Strip(lines[0]), HEADER_KL) && !StartsWith(Strip(lines[0]), HEADER_MKL);
      var next := WallStep(num, st, lines[0]).value;
      assert NoHeader(lines[1..]) by {
        forall i | 0 <= i < |lines[1..]| ensures !StartsWith(Strip(lines[1..][i]), HEADER_KL) && !StartsWith(Strip(lines[1..][i]), HEADER_MKL) {
          assert lines[1..][i] == lines[i + 1];
        }
      }
      NoHeaderNoFields(num, next, lines[1..]);
    }
  }

  /** A body without a column header fails: `fields` is still `None` when
      its columns are converted at the end. */
  lemma NoHeaderFails(num: Conversions, lines: seq<string>)
    requires |lines| >= 1 && NoHeader(lines[1..])
    ensures ParseSfoSegment(num, lines).Err?
    ensures ParseWallTitle(num, lines[0]).Ok? &&
            WallRun(num, Start(TitleInfo(ParseWallTitle(num, lines[0]).value)), lines[1..]).Ok? ==>
              ParseSfoSegment(num, lines) == Err(AttributeError)
  {
    var title := ParseWallTitle(num, lines[0]);
    if title.Ok? {
      var st := Start(TitleInfo(title.value));
      if WallRun(num, st, lines[1..]).Ok? {
        NoHeaderNoFields(num, st, lines[1..]);
      }
    }
  }
}
