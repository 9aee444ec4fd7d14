/** The beam-energy group of an SFO report (`parse_sfo_beam_energy`).

    Every line that starts with `V0` once stripped is read as
    `... = energy unit`; the last such line gives the result, and a group
    without one fails because the result variables are never assigned.
 */
module Beam {

  import opened Results
  import opened PyStr
  import opened Numbers
  import opened Summary

  const V0_MARK := "V0"
  const BEAM_KEY := "BeamEnergy"

  predicate IsV0(line: string)
  {
    StartsWith(Strip(line), V0_MARK)
  }

  /** A `V0` line (already stripped): the first space-separated token after
      the last `=` is the energy, the second one its unit. */
  function ReadV0(num: Conversions, line: string): (r: Result<(real, string)>)
  {
    ReadValueUnit(num, Split(LastField(line), " "))
  }

  /** The energy and unit from the pieces of a `V0` line's last field: the
      line reads exactly when the first piece is a number and there is a
      second piece, the unit; the failure is the conversion's ValueError or
      the missing unit's IndexError. */
  function ReadValueUnit(num: Conversions, val: seq<string>): (r: Result<(real, string)>)
    requires |val| >= 1
    ensures r.Ok? <==> ToFloat(num, val[0]).Ok? && |val| >= 2
    ensures r.Ok? ==> ToFloat(num, val[0]) == Ok(r.value.0) && r.value.1 == val[1]
    ensures r.Err? ==> r.error == ValueError || r.error == IndexError
  {
    var data :- ToFloat(num, val[0]);
    var unit :- Index(val, 1);
    Ok((data, unit))
  }

  /** The loop of `parse_sfo_beam_energy`: `found` holds the energy and unit
      of the last `V0` line read so far. */
  function BeamFrom(num: Conversions, found: Option<(real, string)>, lines: seq<string>): (r: Result<Option<(real, string)>>)
    ensures r.Ok? && found.Some? ==> r.value.Some?
    decreases |lines|
  {
    if lines == [] then Ok(found)
    else if IsV0(lines[0]) then
      var v :- ReadV0(num, Strip(lines[0]));
      BeamFrom(num, Some(v), lines[1..])
    else BeamFrom(num, found, lines[1..])
  }

  /** `parse_sfo_beam_energy`. */
  function ParseBeamEnergy(num: Conversions, lines: seq<string>): (r: Result<Quantities>)
    ensures r.Ok? ==> r.value.values.Keys == r.value.units.Keys == {BEAM_KEY}
  {
    var found :- BeamFrom(num, None, lines);
    if found.None? then Err(UnboundLocalError)
    else Ok(One(BEAM_KEY, found.value.0, found.value.1))
  }

  // ---------------------------------------------------------------------
  // The group as read-every-V0-line-then-keep-the-last.

  /** The stripped `V0` lines, in order. */
  function V0Lines(lines: seq<string>): seq<string>
    decreases |lines|
  {
    if lines == [] then []
    else if IsV0(lines[0]) then [Strip(lines[0])] + V0Lines(lines[1..])
    else V0Lines(lines[1..])
  }

  function V0Reader(num: Conversions): string -> Result<(real, string)>
  {
    line => ReadV0(num, line)
  }

  /** The outcome of reading every `V0` line: the last one read, or
      `found` when there is none. */
  function KeepLast(found: Option<(real, string)>, vs: seq<(real, string)>): Option<(real, string)>
  {
    if vs == [] then found else Some(Last(vs))
  }

  /** Reading every `V0` line: the first failure, or the last value read
      (`found` when there is none). */
  function ReadAllV0(num: Conversions, found: Option<(real, string)>, lines: seq<string>): Result<Option<(real, string)>>
  {
    var vs :- MapAll(V0Reader(num), V0Lines(lines));
    Ok(KeepLast(found, vs))
  }

  /** The loop reads every `V0` line, fails with the first one that fails,
      and otherwise ends with the last one (or `found` when there is none). */
  lemma {:induction false} BeamReference(num: Conversions, found: Option<(real, string)>, lines: seq<string>)
    ensures BeamFrom(num, found, lines) == ReadAllV0(num, found, lines)
    decreases |lines|
  {
    if lines != [] {
      if IsV0(lines[0]) {
        match ReadV0(num, Strip(lines[0]))
        case Err(_) =>
          ReferenceFails(num, found, lines);
        case Ok(v) =>
          BeamReference(num, Some(v), lines[1..]);
          ReferenceStep(num, found, v, lines);
      } else {
        BeamReference(num, found, lines[1..]);
        ReferenceSkips(num, found, lines);
      }
    }
  }

  lemma ReferenceFails(num: Conversions, found: Option<(real, string)>, lines: seq<string>)
    requires lines != [] && IsV0(lines[0]) && ReadV0(num, Strip(lines[0])).Err?
    ensures ReadAllV0(num, found, lines) == Err(ReadV0(num, Strip(lines[0])).error)
  {
    MapAllCons(V0Reader(num), Strip(lines[0]), V0Lines(lines[1..]));
  }

  lemma ReferenceSkips(num: Conversions, found: Option<(real, string)>, lines: seq<string>)
    requires lines != [] && !IsV0(lines[0])
    ensures ReadAllV0(num, found, lines) == ReadAllV0(num, found, lines[1..])
  {
  }

  lemma ReferenceStep(num: Conversions, found: Option<(real, string)>, v: (real, string), lines: seq<string>)
    requires lines != [] && IsV0(lines[0]) && ReadV0(num, Strip(lines[0])) == Ok(v)
    ensures ReadAllV0(num, Some(v), lines[1..]) == ReadAllV0(num, found, lines)
  {
    var f := V0Reader(num);
    var x := Strip(lines[0]);
    assert V0Lines(lines) == [x] + V0Lines(lines[1..]);
    ReadAllStep(f, x, V0Lines(lines[1..]), v, found);
  }

  /** Reading one more line in front that reads as `v`. */
  lemma ReadAllStep(f: string -> Result<(real, string)>, x: string, rest: seq<string>, v: (real, string), found: Option<(real, string)>)
    requires f(x) == Ok(v)
    ensures var a, b := MapAll(f, [x] + rest), MapAll(f, rest);
      (b.Err? ==> a == Err(b.error)) &&
      (b.Ok? ==> a.Ok? && KeepLast(found, a.value) == KeepLast(Some(v), b.value))
  {
    MapAllCons(f, x, rest);
    match MapAll(f, rest)
    case Err(_) =>
    case Ok(vs) =>
      assert Last([v] + vs) == if vs == [] then v else Last(vs);
  }

  /** Without a `V0` line the result variables are never assigned. */
  lemma NoV0Unbound(num: Conversions, lines: seq<string>)
    requires forall i :: 0 <= i < |lines| ==> !IsV0(lines[i])
    ensures ParseBeamEnergy(num, lines) == Err(UnboundLocalError)
  {
    NoV0Lines(lines);
    BeamReference(num, None, lines);
  }

  lemma {:induction false} NoV0Lines(lines: seq<string>)
    requires forall i :: 0 <= i < |lines| ==> !IsV0(lines[i])
    ensures V0Lines(lines) == []
    decreases |lines|
  {
    if lines != [] {
      assert !IsV0(lines[0]);
      assert forall i :: 0 <= i < |lines| - 1 ==> lines[1..][i] == lines[i + 1];
      NoV0Lines(lines[1..]);
    }
  }

  /** When every `V0` line reads, the energy and unit are those of the last one. */
  lemma BeamLastWins(num: Conversions, lines: seq<string>, last: (real, string))
    requires V0Lines(lines) != []
    requires forall i :: 0 <= i < |V0Lines(lines)| ==> ReadV0(num, V0Lines(lines)[i]).Ok?
    requires ReadV0(num, Last(V0Lines(lines))) == Ok(last)
    ensures ParseBeamEnergy(num, lines) == Ok(One(BEAM_KEY, last.0, last.1))
  {
    var ls := V0Lines(lines);
    var f := V0Reader(num);
    MapAllOk(f, ls);
    var vs := MapAll(f, ls).value;
    BeamReference(num, None, lines);
    assert BeamFrom(num, None, lines) == Ok(Some(Last(vs)));
    MapAllEach(f, ls, |ls| - 1);
    assert f(Last(ls)) == ReadV0(num, Last(ls));
    FoundGives(num, lines, Last(vs));
  }

  lemma FoundGives(num: Conversions, lines: seq<string>, v: (real, string))
    requires BeamFrom(num, None, lines) == Ok(Some(v))
    ensures ParseBeamEnergy(num, lines) == Ok(One(BEAM_KEY, v.0, v.1))
  {
  }

  /** A failing `V0` line fails the group with its error unless an earlier
      one already failed. */
  lemma BeamFirstError(num: Conversions, lines: seq<string>, i: nat)
    requires i < |V0Lines(lines)| && ReadV0(num, V0Lines(lines)[i]).Err?
    requires forall j :: 0 <= j < i ==> ReadV0(num, V0Lines(lines)[j]).Ok?
    ensures ParseBeamEnergy(num, lines) == Err(ReadV0(num, V0Lines(lines)[i]).error)
  {
    MapAllFirstError(V0Reader(num), V0Lines(lines), i);
    BeamReference(num, None, lines);
  }

  /** `V0 ... = energy unit`: the energy and its unit. */
  lemma V0Format(num: Conversions, line: string, p: string, a: string, w: string, unit: string, v: real)
    requires line == p + "=" + a + w + " " + unit
    requires StartsWith(p, V0_MARK) && '=' !in p
    requires All(a, IsSpace) && IsWord(w) && IsWord(unit) && '=' !in w && '=' !in unit
    requires ToFloat(num, w) == Ok(v)
    ensures IsV0(line) && ReadV0(num, Strip(line)) == Ok((v, unit))
  {
    var q := p + "=" + a + w + " ";
    assert q[..2] == p[..2];
    V0Shape(line, q, unit);
    V0Fields(num, line, p, a, w, unit, v);
  }

  /** A line from the `V0` mark to a word is already stripped. */
  lemma V0Shape(line: string, q: string, unit: string)
    requires line == q + unit && StartsWith(q, V0_MARK) && IsWord(unit)
    ensures Strip(line) == line && IsV0(line)
  {
    MarkTrimmed(line, q, unit);
    assert line[..2] == q[..2];
  }

  lemma MarkTrimmed(line: string, q: string, unit: string)
    requires line == q + unit && StartsWith(q, V0_MARK) && IsWord(unit)
    ensures line != [] && Trimmed(line, IsSpace)
  {
    assert line[0] == q[0] && line[|line| - 1] == unit[|unit| - 1];
  }

  lemma V0Fields(num: Conversions, line: string, p: string, a: string, w: string, unit: string, v: real)
    requires line == p + "=" + a + w + " " + unit
    requires '=' !in p
    requires All(a, IsSpace) && IsWord(w) && IsWord(unit) && '=' !in w && '=' !in unit
    requires ToFloat(num, w) == Ok(v)
    ensures ReadV0(num, line) == Ok((v, unit))
  {
    var x := a + w + " " + unit;
    Regroup(line, p, a, w, unit);
    SpacesNoChar(a, '=');
    assert '=' !in x;
    SplitAtChar(p, '=', x);
    ValueAndUnit(x, a, w, unit);
    V0OfFields(num, line, x, [w, unit], v);
  }

  lemma V0OfFields(num: Conversions, line: string, x: string, val: seq<string>, v: real)
    requires Last(Split(line, "=")) == x && Split(Strip(x), " ") == val
    requires |val| == 2 && ToFloat(num, val[0]) == Ok(v)
    ensures ReadV0(num, line) == Ok((v, val[1]))
  {
  }

  /** A `value unit` field after padding splits on spaces into the value and the unit. */
  lemma ValueAndUnit(x: string, a: string, w: string, unit: string)
    requires x == a + w + " " + unit
    requires All(a, IsSpace) && IsWord(w) && IsWord(unit)
    ensures Split(Strip(x), " ") == [w, unit]
  {
    var core := w + " " + unit;
    assert x == a + core + [];
    assert core[0] == w[0] && core[|core| - 1] == unit[|unit| - 1];
    StripPadded(a, core, []);
    WordNoSpace(w);
    WordNoSpace(unit);
    SplitAtChar(w, ' ', unit);
  }

  lemma Regroup(line: string, p: string, a: string, w: string, unit: string)
    requires line == p + "=" + a + w + " " + unit
    ensures line == p + ['='] + (a + w + " " + unit)
  {
  }
}
