/** The master parser of an SFO report (`parse_sfo`).

    The report is cut into groups, every group is processed, and the result
    is filed by its type name: wall segments are collected in order, the
    summary and the beam energy each keep the last group of their type, a
    group named `header` is parsed as the header block, and every other group
    is kept under its own name. When both a summary and a beam energy were
    filed, the summary's kinetic energy is replaced by the beam energy in MeV.
 */
module Report {

  import opened Results
  import opened PyStr
  import opened Numbers
  import opened Segmenter
  import opened Header
  import opened Summary
  import opened Beam
  import opened Dispatch

  const KINETIC_KEY := "kinetic_energy"
  const MEV := "MeV"
  /** Electron-volts per mega-electron-volt. */
  const EV_PER_MEV: real := 1000000.0

  datatype SfoReport = SfoReport(
    wallSegments: seq<Processed>,
    summary: Option<Processed>,
    beam: Option<Processed>,
    header: Option<HeaderDoc>,
    other: map<string, Processed>)

  const EMPTY := SfoReport([], None, None, None, map[])

  /** The type names with a place of their own in the report. */
  predicate Special(t: string)
  {
    t == WALL_TYPE || t == SUMMARY_TYPE || t == BEAM_TYPE || t == HEADER_LABEL
  }

  /** Files one processed group under its type name. Only the header block
      can fail here, when its lines do not parse. */
  function File(num: Conversions, rep: SfoReport, d: Processed): (r: Result<SfoReport>)
    ensures r.Err? ==> d.RawGroup? && d.title == HEADER_LABEL && ParseHeaderLines(num, d.lines).Err?
  {
    var t := d.TypeName();
    if t == WALL_TYPE then Ok(rep.(wallSegments := rep.wallSegments + [d]))
    else if t == SUMMARY_TYPE then Ok(rep.(summary := Some(d)))
    else if t == BEAM_TYPE then Ok(rep.(beam := Some(d)))
    else if t == HEADER_LABEL then
      var h :- ParseHeaderLines(num, d.lines);
      Ok(rep.(header := Some(h)))
    else Ok(rep.(other := rep.other[t := d]))
  }

  /** The loop of `parse_sfo`: process a group, file it, go on with the next. */
  function FileAll(num: Conversions, rep: SfoReport, gs: seq<Group>): (r: Result<SfoReport>)
    ensures r.Ok? ==> rep.wallSegments <= r.value.wallSegments
    ensures r.Ok? && rep.header.Some? ==> r.value.header.Some?
    decreases |gs|
  {
    if gs == [] then Ok(rep)
    else
      var d :- ProcessGroup(num, gs[0]);
      var next :- File(num, rep, d);
      FileAll(num, next, gs[1..])
  }

  /** The kinetic-energy update at the end of `parse_sfo`. The beam energy
      is looked up first; a group filed under `summary` or `BeamEnergy`
      that its parser did not produce has no data, which is a key error. */
  function Kinetic(rep: SfoReport): (r: Result<SfoReport>)
    ensures rep.summary.None? || rep.beam.None? ==> r == Ok(rep)
    ensures r.Ok? ==> r.value.(summary := rep.summary) == rep
    ensures r.Err? ==> r.error == KeyError
    ensures rep.summary.Some? && rep.beam.Some? ==>
      (r.Ok? <==> rep.summary.value.SummaryGroup? && rep.beam.value.BeamGroup? &&
                  BEAM_KEY in rep.beam.value.energy.values)
    ensures r.Ok? && rep.summary.Some? && rep.beam.Some? ==>
      rep.summary.value.SummaryGroup? && rep.beam.value.BeamGroup? &&
      BEAM_KEY in rep.beam.value.energy.values &&
      Updated(rep.summary.value.quantities, r.value.summary,
              rep.beam.value.energy.values[BEAM_KEY] / EV_PER_MEV)
  {
    if rep.summary.None? || rep.beam.None? then Ok(rep)
    else
      var b := rep.beam.value;
      if !b.BeamGroup? || BEAM_KEY !in b.energy.values then Err(KeyError)
      else
        var s := rep.summary.value;
        if !s.SummaryGroup? then Err(KeyError)
        else
          var q := s.quantities;
          var energy := b.energy.values[BEAM_KEY] / EV_PER_MEV;
          Ok(rep.(summary := Some(SummaryGroup(Quantities(q.values[KINETIC_KEY := energy], q.units[KINETIC_KEY := MEV])))))
  }

  /** `after` is the summary `q` with its kinetic energy set to `energy` MeV
      and every other entry as it was. */
  predicate Updated(q: Quantities, after: Option<Processed>, energy: real)
  {
    after.Some? && after.value.SummaryGroup? &&
    var p := after.value.quantities;
    p.values.Keys == q.values.Keys + {KINETIC_KEY} && p.units.Keys == q.units.Keys + {KINETIC_KEY} &&
    p.values[KINETIC_KEY] == energy && p.units[KINETIC_KEY] == MEV &&
    (forall k :: k in q.values && k != KINETIC_KEY ==> p.values[k] == q.values[k]) &&
    (forall k :: k in q.units && k != KINETIC_KEY ==> p.units[k] == q.units[k])
  }

  /** `parse_sfo` on the lines of a report. A parsed report always holds a
      header block: the segmenter's first group is named `header` and passes
      through to the header parser. */
  function ParseSfo(num: Conversions, lines: seq<string>): (r: Result<SfoReport>)
    ensures r.Ok? ==> r.value.header.Some?
  {
    var rep :- FileAll(num, EMPTY, Segment(lines));
    HeaderFirst(num, Segment(lines));
    Kinetic(rep)
  }

  // ---------------------------------------------------------------------
  // The report as a function of the processed groups.

  /** The groups of type `t`, in order. */
  function OfType(ds: seq<Processed>, t: string): seq<Processed>
    decreases |ds|
  {
    if ds == [] then []
    else (if ds[0].TypeName() == t then [ds[0]] else []) + OfType(ds[1..], t)
  }

  /** The last group of type `t`, or `dflt` when there is none. */
  function LastOfType(ds: seq<Processed>, t: string, dflt: Option<Processed>): Option<Processed>
  {
    var xs := OfType(ds, t);
    if xs == [] then dflt else Some(Last(xs))
  }

  function Lookup<K, V>(m: map<K, V>, k: K): Option<V>
  {
    if k in m then Some(m[k]) else None
  }

  /** The header block a group named `header` parses to, if it does. */
  function HeaderDocOf(num: Conversions, d: Processed): Option<HeaderDoc>
  {
    if d.RawGroup? && ParseHeaderLines(num, d.lines).Ok? then Some(ParseHeaderLines(num, d.lines).value) else None
  }

  /** What filing the processed groups `ds` into `rep` leaves, field by field. */
  ghost predicate FiledAs(num: Conversions, rep: SfoReport, ds: seq<Processed>, out: SfoReport)
  {
    out.wallSegments == rep.wallSegments + OfType(ds, WALL_TYPE) &&
    out.summary == LastOfType(ds, SUMMARY_TYPE, rep.summary) &&
    out.beam == LastOfType(ds, BEAM_TYPE, rep.beam) &&
    HeaderFiled(num, rep.header, ds, out.header) &&
    OthersFiled(rep.other, ds, out.other)
  }

  /** The header block of the last group named `header`, or `before`. */
  predicate HeaderFiled(num: Conversions, before: Option<HeaderDoc>, ds: seq<Processed>, after: Option<HeaderDoc>)
  {
    var hs := OfType(ds, HEADER_LABEL);
    after == if hs == [] then before else HeaderDocOf(num, Last(hs))
  }

  /** Every name without a place of its own maps to the last group of that name. */
  ghost predicate OthersFiled(before: map<string, Processed>, ds: seq<Processed>, after: map<string, Processed>)
  {
    forall k :: Lookup(after, k) == if Special(k) then Lookup(before, k) else LastOfType(ds, k, Lookup(before, k))
  }

  lemma OfTypeCons(d: Processed, ds: seq<Processed>, t: string)
    ensures OfType([d] + ds, t) == (if d.TypeName() == t then [d] else []) + OfType(ds, t)
  {
    assert ([d] + ds)[0] == d && ([d] + ds)[1..] == ds;
  }

  lemma OfTypeOne(d: Processed, t: string)
    ensures OfType([d], t) == if d.TypeName() == t then [d] else []
  {
    OfTypeCons(d, [], t);
  }

  lemma LastOfTypeCons(d: Processed, ds: seq<Processed>, t: string, dflt: Option<Processed>)
    ensures LastOfType([d] + ds, t, dflt) == LastOfType(ds, t, LastOfType([d], t, dflt))
  {
    OfTypeCons(d, ds, t);
    OfTypeOne(d, t);
    var xs := OfType(ds, t);
    if d.TypeName() == t && xs != [] {
      assert Last([d] + xs) == Last(xs);
    }
  }

  lemma FileOther(num: Conversions, rep: SfoReport, d: Processed)
    requires File(num, rep, d).Ok?
    ensures var out := File(num, rep, d).value;
      out.other == if Special(d.TypeName()) then rep.other else rep.other[d.TypeName() := d]
  {
  }

  /** Filing one group changes only the place its type name selects. */
  lemma FileStep(num: Conversions, rep: SfoReport, d: Processed)
    requires File(num, rep, d).Ok?
    ensures FiledAs(num, rep, [d], File(num, rep, d).value)
  {
    var out := File(num, rep, d).value;
    var t := d.TypeName();
    OfTypeOne(d, WALL_TYPE);
    OfTypeOne(d, SUMMARY_TYPE);
    OfTypeOne(d, BEAM_TYPE);
    OfTypeOne(d, HEADER_LABEL);
    FileOther(num, rep, d);
    forall k
      ensures Lookup(out.other, k) == if Special(k) then Lookup(rep.other, k) else LastOfType([d], k, Lookup(rep.other, k))
    {
      OfTypeOne(d, k);
    }
  }

  lemma HeaderCons(num: Conversions, before: Option<HeaderDoc>, d: Processed, mid: Option<HeaderDoc>, ds: seq<Processed>, after: Option<HeaderDoc>)
    requires HeaderFiled(num, before, [d], mid) && HeaderFiled(num, mid, ds, after)
    ensures HeaderFiled(num, before, [d] + ds, after)
  {
    LastTypedCons(d, ds, HEADER_LABEL);
    LastTypedCons(d, [], HEADER_LABEL);
    assert [d] + [] == [d];
  }

  /** The last group of a type after one more group in front: the last of
      the rest when there is one, else the new group when it has the type. */
  lemma LastTypedCons(d: Processed, ds: seq<Processed>, t: string)
    ensures var xs, hs := OfType([d] + ds, t), OfType(ds, t);
      (xs == [] <==> hs == [] && d.TypeName() != t) &&
      (xs != [] ==> Last(xs) == if hs != [] then Last(hs) else d)
  {
    OfTypeCons(d, ds, t);
    var hs := OfType(ds, t);
    if d.TypeName() == t && hs != [] {
      assert Last([d] + hs) == Last(hs);
    }
  }

  lemma OthersCons(before: map<string, Processed>, d: Processed, mid: map<string, Processed>, ds: seq<Processed>, after: map<string, Processed>)
    requires OthersFiled(before, [d], mid) && OthersFiled(mid, ds, after)
    ensures OthersFiled(before, [d] + ds, after)
  {
    forall k
      ensures Lookup(after, k) == if Special(k) then Lookup(before, k) else LastOfType([d] + ds, k, Lookup(before, k))
    {
      LastOfTypeCons(d, ds, k, Lookup(before, k));
    }
  }

  lemma WallsCons(before: seq<Processed>, d: Processed, mid: seq<Processed>, ds: seq<Processed>, after: seq<Processed>)
    requires mid == before + OfType([d], WALL_TYPE) && after == mid + OfType(ds, WALL_TYPE)
    ensures after == before + OfType([d] + ds, WALL_TYPE)
  {
    OfTypeCons(d, ds, WALL_TYPE);
    OfTypeOne(d, WALL_TYPE);
    Associative(before, OfType([d], WALL_TYPE), OfType(ds, WALL_TYPE));
  }

  lemma Associative<T>(a: seq<T>, b: seq<T>, c: seq<T>)
    ensures a + b + c == a + (b + c)
  {
  }

  /** Filing `d` then `ds` files `[d] + ds`. */
  lemma FiledCons(num: Conversions, rep: SfoReport, d: Processed, mid: SfoReport, ds: seq<Processed>, out: SfoReport)
    requires FiledAs(num, rep, [d], mid) && FiledAs(num, mid, ds, out)
    ensures FiledAs(num, rep, [d] + ds, out)
  {
    WallsCons(rep.wallSegments, d, mid.wallSegments, ds, out.wallSegments);
    LastOfTypeCons(d, ds, SUMMARY_TYPE, rep.summary);
    LastOfTypeCons(d, ds, BEAM_TYPE, rep.beam);
    HeaderCons(num, rep.header, d, mid.header, ds, out.header);
    OthersCons(rep.other, d, mid.other, ds, out.other);
  }

  /** A successful run processes every group, and what it files is the
      result of filing the processed groups one after the other: the wall
      segments in order, the last summary, the last beam energy, the header
      block of the last `header` group and the last group of every other
      name. */
  lemma {:induction false} FileAllReference(num: Conversions, rep: SfoReport, gs: seq<Group>)
    requires FileAll(num, rep, gs).Ok?
    ensures MapAll(Processor(num), gs).Ok?
    ensures FiledAs(num, rep, MapAll(Processor(num), gs).value, FileAll(num, rep, gs).value)
    decreases |gs|
  {
    var f := Processor(num);
    if gs == [] {
      assert OthersFiled(rep.other, [], rep.other);
    } else {
      var d := ProcessGroup(num, gs[0]).value;
      var mid := File(num, rep, d).value;
      FileAllReference(num, mid, gs[1..]);
      var ds := MapAll(f, gs[1..]).value;
      assert MapAll(f, gs) == Ok([d] + ds);
      FileStep(num, rep, d);
      FiledCons(num, rep, d, mid, ds, FileAll(num, rep, gs).value);
    }
  }

  /** Conversely, the run succeeds when every group processes and every
      group named `header` parses as a header block. */
  lemma {:induction false} FileAllSucceeds(num: Conversions, rep: SfoReport, gs: seq<Group>)
    requires MapAll(Processor(num), gs).Ok?
    requires var ds := MapAll(Processor(num), gs).value;
      forall i :: 0 <= i < |ds| && ds[i].TypeName() == HEADER_LABEL ==> HeaderDocOf(num, ds[i]).Some?
    ensures FileAll(num, rep, gs).Ok?
    decreases |gs|
  {
    if gs != [] {
      var f := Processor(num);
      MapAllUnfold(f, gs);
      var ds := MapAll(f, gs).value;
      var rest := MapAll(f, gs[1..]).value;
      assert forall i :: 0 <= i < |rest| ==> rest[i] == ds[i + 1];
      FileFirst(num, rep, gs);
      FileAllSucceeds(num, File(num, rep, ds[0]).value, gs[1..]);
    }
  }

  lemma FileFirst(num: Conversions, rep: SfoReport, gs: seq<Group>)
    requires gs != [] && MapAll(Processor(num), gs).Ok?
    requires var d := MapAll(Processor(num), gs).value[0];
      d.TypeName() == HEADER_LABEL ==> HeaderDocOf(num, d).Some?
    ensures var d := MapAll(Processor(num), gs).value[0];
      ProcessGroup(num, gs[0]) == Ok(d) && File(num, rep, d).Ok? &&
      FileAll(num, rep, gs) == FileAll(num, File(num, rep, d).value, gs[1..])
  {
    MapAllUnfold(Processor(num), gs);
  }

  /** A run that starts with a group named `header` files a header block. */
  lemma HeaderFirst(num: Conversions, gs: seq<Group>)
    requires gs != [] && gs[0].rawType == HEADER_LABEL && FileAll(num, EMPTY, gs).Ok?
    ensures FileAll(num, EMPTY, gs).value.header.Some?
  {
    HeaderPassesThrough(num, gs[0]);
    var d := RawGroup(HEADER_LABEL, gs[0].lines);
    var mid := File(num, EMPTY, d).value;
    assert mid.header.Some?;
  }

  /** A parsed report, in terms of the processed groups `ds` of the
      segmented report: the wall segments in order, the last beam energy,
      the last group of every other name, and the last summary, whose
      kinetic energy is the beam energy in MeV exactly when both were filed. */
  lemma ReportReference(num: Conversions, lines: seq<string>)
    requires ParseSfo(num, lines).Ok?
    ensures MapAll(Processor(num), Segment(lines)).Ok?
    ensures var ds := MapAll(Processor(num), Segment(lines)).value;
      var out := ParseSfo(num, lines).value;
      var summary := LastOfType(ds, SUMMARY_TYPE, None);
      out.wallSegments == OfType(ds, WALL_TYPE) &&
      out.beam == LastOfType(ds, BEAM_TYPE, None) &&
      OthersFiled(map[], ds, out.other) &&
      (out.summary.Some? <==> summary.Some?) &&
      (if out.summary.Some? && out.beam.Some?
       then summary.value.SummaryGroup? && out.beam.value.BeamGroup? &&
            BEAM_KEY in out.beam.value.energy.values &&
            Updated(summary.value.quantities, out.summary, out.beam.value.energy.values[BEAM_KEY] / EV_PER_MEV)
       else out.summary == summary)
  {
    var gs := Segment(lines);
    FileAllReference(num, EMPTY, gs);
  }
}
