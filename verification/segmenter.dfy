/** The SFO report segmenter (`parse_sfo_into_groups`).

    Every line is stripped and blank lines are dropped. A line starting with
    the dash separator opens a new group; the next remaining line is that
    group's label, and the lines after it, up to the next separator, are its
    body. Lines before the first separator form a first group labelled
    `header`. The report arrives as its list of lines (the file read is not
    modelled).
 */
module Segmenter {

  import opened Results
  import opened PyStr

  const SEPARATOR := "-------------------"
  const HEADER_LABEL := "header"

  datatype Group = Group(rawType: string, lines: seq<string>)

  predicate IsSeparator(line: string)
  {
    StartsWith(line, SEPARATOR)
  }

  /** A line the segmenter may store, as a label or in a body:
      stripped, not blank, and not a separator. */
  predicate Storable(line: string)
  {
    Clean(line) && !IsSeparator(line)
  }

  predicate GroupOk(g: Group)
  {
    Storable(g.rawType) && forall j :: 0 <= j < |g.lines| ==> Storable(g.lines[j])
  }

  /** The shape of every segmenter output: a leading `header` group, and
      only storable labels and lines. */
  predicate WellFormed(gs: seq<Group>)
  {
    |gs| >= 1 && gs[0].rawType == HEADER_LABEL && forall i :: 0 <= i < |gs| ==> GroupOk(gs[i])
  }

  /** Adds `line` to the body of the last group. */
  function AppendLine(gs: seq<Group>, line: string): (r: seq<Group>)
    requires |gs| >= 1
    ensures |r| == |gs| && r[..|gs| - 1] == gs[..|gs| - 1]
    ensures Last(r) == Group(Last(gs).rawType, Last(gs).lines + [line])
  {
    gs[..|gs| - 1] + [Group(Last(gs).rawType, Last(gs).lines + [line])]
  }

  /** One iteration of the loop of `parse_sfo_into_groups` on a stripped
      line: the groups so far (the last one open) and whether a separator
      is waiting for its label, before and after. */
  function Step(acc: seq<Group>, pending: bool, line: string): (r: (seq<Group>, bool))
    requires |acc| >= 1
    ensures |r.0| >= |acc| && r.0[0].rawType == acc[0].rawType
    ensures line == "" ==> r == (acc, pending)
    ensures line != "" && IsSeparator(line) ==> r == (acc, true)
    ensures line != "" && !IsSeparator(line) ==> !r.1
  {
    if line == "" then (acc, pending)
    else if IsSeparator(line) then (acc, true)
    else if pending then (acc + [Group(line, [])], false)
    else (AppendLine(acc, line), false)
  }

  /** The loop of `parse_sfo_into_groups` from a state. */
  function SegmentFrom(acc: seq<Group>, pending: bool, lines: seq<string>): (r: seq<Group>)
    requires |acc| >= 1
    ensures |r| >= |acc| && r[0].rawType == acc[0].rawType
    decreases |lines|
  {
    if lines == [] then acc
    else
      var next := Step(acc, pending, Strip(lines[0]));
      SegmentFrom(next.0, next.1, lines[1..])
  }

  /** `parse_sfo_into_groups` on the lines of a report. */
  function Segment(lines: seq<string>): (r: seq<Group>)
    ensures WellFormed(r)
  {
    HeaderStorable();
    SegmentFromOk([Group(HEADER_LABEL, [])], false, lines);
    SegmentFrom([Group(HEADER_LABEL, [])], false, lines)
  }

  lemma StepOk(acc: seq<Group>, pending: bool, line: string)
    requires |acc| >= 1 && line == Strip(line)
    requires forall i :: 0 <= i < |acc| ==> GroupOk(acc[i])
    ensures var next := Step(acc, pending, line).0;
      forall i :: 0 <= i < |next| ==> GroupOk(next[i])
  {
    if line != "" && !IsSeparator(line) {
      var next := Step(acc, pending, line).0;
      assert Storable(line);
      if !pending {
        assert GroupOk(Last(acc));
        assert forall i :: 0 <= i < |next| - 1 ==> next[i] == acc[i];
      }
    }
  }

  /** The scan only ever stores storable labels and lines. */
  lemma {:induction false} SegmentFromOk(acc: seq<Group>, pending: bool, lines: seq<string>)
    requires |acc| >= 1
    requires forall i :: 0 <= i < |acc| ==> GroupOk(acc[i])
    ensures forall i :: 0 <= i < |SegmentFrom(acc, pending, lines)| ==> GroupOk(SegmentFrom(acc, pending, lines)[i])
    decreases |lines|
  {
    if lines != [] {
      var line := Strip(lines[0]);
      StripStripped(lines[0]);
      var next := Step(acc, pending, line);
      StepOk(acc, pending, line);
      SegmentFromOk(next.0, next.1, lines[1..]);
    }
  }

  /** One unfolding of the scan and of the reference reading. */
  lemma Unfold(acc: seq<Group>, pending: bool, lines: seq<string>)
    requires |acc| >= 1 && lines != []
    ensures var next := Step(acc, pending, Strip(lines[0]));
      SegmentFrom(acc, pending, lines) == SegmentFrom(next.0, next.1, lines[1..])
    ensures Cleaned(lines) == Kept(Strip(lines[0])) + Cleaned(lines[1..])
  {
  }

  lemma Regroup<T>(x: seq<T>, a: seq<T>, b: seq<T>, c: seq<T>, y: seq<T>)
    requires x == a + b + c && y == b + c
    ensures x == a + y
  {
  }

  lemma StripStripped(s: string)
    ensures Strip(Strip(s)) == Strip(s)
  {
  }

  lemma HeaderStorable()
    ensures Storable(HEADER_LABEL)
  {
    assert !IsSpace(HEADER_LABEL[0]) && !IsSpace(HEADER_LABEL[5]);
  }

  // ---------------------------------------------------------------------
  // A reference reading of the report line by line, independent of groups.

  /** The stripped, non-blank lines of the report, in order. */
  function Cleaned(lines: seq<string>): seq<string>
  {
    if lines == [] then []
    else Kept(Strip(lines[0])) + Cleaned(lines[1..])
  }

  function Kept(line: string): seq<string>
  {
    if line == "" then [] else [line]
  }

  /** The lines of `ns` that are neither separators nor the line right after
      one; `afterSep` says whether the line before `ns` was a separator. */
  function BodyLines(ns: seq<string>, afterSep: bool): seq<string>
  {
    if ns == [] then []
    else if IsSeparator(ns[0]) then BodyLines(ns[1..], true)
    else (if afterSep then [] else [ns[0]]) + BodyLines(ns[1..], false)
  }

  /** The lines of `ns` that are not separators but follow one directly. */
  function LabelLines(ns: seq<string>, afterSep: bool): seq<string>
  {
    if ns == [] then []
    else if IsSeparator(ns[0]) then LabelLines(ns[1..], true)
    else (if afterSep then [ns[0]] else []) + LabelLines(ns[1..], false)
  }

  /** All body lines of `gs`, group after group. */
  function AllLines(gs: seq<Group>): seq<string>
  {
    if gs == [] then [] else AllLines(gs[..|gs| - 1]) + Last(gs).lines
  }

  function Labels(gs: seq<Group>): (r: seq<string>)
    ensures |r| == |gs| && forall i :: 0 <= i < |gs| ==> r[i] == gs[i].rawType
  {
    seq(|gs|, i requires 0 <= i < |gs| => gs[i].rawType)
  }

  lemma AllLinesAppend(gs: seq<Group>, line: string)
    requires |gs| >= 1
    ensures AllLines(AppendLine(gs, line)) == AllLines(gs) + [line]
  {
    var r := AppendLine(gs, line);
    assert r[..|r| - 1] == gs[..|gs| - 1];
  }

  lemma AllLinesNewGroup(gs: seq<Group>, title: string)
    ensures AllLines(gs + [Group(title, [])]) == AllLines(gs)
  {
    assert (gs + [Group(title, [])])[..|gs|] == gs;
  }

  /** One step adds to the bodies exactly what the reference reading adds. */
  lemma StepBodies(acc: seq<Group>, pending: bool, line: string, ns: seq<string>)
    requires |acc| >= 1
    ensures var next := Step(acc, pending, line);
      exists add: seq<string> ::
        AllLines(next.0) == AllLines(acc) + add &&
        BodyLines(Kept(line) + ns, pending) == add + BodyLines(ns, next.1)
  {
    var next := Step(acc, pending, line);
    if line == "" {
      assert Kept(line) + ns == ns;
      assert AllLines(next.0) == AllLines(acc) + [];
    } else {
      var ms := Kept(line) + ns;
      assert ms[0] == line && ms[1..] == ns;
      if IsSeparator(line) {
        assert AllLines(next.0) == AllLines(acc) + [];
      } else if pending {
        AllLinesNewGroup(acc, line);
        assert AllLines(next.0) == AllLines(acc) + [];
        assert BodyLines(ms, pending) == [] + BodyLines(ns, false);
      } else {
        AllLinesAppend(acc, line);
        assert BodyLines(ms, pending) == [line] + BodyLines(ns, false);
      }
    }
  }

  /** The scan stores in the group bodies exactly the reference body lines, in order. */
  lemma {:induction false} SegmentFromBodies(acc: seq<Group>, pending: bool, lines: seq<string>)
    requires |acc| >= 1
    ensures AllLines(SegmentFrom(acc, pending, lines)) == AllLines(acc) + BodyLines(Cleaned(lines), pending)
    decreases |lines|
  {
    if lines == [] {
      assert AllLines(acc) + [] == AllLines(acc);
    } else {
      var line := Strip(lines[0]);
      var rest := lines[1..];
      var next := Step(acc, pending, line);
      Unfold(acc, pending, lines);
      StepBodies(acc, pending, line, Cleaned(rest));
      var add :| AllLines(next.0) == AllLines(acc) + add &&
        BodyLines(Kept(line) + Cleaned(rest), pending) == add + BodyLines(Cleaned(rest), next.1);
      SegmentFromBodies(next.0, next.1, rest);
      var tail := BodyLines(Cleaned(rest), next.1);
      assert AllLines(SegmentFrom(acc, pending, lines)) == AllLines(acc) + add + tail;
      assert BodyLines(Cleaned(lines), pending) == add + tail;
      Regroup(AllLines(SegmentFrom(acc, pending, lines)), AllLines(acc), add, tail, BodyLines(Cleaned(lines), pending));
    }
  }

  /** One step adds to the labels exactly what the reference reading adds. */
  lemma StepLabels(acc: seq<Group>, pending: bool, line: string, ns: seq<string>)
    requires |acc| >= 1
    ensures var next := Step(acc, pending, line);
      exists add: seq<string> ::
        Labels(next.0) == Labels(acc) + add &&
        LabelLines(Kept(line) + ns, pending) == add + LabelLines(ns, next.1)
  {
    var next := Step(acc, pending, line);
    if line == "" {
      assert Kept(line) + ns == ns;
      assert Labels(next.0) == Labels(acc) + [];
    } else {
      var ms := Kept(line) + ns;
      assert ms[0] == line && ms[1..] == ns;
      if IsSeparator(line) {
        assert Labels(next.0) == Labels(acc) + [];
      } else if pending {
        assert Labels(next.0) == Labels(acc) + [line];
        assert LabelLines(ms, pending) == [line] + LabelLines(ns, false);
      } else {
        assert Labels(next.0) == Labels(acc) + [];
        assert LabelLines(ms, pending) == [] + LabelLines(ns, false);
      }
    }
  }

  /** The scan labels its new groups with exactly the reference label lines, in order. */
  lemma {:induction false} SegmentFromLabels(acc: seq<Group>, pending: bool, lines: seq<string>)
    requires |acc| >= 1
    ensures Labels(SegmentFrom(acc, pending, lines)) == Labels(acc) + LabelLines(Cleaned(lines), pending)
    decreases |lines|
  {
    if lines == [] {
      assert Labels(acc) + [] == Labels(acc);
    } else {
      var line := Strip(lines[0]);
      var rest := lines[1..];
      var next := Step(acc, pending, line);
      Unfold(acc, pending, lines);
      StepLabels(acc, pending, line, Cleaned(rest));
      var add :| Labels(next.0) == Labels(acc) + add &&
        LabelLines(Kept(line) + Cleaned(rest), pending) == add + LabelLines(Cleaned(rest), next.1);
      SegmentFromLabels(next.0, next.1, rest);
      var tail := LabelLines(Cleaned(rest), next.1);
      assert Labels(SegmentFrom(acc, pending, lines)) == Labels(acc) + add + tail;
      assert LabelLines(Cleaned(lines), pending) == add + tail;
      Regroup(Labels(SegmentFrom(acc, pending, lines)), Labels(acc), add, tail, LabelLines(Cleaned(lines), pending));
    }
  }

  /** Every non-blank line that is neither a separator nor a label lands in
      exactly one group body, in file order; the labels after `header` are
      exactly the first non-separator lines after separators, in file order. */
  lemma SegmentContents(lines: seq<string>)
    ensures AllLines(Segment(lines)) == BodyLines(Cleaned(lines), false)
    ensures Labels(Segment(lines)) == [HEADER_LABEL] + LabelLines(Cleaned(lines), false)
  {
    SegmentBodies(lines, [Group(HEADER_LABEL, [])]);
    SegmentLabels(lines, [Group(HEADER_LABEL, [])]);
  }

  lemma SegmentBodies(lines: seq<string>, start: seq<Group>)
    requires start == [Group(HEADER_LABEL, [])]
    ensures AllLines(SegmentFrom(start, false, lines)) == BodyLines(Cleaned(lines), false)
  {
    SegmentFromBodies(start, false, lines);
    assert AllLines(start) == [] by {
      assert start[..0] == [];
    }
  }

  lemma SegmentLabels(lines: seq<string>, start: seq<Group>)
    requires start == [Group(HEADER_LABEL, [])]
    ensures Labels(SegmentFrom(start, false, lines)) == [HEADER_LABEL] + LabelLines(Cleaned(lines), false)
  {
    SegmentFromLabels(start, false, lines);
  }

  // ---------------------------------------------------------------------
  // Writing groups back out as report lines.

  /** The report lines of `gs`: the header body, then for every later group a
      separator, its label and its body. */
  function Render(gs: seq<Group>): seq<string>
    requires |gs| >= 1
  {
    gs[0].lines + RenderTail(gs[1..])
  }

  function RenderTail(gs: seq<Group>): seq<string>
  {
    if gs == [] then [] else [SEPARATOR, gs[0].rawType] + gs[0].lines + RenderTail(gs[1..])
  }

  /** Adds all of `ls` to the body of the last group. */
  function AppendLines(gs: seq<Group>, ls: seq<string>): seq<Group>
    requires |gs| >= 1
  {
    gs[..|gs| - 1] + [Group(Last(gs).rawType, Last(gs).lines + ls)]
  }

  lemma BodyStep(acc: seq<Group>, line: string)
    requires |acc| >= 1 && Storable(line)
    ensures Step(acc, false, Strip(line)) == (AppendLine(acc, line), false)
  {
    StorableStrip(line);
  }

  lemma OpenSteps(acc: seq<Group>, title: string)
    requires |acc| >= 1 && Storable(title)
    ensures Step(acc, false, Strip(SEPARATOR)) == (acc, true)
    ensures Step(acc, true, Strip(title)) == (acc + [Group(title, [])], false)
  {
    SeparatorStrip();
    StorableStrip(title);
  }

  lemma StorableStrip(line: string)
    requires Storable(line)
    ensures Strip(line) == line
  {
  }

  lemma SeparatorStrip()
    ensures Strip(SEPARATOR) == SEPARATOR && IsSeparator(SEPARATOR)
  {
    assert !IsSpace(SEPARATOR[0]) && !IsSpace(SEPARATOR[|SEPARATOR| - 1]);
  }

  /** Storable lines outside a pending separator go to the open group. */
  lemma {:induction false} SegmentFromBody(acc: seq<Group>, ls: seq<string>, rest: seq<string>)
    requires |acc| >= 1
    requires forall j :: 0 <= j < |ls| ==> Storable(ls[j])
    ensures SegmentFrom(acc, false, ls + rest) == SegmentFrom(AppendLines(acc, ls), false, rest)
    decreases |ls|
  {
    if ls == [] {
      assert ls + rest == rest;
      AppendNothing(acc);
    } else {
      var next := AppendLine(acc, ls[0]);
      SegmentFromStep(acc, ls, rest);
      SegmentFromBody(next, ls[1..], rest);
      AppendLinesStep(acc, ls);
    }
  }

  lemma AppendNothing(acc: seq<Group>)
    requires |acc| >= 1
    ensures AppendLines(acc, []) == acc
  {
    assert Last(acc).lines + [] == Last(acc).lines;
    assert acc == acc[..|acc| - 1] + [Last(acc)];
  }

  /** Appending one line, then more, appends them all. */
  lemma AppendLinesStep(acc: seq<Group>, ls: seq<string>)
    requires |acc| >= 1 && ls != []
    ensures AppendLines(AppendLine(acc, ls[0]), ls[1..]) == AppendLines(acc, ls)
  {
    assert Last(acc).lines + [ls[0]] + ls[1..] == Last(acc).lines + ls;
  }

  /** A storable body line is appended to the open group. */
  lemma SegmentFromStep(acc: seq<Group>, ls: seq<string>, rest: seq<string>)
    requires |acc| >= 1 && ls != [] && Storable(ls[0])
    ensures SegmentFrom(acc, false, ls + rest) == SegmentFrom(AppendLine(acc, ls[0]), false, ls[1..] + rest)
  {
    var s := ls + rest;
    assert s[0] == ls[0];
    assert s[1..] == ls[1..] + rest;
    BodyStep(acc, ls[0]);
    Unfold(acc, false, s);
  }


  /** A separator followed by a storable label opens a new group. */
  lemma SegmentFromOpen(acc: seq<Group>, title: string, rest: seq<string>)
    requires |acc| >= 1
    requires Storable(title)
    ensures SegmentFrom(acc, false, [SEPARATOR, title] + rest) == SegmentFrom(acc + [Group(title, [])], false, rest)
  {
    var s := [SEPARATOR, title] + rest;
    var s1 := [title] + rest;
    assert s[0] == SEPARATOR && s[1..] == s1;
    assert s1[0] == title && s1[1..] == rest;
    OpenSteps(acc, title);
    Unfold(acc, false, s);
    Unfold(acc, true, s1);
  }

  lemma {:induction false} SegmentFromTail(acc: seq<Group>, gs: seq<Group>)
    requires |acc| >= 1
    requires forall i :: 0 <= i < |gs| ==> GroupOk(gs[i])
    ensures SegmentFrom(acc, false, RenderTail(gs)) == acc + gs
    decreases |gs|
  {
    if gs == [] {
      assert acc + gs == acc;
    } else {
      var g := gs[0];
      var tail := RenderTail(gs[1..]);
      var started := acc + [Group(g.rawType, [])];
      assert GroupOk(g);
      assert RenderTail(gs) == [SEPARATOR, g.rawType] + (g.lines + tail);
      calc {
        SegmentFrom(acc, false, RenderTail(gs));
        { SegmentFromOpen(acc, g.rawType, g.lines + tail); }
        SegmentFrom(started, false, g.lines + tail);
        { SegmentFromBody(started, g.lines, tail); }
        SegmentFrom(AppendLines(started, g.lines), false, tail);
        { assert started[..|started| - 1] == acc;
          assert [] + g.lines == g.lines;
          assert AppendLines(started, g.lines) == acc + [g]; }
        SegmentFrom(acc + [g], false, tail);
        { SegmentFromTail(acc + [g], gs[1..]); }
        acc + [g] + gs[1..];
        { assert [g] + gs[1..] == gs; }
        acc + gs;
      }
    }
  }

  /** Segmenting the rendering of well-formed groups gives the groups back. */
  lemma SegmentRender(gs: seq<Group>)
    requires WellFormed(gs)
    ensures Segment(Render(gs)) == gs
  {
    HeaderBody([Group(HEADER_LABEL, [])], gs[0]);
    SegmentFromBody([Group(HEADER_LABEL, [])], gs[0].lines, RenderTail(gs[1..]));
    SegmentFromTail([gs[0]], gs[1..]);
    assert [gs[0]] + gs[1..] == gs;
  }

  lemma HeaderBody(start: seq<Group>, g: Group)
    requires start == [Group(HEADER_LABEL, [])] && g.rawType == HEADER_LABEL
    ensures AppendLines(start, g.lines) == [g]
  {
    assert [] + g.lines == g.lines;
  }

  /** Segmenting is idempotent: rendering the groups and segmenting again
      gives the same groups. */
  lemma SegmentIdempotent(lines: seq<string>)
    ensures Segment(Render(Segment(lines))) == Segment(lines)
  {
    SegmentRender(Segment(lines));
  }

  /** No line the segmenter stores is empty. */
  lemma SegmentNoEmptyLine(lines: seq<string>, i: nat, j: nat)
    requires i < |Segment(lines)| && j < |Segment(lines)[i].lines|
    ensures Segment(lines)[i].lines[j] != ""
  {
    assert GroupOk(Segment(lines)[i]);
  }
}
