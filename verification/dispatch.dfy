/** Turning one segmented group of an SFO report into data (`process_group`).

    The title line of a group picks its parser: the summary, a wall segment
    (whose title line is itself the first line the segment parser reads), or
    the beam energy. A group no parser claims passes through unchanged, and
    its title becomes its type name.
 */
module Dispatch {

  import opened Results
  import opened PyStr
  import opened Numbers
  import opened Segmenter
  import opened Summary
  import opened Wall
  import opened Beam

  // The two titles starting with a short word are written as that word
  // plus the rest, so that the verifier sees their first characters, which
  // tell the four titles apart.
  const SUMMARY_TITLE := "All " + "calculated values below refer to the mesh geometry only"
  const WALL_TITLE := "Power and fields on wall segment"
  const FIELDS_TITLE := "Fields on segment"
  const BEAM_TITLE := "The " + "field normalization factor ASCALE for this problem is based"

  const SUMMARY_TYPE := "summary"
  const WALL_TYPE := "wall_segment"
  const BEAM_TYPE := "BeamEnergy"

  /** The dict `process_group` returns, one alternative per parser. */
  datatype Processed =
    | SummaryGroup(quantities: Quantities)
    | WallGroup(segment: WallSegment)
    | BeamGroup(energy: Quantities)
    | RawGroup(title: string, lines: seq<string>)
  {
    /** The `type` entry of the dict. */
    function TypeName(): string
    {
      match this
      case SummaryGroup(_) => SUMMARY_TYPE
      case WallGroup(_) => WALL_TYPE
      case BeamGroup(_) => BEAM_TYPE
      case RawGroup(title, _) => title
    }
  }

  predicate IsSummaryTitle(t: string) { StartsWith(t, SUMMARY_TITLE) }
  predicate IsWallTitle(t: string) { StartsWith(t, WALL_TITLE) || StartsWith(t, FIELDS_TITLE) }
  predicate IsBeamTitle(t: string) { StartsWith(t, BEAM_TITLE) }

  /** No parser claims a group with this title. */
  predicate Unclaimed(t: string)
  {
    !IsSummaryTitle(t) && !IsWallTitle(t) && !IsBeamTitle(t)
  }

  /** `process_group`: the tests run in this order, the first that holds wins. */
  function ProcessGroup(num: Conversions, g: Group): (r: Result<Processed>)
    ensures Unclaimed(g.rawType) ==> r == Ok(RawGroup(g.rawType, g.lines))
    ensures r.Ok? && !r.value.RawGroup? ==> !Unclaimed(g.rawType)
  {
    if IsSummaryTitle(g.rawType) then
      var q :- ParseSummaryGroup(num, g.lines);
      Ok(SummaryGroup(q))
    else if IsWallTitle(g.rawType) then
      var s :- ParseSfoSegment(num, [g.rawType] + g.lines);
      Ok(WallGroup(s))
    else if IsBeamTitle(g.rawType) then
      var q :- ParseBeamEnergy(num, g.lines);
      Ok(BeamGroup(q))
    else Ok(RawGroup(g.rawType, g.lines))
  }

  function Processor(num: Conversions): Group -> Result<Processed>
  {
    g => ProcessGroup(num, g)
  }

  // ---------------------------------------------------------------------
  // The order of the tests does not matter.

  /** No title starts with two of the recognised title texts: each begins
      with a different letter. */
  lemma TitlesExclusive(t: string)
    ensures !(IsSummaryTitle(t) && IsWallTitle(t))
    ensures !(IsSummaryTitle(t) && IsBeamTitle(t))
    ensures !(IsWallTitle(t) && IsBeamTitle(t))
  {
    assert SUMMARY_TITLE[0] == 'A' && WALL_TITLE[0] == 'P' && FIELDS_TITLE[0] == 'F' && BEAM_TITLE[0] == 'T';
    FirstChar(t, SUMMARY_TITLE);
    FirstChar(t, WALL_TITLE);
    FirstChar(t, FIELDS_TITLE);
    FirstChar(t, BEAM_TITLE);
  }

  lemma FirstChar(t: string, prefix: string)
    requires prefix != []
    ensures StartsWith(t, prefix) ==> t[0] == prefix[0]
  {
    if StartsWith(t, prefix) {
      assert t[..|prefix|][0] == t[0];
    }
  }

  /** Each parser is chosen exactly when the title starts with its text, and
      a successful group's type name is that parser's: the summary and beam
      groups carry their parser's quantities, a wall group the segment parsed
      from its title line followed by its body. */
  lemma ProcessRouting(num: Conversions, g: Group)
    ensures IsSummaryTitle(g.rawType) ==>
      ProcessGroup(num, g) == (match ParseSummaryGroup(num, g.lines)
                               case Ok(q) => Ok(SummaryGroup(q))
                               case Err(e) => Err(e))
    ensures IsWallTitle(g.rawType) ==>
      ProcessGroup(num, g) == (match ParseSfoSegment(num, [g.rawType] + g.lines)
                               case Ok(s) => Ok(WallGroup(s))
                               case Err(e) => Err(e))
    ensures IsBeamTitle(g.rawType) ==>
      ProcessGroup(num, g) == (match ParseBeamEnergy(num, g.lines)
                               case Ok(q) => Ok(BeamGroup(q))
                               case Err(e) => Err(e))
  {
    TitlesExclusive(g.rawType);
  }

  /** A successful group is filed as a summary, a wall segment or a beam
      energy exactly when its title claims it; otherwise it keeps its lines
      and its title is its type name. */
  lemma ProcessedKind(num: Conversions, g: Group)
    requires ProcessGroup(num, g).Ok?
    ensures var d := ProcessGroup(num, g).value;
      (d.SummaryGroup? <==> IsSummaryTitle(g.rawType)) &&
      (d.WallGroup? <==> IsWallTitle(g.rawType)) &&
      (d.BeamGroup? <==> IsBeamTitle(g.rawType)) &&
      (d.RawGroup? ==> d == RawGroup(g.rawType, g.lines))
  {
    TitlesExclusive(g.rawType);
  }

  /** A group is filed under `wall_segment` when it is a wall segment, or when
      its own title is that word (no title of a parsed group is). */
  lemma WallTypeName(d: Processed)
    ensures d.TypeName() == WALL_TYPE <==> d.WallGroup? || (d.RawGroup? && d.title == WALL_TYPE)
  {
  }

  /** The header group that starts every segmented report passes through. */
  lemma HeaderPassesThrough(num: Conversions, g: Group)
    requires g.rawType == HEADER_LABEL
    ensures ProcessGroup(num, g) == Ok(RawGroup(HEADER_LABEL, g.lines))
  {
    var t := g.rawType;
    assert !IsSummaryTitle(t) && !IsWallTitle(t) && !IsBeamTitle(t) by {
      assert |SUMMARY_TITLE| > |t| && |WALL_TITLE| > |t| && |FIELDS_TITLE| > |t| && |BEAM_TITLE| > |t|;
    }
  }
}
