/** One run per policy, each producing one slide, and the orchestrator that runs the four
    policies in order against the same table, appending a slide for each to one deck. */
module Policies {
  import opened Wrappers
  import opened Seqs
  import opened Text
  import opened Descriptors
  import opened Roles
  import opened Grid
  import opened Diagonal
  import opened Annotation

  /** What a policy run leaves behind: its slide, possibly partial, and the failure that
      stopped it, if any. */
  datatype Outcome = Outcome(slide: Slide, failure: Option<Failure>)

  function StripBoxes(verbs: seq<string>, slideHeight: int): seq<TextBox> {
    seq(|verbs|, k requires 0 <= k < |verbs| => StripBox(k, verbs[k], slideHeight))
  }

  /** The rows a grid policy lays out: the table without its leading rows (empty when the
      table has no more rows than that). */
  function GridSlice(p: GridPolicy, rows: seq<seq<string>>): (r: seq<seq<string>>)
    ensures |r| == if |rows| <= HeaderRows(p) then 0 else |rows| - HeaderRows(p)
  {
    if |rows| <= HeaderRows(p) then [] else rows[HeaderRows(p)..]
  }

  /** The slice keeps the rows after the dropped ones, in their order. */
  lemma GridSliceKeepsLaterRows(p: GridPolicy, rows: seq<seq<string>>, i: nat)
    requires i < |GridSlice(p, rows)|
    ensures GridSlice(p, rows)[i] == rows[HeaderRows(p) + i]
  {
  }

  /** The CoreProcess run: the diagonal layout of row 1, then the strip of the verbs of its
      cells other than column 3. */
  function CoreProcessOutcome(rows: seq<seq<string>>, tagger: Tagger, slideHeight: int): (r: Outcome)
    ensures r.failure.Some? ==> r.slide.boxes == [] && r.failure.value != EmptyFirstRow
    ensures |rows| >= 2 ==> r.slide.shapes == DiagonalLayout(rows[1]).shapes
  {
    if |rows| < 2 then Outcome(Slide([], []), Some(MissingRow))
    else
      var built := DiagonalLayout(rows[1]);
      if built.failure.Some? then Outcome(Slide(built.shapes, []), built.failure)
      else match CellsVerbs(tagger, WithoutColumnThree(rows[1]))
        case None => Outcome(Slide(built.shapes, []), Some(TaggerFailed))
        case Some(verbs) => Outcome(Slide(built.shapes, StripBoxes(verbs, slideHeight)), None)
  }

  /** A grid run: the wrapping grid of the slice, then the strip of the verbs of all its cells. */
  function GridOutcome(p: GridPolicy, rows: seq<seq<string>>, tagger: Tagger, slideHeight: int): (r: Outcome)
    ensures r.failure.Some? ==> r.slide.boxes == [] && !r.failure.value.BlankLabel?
    ensures r.failure != Some(MissingRow) && r.failure != Some(EmptyFirstRow) ==>
              r.slide.shapes == GridShapes(TableNodes(p, GridSlice(p, rows)))
  {
    var slice := GridSlice(p, rows);
    if slice == [] then Outcome(Slide([], []), Some(MissingRow))
    else if slice[0] == [] then Outcome(Slide([], []), Some(EmptyFirstRow))
    else
      var shapes := GridShapes(TableNodes(p, slice));
      match CellsVerbs(tagger, Flatten(slice))
      case None => Outcome(Slide(shapes, []), Some(TaggerFailed))
      case Some(verbs) => Outcome(Slide(shapes, StripBoxes(verbs, slideHeight)), None)
  }

  function PolicyOutcome(p: Policy, rows: seq<seq<string>>, tagger: Tagger, slideHeight: int): Outcome {
    if p.CoreProcess? then CoreProcessOutcome(rows, tagger, slideHeight)
    else GridOutcome(p, rows, tagger, slideHeight)
  }

  /** The CoreProcess run as the source sequences it. */
  method RunCoreProcess(rows: seq<seq<string>>, tagger: Tagger, slideHeight: int) returns (outcome: Outcome)
    ensures outcome == CoreProcessOutcome(rows, tagger, slideHeight)
  {
    if |rows| < 2 {
      return Outcome(Slide([], []), Some(MissingRow));
    }
    var shapes, failure := BuildDiagonal(rows[1]);
    if failure.Some? {
      return Outcome(Slide(shapes, []), failure);
    }
    var verbs := CollectRowVerbs(tagger, rows[1]);
    if verbs.None? {
      return Outcome(Slide(shapes, []), Some(TaggerFailed));
    }
    var boxes := PlaceStrip(verbs.value, slideHeight);
    outcome := Outcome(Slide(shapes, boxes), None);
  }

  /** A grid run as the source sequences it. */
  method RunGrid(p: GridPolicy, rows: seq<seq<string>>, tagger: Tagger, slideHeight: int) returns (outcome: Outcome)
    ensures outcome == GridOutcome(p, rows, tagger, slideHeight)
  {
    var slice := if |rows| <= HeaderRows(p) then [] else rows[HeaderRows(p)..];
    if |slice| == 0 {
      return Outcome(Slide([], []), Some(MissingRow));
    }
    if |slice[0]| == 0 {
      return Outcome(Slide([], []), Some(EmptyFirstRow));
    }
    var shapes := BuildGrid(p, slice);
    var verbs := CollectTableVerbs(tagger, slice);
    if verbs.None? {
      return Outcome(Slide(shapes, []), Some(TaggerFailed));
    }
    var boxes := PlaceStrip(verbs.value, slideHeight);
    outcome := Outcome(Slide(shapes, boxes), None);
  }

  /** A policy fails exactly when a row it indexes is missing, when a label it needs is
      blank, or when the tagger raises on a cell it scans. */
  lemma CoreProcessFailsIff(rows: seq<seq<string>>, tagger: Tagger, slideHeight: int)
    ensures CoreProcessOutcome(rows, tagger, slideHeight).failure.Some? <==>
              || |rows| < 2
              || (|rows[1]| > 0 && AllSpace(rows[1][0]))
              || (|rows[1]| > 5 && AllSpace(rows[1][5]))
              || exists k :: 0 <= k < |WithoutColumnThree(rows[1])|
                             && tagger(WithoutColumnThree(rows[1])[k]).None?
  {
    if |rows| >= 2 {
      DiagonalFailsIff(rows[1]);
      CellsVerbsFailsIff(tagger, WithoutColumnThree(rows[1]));
    }
  }

  lemma GridFailsIff(p: GridPolicy, rows: seq<seq<string>>, tagger: Tagger, slideHeight: int)
    ensures GridOutcome(p, rows, tagger, slideHeight).failure.Some? <==>
              || |rows| <= HeaderRows(p)
              || rows[HeaderRows(p)] == []
              || exists k :: 0 <= k < |Flatten(GridSlice(p, rows))| && tagger(Flatten(GridSlice(p, rows))[k]).None?
  {
    var slice := GridSlice(p, rows);
    CellsVerbsFailsIff(tagger, Flatten(slice));
    if |rows| > HeaderRows(p) {
      assert slice != [] && slice[0] == rows[HeaderRows(p)];
      if slice[0] != [] {
        assert GridOutcome(p, rows, tagger, slideHeight).failure.Some? <==> CellsVerbs(tagger, Flatten(slice)).None?;
        assert CellsVerbs(tagger, Flatten(slice)).None? <==> exists k :: 0 <= k < |Flatten(GridSlice(p, rows))| && tagger(Flatten(GridSlice(p, rows))[k]).None?;
        assert !(|rows| <= HeaderRows(p));
        assert !(rows[HeaderRows(p)] == []);
      }
    }
  }

  /** A failed run keeps the shapes placed before the failure but has no verb strip; a
      successful one boxes every collected verb. */
  lemma StripOnlyOnSuccess(p: Policy, rows: seq<seq<string>>, tagger: Tagger, slideHeight: int)
    ensures var o := PolicyOutcome(p, rows, tagger, slideHeight);
            o.failure.Some? ==> o.slide.boxes == []
    ensures p.CoreProcess? && PolicyOutcome(p, rows, tagger, slideHeight).failure.None? ==>
              |rows| >= 2 && CellsVerbs(tagger, WithoutColumnThree(rows[1])).Some?
              && |PolicyOutcome(p, rows, tagger, slideHeight).slide.boxes|
                 == |CellsVerbs(tagger, WithoutColumnThree(rows[1])).value|
    ensures !p.CoreProcess? && PolicyOutcome(p, rows, tagger, slideHeight).failure.None? ==>
              CellsVerbs(tagger, Flatten(GridSlice(p, rows))).Some?
              && |PolicyOutcome(p, rows, tagger, slideHeight).slide.boxes|
                 == |CellsVerbs(tagger, Flatten(GridSlice(p, rows))).value|
  {
  }

  /** The CoreProcess run reads only row 1 of the table. */
  lemma CoreProcessReadsOnlyRowOne(rows: seq<seq<string>>, rows': seq<seq<string>>, tagger: Tagger, slideHeight: int)
    requires |rows| >= 2 && |rows'| >= 2 && rows[1] == rows'[1]
    ensures CoreProcessOutcome(rows, tagger, slideHeight) == CoreProcessOutcome(rows', tagger, slideHeight)
  {
  }

  /** A logged failure: which policy stopped and why. */
  datatype LogEntry = Failed(policy: Policy, failure: Failure)

  function FailureLog(p: Policy, o: Outcome): seq<LogEntry> {
    if o.failure.Some? then [Failed(p, o.failure.value)] else []
  }

  /** The presentation the four policies share: its page height (which places the verb
      strip), its slides in the order they were added, and the failures logged so far. */
  class Deck {
    const slideHeight: int
    var slides: seq<Slide>
    var log: seq<LogEntry>

    constructor (slideHeight: int)
      ensures this.slideHeight == slideHeight
      ensures slides == [] && log == []
    {
      this.slideHeight := slideHeight;
      slides := [];
      log := [];
    }

    /** One policy run: its slide is added whether or not the run fails, and a failure is
        caught and logged instead of reaching the caller. */
    method Process(p: Policy, rows: seq<seq<string>>, tagger: Tagger)
      modifies this
      ensures slides == old(slides) + [PolicyOutcome(p, rows, tagger, slideHeight).slide]
      ensures log == old(log) + FailureLog(p, PolicyOutcome(p, rows, tagger, slideHeight))
    {
      var outcome;
      if p.CoreProcess? {
        outcome := RunCoreProcess(rows, tagger, slideHeight);
      } else {
        outcome := RunGrid(p, rows, tagger, slideHeight);
      }
      slides := slides + [outcome.slide];
      if outcome.failure.Some? {
        log := log + [Failed(p, outcome.failure.value)];
      }
    }

    /** The four policies in order; each one's slide depends only on the table, the tagger
        and the page height, so a failing policy cannot affect the others. */
    method RunAll(rows: seq<seq<string>>, tagger: Tagger)
      modifies this
      ensures slides == old(slides) + [PolicyOutcome(CoreProcess, rows, tagger, slideHeight).slide,
                                       PolicyOutcome(NonCoreProcess, rows, tagger, slideHeight).slide,
                                       PolicyOutcome(CorporatePolicy, rows, tagger, slideHeight).slide,
                                       PolicyOutcome(BusinessUnitPolicy, rows, tagger, slideHeight).slide]
      ensures log == old(log) + FailureLog(CoreProcess, PolicyOutcome(CoreProcess, rows, tagger, slideHeight))
                              + FailureLog(NonCoreProcess, PolicyOutcome(NonCoreProcess, rows, tagger, slideHeight))
                              + FailureLog(CorporatePolicy, PolicyOutcome(CorporatePolicy, rows, tagger, slideHeight))
                              + FailureLog(BusinessUnitPolicy, PolicyOutcome(BusinessUnitPolicy, rows, tagger, slideHeight))
    {
      Process(CoreProcess, rows, tagger);
      Process(NonCoreProcess, rows, tagger);
      Process(CorporatePolicy, rows, tagger);
      Process(BusinessUnitPolicy, rows, tagger);
    }
  }
}
