/**
 * The view side of `PythonCoverageEventListener`: turning missing line numbers into the
 * indices of the view's line regions that get highlighted, and the gutter hover test.
 */
module Regions {
  import opened Wrappers
  import opened Lines

  /**
   * What one `_update_regions` run does to the view's "python-coverage" regions:
   * `Untouched` (the view has no file name), `Erased`, `Drawn` with the indices into
   * `view.lines(...)` of the highlighted lines, or `IndexFailure` when a missing line has no
   * line region, where the list comprehension raises `IndexError`.
   */
  datatype RegionUpdate = Untouched | Erased | Drawn(lineIndices: seq<nat>) | IndexFailure

  /** Python list indexing `xs[i]` into a list of length `n`; `None` stands for `IndexError`. */
  function PyIndex(i: int, n: nat): (r: Option<nat>)
    ensures r.Some? <==> -(n as int) <= i < n
    ensures 0 <= i < n ==> r == Some(i)
    ensures r.Some? ==> r.value < n && (r.value - i) % n == 0
  {
    if 0 <= i < n then Some(i)
    else if -(n as int) <= i < 0 then Some(n + i)
    else None
  }

  /**
   * `[all_lines_regions[line - 1] for line in missing]`, as indices into the `lineCount`
   * line regions of the view.
   */
  function RegionIndices(missing: seq<int>, lineCount: nat): (r: Option<seq<nat>>)
    ensures r.Some? <==> forall k :: 0 <= k < |missing| ==> -(lineCount as int) < missing[k] <= lineCount
    ensures r.Some? ==> |r.value| == |missing|
    ensures r.Some? ==> forall k :: 0 <= k < |missing| ==> r.value[k] < lineCount
  {
    if missing == [] then Some([])
    else
      match (PyIndex(missing[0] - 1, lineCount), RegionIndices(missing[1..], lineCount))
      case (Some(i), Some(rest)) => Some([i] + rest)
      case _ => None
  }

  /**
   * Every line number from 1 to the view's line count selects the region at `line - 1`, in the
   * order of the missing list; a descending list gives descending, hence distinct, regions.
   */
  lemma {:induction false} RegionIndicesOfLines(missing: seq<int>, lineCount: nat)
    requires forall k :: 0 <= k < |missing| ==> 1 <= missing[k] <= lineCount
    ensures RegionIndices(missing, lineCount).Some?
    ensures forall k :: 0 <= k < |missing| ==> RegionIndices(missing, lineCount).value[k] == missing[k] - 1
    ensures StrictlyDescending(missing) ==> StrictlyDescending(RegionIndices(missing, lineCount).value)
  {
    if missing != [] {
      RegionIndicesOfLines(missing[1..], lineCount);
      var r := RegionIndices(missing, lineCount).value;
      assert r == [missing[0] - 1] + RegionIndices(missing[1..], lineCount).value;
      assert forall k :: 0 <= k < |missing| ==> r[k] == missing[k] - 1;
    }
  }

  /** A line number above the view's line count makes the comprehension raise `IndexError`. */
  lemma LineBeyondViewFails(missing: seq<int>, lineCount: nat, k: nat)
    requires k < |missing| && missing[k] > lineCount
    ensures RegionIndices(missing, lineCount) == None
  {
  }

  /**
   * Lines 297-311 after the missing list is known: no record or nothing missing erases the
   * regions, otherwise the missing lines' regions are drawn.
   */
  function Render(missing: Option<seq<int>>, lineCount: nat): (u: RegionUpdate)
    ensures u == Erased <==> missing == None || missing == Some([])
    ensures u.Drawn? ==> missing.Some? && |u.lineIndices| == |missing.value| > 0
    ensures u == IndexFailure <==> missing.Some? && missing.value != [] && RegionIndices(missing.value, lineCount) == None
  {
    if missing == None || missing == Some([]) then Erased
    else
      match RegionIndices(missing.value, lineCount)
      case None => IndexFailure
      case Some(indices) => Drawn(indices)
  }

  /** A non-empty missing list whose lines all exist in the view draws exactly `line - 1` for each. */
  lemma RenderDrawsLines(missing: seq<int>, lineCount: nat)
    requires missing != []
    requires forall k :: 0 <= k < |missing| ==> 1 <= missing[k] <= lineCount
    ensures Render(Some(missing), lineCount).Drawn?
    ensures |Render(Some(missing), lineCount).lineIndices| == |missing|
    ensures forall k :: 0 <= k < |missing| ==> Render(Some(missing), lineCount).lineIndices[k] == missing[k] - 1
  {
    RegionIndicesOfLines(missing, lineCount);
  }

  /** Sublime's `Region(a, b)`; `b` may precede `a`. */
  datatype Region = Region(a: int, b: int) {
    function Begin(): int { if a <= b then a else b }
    function End(): int { if a <= b then b else a }
    /** `Region.contains(point)`: the point lies between the ends, both included. */
    predicate Contains(point: int) { Begin() <= point <= End() }
  }

  /** A region contains both of its ends, and which end comes first does not matter. */
  lemma RegionContainsEnds(r: Region)
    ensures r.Contains(r.a) && r.Contains(r.b)
    ensures forall p :: r.Contains(p) <==> Region(r.b, r.a).Contains(p)
  {
  }

  /** Where the mouse hovers: `sublime.HoverZone`. */
  datatype HoverZone = Text | Gutter | Margin

  /** The fixed tooltip shown for an uncovered line. */
  const HoverText := "Coverage: uncovered line"

  /**
   * `on_hover`: whether the tooltip is shown, which happens exactly when the mouse is in the
   * gutter over one of the drawn regions.
   */
  method OnHover(zone: HoverZone, regions: seq<Region>, point: int) returns (show: bool)
    ensures show <==> zone == Gutter && exists k :: 0 <= k < |regions| && regions[k].Contains(point)
  {
    if zone != Gutter {
      return false;
    }
    if regions == [] {
      return false;
    }
    var i := 0;
    while i < |regions|
      invariant 0 <= i <= |regions|
      invariant forall k :: 0 <= k < i ==> !regions[k].Contains(point)
    {
      if regions[i].Contains(point) {
        return true;
      }
      i := i + 1;
    }
    return false;
  }
}
