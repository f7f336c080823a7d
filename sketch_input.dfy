/**
 * Pointer input of sketch.js: the legend-swatch hit test shared by `getHoveredOpening`
 * and `mousePressed`, the point hit test of `mousePressed`, and the three-state click
 * machine (chart, opening popup, heatmap popup) driven by `imageVisible`,
 * `selectedOpening` and `clickedGameIndex`.
 */
module SketchInput {
  import opened Wrappers
  import opened Catalog
  import opened SketchPoints

  /** Horizontal distance between two legend swatches (`legendSpacing`). */
  const LegendSpacing: real := 120.0
  /** Side of a legend swatch (`rect(..., 15, 15)`). */
  const SwatchSize: real := 15.0
  /** Pixel radius within which a press selects a point. */
  const ClickRadius: real := 10.0

  /** JavaScript truthiness of an optional string: not null and not empty. */
  predicate Truthy(o: Option<string>)
  {
    o.Some? && o.value != ""
  }

  /** Left edge of swatch `k` (`legendX + index * legendSpacing`). */
  function SwatchLeft(k: nat): real
  {
    Margin + (k as real) * LegendSpacing
  }

  /** Top edge of every swatch (`legendY = margin / 2`). */
  function SwatchTop(): real
  {
    Margin / 2.0
  }

  /** The pointer is strictly inside swatch `k`; a pointer on an edge is outside. */
  predicate OnSwatch(k: nat, mx: real, my: real)
  {
    SwatchLeft(k) < mx < SwatchLeft(k) + SwatchSize
    && SwatchTop() < my < SwatchTop() + SwatchSize
  }

  /** The swatches are 120 pixels apart and 15 wide, so the pointer is inside at most one. */
  lemma AtMostOneSwatch(j: nat, k: nat, mx: real, my: real)
    ensures OnSwatch(j, mx, my) && OnSwatch(k, mx, my) ==> j == k
  {
    if j < k {
      assert (k as real) >= (j as real) + 1.0;
    } else if k < j {
      assert (j as real) >= (k as real) + 1.0;
    }
  }

  /** The legend loop from entry `from` on: the first swatch under the pointer. */
  function SwatchAt(mx: real, my: real, from: nat): (r: Option<nat>)
    requires from <= |TopOpenings|
    ensures r.Some? ==> from <= r.value < |TopOpenings| && OnSwatch(r.value, mx, my)
    ensures r.None? <==> forall j :: from <= j < |TopOpenings| ==> !OnSwatch(j, mx, my)
    decreases |TopOpenings| - from
  {
    if from == |TopOpenings| then None
    else if OnSwatch(from, mx, my) then Some(from)
    else SwatchAt(mx, my, from + 1)
  }

  /**
   * `getHoveredOpening`: the name of the swatch under the pointer, or null when the
   * pointer is inside none of them.
   */
  function HoveredOpening(mx: real, my: real): (r: Option<string>)
    ensures forall k :: 0 <= k < |TopOpenings| && OnSwatch(k, mx, my) ==> r == Some(TopOpenings[k].name)
    ensures r.None? <==> forall k :: 0 <= k < |TopOpenings| ==> !OnSwatch(k, mx, my)
  {
    match SwatchAt(mx, my, 0)
    case None => None
    case Some(k) =>
      assert forall j :: 0 <= j < |TopOpenings| && OnSwatch(j, mx, my) ==> j == k by {
        forall j | 0 <= j < |TopOpenings| && OnSwatch(j, mx, my) ensures j == k {
          AtMostOneSwatch(j, k, mx, my);
        }
      }
      Some(TopOpenings[k].name)
  }

  /** On the left edge of a swatch the pointer hovers over nothing. */
  lemma EdgeIsNotHover(k: nat, my: real)
    requires k < |TopOpenings|
    ensures HoveredOpening(SwatchLeft(k), my) == None
  {
    forall j | 0 <= j < |TopOpenings| ensures !OnSwatch(j, SwatchLeft(k), my) {
      if j < k {
        assert (k as real) >= (j as real) + 1.0;
      }
    }
  }

  /**
   * Squared distance from the pointer to a point, or `None` when a coordinate is
   * undefined or NaN (JavaScript's `dist` is then NaN and every comparison false).
   */
  function Dist2(p: Point, mx: real, my: real): (r: Option<real>)
    ensures r.Some? <==> p.x.Some? && p.y.Some?
    ensures r.Some? ==> r.value >= 0.0
  {
    if p.x.Some? && p.y.Some? then
      var dx := mx - p.x.value;
      var dy := my - p.y.value;
      Some(dx * dx + dy * dy)
    else None
  }

  /** `dist(mouseX, mouseY, p.x, p.y) < radius`, with squares instead of `sqrt`. */
  predicate Within(p: Point, mx: real, my: real, radius: real)
  {
    Dist2(p, mx, my).Some? && Dist2(p, mx, my).value < radius * radius
  }

  /** The point loop of `mousePressed` from position `from` on: the first point within 10 px. */
  function FirstNear(points: seq<Point>, mx: real, my: real, from: nat): (r: Option<nat>)
    requires from <= |points|
    ensures r.Some? ==> from <= r.value < |points| && Within(points[r.value], mx, my, ClickRadius)
    ensures r.Some? ==> forall j :: from <= j < r.value ==> !Within(points[j], mx, my, ClickRadius)
    ensures r.None? <==> forall j :: from <= j < |points| ==> !Within(points[j], mx, my, ClickRadius)
    decreases |points| - from
  {
    if from == |points| then None
    else if Within(points[from], mx, my, ClickRadius) then Some(from)
    else FirstNear(points, mx, my, from + 1)
  }

  // ---------------------------------------------------------------------------
  // The click machine.

  /** The three globals `mousePressed` updates. */
  datatype ClickState = ClickState(imageVisible: bool, selectedOpening: Option<string>,
                                   clickedGameIndex: Option<nat>)

  /** The initial values (`false`, `null`, `null`): the chart is shown. */
  function Initial(): ClickState
  {
    ClickState(false, None, None)
  }

  /**
   * The states the machine can reach from `Initial()`: in the chart both selections are
   * clear; in a popup exactly one is set, an opening name of the catalog or the row
   * number of a loaded game.
   */
  predicate ClickStateOk(s: ClickState, rowCount: nat)
  {
    && (!s.imageVisible ==> s.selectedOpening.None? && s.clickedGameIndex.None?)
    && (s.imageVisible ==> s.selectedOpening.Some? != s.clickedGameIndex.Some?)
    && (s.selectedOpening.Some? ==> s.selectedOpening.value in Names())
    && (s.clickedGameIndex.Some? ==> s.clickedGameIndex.value < rowCount)
  }

  /** `mousePressed` with the pointer at (mx, my). */
  function Press(s: ClickState, points: seq<Point>, mx: real, my: real): ClickState
  {
    if s.imageVisible then Initial()
    else match SwatchAt(mx, my, 0)
      case Some(k) => s.(selectedOpening := Some(TopOpenings[k].name), imageVisible := true)
      case None =>
        match FirstNear(points, mx, my, 0)
        case Some(j) => s.(clickedGameIndex := Some(points[j].index), imageVisible := true)
        case None => s
  }

  /** While a popup is visible, a press anywhere closes it and clears both selections. */
  lemma PressClosesPopup(s: ClickState, points: seq<Point>, mx: real, my: real)
    requires s.imageVisible
    ensures Press(s, points, mx, my) == Initial()
  {
  }

  /**
   * From the chart, a press inside swatch k selects that opening and shows the popup,
   * whatever points lie under the pointer; the game selection is left as it was.
   */
  lemma PressOnSwatch(s: ClickState, points: seq<Point>, mx: real, my: real, k: nat)
    requires !s.imageVisible && k < |TopOpenings| && OnSwatch(k, mx, my)
    ensures Press(s, points, mx, my)
      == ClickState(true, Some(TopOpenings[k].name), s.clickedGameIndex)
  {
    var r := SwatchAt(mx, my, 0);
    AtMostOneSwatch(r.value, k, mx, my);
  }

  /**
   * From the chart, a press on no swatch selects the first point in list order within
   * 10 pixels and shows its heatmap; the opening selection is left as it was.
   */
  lemma PressOnPoint(s: ClickState, points: seq<Point>, mx: real, my: real, j: nat)
    requires !s.imageVisible && (forall k :: 0 <= k < |TopOpenings| ==> !OnSwatch(k, mx, my))
    requires j < |points| && Within(points[j], mx, my, ClickRadius)
    requires forall i :: 0 <= i < j ==> !Within(points[i], mx, my, ClickRadius)
    ensures Press(s, points, mx, my)
      == ClickState(true, s.selectedOpening, Some(points[j].index))
  {
    var r := FirstNear(points, mx, my, 0);
    assert r.Some?;
  }

  /** From the chart, a press on no swatch and near no point changes nothing. */
  lemma PressElsewhere(s: ClickState, points: seq<Point>, mx: real, my: real)
    requires !s.imageVisible && (forall k :: 0 <= k < |TopOpenings| ==> !OnSwatch(k, mx, my))
    requires forall i :: 0 <= i < |points| ==> !Within(points[i], mx, my, ClickRadius)
    ensures Press(s, points, mx, my) == s
  {
  }

  /** Every press keeps the machine in a reachable state. */
  lemma PressKeepsStateOk(s: ClickState, points: seq<Point>, mx: real, my: real, rowCount: nat)
    requires ClickStateOk(s, rowCount)
    requires forall i :: 0 <= i < |points| ==> points[i].index < rowCount
    ensures ClickStateOk(Press(s, points, mx, my), rowCount)
  {
    if !s.imageVisible {
      match SwatchAt(mx, my, 0)
      case Some(k) =>
        assert Names()[k] == TopOpenings[k].name;
      case None =>
    }
  }
}
