/**
 * What `draw` decides each frame in sketch.js, without the drawing itself: which branch
 * it takes (popup or chart), which picture the popup shows and where, which points the
 * line and the dots go through, and which point gets the tooltip.
 */
module SketchRender {
  import opened Wrappers
  import opened Catalog
  import opened SketchPoints
  import opened SketchInput

  /** Pixel radius within which the nearest point gets a tooltip. */
  const HoverRadius: real := 20.0

  /** `!hoveredOpening || point.opening === hoveredOpening`. */
  predicate Shown(p: Point, hovered: Option<string>)
  {
    !Truthy(hovered) || p.opening == hovered.value
  }

  /** The points the line and the dots are drawn through, in list order. */
  function Visible(points: seq<Point>, hovered: Option<string>): seq<Point>
  {
    if points == [] then []
    else (if Shown(points[0], hovered) then [points[0]] else []) + Visible(points[1..], hovered)
  }

  /** The vertex loop of `draw`. */
  method VisiblePoints(points: seq<Point>, hovered: Option<string>) returns (line: seq<Point>)
    ensures line == Visible(points, hovered)
  {
    line := [];
    var i := 0;
    while i < |points|
      invariant 0 <= i <= |points|
      invariant line + Visible(points[i..], hovered) == Visible(points, hovered)
    {
      assert points[i..][1..] == points[i + 1..];
      if Shown(points[i], hovered) {
        line := line + [points[i]];
      }
      i := i + 1;
    }
  }

  /** Filtering distributes over concatenation, so it keeps the list order. */
  lemma {:induction false} VisibleAppend(a: seq<Point>, b: seq<Point>, hovered: Option<string>)
    ensures Visible(a + b, hovered) == Visible(a, hovered) + Visible(b, hovered)
  {
    if a == [] {
      assert a + b == b;
    } else {
      var h := if Shown(a[0], hovered) then [a[0]] else [];
      calc {
        Visible(a + b, hovered);
        == { assert (a + b)[0] == a[0] && (a + b)[1..] == a[1..] + b; }
        h + Visible(a[1..] + b, hovered);
        == { VisibleAppend(a[1..], b, hovered); }
        h + (Visible(a[1..], hovered) + Visible(b, hovered));
        ==
        (h + Visible(a[1..], hovered)) + Visible(b, hovered);
      }
    }
  }

  /** A point is drawn exactly when it is in the list and belongs to the hovered opening. */
  lemma {:induction false} VisibleMembers(points: seq<Point>, hovered: Option<string>, p: Point)
    ensures p in Visible(points, hovered) <==> p in points && Shown(p, hovered)
  {
    if points != [] {
      VisibleMembers(points[1..], hovered, p);
      assert points == [points[0]] + points[1..];
    }
  }

  /** With no opening hovered, every point is drawn. */
  lemma {:induction false} VisibleAllWhenNoHover(points: seq<Point>)
    ensures Visible(points, None) == points
  {
    if points != [] {
      VisibleAllWhenNoHover(points[1..]);
      assert points == [points[0]] + points[1..];
    }
  }

  /** A shown point whose distance to the pointer is a number. */
  predicate Candidate(p: Point, hovered: Option<string>, mx: real, my: real)
  {
    Shown(p, hovered) && Dist2(p, mx, my).Some?
  }

  /**
   * `closest` is what the dot loop of `draw` leaves in `closestPoint`: a shown point
   * within 20 pixels, no farther than any other shown point, strictly nearer than every
   * shown point before it; or nothing, when no shown point is within 20 pixels.
   */
  predicate IsTooltip(points: seq<Point>, hovered: Option<string>, mx: real, my: real, closest: Option<nat>)
  {
    if closest.Some? then
      var c := closest.value;
      && c < |points| && Shown(points[c], hovered) && Within(points[c], mx, my, HoverRadius)
      && (forall j :: 0 <= j < |points| && Candidate(points[j], hovered, mx, my) ==>
            Dist2(points[c], mx, my).value <= Dist2(points[j], mx, my).value)
      && (forall j :: 0 <= j < c && Candidate(points[j], hovered, mx, my) ==>
            Dist2(points[c], mx, my).value < Dist2(points[j], mx, my).value)
    else
      forall j :: 0 <= j < |points| && Shown(points[j], hovered) ==> !Within(points[j], mx, my, HoverRadius)
  }

  /** The dot loop of `draw`: `d < minDistance && d < 20`, compared on squares. */
  method ClosestPoint(points: seq<Point>, hovered: Option<string>, mx: real, my: real) returns (closest: Option<nat>)
    ensures IsTooltip(points, hovered, mx, my, closest)
  {
    closest := None;
    var best: Option<real> := None;  // minDistance squared; None is Infinity
    for i := 0 to |points|
      invariant closest.Some? <==> best.Some?
      invariant closest.Some? ==>
        (closest.value < i && Shown(points[closest.value], hovered)
         && Dist2(points[closest.value], mx, my) == best && best.value < HoverRadius * HoverRadius)
      invariant best.Some? ==>
        forall j :: 0 <= j < i && Candidate(points[j], hovered, mx, my) ==> best.value <= Dist2(points[j], mx, my).value
      invariant closest.Some? ==>
        forall j :: 0 <= j < closest.value && Candidate(points[j], hovered, mx, my) ==>
          best.value < Dist2(points[j], mx, my).value
      invariant best.None? ==>
        forall j :: 0 <= j < i && Shown(points[j], hovered) ==> !Within(points[j], mx, my, HoverRadius)
    {
      if Shown(points[i], hovered) {
        var d := Dist2(points[i], mx, my);
        if d.Some? && (best.None? || d.value < best.value) && d.value < HoverRadius * HoverRadius {
          best := d;
          closest := Some(i);
        }
      }
    }
  }

  /** The tooltip choice is determined: ties go to the earliest point. */
  lemma TooltipIsUnique(points: seq<Point>, hovered: Option<string>, mx: real, my: real,
                        c1: Option<nat>, c2: Option<nat>)
    requires IsTooltip(points, hovered, mx, my, c1) && IsTooltip(points, hovered, mx, my, c2)
    ensures c1 == c2
  {
  }

  // ---------------------------------------------------------------------------
  // The popup.

  /** The picture `drawImagePopup` draws: an opening's diagram or a game's heatmap file. */
  datatype Picture = OpeningDiagram(opening: string) | Heatmap(gameNumber: nat)

  /** A picture with the box it is drawn in, or `Blank` when neither image is there. */
  datatype Popup = Popup(picture: Picture, left: real, top: real, width: real, height: real) | Blank

  /** The condition at the top of `draw` that selects the popup branch. */
  predicate ShowsPopup(s: ClickState)
  {
    s.imageVisible && (Truthy(s.selectedOpening) || s.clickedGameIndex.Some?)
  }

  /**
   * `drawImagePopup` on a canvas of `width` x `height`. `openingImages` holds the names
   * whose entry of `images` is set, `gameImages` is the length of `gameImages`; entry i
   * of that list is the file game_<i+1>_heatmap.png.
   */
  function PopupFor(s: ClickState, width: real, height: real, openingImages: set<string>, gameImages: nat): (r: Popup)
    ensures r.Popup? ==> r.left + r.width / 2.0 == width / 2.0 && r.top + r.height / 2.0 == height / 2.0
    ensures (r.Popup? && r.picture.OpeningDiagram?)
      <==> Truthy(s.selectedOpening) && s.selectedOpening.value in openingImages
    ensures r.Popup? && r.picture.OpeningDiagram? ==>
      r.picture.opening == s.selectedOpening.value && r.width == 800.0 && r.height == 400.0
    ensures (r.Popup? && r.picture.Heatmap?)
      <==> !(Truthy(s.selectedOpening) && s.selectedOpening.value in openingImages)
           && s.clickedGameIndex.Some? && s.clickedGameIndex.value < gameImages
    ensures r.Popup? && r.picture.Heatmap? ==>
      r.picture.gameNumber == s.clickedGameIndex.value + 1 && r.width == 400.0 && r.height == 400.0
  {
    if Truthy(s.selectedOpening) && s.selectedOpening.value in openingImages then
      Popup(OpeningDiagram(s.selectedOpening.value), (width - 800.0) / 2.0, (height - 400.0) / 2.0, 800.0, 400.0)
    else if s.clickedGameIndex.Some? && s.clickedGameIndex.value < gameImages then
      Popup(Heatmap(s.clickedGameIndex.value + 1), (width - 400.0) / 2.0, (height - 400.0) / 2.0, 400.0, 400.0)
    else Blank
  }

  /** In every reachable state, `draw` takes the popup branch exactly when `imageVisible` is set. */
  lemma PopupBranchIffVisible(s: ClickState, rowCount: nat)
    requires ClickStateOk(s, rowCount)
    ensures ShowsPopup(s) <==> s.imageVisible
  {
    if s.imageVisible && s.selectedOpening.Some? {
      NamesWellFormed();
      var k :| 0 <= k < |Names()| && Names()[k] == s.selectedOpening.value;
    }
  }

  /**
   * From the chart, a press inside swatch k makes the next frame a popup with that
   * opening's diagram, 800 x 400 and centred, when its image is loaded.
   */
  lemma SwatchPressShowsDiagram(s: ClickState, points: seq<Point>, mx: real, my: real, k: nat,
                                width: real, height: real, openingImages: set<string>, gameImages: nat)
    requires ClickStateOk(s, 0) && !s.imageVisible && k < |TopOpenings| && OnSwatch(k, mx, my)
    requires TopOpenings[k].name in openingImages
    ensures ShowsPopup(Press(s, points, mx, my))
    ensures PopupFor(Press(s, points, mx, my), width, height, openingImages, gameImages)
      == Popup(OpeningDiagram(TopOpenings[k].name), (width - 800.0) / 2.0, (height - 400.0) / 2.0, 800.0, 400.0)
  {
    PressOnSwatch(s, points, mx, my, k);
    NamesWellFormed();
  }

  /**
   * From the chart, a press that selects point j makes the next frame a popup with the
   * heatmap file of row `points[j].index`, numbered one higher, when that entry exists.
   */
  lemma PointPressShowsHeatmap(s: ClickState, points: seq<Point>, mx: real, my: real, j: nat,
                               width: real, height: real, openingImages: set<string>, gameImages: nat)
    requires ClickStateOk(s, 0) && !s.imageVisible && (forall k :: 0 <= k < |TopOpenings| ==> !OnSwatch(k, mx, my))
    requires j < |points| && Within(points[j], mx, my, ClickRadius)
    requires forall i :: 0 <= i < j ==> !Within(points[i], mx, my, ClickRadius)
    requires points[j].index < gameImages
    ensures ShowsPopup(Press(s, points, mx, my))
    ensures PopupFor(Press(s, points, mx, my), width, height, openingImages, gameImages)
      == Popup(Heatmap(points[j].index + 1), (width - 400.0) / 2.0, (height - 400.0) / 2.0, 400.0, 400.0)
  {
    PressOnPoint(s, points, mx, my, j);
  }

  /** One frame of `draw`: the popup, or the chart's grid indices, line, dots and the index of the point with the tooltip. */
  datatype Frame =
    | PopupFrame(popup: Popup)
    | ChartFrame(grid: seq<nat>, line: seq<Point>, dots: seq<Point>, tooltip: Option<nat>)
}
