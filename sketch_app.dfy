/**
 * The global state of sketch.js as one object: the loaded table, the canvas size, the
 * `points` list and the popup and hover flags, with the p5 callbacks `setup`,
 * `windowResized`, `mousePressed` and `draw` as its methods.
 */
module SketchApp {
  import opened Wrappers
  import opened Catalog
  import opened Dates
  import opened SketchPoints
  import opened SketchInput
  import opened SketchRender

  class Sketch {
    /** The rows of new_chess.csv, loaded once before `setup`. */
    const table: seq<Row>
    var width: real
    var height: real
    var points: seq<Point>
    var imageVisible: bool
    var selectedOpening: Option<string>
    var clickedGameIndex: Option<nat>
    var hoveredOpening: Option<string>

    /** The three globals that `mousePressed` changes. */
    function State(): ClickState
      reads this
    {
      ClickState(imageVisible, selectedOpening, clickedGameIndex)
    }

    ghost predicate Valid()
      reads this
    {
      && DatesReadable(table)
      && ClickStateOk(State(), |table|)
      && (forall k :: 0 <= k < |points| ==> points[k].index < |table|)
    }

    /** The globals before `setup`: no points, no popup; p5's default canvas is 100 x 100. */
    constructor (rows: seq<Row>)
      requires DatesReadable(rows)
      ensures Valid()
      ensures table == rows && width == 100.0 && height == 100.0
      ensures points == [] && State() == Initial() && hoveredOpening == None
    {
      table := rows;
      width, height := 100.0, 100.0;
      points := [];
      imageVisible, selectedOpening, clickedGameIndex := false, None, None;
      hoveredOpening := None;
    }

    /**
     * `setup`: create the canvas at the window size, then, unless the table is empty,
     * append a point per matched row, sort by date and assign coordinates.
     */
    method Setup(windowWidth: real, windowHeight: real)
      requires Valid()
      modifies this`width, this`height, this`points
      ensures Valid()
      ensures width == windowWidth && height == windowHeight
      ensures points == SetupPoints(old(points), table, windowWidth, windowHeight)
    {
      width, height := windowWidth, windowHeight;
      if |table| == 0 {
        return;
      }
      ghost var expected := SetupPoints(points, table, width, height);
      SetupPointsIndices(points, table, width, height);
      assert forall k :: 0 <= k < |expected| ==> expected[k].index < |table|;
      CollectMatched();
      points := SortByDate(points);
      AssignCoordinates();
      assert points == expected;
    }

    /** The first loop of `setup`: append a point for every row whose moves match. */
    method CollectMatched()
      requires DatesReadable(table)
      modifies this`points
      ensures points == old(points) + Collected(table, |table|)
    {
      var i := 0;
      while i < |table|
        invariant 0 <= i <= |table|
        invariant points == old(points) + Collected(table, i)
      {
        var row := table[i];
        var matched := Classify(row.moves);
        assert Collected(table, i + 1) == Collected(table, i) + Contribution(table, i);
        if matched.Some? {
          assert Matches(row);
          var opening := TopOpenings[matched.value];
          var point := Point(ParseDate(row.date).value, row.eloRating, opening.name, opening.color, i, None, None);
          assert Contribution(table, i) == [point];
          points := points + [point];
        } else {
          assert Contribution(table, i) == [];
        }
        i := i + 1;
      }
    }

    /** The second loop of `setup`: give every point the coordinates of its rank. */
    method AssignCoordinates()
      modifies this`points
      ensures points == Project(old(points), width, height)
    {
      var n := |points|;
      var k := 0;
      while k < n
        invariant 0 <= k <= n && |points| == n
        invariant forall j :: 0 <= j < k ==> points[j] == Project(old(points), width, height)[j]
        invariant forall j :: k <= j < n ==> points[j] == old(points)[j]
      {
        points := points[k := points[k].(x := XAt(k, n, width), y := YAt(points[k].eloRating, height))];
        k := k + 1;
      }
    }

    /** `windowResized`: resize the canvas and run `setup` again, keeping the old points. */
    method WindowResized(windowWidth: real, windowHeight: real)
      requires Valid()
      modifies this`width, this`height, this`points
      ensures Valid()
      ensures width == windowWidth && height == windowHeight
      ensures points == SetupPoints(old(points), table, windowWidth, windowHeight)
    {
      Setup(windowWidth, windowHeight);
    }

    /** `mousePressed` with the pointer at (mx, my). */
    method MousePressed(mx: real, my: real)
      requires Valid()
      modifies this`imageVisible, this`selectedOpening, this`clickedGameIndex
      ensures Valid()
      ensures State() == Press(old(State()), points, mx, my)
    {
      PressKeepsStateOk(State(), points, mx, my, |table|);
      if imageVisible {
        imageVisible := false;
        selectedOpening := None;
        clickedGameIndex := None;
      } else {
        var index := 0;
        while index < |TopOpenings|
          invariant 0 <= index <= |TopOpenings|
          invariant SwatchAt(mx, my, 0) == SwatchAt(mx, my, index)
        {
          if OnSwatch(index, mx, my) {
            assert SwatchAt(mx, my, index) == Some(index);
            selectedOpening := Some(TopOpenings[index].name);
            imageVisible := true;
            return;
          }
          index := index + 1;
        }
        assert SwatchAt(mx, my, 0) == None;
        var i := 0;
        while i < |points|
          invariant 0 <= i <= |points|
          invariant FirstNear(points, mx, my, 0) == FirstNear(points, mx, my, i)
        {
          if Within(points[i], mx, my, ClickRadius) {
            assert FirstNear(points, mx, my, i) == Some(i);
            clickedGameIndex := Some(points[i].index);
            imageVisible := true;
            return;
          }
          i := i + 1;
        }
        assert FirstNear(points, mx, my, 0) == None;
      }
    }

    /**
     * `draw` with the pointer at (mx, my): the popup branch, or the chart with its grid
     * and label indices, the hover filter and the tooltip. The chart's stepping loops
     * end only for no points or at least ten.
     */
    method Draw(mx: real, my: real, openingImages: set<string>, gameImages: nat) returns (frame: Frame)
      requires Valid()
      requires !ShowsPopup(State()) ==> |points| == 0 || |points| >= 10
      modifies this`hoveredOpening
      ensures Valid()
      ensures ShowsPopup(State()) ==>
        frame == PopupFrame(PopupFor(State(), width, height, openingImages, gameImages))
        && hoveredOpening == old(hoveredOpening)
      ensures !ShowsPopup(State()) ==>
        && hoveredOpening == HoveredOpening(mx, my)
        && frame.ChartFrame?
        && GridSteps(|points|, frame.grid)
        && frame.line == Visible(points, hoveredOpening)
        && frame.dots == frame.line
        && IsTooltip(points, hoveredOpening, mx, my, frame.tooltip)
    {
      if imageVisible && (Truthy(selectedOpening) || clickedGameIndex.Some?) {
        frame := PopupFrame(PopupFor(State(), width, height, openingImages, gameImages));
        return;
      }
      var grid := GridIndices(|points|);
      hoveredOpening := HoveredOpening(mx, my);
      var line := VisiblePoints(points, hoveredOpening);
      var closest := ClosestPoint(points, hoveredOpening, mx, my);
      frame := ChartFrame(grid, line, line, closest);
    }
  }
}
