/**
 * The data side of sketch.js `setup`: classify each table row by its moves, build the
 * point list, sort it by date and project rank and Elo onto the plot box; and the
 * index stepping of the grid and date-label loops of `drawGrid` and `draw`.
 */
module SketchPoints {
  import opened Wrappers
  import opened Catalog
  import opened Dates

  /** Distance in pixels between the canvas edge and the plot box (`margin`). */
  const Margin: real := 80.0

  /** Lowest and highest Elo of the y axis (`map(..., 700, 1350, ...)`). */
  const EloLow: real := 700.0
  const EloHigh: real := 1350.0

  /** One row of the loaded table: the Date, EloRating and Moves columns. */
  datatype Row = Row(date: string, eloRating: real, moves: string)

  /**
   * An element of `points`. `x` and `y` are `None` while JavaScript has not assigned
   * them (undefined) or when `map` produced NaN.
   */
  datatype Point = Point(date: Date, eloRating: real, opening: string, color: string,
                         index: nat, x: Option<real>, y: Option<real>)

  /** The catalog entry a move string belongs to (sketch.js `find` over `topOpenings`). */
  function Classify(moves: string): Option<nat>
  {
    FirstMatch(Keys(), moves)
  }

  predicate Matches(r: Row)
  {
    Classify(r.moves).Some?
  }

  /** Every row that produces a point carries a date `parseDate` can read. */
  predicate DatesReadable(rows: seq<Row>)
  {
    forall i {:trigger Matches(rows[i])} :: 0 <= i < |rows| && Matches(rows[i]) ==> ParseDate(rows[i].date).Some?
  }

  /** The object `setup` pushes for row `i`; coordinates are not yet assigned. */
  function NewPoint(r: Row, i: nat): (p: Point)
    requires Matches(r) && ParseDate(r.date).Some?
    ensures p.index == i && p.opening in Names()
  {
    var e := TopOpenings[Classify(r.moves).value];
    Point(ParseDate(r.date).value, r.eloRating, e.name, e.color, i, None, None)
  }

  /** The points the filter loop appends while visiting rows[0..n). */
  function Collected(rows: seq<Row>, n: nat): seq<Point>
    requires n <= |rows| && DatesReadable(rows)
  {
    if n == 0 then [] else Collected(rows, n - 1) + Contribution(rows, n - 1)
  }

  /** What visiting row `i` appends: its point if it matches, nothing otherwise. */
  function Contribution(rows: seq<Row>, i: nat): (c: seq<Point>)
    requires i < |rows| && DatesReadable(rows)
    ensures |c| <= 1 && (c != [] <==> Matches(rows[i]))
    ensures c != [] ==> c[0].index == i
  {
    if Matches(rows[i]) then [NewPoint(rows[i], i)] else []
  }

  /** Every point of `c` is the point of the matched row below `n` that its `index` names. */
  predicate FromRows(rows: seq<Row>, c: seq<Point>, n: nat)
    requires n <= |rows| && DatesReadable(rows)
  {
    forall k :: 0 <= k < |c| ==>
      c[k].index < n && Matches(rows[c[k].index]) && c[k] == NewPoint(rows[c[k].index], c[k].index)
  }

  /** Each point comes from the matched row its `index` names, with that row's date, Elo and catalog entry. */
  lemma {:induction false} CollectedFromRows(rows: seq<Row>, n: nat)
    requires n <= |rows| && DatesReadable(rows)
    ensures FromRows(rows, Collected(rows, n), n)
  {
    if n > 0 {
      CollectedFromRows(rows, n - 1);
      var c := Collected(rows, n - 1);
      var c' := Collected(rows, n);
      assert c' == c + Contribution(rows, n - 1);
      forall k | 0 <= k < |c'|
        ensures c'[k].index < n && Matches(rows[c'[k].index])
        ensures c'[k] == NewPoint(rows[c'[k].index], c'[k].index)
      {
        if k < |c| {
          assert c'[k] == c[k];
        } else {
          assert Matches(rows[n - 1]);
          assert c'[k] == NewPoint(rows[n - 1], n - 1);
        }
      }
    }
  }

  predicate IndicesIncrease(c: seq<Point>)
  {
    forall a, b :: 0 <= a < b < |c| ==> c[a].index < c[b].index
  }

  /** Before the sort, points appear in strictly increasing row order: at most one point per row. */
  lemma {:induction false} CollectedIncreasing(rows: seq<Row>, n: nat)
    requires n <= |rows| && DatesReadable(rows)
    ensures IndicesIncrease(Collected(rows, n))
  {
    if n > 0 {
      CollectedIncreasing(rows, n - 1);
      CollectedFromRows(rows, n - 1);
      var c := Collected(rows, n - 1);
      var c' := Collected(rows, n);
      assert c' == c + Contribution(rows, n - 1);
      forall a, b | 0 <= a < b < |c'| ensures c'[a].index < c'[b].index {
        assert c'[a] == c[a];
        if b < |c| {
          assert c'[b] == c[b];
        } else {
          assert Matches(rows[n - 1]);
          assert c'[b].index == n - 1;
        }
      }
    }
  }

  /** Row `i` below `n` has a point in `c` exactly when it matches the catalog. */
  predicate CoversMatches(rows: seq<Row>, c: seq<Point>, n: nat)
    requires n <= |rows|
  {
    forall i :: 0 <= i < n ==> (Matches(rows[i]) <==> exists k :: 0 <= k < |c| && c[k].index == i)
  }

  /** Row `i` yields a point exactly when some catalog key is a prefix of its moves. */
  lemma CollectedCoversMatches(rows: seq<Row>, n: nat)
    requires n <= |rows| && DatesReadable(rows)
    ensures CoversMatches(rows, Collected(rows, n), n)
  {
    CollectedFromRows(rows, n);
    var c := Collected(rows, n);
    forall i | 0 <= i < n
      ensures Matches(rows[i]) <==> exists k :: 0 <= k < |c| && c[k].index == i
    {
      if Matches(rows[i]) {
        var k := RowPosition(rows, n, i);
        assert c[k].index == i;
      } else {
        forall k | 0 <= k < |c| ensures c[k].index != i {
          assert Matches(rows[c[k].index]);
        }
      }
    }
  }

  /** Where the point of matched row `i` sits in the collected list. */
  lemma {:induction false} RowPosition(rows: seq<Row>, n: nat, i: nat) returns (k: nat)
    requires i < n <= |rows| && DatesReadable(rows) && Matches(rows[i])
    ensures k < |Collected(rows, n)| && Collected(rows, n)[k].index == i
  {
    var c := Collected(rows, n - 1);
    assert Collected(rows, n) == c + Contribution(rows, n - 1);
    if i == n - 1 {
      k := |c|;
      assert Collected(rows, n)[k] == Contribution(rows, n - 1)[0];
    } else {
      k := RowPosition(rows, n - 1, i);
      assert Collected(rows, n)[k] == c[k];
    }
  }

  // ---------------------------------------------------------------------------
  // `points.sort((a, b) => a.date - b.date)`: ECMAScript's sort is stable, so the
  // result is the stable sort by date, written here as an insertion sort.

  /** Insert `p` before the first element not earlier than it. */
  function Insert(p: Point, s: seq<Point>): seq<Point>
  {
    if s == [] || !Before(s[0].date, p.date) then [p] + s
    else [s[0]] + Insert(p, s[1..])
  }

  function SortByDate(s: seq<Point>): seq<Point>
  {
    if s == [] then [] else Insert(s[0], SortByDate(s[1..]))
  }

  /** Dates never decrease along the list. */
  predicate DateOrdered(s: seq<Point>)
  {
    forall a, b :: 0 <= a < b < |s| ==> !Before(s[b].date, s[a].date)
  }

  /** The points of `s` dated `d`, in list order. */
  function WithDate(s: seq<Point>, d: Date): seq<Point>
  {
    if s == [] then []
    else (if s[0].date == d then [s[0]] else []) + WithDate(s[1..], d)
  }

  lemma {:induction false} InsertPermutes(p: Point, s: seq<Point>)
    ensures multiset(Insert(p, s)) == multiset(s) + multiset{p}
  {
    if s != [] && Before(s[0].date, p.date) {
      InsertPermutes(p, s[1..]);
      assert s == [s[0]] + s[1..];
    }
  }

  lemma {:induction false} InsertOrdered(p: Point, s: seq<Point>)
    requires DateOrdered(s)
    ensures DateOrdered(Insert(p, s))
  {
    if s != [] && Before(s[0].date, p.date) {
      var t := s[1..];
      assert DateOrdered(t);
      InsertOrdered(p, t);
      InsertPermutes(p, t);
      var r := Insert(p, t);
      forall b | 0 <= b < |r| ensures !Before(r[b].date, s[0].date) {
        assert r[b] in multiset(r);
        assert r[b] == p || r[b] in multiset(t);
        if r[b] != p {
          var j :| 0 <= j < |t| && t[j] == r[b];
          assert s[j + 1] == t[j];
        }
      }
    }
  }

  lemma {:induction false} InsertWithDate(p: Point, s: seq<Point>, d: Date)
    ensures WithDate(Insert(p, s), d) == (if p.date == d then [p] else []) + WithDate(s, d)
  {
    if s == [] || !Before(s[0].date, p.date) {
      assert ([p] + s)[1..] == s;
    } else {
      InsertWithDate(p, s[1..], d);
      assert ([s[0]] + Insert(p, s[1..]))[1..] == Insert(p, s[1..]);
    }
  }

  /** The sort returns the points it was given, each as often as before. */
  lemma {:induction false} SortPermutes(s: seq<Point>)
    ensures multiset(SortByDate(s)) == multiset(s)
  {
    if s != [] {
      SortPermutes(s[1..]);
      InsertPermutes(s[0], SortByDate(s[1..]));
      assert s == [s[0]] + s[1..];
    }
  }

  /** After the sort, dates are non-decreasing. */
  lemma {:induction false} SortOrders(s: seq<Point>)
    ensures DateOrdered(SortByDate(s))
  {
    if s != [] {
      SortOrders(s[1..]);
      InsertOrdered(s[0], SortByDate(s[1..]));
    }
  }

  /** Stability: the points sharing any one date keep their load order. */
  lemma {:induction false} SortIsStable(s: seq<Point>, d: Date)
    ensures WithDate(SortByDate(s), d) == WithDate(s, d)
  {
    if s != [] {
      SortIsStable(s[1..], d);
      InsertWithDate(s[0], SortByDate(s[1..]), d);
    }
  }

  // ---------------------------------------------------------------------------
  // Projection onto the plot box.

  /**
   * p5's `map(v, a1, b1, a2, b2)`: the point of [a2, b2] at the same relative position
   * as `v` in [a1, b1]. With a1 == b1 JavaScript yields NaN or an infinity, here `None`.
   */
  function MapRange(v: real, a1: real, b1: real, a2: real, b2: real): (r: Option<real>)
    ensures r.Some? <==> a1 != b1
    ensures r.Some? ==> (r.value - a2) * (b1 - a1) == (v - a1) * (b2 - a2)
  {
    if a1 == b1 then None else Some((v - a1) / (b1 - a1) * (b2 - a2) + a2)
  }

  /** x of rank `k` among `n` points: [0, n - 1] onto [margin, width - margin]. */
  function XAt(k: nat, n: nat, width: real): Option<real>
  {
    MapRange(k as real, 0.0, (n - 1) as real, Margin, width - Margin)
  }

  /** y of an Elo rating: [700, 1350] onto [height - margin, margin], no clamping. */
  function YAt(elo: real, height: real): (r: Option<real>)
    ensures r.Some?
  {
    MapRange(elo, EloLow, EloHigh, height - Margin, Margin)
  }

  /** The second loop of `setup`: every point gets the coordinates of its rank. */
  function Project(s: seq<Point>, width: real, height: real): seq<Point>
  {
    seq(|s|, k requires 0 <= k < |s| =>
      s[k].(x := XAt(k, |s|, width), y := YAt(s[k].eloRating, height)))
  }

  /** For two or more points the first sits on the left margin and the last on the right. */
  lemma XSpansPlot(n: nat, width: real)
    requires n >= 2
    ensures XAt(0, n, width) == Some(Margin)
    ensures XAt(n - 1, n, width) == Some(width - Margin)
  {
    var m := (n - 1) as real;
    assert (m - 0.0) / (m - 0.0) == 1.0;
  }

  /** A single point: `map(0, 0, 0, ...)` divides by a zero-width range (NaN). */
  lemma XUndefinedForOnePoint(width: real)
    ensures XAt(0, 1, width) == None
  {
  }

  /** With a plot box of positive width, x grows strictly with rank. */
  lemma XIncreasing(i: nat, j: nat, n: nat, width: real)
    requires i < j < n && width > 2.0 * Margin
    ensures XAt(i, n, width).Some? && XAt(j, n, width).Some?
    ensures XAt(i, n, width).value < XAt(j, n, width).value
  {
    var m := (n - 1) as real;
    var span := width - 2.0 * Margin;
    assert (i as real) / m < (j as real) / m;
    RealScaleStrict((i as real) / m, (j as real) / m, span);
  }

  lemma RealScaleStrict(a: real, b: real, c: real)
    requires a < b && c > 0.0
    ensures a * c < b * c
  {
  }

  /** Elo 700 sits on the bottom edge of the plot box and Elo 1350 on its top edge. */
  lemma YSpansPlot(height: real)
    ensures YAt(EloLow, height) == Some(height - Margin)
    ensures YAt(EloHigh, height) == Some(Margin)
  {
  }

  /** With a plot box of positive height, a higher Elo is drawn strictly higher (smaller y). */
  lemma YDecreasing(e1: real, e2: real, height: real)
    requires e1 < e2 && height > 2.0 * Margin
    ensures YAt(e2, height).value < YAt(e1, height).value
  {
    var span := Margin - (height - Margin);
    assert (e1 - EloLow) / (EloHigh - EloLow) < (e2 - EloLow) / (EloHigh - EloLow);
    RealScaleStrict((e1 - EloLow) / (EloHigh - EloLow), (e2 - EloLow) / (EloHigh - EloLow), -span);
  }

  /** Projection keeps every point in place and changes nothing but its coordinates. */
  lemma ProjectKeepsOrder(s: seq<Point>, width: real, height: real, k: nat)
    requires k < |s|
    ensures |Project(s, width, height)| == |s|
    ensures Project(s, width, height)[k].(x := s[k].x, y := s[k].y) == s[k]
    ensures Project(s, width, height)[k].y.Some?
    ensures |s| >= 2 ==> Project(s, width, height)[k].x.Some?
  {
  }

  /**
   * What `setup` leaves in `points`, given the points already there: an empty table
   * returns early; otherwise the matched rows are appended, the whole list is sorted
   * by date and every point is projected.
   */
  function SetupPoints(before: seq<Point>, rows: seq<Row>, width: real, height: real): seq<Point>
    requires DatesReadable(rows)
  {
    if |rows| == 0 then before
    else Project(SortByDate(before + Collected(rows, |rows|)), width, height)
  }

  /** Every point of the list that `setup` leaves came from a row of the table. */
  lemma SetupPointsIndices(before: seq<Point>, rows: seq<Row>, width: real, height: real)
    requires DatesReadable(rows)
    requires forall k :: 0 <= k < |before| ==> before[k].index < |rows|
    ensures forall k :: 0 <= k < |SetupPoints(before, rows, width, height)| ==>
      SetupPoints(before, rows, width, height)[k].index < |rows|
  {
    if |rows| > 0 {
      var all := before + Collected(rows, |rows|);
      CollectedFromRows(rows, |rows|);
      assert forall p :: p in all ==> p.index < |rows|;
      SortPermutes(all);
      var sorted := SortByDate(all);
      forall k | 0 <= k < |sorted| ensures sorted[k].index < |rows| {
        assert sorted[k] in multiset(sorted);
      }
    }
  }

  /** The number of points that came from row `i`. */
  function IndexCount(s: seq<Point>, i: nat): nat
  {
    if s == [] then 0 else (if s[0].index == i then 1 else 0) + IndexCount(s[1..], i)
  }

  lemma {:induction false} IndexCountAppend(a: seq<Point>, b: seq<Point>, i: nat)
    ensures IndexCount(a + b, i) == IndexCount(a, i) + IndexCount(b, i)
  {
    if a == [] {
      assert a + b == b;
    } else {
      IndexCountAppend(a[1..], b, i);
      assert (a + b)[1..] == a[1..] + b;
    }
  }

  lemma {:induction false} IndexCountInsert(p: Point, s: seq<Point>, i: nat)
    ensures IndexCount(Insert(p, s), i) == IndexCount([p], i) + IndexCount(s, i)
  {
    if s == [] || !Before(s[0].date, p.date) {
      IndexCountAppend([p], s, i);
    } else {
      IndexCountInsert(p, s[1..], i);
      assert ([s[0]] + Insert(p, s[1..]))[1..] == Insert(p, s[1..]);
    }
  }

  lemma {:induction false} IndexCountSort(s: seq<Point>, i: nat)
    ensures IndexCount(SortByDate(s), i) == IndexCount(s, i)
  {
    if s != [] {
      IndexCountSort(s[1..], i);
      IndexCountInsert(s[0], SortByDate(s[1..]), i);
    }
  }

  lemma {:induction false} IndexCountProject(s: seq<Point>, width: real, height: real, i: nat)
    ensures IndexCount(Project(s, width, height), i) == IndexCount(s, i)
  {
    IndexCountSameIndices(Project(s, width, height), s, i);
  }

  lemma {:induction false} IndexCountSameIndices(a: seq<Point>, b: seq<Point>, i: nat)
    requires |a| == |b| && forall k :: 0 <= k < |a| ==> a[k].index == b[k].index
    ensures IndexCount(a, i) == IndexCount(b, i)
  {
    if a != [] {
      IndexCountSameIndices(a[1..], b[1..], i);
    }
  }

  lemma {:induction false} IndexCountCollected(rows: seq<Row>, n: nat, i: nat)
    requires n <= |rows| && DatesReadable(rows)
    ensures IndexCount(Collected(rows, n), i) == if i < n && Matches(rows[i]) then 1 else 0
  {
    if n > 0 {
      var a, c := Collected(rows, n - 1), Contribution(rows, n - 1);
      IndexCountCollected(rows, n - 1, i);
      assert Collected(rows, n) == a + c;
      IndexCountAppend(a, c, i);
      IndexCountContribution(rows, n - 1, i);
      if i < n - 1 {
        assert IndexCount(c, i) == 0;
      } else if i == n - 1 {
        assert IndexCount(a, i) == 0;
      }
    }
  }

  lemma IndexCountContribution(rows: seq<Row>, j: nat, i: nat)
    requires j < |rows| && DatesReadable(rows)
    ensures IndexCount(Contribution(rows, j), i) == if i == j && Matches(rows[j]) then 1 else 0
  {
    var c := Contribution(rows, j);
    if c != [] {
      assert c[1..] == [];
    }
  }

  /**
   * `windowResized` re-runs `setup` without clearing `points`: after the first setup each
   * matched row has one point, after a resize it has two.
   */
  lemma ResizeDuplicatesPoints(rows: seq<Row>, w1: real, h1: real, w2: real, h2: real, i: nat)
    requires DatesReadable(rows) && i < |rows|
    ensures IndexCount(SetupPoints([], rows, w1, h1), i) == if Matches(rows[i]) then 1 else 0
    ensures IndexCount(SetupPoints(SetupPoints([], rows, w1, h1), rows, w2, h2), i)
            == 2 * IndexCount(SetupPoints([], rows, w1, h1), i)
  {
    var c := Collected(rows, |rows|);
    IndexCountCollected(rows, |rows|, i);
    assert [] + c == c;
    IndexCountSort(c, i);
    IndexCountProject(SortByDate(c), w1, h1, i);
    var p1 := SetupPoints([], rows, w1, h1);
    IndexCountAppend(p1, c, i);
    IndexCountSort(p1 + c, i);
    IndexCountProject(SortByDate(p1 + c), w2, h2, i);
  }

  // ---------------------------------------------------------------------------
  // `for (let i = 0; i < points.length; i += Math.floor(points.length / 10))` in
  // `drawGrid` and `draw`. For 1 <= n <= 9 the step is 0 and the loop never ends, so
  // the model only covers n == 0 and n >= 10.

  /**
   * `visited` lists the multiples of `n / 10` below `n` in increasing order, all of
   * them (one more step would reach `n`).
   */
  predicate GridSteps(n: nat, visited: seq<nat>)
  {
    && (forall k :: 0 <= k < |visited| ==> visited[k] == k * (n / 10) && visited[k] < n)
    && (n == 0 ==> visited == [])
    && (n > 0 ==> (|visited| - 1) * (n / 10) < n <= |visited| * (n / 10))
  }

  /** The indices the stepping loop visits. */
  method GridIndices(n: nat) returns (visited: seq<nat>)
    requires n == 0 || n >= 10
    ensures GridSteps(n, visited)
  {
    var step := n / 10;
    visited := [];
    var i := 0;
    while i < n
      invariant i == |visited| * step
      invariant n > 0 ==> step >= 1
      invariant visited != [] ==> i - step < n
      invariant forall k :: 0 <= k < |visited| ==> visited[k] == k * step && visited[k] < n
      decreases n - i
    {
      visited := visited + [i];
      i := i + step;
    }
  }

  lemma MulMono(a: int, b: int, s: int)
    requires a <= b && s >= 0
    ensures a * s <= b * s
  {
    assert (b - a) * s >= 0;
  }

  /** For ten or more points the loops draw between 10 and 19 grid lines and date labels. */
  lemma GridCountBounds(n: nat, c: nat)
    requires n >= 10 && (c - 1) * (n / 10) < n <= c * (n / 10)
    ensures 10 <= c <= 19
  {
    var s := n / 10;
    assert 10 * s <= n <= 10 * s + 9;
    if c <= 9 {
      MulMono(c, 9, s);
    }
    if c >= 20 {
      MulMono(19, c - 1, s);
    }
  }
}
