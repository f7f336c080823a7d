# chess_data_viz: a Dafny model of the decision logic

chess_data_viz draws one player's chess games in three ways:

- `sketch.js` is an interactive p5.js chart. Every game that opens with one of ten catalogued move prefixes becomes a point. The points are ordered by date and placed by rank (x) and Elo rating (y). The chart has a legend of colour swatches. Hovering a swatch filters the chart to that opening. Clicking a swatch opens the opening's diagram. Clicking a point opens that game's heatmap. Any click while a popup is open closes it.
- `weekly_average.py` labels every game with its opening, or `"Other"`. It then counts games per ISO week and per (week, opening), and averages the games per week and the Elo rating per week.
- `radial_weekly_average.py` labels games the same way but drops the unmatched ones. It then turns each opening's weekly counts, and the weekly Elo means, into closed polar outlines.

The model covers the logic under the drawing:

- the opening catalog and first-match classification;
- date parsing;
- building the point list: filter, stable date sort, linear projection;
- the legend and point hit tests;
- the three-state click machine;
- the hover filter and the choice of tooltip point;
- which popup is drawn;
- the grid's index stepping;
- the pandas group-bys and the "close the circle" step.

Layout, one module per file:

| file | module | contents |
|---|---|---|
| `wrappers.dfy` | `Wrappers` | `Option`; `None` stands for JavaScript `null`/`undefined`/`NaN` and Python `None`. |
| `catalog.dfy` | `Catalog` | Both catalogs and the first-match prefix scan. |
| `dates.dfy` | `Dates` | `parseDate` on `(year, month, day)` triples, compared lexicographically. |
| `sketch_points.dfy` | `SketchPoints` | The `setup` pipeline as functions (collect, sort, project) with their lemmas, plus the grid stepping. |
| `sketch_input.dfy` | `SketchInput` | Swatch geometry, `getHoveredOpening`, the point hit test and the `mousePressed` transition as a function. |
| `sketch_render.dfy` | `SketchRender` | The hover filter, the nearest-point loop and the popup's choice and geometry. |
| `sketch_app.dfy` | `SketchApp` | `class Sketch`, which holds the globals of `sketch.js`. It has methods `Setup`, `WindowResized`, `MousePressed` and `Draw`, each proved against the functions above. |
| `week_counts.dfy` | `WeekCounts` | What both Python scripts share: classification of a Moves cell, the week and (week, opening) groups and their means, the count table and `s += s[:1]`. |
| `weekly_average.dfy` | `WeeklyAverage` | The `'Other'` labelling. |
| `radial_weekly_average.dfy` | `RadialWeeklyAverage` | The `None` labelling, `dropna` and the chart loops. |

Modelling choices:

- Coordinates are `Option<real>`. A point has no coordinates before projection. With a single point, `map(i, 0, 0, ...)` divides by a zero-width range, which gives `NaN` and is modelled as x = `None`.
- Distances are compared squared, so no `sqrt` is needed.
- ISO week numbers are an input field in 1..53.
- The p5 canvas size, the pointer position and which image entries are set are parameters. `preload` stores the return value of `loadImage` in every entry (`sketch.js:33`, `sketch.js:42`), so the popup's checks (`sketch.js:230`, `sketch.js:234`) ask whether an entry is set, not whether its file loaded.
  - Opening images are a set of names.
  - Heatmaps are a count `gameImages`: `gameImages[k]` is the file `game_(k+1)_heatmap.png`.

Two behaviours of the code worth knowing:

- A pointer exactly on a swatch edge hits nothing, because `sketch.js:273` and `sketch.js:302` compare with strict `<` and `>` (`EdgeIsNotHover`).
- `mousePressed` takes the first point in list order within 10 pixels, not the nearest one; a later point may lie closer (`FirstNear`).

## Model

| member | source | states |
|---|---|---|
| Catalog.FirstMatch | sketch.js:66 | Returns the index of the first key, in catalog order, that is a prefix of the moves. Returns None exactly when no key is a prefix. |
| Catalog.KeyLengths | sketch.js:5-16 | Every catalog key is 24 characters long (five moves). |
| Catalog.KeysDistinct | sketch.js:5-16 | The ten keys are pairwise distinct. |
| Catalog.ClassifiesExtension | sketch.js:66 | Moves equal to key k, or key k followed by more moves, classify as k. |
| Catalog.ShortMovesMatchNothing | sketch.js:66-67 | Moves shorter than a key, such as a key missing a trailing move, match no entry. |
| Catalog.CatalogsAgree | weekly_average.py:18-29 | The scripts' dictionary has the chart's keys and names, in the same order. |
| Catalog.NamesWellFormed | sketch.js:5-16 | The display names are distinct, non-empty (so JavaScript-truthy) and never "Other". |
| Catalog.PyNamesWellFormed | radial_weekly_average.py:17-28 | The dictionary's values are distinct and never "Other". |
| Dates.ParseDate | sketch.js:309-312 | Gives a date exactly for a two-digit DD/MM/YY string with month in 1..12 and day in 1..31. The result lies in years 2000..2099. |
| Dates.ParseFormat | sketch.js:309-312 | Parsing the DD/MM/YY text of a date in 2000..2099 gives back the same (year, month, day). |
| Dates.FormatParse | sketch.js:309-312 | Every string that parses is the DD/MM/YY text of its date, so year = 2000 + YY, month = MM and day = DD. |
| Dates.BeforeIsStrictOrder | sketch.js:79 | The date comparison the sort uses is irreflexive, transitive and total on distinct dates. |
| SketchPoints.Classify | sketch.js:66 | The `find` over `Object.keys(topOpenings)`: the first catalog key that is a prefix of the moves, as FirstMatch on the chart's keys. |
| SketchPoints.Collected | sketch.js:61-77 | The points the filter loop has pushed after visiting rows 0..n-1, in row order: earlier rows' points followed by row n-1's Contribution. CollectedFromRows, CollectedIncreasing, CollectedCoversMatches and IndexCountCollected state what it holds. |
| SketchPoints.Insert | sketch.js:79 | Puts a point before the first element whose date is not earlier than its own. It is one step of the stable sort. |
| SketchPoints.SortByDate | sketch.js:79 | `points.sort((a, b) => a.date - b.date)` as an insertion sort. SortPermutes, SortOrders and SortIsStable prove it is a stable sort by date. |
| SketchPoints.XAt | sketch.js:82 | `map(i, 0, points.length - 1, margin, width - margin)` for rank k among n points. XSpansPlot, XUndefinedForOnePoint and XIncreasing state its values. |
| SketchPoints.YAt | sketch.js:83 | `map(eloRating, 700, 1350, height - margin, margin)`, with no clamping. It is always defined, and YSpansPlot and YDecreasing state its values. |
| SketchPoints.Project | sketch.js:81-84 | The coordinate loop: point k gets x = XAt(k, n) and y = YAt of its rating, and nothing else changes (ProjectKeepsOrder). |
| SketchPoints.SetupPoints | sketch.js:49-85 | What `setup` leaves in `points` from the list it starts with. An empty table leaves the list unchanged (the early return). Otherwise the matched rows' points are appended, the whole list is sorted by date and then projected. sketch.js:322-325 run it again on a resize. |
| SketchPoints.NewPoint | sketch.js:69-75 | The pushed point carries the row number as its index and a catalog name as its opening. |
| SketchPoints.Contribution | sketch.js:67-76 | One row pushes at most one point. |
| SketchPoints.CollectedFromRows | sketch.js:61-77 | Every collected point is the point built from the matched row its index names, with that entry's name and colour. |
| SketchPoints.CollectedIncreasing | sketch.js:61-77 | Before the sort, point indices strictly increase. |
| SketchPoints.CollectedCoversMatches | sketch.js:66-67 | A row has a point exactly when its moves start with a catalog key. |
| SketchPoints.RowPosition | sketch.js:61-77 | Produces the position in the collected list of the point of any matched row. |
| SketchPoints.IndexCountCollected | sketch.js:61-77 | A matched row has exactly one point; any other row has none. |
| SketchPoints.SortPermutes | sketch.js:79 | The sorted list is a permutation of its input. |
| SketchPoints.SortOrders | sketch.js:79 | After the sort, dates never decrease along the list. |
| SketchPoints.SortIsStable | sketch.js:79 | For every date, the points with that date keep their input order, as the stable `Array.prototype.sort` guarantees. |
| SketchPoints.IndexCountSort | sketch.js:79 | Sorting keeps the number of points of every row. |
| SketchPoints.MapRange | sketch.js:82-83 | p5 `map` is defined exactly when the input range has non-zero width. It then maps v linearly, so `(r - a2) * (b1 - a1) = (v - a1) * (b2 - a2)`. |
| SketchPoints.XSpansPlot | sketch.js:82 | With two or more points, the first sits at x = margin and the last at x = width - margin. |
| SketchPoints.XUndefinedForOnePoint | sketch.js:82 | With one point, x is undefined (zero-width input range). |
| SketchPoints.XIncreasing | sketch.js:82 | x increases strictly with rank when the canvas is wider than two margins. |
| SketchPoints.YSpansPlot | sketch.js:83 | Elo 700 maps to y = height - margin and Elo 1350 to y = margin. |
| SketchPoints.YDecreasing | sketch.js:83 | y decreases strictly as Elo increases when the canvas is taller than two margins. |
| SketchPoints.ProjectKeepsOrder | sketch.js:81-84 | The projection loop changes only x and y of each point and keeps the list's length and order. y is always defined; x is defined for two or more points. |
| SketchPoints.SetupPointsIndices | sketch.js:61-84 | After `setup`, every point's index is a row number of the table. |
| SketchPoints.IndexCountProject | sketch.js:81-84 | Projection keeps the number of points of every row. |
| SketchPoints.ResizeDuplicatesPoints | sketch.js:322-325 | After the first `setup`, a matched row has one point and any other row none. After `windowResized` re-runs `setup` on the uncleared list, every row has twice as many. |
| SketchPoints.GridIndices | sketch.js:97 | For 0 or at least 10 points, the stepping loop visits exactly the multiples of floor(N / 10) below N, in increasing order. |
| SketchPoints.GridCountBounds | sketch.js:128 | For N >= 10 points, the loop draws between 10 and 19 grid lines or date labels. |
| SketchInput.OnSwatch | sketch.js:273 | The legend hit test for swatch k: the pointer lies strictly inside the 15 x 15 square at (margin + 120k, margin / 2). The same test appears at sketch.js:302. |
| SketchInput.Within | sketch.js:284 | `dist(mouseX, mouseY, p.x, p.y) < radius`, compared on squares. It is false when a coordinate is undefined, as a NaN distance is. |
| SketchInput.Press | sketch.js:257-291 | The `mousePressed` transition. An open popup closes and both selections clear. Otherwise the first swatch under the pointer selects its opening. Failing that, the first point within 10 px selects its row. A press that hits nothing changes nothing. PressClosesPopup, PressOnSwatch, PressOnPoint, PressElsewhere and PressKeepsStateOk state each case. |
| SketchInput.AtMostOneSwatch | sketch.js:302 | No pointer position lies on two legend swatches. |
| SketchInput.SwatchAt | sketch.js:298-306 | The scan stops at a swatch that contains the pointer. It returns None exactly when no swatch contains it. |
| SketchInput.HoveredOpening | sketch.js:293-307 | Returns the name of any swatch the pointer is strictly inside, and null exactly when it is strictly inside none. |
| SketchInput.EdgeIsNotHover | sketch.js:302 | A pointer on a swatch's left edge hovers nothing. |
| SketchInput.Dist2 | sketch.js:283 | The squared distance is defined exactly when the point has both coordinates, and is then non-negative. |
| SketchInput.FirstNear | sketch.js:282-289 | Returns the first point in list order within distance 10. Returns None exactly when no point is within 10. |
| SketchInput.PressClosesPopup | sketch.js:258-262 | With the popup open, a press clears imageVisible, selectedOpening and clickedGameIndex. |
| SketchInput.PressOnSwatch | sketch.js:269-279 | With no popup, a press on swatch k opens that opening's popup and leaves clickedGameIndex as it was. |
| SketchInput.PressOnPoint | sketch.js:282-289 | With no popup and no swatch hit, a press at the first point within 10 opens the heatmap of that point's row. |
| SketchInput.PressElsewhere | sketch.js:257-291 | With no popup, a press that hits no swatch and no point changes nothing. |
| SketchInput.PressKeepsStateOk | sketch.js:257-291 | Every press keeps the state consistent: the popup flags agree, and a clicked index is a row of the table. |
| SketchRender.Visible | sketch.js:152-156 | The points the line goes through, in list order: those of the hovered opening, or all when nothing is hovered. VisibleMembers, VisibleAppend and VisibleAllWhenNoHover state what it keeps. |
| SketchRender.IsTooltip | sketch.js:160-176 | Characterises the tooltip point the dot loop picks. It is a shown point within 20 px that is no farther than any other shown point and strictly nearer than every shown point before it. When no shown point is within 20 px there is none. ClosestPoint meets it and TooltipIsUnique shows it fixes the choice. |
| SketchRender.ShowsPopup | sketch.js:103 | The condition for the popup branch: `imageVisible` is set and either `selectedOpening` is a truthy name or `clickedGameIndex` is not null. |
| SketchRender.VisiblePoints | sketch.js:152-156 | The line's vertices are the points of the hovered opening, or all points when nothing is hovered, in list order. |
| SketchRender.VisibleAppend | sketch.js:152-156 | The hover filter works point by point: filtering a concatenation concatenates the filtered parts. |
| SketchRender.VisibleMembers | sketch.js:153 | A point is drawn exactly when it is in the list and nothing is hovered or it belongs to the hovered opening. |
| SketchRender.VisibleAllWhenNoHover | sketch.js:153 | With nothing hovered, every point is drawn. |
| SketchRender.ClosestPoint | sketch.js:160-176 | The tooltip goes to a drawn point strictly within 20. It is no farther than any drawn point, and strictly nearer than every drawn point before it. There is no tooltip exactly when no drawn point is within 20. |
| SketchRender.TooltipIsUnique | sketch.js:171 | The tooltip choice is determined: ties go to the earliest point. |
| SketchRender.PopupFor | sketch.js:226-254 | The popup is centred on the canvas. It is the opening diagram (800 x 400) exactly when an opening is selected and its image loaded. Otherwise it is the heatmap (400 x 400) of the clicked row exactly when that row's image exists. |
| SketchRender.PopupBranchIffVisible | sketch.js:103 | In every consistent state, `draw` takes the popup branch exactly when imageVisible is set. |
| SketchRender.SwatchPressShowsDiagram | sketch.js:275-276 | After a press on a swatch whose image loaded, the next frame shows that opening's diagram. |
| SketchRender.PointPressShowsHeatmap | sketch.js:285-286 | After a press on a point whose heatmap exists, the next frame shows heatmap number index + 1. |
| SketchApp.Sketch.constructor | sketch.js:1-23 | The globals start with no points, no popup and nothing hovered. |
| SketchApp.Sketch.Setup | sketch.js:49-85 | Sets the canvas to the window. For a non-empty table, appends a point per matched row to the old list, sorts by date and projects. For an empty table the point list is left as it was. |
| SketchApp.Sketch.CollectMatched | sketch.js:61-77 | The filter loop appends exactly the collected points of the table to the old list. |
| SketchApp.Sketch.AssignCoordinates | sketch.js:81-84 | The coordinate loop leaves the projection of the old list. |
| SketchApp.Sketch.WindowResized | sketch.js:322-325 | Resizes and re-runs `setup` on the list as it stands. |
| SketchApp.Sketch.MousePressed | sketch.js:257-291 | The new flags are the click transition of the old ones, and the state stays consistent. |
| SketchApp.Sketch.Draw | sketch.js:102-204 | In popup mode, returns the popup and leaves the hover as it was. Otherwise sets the hovered opening from the legend and returns the grid indices, the filtered line and dots and the tooltip point. |
| WeekCounts.Classify | weekly_average.py:32-37 | A Moves cell matches the first dictionary key, in order, that its string starts with. A non-string cell, or a string with no matching key, matches nothing. |
| WeekCounts.Count | weekly_average.py:43 | The size of the (week, opening) group in `groupby(['Week', 'Opening']).size()`, never more than the row count. CountPositive says when it is non-zero. |
| WeekCounts.WeekSize | weekly_average.py:46 | The size of a week group in `groupby('Week').size()`, never more than the row count. WeekSizePositive says when it is non-zero, and WeeksTotal says the sizes add up to the row count. |
| WeekCounts.EloSum | weekly_average.py:49 | The sum of the Elo ratings in a week group, the numerator of that week's `mean()`. EloSumBounds bounds it. |
| WeekCounts.EloSumBounds | weekly_average.py:49 | When every rating lies in [lo, hi], a week's Elo sum lies between lo and hi each added once per game of the week. |
| WeekCounts.CountPositive | weekly_average.py:43 | A (week, opening) count is non-zero exactly when some row has that week and label, so unseen pairs are 0. |
| WeekCounts.WeekSizePositive | weekly_average.py:46 | A week's group is non-empty exactly when some row has that week. |
| WeekCounts.Weeks | weekly_average.py:46 | The group index holds exactly the weeks that have a row, in strictly increasing order. |
| WeekCounts.WeeksCover | weekly_average.py:46 | Every row's week is in the index, and every week in it has a non-empty group. |
| WeekCounts.SizesAddUp | weekly_average.py:46 | Over any repeat-free list of weeks that holds every row's week, the group sizes add up to the number of rows. |
| WeekCounts.WeeksTotal | weekly_average.py:46 | The weekly group sizes add up to the number of rows. |
| WeekCounts.AverageGamesPerWeek | weekly_average.py:46 | The mean weekly group size is the number of rows divided by the number of weeks. It is undefined exactly when there are no rows. |
| WeekCounts.MeanEloPerWeek | weekly_average.py:49 | Gives one mean per week of the index. |
| WeekCounts.MeanWithinRatings | weekly_average.py:49 | Every weekly Elo mean lies between the lowest and the highest rating. |
| WeekCounts.OpeningCounts | weekly_average.py:43 | The table's index is the weeks present. It has one column per label that occurs. Entry (i, o) is the size of the (week i, o) group. |
| WeekCounts.ColumnsAreNonZero | radial_weekly_average.py:42 | Every column has a non-zero entry: only openings that occur get a column. |
| WeekCounts.RowTotal | weekly_average.py:43 | Summed over any repeat-free list of openings that holds the week's labels, a week's counts give the week's group size. |
| WeekCounts.TableRowTotal | weekly_average.py:43 | Summing a row of the count table across all its columns gives that week's number of rows. |
| WeekCounts.AngleSteps | radial_weekly_average.py:50 | Gives n angle steps, step k standing for 2*pi*k/n. |
| WeekCounts.Closed | radial_weekly_average.py:51 | `s += s[:1]` keeps s as a prefix. A non-empty list grows by one and ends with its first element; an empty list stays empty. |
| WeeklyAverage.Label | weekly_average.py:32-37 | The label is "Other" exactly when nothing matches, including every non-string cell. Otherwise it is the name of entry k exactly when k is the first matching key. |
| WeeklyAverage.LabelOfExtension | weekly_average.py:33-34 | Moves that start with key k get the name of entry k. |
| WeeklyAverage.AllLabels | weekly_average.py:18-37 | The possible labels, the ten names and "Other", are distinct. |
| WeeklyAverage.LabelRows | weekly_average.py:31-40 | Labelling keeps every row, in order, with its week and rating. Every label is a catalog name or "Other". |
| WeeklyAverage.WeeklyRowTotal | weekly_average.py:43 | Over all labels, a week's (week, opening) counts add up to the week's number of rows. |
| WeeklyAverage.AverageCountsEveryRow | weekly_average.py:46 | The average is the number of loaded rows over the number of weeks, and is undefined only for an empty file. |
| RadialWeeklyAverage.Label | radial_weekly_average.py:31-36 | The label is None exactly when nothing matches, including every non-string cell. Otherwise it is the name of entry k exactly when k is the first matching key. |
| RadialWeeklyAverage.LabelsAgree | radial_weekly_average.py:33-34 | The radial label is the weekly label, with None where the weekly script writes "Other". |
| RadialWeeklyAverage.Kept | radial_weekly_average.py:39 | `dropna` keeps at most every row, and every kept row has a catalog name. |
| RadialWeeklyAverage.KeptSplit | radial_weekly_average.py:39 | Dropping works row by row, so kept rows stay in their original order. |
| RadialWeeklyAverage.KeptIsWeeklyWithoutOther | radial_weekly_average.py:39 | The kept rows are the weekly script's labelled rows without the "Other" ones. |
| RadialWeeklyAverage.RadialColumns | radial_weekly_average.py:42 | The count table's columns are catalog names, never "Other". |
| RadialWeeklyAverage.RadialEloIgnoresUnmatched | radial_weekly_average.py:78 | An unmatched row changes no weekly Elo mean: the means are over kept rows only. |
| RadialWeeklyAverage.OpeningCharts | radial_weekly_average.py:48-60 | There is one chart per column. Each chart pairs the closed angle steps with the closed column of counts. |
| RadialWeeklyAverage.EloChart | radial_weekly_average.py:78-91 | The Elo chart pairs the closed angle steps with the closed weekly means. |

## Left out

- Drawing and styling: backgrounds, strokes, fonts, shapes and text. The legend is modelled only as its swatch geometry. The popup is modelled as its picture and rectangle.
- Tooltip placement and size (`sketch.js:179-201`): they depend on font metrics.
- Asset loading and logging: `preload`, `loadTable`, `loadImage`, `loadFont`, `onLoad`, `onError` and the console messages. The table is an input sequence, and each image entry is set or not; a failed load still leaves its entry set, which the model does not distinguish.
- JavaScript `Date` internals: time stamps, time zones, the `toISOString` label, and V8's normalisation of out-of-range days such as 31/02.
- Dates.ParseDate: does not model an Invalid Date or a `NaN` sort comparator. Rows whose moves match must carry a readable DD/MM/YY date (`DatesReadable`). It also does not model V8's day normalisation: `ParseDate("31/02/20")` is `Some(Date(2020, 2, 31))`, where JavaScript's `new Date` gives 2 March 2020.
- Floating point: p5 `map`, `dist` and the Elo means are over reals. A `NaN` Elo rating is not modelled, and a comparator that returns `NaN` is not modelled.
- SketchPoints.GridIndices: models only 0 or at least 10 points. For 1 to 9 points the step `Math.floor(N / 10)` is 0 and the loops in `drawGrid` and `draw` never end.
- SketchApp.Sketch.Draw: requires that no endless grid loop is reached, so in chart mode the number of points is 0 or at least 10.
- The horizontal grid lines and Elo labels at fixed ratings (`sketch.js:91-94`, `sketch.js:136-142`): they are pure drawing over constants.
- pandas I/O and date handling: `read_csv`, `to_datetime` and `isocalendar`. The ISO week is an input field.
- The order of the count table's columns: pandas sorts them alphabetically, while here they are a map keyed by label. This makes OpeningCharts' iteration order unmodelled.
- WeekCounts.AngleSteps: models the angles of `np.linspace(0, 2 * np.pi, n, endpoint=False)` as their step indices 0..n-1, not as floats.
- matplotlib plotting, `set_ylim`, tick labels and saving, and `os.makedirs`.
- The row-count `print` calls in `weekly_average.py`: their content is stated by WeeklyAverage.LabelRows.
