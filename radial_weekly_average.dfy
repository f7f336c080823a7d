/**
 * radial_weekly_average.py: rows are labelled with None when unmatched and then
 * dropped, the kept rows are counted per (week, opening), and each opening's counts
 * and the weekly Elo means become closed polar outlines.
 */
module RadialWeeklyAverage {
  import opened Wrappers
  import opened Catalog
  import opened WeekCounts
  import WeeklyAverage

  /** The label of a Moves cell: the name of the first key it starts with, or None. */
  function Label(moves: Option<string>): (l: Option<string>)
    ensures l.None? <==> Classify(moves).None?
    ensures forall k :: 0 <= k < |Top10Openings| ==> (l == Some(Top10Openings[k].1) <==> Classify(moves) == Some(k))
  {
    PyNamesWellFormed();
    match Classify(moves)
    case None => None
    case Some(k) => Some(Top10Openings[k].1)
  }

  /** The two scripts label alike, except that this one says None where the other says "Other". */
  lemma LabelsAgree(moves: Option<string>)
    ensures WeeklyAverage.Label(moves) == (if Label(moves).Some? then Label(moves).value else "Other")
  {
    if Classify(moves).Some? {
      var k := Classify(moves).value;
      assert WeeklyAverage.Label(moves) == Top10Openings[k].1;
    }
  }

  /** `dropna(subset=['Opening'])`: the matched rows, labelled, in their original order. */
  function Kept(rows: seq<Row>): (gs: seq<Game>)
    ensures |gs| <= |rows|
    ensures forall i :: 0 <= i < |gs| ==> gs[i].opening in PyNames()
  {
    if rows == [] then []
    else
      var r := rows[|rows| - 1];
      var l := Label(r.moves);
      Kept(rows[..|rows| - 1]) + (if l.Some? then [Game(r.week, r.eloRating, l.value)] else [])
  }

  /** Dropping works row by row: the rows kept from a concatenation are those kept from each part. */
  lemma {:induction false} KeptSplit(a: seq<Row>, b: seq<Row>)
    ensures Kept(a + b) == Kept(a) + Kept(b)
  {
    if b != [] {
      var b' := b[..|b| - 1];
      assert (a + b)[..|a + b| - 1] == a + b';
      assert (a + b)[|a + b| - 1] == b[|b| - 1];
      KeptSplit(a, b');
    } else {
      assert a + b == a;
    }
  }

  /** The games of the weekly script over the same rows, without the "Other" ones. */
  function WithoutOther(gs: seq<Game>): seq<Game>
  {
    if gs == [] then []
    else WithoutOther(gs[..|gs| - 1]) + (if gs[|gs| - 1].opening == "Other" then [] else [gs[|gs| - 1]])
  }

  /** The rows this script keeps are those the weekly script does not call "Other". */
  lemma {:induction false} KeptIsWeeklyWithoutOther(rows: seq<Row>)
    ensures Kept(rows) == WithoutOther(WeeklyAverage.LabelRows(rows))
  {
    if rows != [] {
      var front := rows[..|rows| - 1];
      var r := rows[|rows| - 1];
      var gs := WeeklyAverage.LabelRows(rows);
      assert gs[..|gs| - 1] == WeeklyAverage.LabelRows(front);
      LabelsAgree(r.moves);
      KeptIsWeeklyWithoutOther(front);
    }
  }

  /** The count table's columns are catalog names, never "Other". */
  lemma RadialColumns(rows: seq<Row>)
    ensures forall o :: o in OpeningCounts(Kept(rows)).columns ==> o in PyNames() && o != "Other"
  {
    PyNamesWellFormed();
  }

  /** An unmatched row changes no weekly Elo mean: the means are over kept rows only. */
  lemma RadialEloIgnoresUnmatched(a: seq<Row>, r: Row, b: seq<Row>)
    requires Label(r.moves).None?
    ensures MeanEloPerWeek(Kept(a + [r] + b)) == MeanEloPerWeek(Kept(a + b))
  {
    KeptSplit(a + [r], b);
    KeptSplit(a, [r]);
    KeptSplit(a, b);
    assert [r][..0] == [];
    assert Kept([r]) == [];
    assert Kept(a + [r] + b) == Kept(a + b);
  }

  /**
   * The `for opening` loop: per column of the count table, the angle steps and the
   * column's counts, each closed by repeating its first element.
   */
  method OpeningCharts(t: CountTable) returns (charts: map<string, Chart<nat>>)
    ensures charts.Keys == t.columns.Keys
    ensures forall o :: o in charts ==>
      charts[o] == Chart(Closed(AngleSteps(|t.weeks|)), Closed(t.columns[o]))
  {
    charts := map[];
    var remaining := t.columns.Keys;
    while remaining != {}
      invariant remaining <= t.columns.Keys
      invariant charts.Keys == t.columns.Keys - remaining
      invariant forall o :: o in charts ==>
        charts[o] == Chart(Closed(AngleSteps(|t.weeks|)), Closed(t.columns[o]))
      decreases remaining
    {
      var opening :| opening in remaining;
      var angles := AngleSteps(|t.weeks|);
      angles := angles + angles[..if angles == [] then 0 else 1];
      var values := t.columns[opening];
      values := values + values[..if values == [] then 0 else 1];
      charts := charts[opening := Chart(angles, values)];
      remaining := remaining - {opening};
    }
  }

  /** The chart after the loop: the weekly Elo means of the kept rows, closed the same way. */
  method EloChart(gs: seq<Game>) returns (chart: Chart<real>)
    ensures chart == Chart(Closed(AngleSteps(|Weeks(gs)|)), Closed(MeanEloPerWeek(gs)))
  {
    var means := MeanEloPerWeek(gs);
    var angles := AngleSteps(|means|);
    angles := angles + angles[..if angles == [] then 0 else 1];
    var values := means;
    values := values + values[..if values == [] then 0 else 1];
    chart := Chart(angles, values);
  }
}
