/**
 * weekly_average.py: every row gets an Opening label, "Other" when its Moves cell is
 * not a string or starts with no catalog key; no row is dropped, and the group-bys of
 * the shared counting module run over all of them.
 */
module WeeklyAverage {
  import opened Wrappers
  import opened Catalog
  import opened WeekCounts

  /** The label of a Moves cell: the name of the first key it starts with, or "Other". */
  function Label(moves: Option<string>): (l: string)
    ensures l == "Other" <==> Classify(moves).None?
    ensures forall k :: 0 <= k < |Top10Openings| ==> (l == Top10Openings[k].1 <==> Classify(moves) == Some(k))
  {
    PyNamesWellFormed();
    match Classify(moves)
    case None => "Other"
    case Some(k) => Top10Openings[k].1
  }

  /** A cell that starts with key k gets name k (no key is a prefix of another). */
  lemma LabelOfExtension(k: nat, rest: string)
    requires k < |Top10Openings|
    ensures Label(Some(Top10Openings[k].0 + rest)) == Top10Openings[k].1
  {
    CatalogsAgree();
    assert PyKeys() == Keys();
    ClassifiesExtension(k, rest);
  }

  /** The possible labels: the ten names, then "Other". */
  function AllLabels(): (ls: seq<string>)
    ensures Distinct(ls)
    ensures forall o :: o in ls <==> o in PyNames() || o == "Other"
  {
    PyNamesWellFormed();
    PyNames() + ["Other"]
  }

  /** Adding the Opening column: one game per row, same week and rating, in row order. */
  function LabelRows(rows: seq<Row>): (gs: seq<Game>)
    ensures |gs| == |rows|
    ensures forall i :: 0 <= i < |rows| ==>
      gs[i].week == rows[i].week && gs[i].eloRating == rows[i].eloRating && gs[i].opening == Label(rows[i].moves)
    ensures forall i :: 0 <= i < |gs| ==> gs[i].opening in AllLabels()
  {
    seq(|rows|, i requires 0 <= i < |rows| => Game(rows[i].week, rows[i].eloRating, Label(rows[i].moves)))
  }

  /** Summed over all labels, a week's (week, opening) counts give the week's number of rows. */
  lemma WeeklyRowTotal(rows: seq<Row>, w: int)
    ensures SumCounts(LabelRows(rows), w, AllLabels()) == WeekSize(LabelRows(rows), w)
  {
    RowTotal(LabelRows(rows), w, AllLabels());
  }

  /** The mean weekly group size is the number of loaded rows over the number of weeks. */
  lemma AverageCountsEveryRow(rows: seq<Row>)
    ensures AverageGamesPerWeek(LabelRows(rows)).None? <==> rows == []
    ensures rows != [] ==>
      AverageGamesPerWeek(LabelRows(rows)).value == (|rows| as real) / (|Weeks(LabelRows(rows))| as real)
  {
  }
}
