/**
 * What both Python scripts do with labelled games: the pandas group-bys by ISO week
 * and by (week, opening), their means, and the "close the circle" step of the radial
 * charts. The week number is an input field (pandas' isocalendar is not modelled).
 */
module WeekCounts {
  import opened Wrappers
  import opened Catalog

  /** An ISO-8601 week number. */
  type IsoWeek = w: int | 1 <= w <= 53 witness 1

  /** A row of the CSV: its week, its Elo rating and its Moves cell (None when not a string). */
  datatype Row = Row(week: IsoWeek, eloRating: real, moves: Option<string>)

  /** A row after the Opening column has been added. */
  datatype Game = Game(week: IsoWeek, eloRating: real, opening: string)

  /**
   * The catalog entry a Moves cell gets: the first dictionary key, in declaration
   * order, that its string starts with; None for a non-string cell or no match.
   */
  function Classify(moves: Option<string>): (r: Option<nat>)
    ensures r.None? <==> moves.None? || forall j :: 0 <= j < |PyKeys()| ==> !(PyKeys()[j] <= moves.value)
    ensures r.Some? ==> moves.Some? && r.value < |Top10Openings| && Top10Openings[r.value].0 <= moves.value
    ensures r.Some? ==> forall j :: 0 <= j < r.value ==> !(Top10Openings[j].0 <= moves.value)
  {
    if moves.None? then None else FirstMatch(PyKeys(), moves.value)
  }

  /** Number of occurrences of `x` in `s`. */
  function Occurrences<T(==)>(s: seq<T>, x: T): (c: nat)
    ensures c == 0 <==> x !in s
  {
    if s == [] then 0 else (if s[0] == x then 1 else 0) + Occurrences(s[1..], x)
  }

  /** A list without repeats holds each of its elements exactly once. */
  lemma {:induction false} OccursOnce<T>(s: seq<T>, x: T)
    requires Distinct(s) && x in s
    ensures Occurrences(s, x) == 1
  {
    if s[0] != x {
      assert Distinct(s[1..]) by {
        forall i, j | 0 <= i < j < |s[1..]| ensures s[1..][i] != s[1..][j] {
          assert s[1..][i] == s[i + 1] && s[1..][j] == s[j + 1];
        }
      }
      assert x in s[1..];
      OccursOnce(s[1..], x);
    } else {
      assert x !in s[1..] by {
        forall i | 0 <= i < |s[1..]| ensures s[1..][i] != x {
          assert s[1..][i] == s[i + 1];
        }
      }
    }
  }

  /** The size of the (week, opening) group. */
  function Count(gs: seq<Game>, w: int, o: string): (c: nat)
    ensures c <= |gs|
  {
    if gs == [] then 0 else (if gs[0].week == w && gs[0].opening == o then 1 else 0) + Count(gs[1..], w, o)
  }

  /** A (week, opening) group is non-empty exactly when some game has that week and label. */
  lemma {:induction false} CountPositive(gs: seq<Game>, w: int, o: string)
    ensures Count(gs, w, o) > 0 <==> exists i :: 0 <= i < |gs| && gs[i].week == w && gs[i].opening == o
  {
    if gs != [] {
      CountPositive(gs[1..], w, o);
      assert forall i :: 1 <= i < |gs| ==> gs[i] == gs[1..][i - 1];
    }
  }

  /** The size of the week group. */
  function WeekSize(gs: seq<Game>, w: int): (c: nat)
    ensures c <= |gs|
  {
    if gs == [] then 0 else (if gs[0].week == w then 1 else 0) + WeekSize(gs[1..], w)
  }

  /** A week group is non-empty exactly when some game has that week. */
  lemma {:induction false} WeekSizePositive(gs: seq<Game>, w: int)
    ensures WeekSize(gs, w) > 0 <==> exists i :: 0 <= i < |gs| && gs[i].week == w
  {
    if gs != [] {
      WeekSizePositive(gs[1..], w);
      assert forall i :: 1 <= i < |gs| ==> gs[i] == gs[1..][i - 1];
    }
  }

  /** The sum of the Elo ratings in the week group. */
  function EloSum(gs: seq<Game>, w: int): real
  {
    if gs == [] then 0.0 else (if gs[0].week == w then gs[0].eloRating else 0.0) + EloSum(gs[1..], w)
  }

  predicate Increasing(ws: seq<int>)
  {
    forall i, j :: 0 <= i < j < |ws| ==> ws[i] < ws[j]
  }

  /** `w` added to the increasing list `ws` in its place, unless it is already there. */
  function AddWeek(w: IsoWeek, ws: seq<IsoWeek>): (r: seq<IsoWeek>)
    requires Increasing(ws)
    ensures Increasing(r)
    ensures forall v :: v in r <==> v == w || v in ws
  {
    if ws == [] then [w]
    else if w < ws[0] then [w] + ws
    else if w == ws[0] then ws
    else
      var rest := AddWeek(w, ws[1..]);
      assert forall k :: 0 <= k < |rest| ==> ws[0] < rest[k] by {
        forall k | 0 <= k < |rest| ensures ws[0] < rest[k] {
          assert rest[k] in rest;
        }
      }
      [ws[0]] + rest
  }

  /** The index of `groupby('Week')`: the weeks that hold a game, in increasing order. */
  function Weeks(gs: seq<Game>): (ws: seq<IsoWeek>)
    ensures Increasing(ws)
    ensures forall v :: v in ws <==> exists i :: 0 <= i < |gs| && gs[i].week == v
  {
    if gs == [] then []
    else
      var ws := AddWeek(gs[0].week, Weeks(gs[1..]));
      assert forall i :: 1 <= i < |gs| ==> gs[i] == gs[1..][i - 1];
      ws
  }

  /** Every game's week is in the index, and every week in it holds a game. */
  lemma WeeksCover(gs: seq<Game>)
    ensures forall i :: 0 <= i < |gs| ==> gs[i].week in Weeks(gs)
    ensures forall k :: 0 <= k < |Weeks(gs)| ==> WeekSize(gs, Weeks(gs)[k]) > 0
  {
    forall k | 0 <= k < |Weeks(gs)| ensures WeekSize(gs, Weeks(gs)[k]) > 0 {
      assert Weeks(gs)[k] in Weeks(gs);
      WeekSizePositive(gs, Weeks(gs)[k]);
    }
  }

  lemma IncreasingIsDistinct(ws: seq<int>)
    requires Increasing(ws)
    ensures Distinct(ws)
  {
  }

  /** The sum of the group sizes of the weeks in `ws`. */
  function SumSizes(gs: seq<Game>, ws: seq<int>): nat
  {
    if ws == [] then 0 else WeekSize(gs, ws[0]) + SumSizes(gs, ws[1..])
  }

  /** Removing the first game takes one off the sum for every listed occurrence of its week. */
  lemma {:induction false} SumSizesCons(gs: seq<Game>, ws: seq<int>)
    requires gs != []
    ensures SumSizes(gs, ws) == Occurrences(ws, gs[0].week) + SumSizes(gs[1..], ws)
  {
    if ws != [] {
      SumSizesCons(gs, ws[1..]);
    }
  }

  /** Over a repeat-free list of weeks that holds every game's week, the sizes add up to all games. */
  lemma {:induction false} SizesAddUp(gs: seq<Game>, ws: seq<int>)
    requires Distinct(ws)
    requires forall i :: 0 <= i < |gs| ==> gs[i].week in ws
    ensures SumSizes(gs, ws) == |gs|
  {
    if gs == [] {
      ZeroSizes(ws);
    } else {
      SumSizesCons(gs, ws);
      OccursOnce(ws, gs[0].week);
      assert forall i :: 0 <= i < |gs[1..]| ==> gs[1..][i] == gs[i + 1];
      SizesAddUp(gs[1..], ws);
    }
  }

  lemma {:induction false} ZeroSizes(ws: seq<int>)
    ensures SumSizes([], ws) == 0
  {
    if ws != [] {
      ZeroSizes(ws[1..]);
    }
  }

  /** The weekly group sizes add up to the number of games. */
  lemma WeeksTotal(gs: seq<Game>)
    ensures SumSizes(gs, Weeks(gs)) == |gs|
  {
    WeeksCover(gs);
    IncreasingIsDistinct(Weeks(gs));
    SizesAddUp(gs, Weeks(gs));
  }

  /**
   * `groupby('Week').size().mean()`: the mean of the weekly group sizes, undefined
   * (NaN) when there are no games, and otherwise the number of games over the number of weeks.
   */
  function AverageGamesPerWeek(gs: seq<Game>): (r: Option<real>)
    ensures r.None? <==> gs == []
    ensures r.Some? ==> r.value == (|gs| as real) / (|Weeks(gs)| as real)
  {
    if gs == [] then None
    else
      var ws := Weeks(gs);
      assert gs[0].week in ws;
      WeeksTotal(gs);
      Some(SumSizes(gs, ws) as real / |ws| as real)
  }

  /** `groupby('Week')['EloRating'].mean()`: one mean per week of the index, in its order. */
  function MeanEloPerWeek(gs: seq<Game>): (ms: seq<real>)
    ensures |ms| == |Weeks(gs)|
  {
    var ws := Weeks(gs);
    WeeksCover(gs);
    seq(|ws|, i requires 0 <= i < |ws| => EloSum(gs, ws[i]) / (WeekSize(gs, ws[i]) as real))
  }

  /** `n` copies of `x` added up. */
  function Repeat(x: real, n: nat): real
  {
    if n == 0 then 0.0 else Repeat(x, n - 1) + x
  }

  lemma {:induction false} RepeatIsProduct(x: real, n: nat)
    ensures Repeat(x, n) == x * (n as real)
  {
    if n > 0 {
      RepeatIsProduct(x, n - 1);
      assert x * (n as real) == x * ((n - 1) as real) + x;
    }
  }

  /** A week's Elo sum lies between its size times the lowest and times the highest rating. */
  lemma {:induction false} EloSumBounds(gs: seq<Game>, w: int, lo: real, hi: real)
    requires forall g :: g in gs ==> lo <= g.eloRating <= hi
    ensures Repeat(lo, WeekSize(gs, w)) <= EloSum(gs, w) <= Repeat(hi, WeekSize(gs, w))
  {
    if gs != [] {
      EloSumBounds(gs[1..], w, lo, hi);
      assert gs[0] in gs;
    }
  }

  /** Dividing a sum of `n` values, each within [lo, hi], by a positive `n`. */
  lemma QuotientBounds(lo: real, hi: real, sum: real, n: nat)
    requires n > 0 && Repeat(lo, n) <= sum <= Repeat(hi, n)
    ensures lo <= sum / (n as real) <= hi
  {
    RepeatIsProduct(lo, n);
    RepeatIsProduct(hi, n);
    assert (sum / (n as real)) * (n as real) == sum;
  }

  /** The Elo mean of a non-empty week lies within the range of the ratings. */
  lemma WeekMeanWithinRatings(gs: seq<Game>, w: int, lo: real, hi: real)
    requires forall g :: g in gs ==> lo <= g.eloRating <= hi
    requires WeekSize(gs, w) > 0
    ensures lo <= EloSum(gs, w) / (WeekSize(gs, w) as real) <= hi
  {
    EloSumBounds(gs, w, lo, hi);
    QuotientBounds(lo, hi, EloSum(gs, w), WeekSize(gs, w));
  }

  /** Every weekly mean lies within the range of the ratings. */
  lemma MeanWithinRatings(gs: seq<Game>, lo: real, hi: real)
    requires forall g :: g in gs ==> lo <= g.eloRating <= hi
    ensures forall i :: 0 <= i < |MeanEloPerWeek(gs)| ==> lo <= MeanEloPerWeek(gs)[i] <= hi
  {
    var ms, ws := MeanEloPerWeek(gs), Weeks(gs);
    WeeksCover(gs);
    forall i | 0 <= i < |ms| ensures lo <= ms[i] <= hi {
      WeekMeanWithinRatings(gs, ws[i], lo, hi);
    }
  }

  /** The labels that occur. */
  function Labels(gs: seq<Game>): set<string>
  {
    set i | 0 <= i < |gs| :: gs[i].opening
  }

  /**
   * `groupby(['Week', 'Opening']).size().unstack(fill_value=0)`: the weeks present as
   * its index, and per opening that occurs a column of group sizes, 0 where empty.
   */
  datatype CountTable = CountTable(weeks: seq<IsoWeek>, columns: map<string, seq<nat>>)

  function OpeningCounts(gs: seq<Game>): (t: CountTable)
    ensures t.weeks == Weeks(gs)
    ensures forall o :: o in t.columns <==> exists i :: 0 <= i < |gs| && gs[i].opening == o
    ensures forall o :: o in t.columns ==> |t.columns[o]| == |t.weeks|
    ensures forall o, i :: o in t.columns && 0 <= i < |t.weeks| ==> t.columns[o][i] == Count(gs, t.weeks[i], o)
  {
    var ws := Weeks(gs);
    CountTable(ws, map o | o in Labels(gs) :: seq(|ws|, i requires 0 <= i < |ws| => Count(gs, ws[i], o)))
  }

  /** Every column has a non-zero entry: an opening gets a column only if it is played. */
  lemma ColumnsAreNonZero(gs: seq<Game>, o: string)
    requires o in OpeningCounts(gs).columns
    ensures exists i :: 0 <= i < |Weeks(gs)| && OpeningCounts(gs).columns[o][i] > 0
  {
    var t := OpeningCounts(gs);
    var k :| 0 <= k < |gs| && gs[k].opening == o;
    WeeksCover(gs);
    var i :| 0 <= i < |t.weeks| && t.weeks[i] == gs[k].week;
    CountPositive(gs, t.weeks[i], o);
    assert t.columns[o][i] == Count(gs, t.weeks[i], o);
  }

  /** The sum over the listed openings of the (week, opening) group sizes. */
  function SumCounts(gs: seq<Game>, w: int, os: seq<string>): nat
  {
    if os == [] then 0 else Count(gs, w, os[0]) + SumCounts(gs, w, os[1..])
  }

  lemma {:induction false} SumCountsCons(gs: seq<Game>, w: int, os: seq<string>)
    requires gs != []
    ensures SumCounts(gs, w, os)
      == (if gs[0].week == w then Occurrences(os, gs[0].opening) else 0) + SumCounts(gs[1..], w, os)
  {
    if os != [] {
      SumCountsCons(gs, w, os[1..]);
    }
  }

  lemma {:induction false} ZeroCounts(w: int, os: seq<string>)
    ensures SumCounts([], w, os) == 0
  {
    if os != [] {
      ZeroCounts(w, os[1..]);
    }
  }

  /**
   * A row of the count table adds up to the week's group size, summed over any
   * repeat-free list of openings that holds every label of that week.
   */
  lemma {:induction false} RowTotal(gs: seq<Game>, w: int, os: seq<string>)
    requires Distinct(os)
    requires forall i :: 0 <= i < |gs| && gs[i].week == w ==> gs[i].opening in os
    ensures SumCounts(gs, w, os) == WeekSize(gs, w)
  {
    if gs == [] {
      ZeroCounts(w, os);
    } else {
      SumCountsCons(gs, w, os);
      if gs[0].week == w {
        OccursOnce(os, gs[0].opening);
      }
      assert forall i :: 0 <= i < |gs[1..]| ==> gs[1..][i] == gs[i + 1];
      RowTotal(gs[1..], w, os);
    }
  }

  /** The sum of row `i` of the table over the listed columns. */
  function RowSum(t: CountTable, i: nat, os: seq<string>): nat
    requires forall o :: o in os ==> o in t.columns && i < |t.columns[o]|
  {
    if os == [] then 0 else t.columns[os[0]][i] + RowSum(t, i, os[1..])
  }

  /** Summing a row of the table across all its columns gives the size of that week's group. */
  lemma {:induction false} TableRowTotal(gs: seq<Game>, i: nat, os: seq<string>)
    requires Distinct(os) && (forall o :: o in os <==> o in OpeningCounts(gs).columns)
    requires i < |Weeks(gs)|
    ensures RowSum(OpeningCounts(gs), i, os) == WeekSize(gs, Weeks(gs)[i])
  {
    var t := OpeningCounts(gs);
    RowSumIsSumCounts(gs, i, os);
    forall k | 0 <= k < |gs| && gs[k].week == Weeks(gs)[i] ensures gs[k].opening in os {
      assert gs[k].opening in t.columns;
    }
    RowTotal(gs, Weeks(gs)[i], os);
  }

  lemma {:induction false} RowSumIsSumCounts(gs: seq<Game>, i: nat, os: seq<string>)
    requires forall o :: o in os ==> o in OpeningCounts(gs).columns
    requires i < |Weeks(gs)|
    ensures RowSum(OpeningCounts(gs), i, os) == SumCounts(gs, Weeks(gs)[i], os)
  {
    if os != [] {
      RowSumIsSumCounts(gs, i, os[1..]);
    }
  }

  /** A polar chart's points: angle step k stands for 2 * pi * k / n, and one value per step. */
  datatype Chart<T> = Chart(angles: seq<nat>, values: seq<T>)

  /** `np.linspace(0, 2 * np.pi, n, endpoint=False)` as step indices 0 .. n-1. */
  function AngleSteps(n: nat): (s: seq<nat>)
    ensures |s| == n && forall k :: 0 <= k < n ==> s[k] == k
  {
    seq(n, k => k)
  }

  /**
   * `s += s[:1]`: the list with its first element appended again, so it ends where it
   * starts; an empty list stays empty.
   */
  function Closed<T>(s: seq<T>): (r: seq<T>)
    ensures s <= r
    ensures s == [] ==> r == []
    ensures s != [] ==> |r| == |s| + 1 && r[|s|] == r[0]
  {
    s + s[..if s == [] then 0 else 1]
  }
}
