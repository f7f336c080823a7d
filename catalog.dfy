/**
 * The opening catalog shared by the chart (sketch.js, `topOpenings`) and the two
 * weekly scripts (`top_10_openings`), and the first-match prefix scan that all three
 * use to classify a game's move string.
 */
module Catalog {
  import opened Wrappers

  /** One catalog entry: the move prefix, the display name and the legend colour. */
  datatype Opening = Opening(key: string, name: string, color: string)

  /** `topOpenings` of sketch.js, in declaration (= `Object.keys`) order. */
  const TopOpenings: seq<Opening> := [
    Opening("e2e4 e7e5 g1f3 b8c6 b1c3", "Vienna Game", "#FF5733"),
    Opening("e2e4 e7e5 g1f3 b8c6 f1c4", "Italian Game", "#33FF57"),
    Opening("e2e4 d7d5 e4d5 d8d5 b1c3", "Scandinavian Defense", "#3357FF"),
    Opening("e2e4 e7e5 g1f3 d7d6 b1c3", "Philidor Defense", "#FF33A1"),
    Opening("e2e4 e7e5 g1f3 b8c6 d2d4", "Scotch Game", "#FFBD33"),
    Opening("e2e4 e7e5 g1f3 b8c6 f1b5", "Ruy Lopez", "#33FFF3"),
    Opening("e2e4 e7e5 g1f3 g8f6 b1c3", "Four Knights Game", "#FF5733"),
    Opening("e2e4 e7e5 g1f3 d8f6 b1c3", "Petrov Defense", "#75FF33"),
    Opening("e2e4 e7e5 d2d4 e5d4 d1d4", "Center Game", "#5733FF"),
    Opening("e2e4 c7c5 g1f3 b8c6 b1c3", "Sicilian Defense", "#FF33FF")
  ]

  /**
   * `top_10_openings` of weekly_average.py and radial_weekly_average.py (the two
   * scripts define the same dictionary): prefix to name, in insertion order.
   */
  const Top10Openings: seq<(string, string)> := [
    ("e2e4 e7e5 g1f3 b8c6 b1c3", "Vienna Game"),
    ("e2e4 e7e5 g1f3 b8c6 f1c4", "Italian Game"),
    ("e2e4 d7d5 e4d5 d8d5 b1c3", "Scandinavian Defense"),
    ("e2e4 e7e5 g1f3 d7d6 b1c3", "Philidor Defense"),
    ("e2e4 e7e5 g1f3 b8c6 d2d4", "Scotch Game"),
    ("e2e4 e7e5 g1f3 b8c6 f1b5", "Ruy Lopez"),
    ("e2e4 e7e5 g1f3 g8f6 b1c3", "Four Knights Game"),
    ("e2e4 e7e5 g1f3 d8f6 b1c3", "Petrov Defense"),
    ("e2e4 e7e5 d2d4 e5d4 d1d4", "Center Game"),
    ("e2e4 c7c5 g1f3 b8c6 b1c3", "Sicilian Defense")
  ]

  /** The prefixes of the chart's catalog, in order. */
  function Keys(): (ks: seq<string>)
    ensures |ks| == |TopOpenings|
    ensures forall k :: 0 <= k < |ks| ==> ks[k] == TopOpenings[k].key
  {
    seq(|TopOpenings|, k requires 0 <= k < |TopOpenings| => TopOpenings[k].key)
  }

  /** The prefixes of the scripts' catalog, in order. */
  function PyKeys(): (ks: seq<string>)
    ensures |ks| == |Top10Openings|
    ensures forall k :: 0 <= k < |ks| ==> ks[k] == Top10Openings[k].0
  {
    seq(|Top10Openings|, k requires 0 <= k < |Top10Openings| => Top10Openings[k].0)
  }

  /** The dictionary's values, in declaration order. */
  function PyNames(): (ns: seq<string>)
    ensures |ns| == |Top10Openings|
    ensures forall k :: 0 <= k < |ns| ==> ns[k] == Top10Openings[k].1
  {
    seq(|Top10Openings|, k requires 0 <= k < |Top10Openings| => Top10Openings[k].1)
  }

  /** The display names, in catalog order. */
  function Names(): (ns: seq<string>)
    ensures |ns| == |TopOpenings|
    ensures forall k :: 0 <= k < |ns| ==> ns[k] == TopOpenings[k].name
  {
    seq(|TopOpenings|, k requires 0 <= k < |TopOpenings| => TopOpenings[k].name)
  }

  predicate Distinct<T(==)>(s: seq<T>)
  {
    forall i, j :: 0 <= i < j < |s| ==> s[i] != s[j]
  }

  /**
   * The first key, in catalog order, that is a prefix of `moves` (the scan done by
   * `Object.keys(...).find(k => moves.startsWith(k))` and by `next(... startswith ...)`).
   * First match wins even for a catalog whose keys overlap.
   */
  function FirstMatch(keys: seq<string>, moves: string): (r: Option<nat>)
    ensures r.Some? ==> r.value < |keys| && keys[r.value] <= moves
    ensures r.Some? ==> forall j :: 0 <= j < r.value ==> !(keys[j] <= moves)
    ensures r.None? <==> forall j :: 0 <= j < |keys| ==> !(keys[j] <= moves)
  {
    if |keys| == 0 then None
    else if keys[0] <= moves then Some(0)
    else match FirstMatch(keys[1..], moves)
      case None => None
      case Some(k) => Some(k + 1)
  }

  /** Every key is five half-moves of four characters with four separators. */
  lemma KeyLengths()
    ensures forall k :: 0 <= k < |Keys()| ==> |Keys()[k]| == 24
  {
  }

  lemma KeysDistinct()
    ensures Distinct(Keys())
  {
    var ks := Keys();
    forall i, j | 0 <= i < j < |ks| ensures ks[i] != ks[j] {
      assert ks[i][5] != ks[j][5] || ks[i][15] != ks[j][15] || ks[i][16] != ks[j][16]
        || ks[i][20] != ks[j][20] || ks[i][22] != ks[j][22];
    }
  }

  /**
   * In this catalog no key is a prefix of another, so a move string that starts with
   * key k (the key exactly, or the key followed by further moves) is classified as k.
   */
  lemma ClassifiesExtension(k: nat, rest: string)
    requires k < |TopOpenings|
    ensures FirstMatch(Keys(), TopOpenings[k].key + rest) == Some(k)
  {
    var ks := Keys();
    var m := TopOpenings[k].key + rest;
    KeyLengths();
    KeysDistinct();
    assert ks[k] <= m;
    forall j | 0 <= j < |ks| && j != k ensures !(ks[j] <= m) {
      assert m[..24] == ks[k];
      assert ks[j] != ks[k];
    }
  }

  /** A move string shorter than a whole key (a key missing a move, say) matches nothing. */
  lemma ShortMovesMatchNothing(moves: string)
    requires |moves| < 24
    ensures FirstMatch(Keys(), moves) == None
  {
    KeyLengths();
    NoKeyFits(Keys(), moves);
  }

  /** A string shorter than every key has none of them as a prefix. */
  lemma NoKeyFits(keys: seq<string>, moves: string)
    requires forall k :: 0 <= k < |keys| ==> |moves| < |keys[k]|
    ensures FirstMatch(keys, moves) == None
  {
  }

  /** The scripts' dictionary holds the chart's keys and names, in the same order. */
  lemma CatalogsAgree()
    ensures |Top10Openings| == |TopOpenings|
    ensures forall k :: 0 <= k < |TopOpenings| ==>
      Top10Openings[k].0 == TopOpenings[k].key && Top10Openings[k].1 == TopOpenings[k].name
  {
  }

  /** Display names are distinct, non-empty (so JavaScript-truthy) and never "Other". */
  lemma NamesWellFormed()
    ensures Distinct(Names())
    ensures forall k :: 0 <= k < |TopOpenings| ==> TopOpenings[k].name != "" && TopOpenings[k].name != "Other"
  {
    var ns := Names();
    forall i, j | 0 <= i < j < |ns| ensures ns[i] != ns[j] {
      assert ns[i][0] != ns[j][0] || ns[i][2] != ns[j][2];
    }
  }

  /** The dictionary's values are distinct and never "Other", like the chart's names. */
  lemma PyNamesWellFormed()
    ensures Distinct(PyNames())
    ensures "Other" !in PyNames()
  {
    CatalogsAgree();
    NamesWellFormed();
    assert PyNames() == Names();
  }
}
