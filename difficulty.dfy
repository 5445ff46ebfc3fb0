/**
 * The difficulty label derived from a recipe's total minutes: `transform_time_to_difficulty`
 * of main.py and the thresholds its code applies.
 */
module Difficulty {
  import opened Tables

  datatype Difficulty = Hard | Medium | Easy | Unknown

  /** The text written to the `difficulty` column. */
  function Name(d: Difficulty): (text: string)
    ensures text in ["Hard", "Medium", "Easy", "Unknown"]
  {
    match d
    case Hard => "Hard"
    case Medium => "Medium"
    case Easy => "Easy"
    case Unknown => "Unknown"
  }

  /**
   * The label of a total: over 60 minutes is Hard, 30 to 60 is Medium, 1 to 29 is Easy,
   * and anything not positive (including totals lowered by the -1 of an absent duration)
   * is Unknown. Every integer gets exactly one label.
   */
  function Classify(minutes: int): (d: Difficulty)
    ensures d == Hard <==> minutes > 60
    ensures d == Medium <==> 30 <= minutes <= 60
    ensures d == Easy <==> 0 < minutes < 30
    ensures d == Unknown <==> minutes <= 0
  {
    if minutes > 60 then Hard
    else if minutes >= 30 then Medium
    else if minutes > 0 then Easy
    else Unknown
  }

  /** The order of the labels, from Unknown up to Hard. */
  function Rank(d: Difficulty): nat
  {
    match d
    case Unknown => 0
    case Easy => 1
    case Medium => 2
    case Hard => 3
  }

  /** More minutes never give an easier label. */
  lemma ClassifyMonotone(x: int, y: int)
    requires x <= y
    ensures Rank(Classify(x)) <= Rank(Classify(y))
  {
  }

  /** The labels are told apart in the output text. */
  lemma NameInjective(d: Difficulty, e: Difficulty)
    ensures Name(d) == Name(e) <==> d == e
  {
  }

  /** The boundary values of the thresholds. */
  lemma ClassifyBoundaries()
    ensures Classify(61) == Hard && Classify(60) == Medium && Classify(30) == Medium
    ensures Classify(29) == Easy && Classify(1) == Easy
    ensures Classify(0) == Unknown && Classify(-1) == Unknown
  {
  }

  /**
   * `transform_time_to_difficulty`: one label per element of `time`, in its order, placed
   * under the given labels. pandas refuses an index whose length differs from the data, so
   * the caller passes one label per element.
   */
  method TransformTimeToDifficulty(time: Series<int>, indexes: seq<int>) returns (r: Series<Difficulty>)
    requires |indexes| == |time.values|
    ensures r.index == indexes
    ensures |r.values| == |time.values|
    ensures forall i :: 0 <= i < |time.values| ==> r.values[i] == Classify(time.values[i])
  {
    var newTime: seq<Difficulty> := [];
    var i := 0;
    while i < |time.values|
      invariant 0 <= i <= |time.values|
      invariant |newTime| == i
      invariant forall j :: 0 <= j < i ==> newTime[j] == Classify(time.values[j])
    {
      // The if/elif chain of main.py:80-87, kept as the source writes it rather than as a
      // call of Classify; the invariant ties each label to Classify.
      var row := time.values[i];
      if row > 60 {
        newTime := newTime + [Hard];
      } else if row >= 30 {
        newTime := newTime + [Medium];
      } else if row > 0 {
        newTime := newTime + [Easy];
      } else {
        newTime := newTime + [Unknown];
      }
      i := i + 1;
    }
    r := Series(indexes, newTime);
  }
}
