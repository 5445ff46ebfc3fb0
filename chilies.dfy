/**
 * The core of `get_chilies_dataset` in main.py, once the download and the files are set
 * aside: keep the recipes whose ingredients mention a chili, add up their preparation and cooking
 * minutes, and attach the difficulty label of that total as a new `difficulty` column.
 *
 * As in module Duration, most example lemmas take their literal input through a parameter
 * fixed by `requires`, which keeps the verifier from unfolding every definition on it.
 */
module Chilies {
  import opened Wrappers
  import opened Tables
  import opened Duration
  import opened Difficulty

  /**
   * A loaded recipe: the three fields the pipeline reads, and every other field as it came.
   * `other` holds only the remaining fields: none of its keys is "ingredients", "prepTime",
   * "cookTime" or "difficulty". A `difficulty` field in the download would be overwritten
   * by the derived column; here the derived cell is the `Row`'s own `difficulty`.
   */
  datatype Recipe = Recipe(ingredients: string, prepTime: string, cookTime: string, other: map<string, string>)

  /** A row of the written table: the recipe unchanged, and its `difficulty` cell (None is a missing cell). */
  datatype Row = Row(recipe: Recipe, difficulty: Option<Difficulty>)

  /** The alternatives of the pattern "Chilies|Chiles|Chile|Chilie|Cili". */
  const CHILI_VARIANTS: seq<string> := ["Chilies", "Chiles", "Chile", "Chilie", "Cili"]

  /** w occurs somewhere in s, character for character (case-sensitive). */
  predicate Contains(s: string, w: string)
    ensures Contains(s, w) ==> |w| <= |s|
    decreases |s|
  {
    w <= s || (s != [] && Contains(s[1..], w))
  }

  /** w occurs in s starting at position i. */
  predicate OccursAt(s: string, w: string, i: nat)
  {
    i + |w| <= |s| && s[i..i + |w|] == w
  }

  /** A contained word occurs at some position. */
  lemma {:induction false} ContainsFound(s: string, w: string) returns (i: nat)
    requires Contains(s, w)
    ensures OccursAt(s, w, i)
    decreases |s|
  {
    if w <= s {
      assert s[0..|w|] == w;
      i := 0;
    } else {
      var j := ContainsFound(s[1..], w);
      assert s[j + 1..j + 1 + |w|] == s[1..][j..j + |w|];
      i := j + 1;
    }
  }

  /** A word occurring at some position is contained. */
  lemma {:induction false} ContainsAt(s: string, w: string, i: nat)
    requires OccursAt(s, w, i)
    ensures Contains(s, w)
    decreases i
  {
    if i == 0 {
      assert s[..|w|] == w;
    } else {
      assert s[1..][i - 1..i - 1 + |w|] == w;
      ContainsAt(s[1..], w, i - 1);
    }
  }

  /** Containment is transitive: whatever occurs in an occurring word occurs in the text. */
  lemma ContainsTransitive(s: string, w: string, v: string)
    requires Contains(s, w) && Contains(w, v)
    ensures Contains(s, v)
  {
    var i := ContainsFound(s, w);
    var j := ContainsFound(w, v);
    forall k | 0 <= k < |v|
      ensures s[i + j..i + j + |v|][k] == v[k]
    {
      assert v[k] == w[j + k] == s[i + j + k];
    }
    assert s[i + j..i + j + |v|] == v;
    ContainsAt(s, v, i + j);
  }

  /** Containment means occurring, character for character, at some position. */
  lemma ContainsOccurs(s: string)
    ensures forall w :: Contains(s, w) <==> exists p: nat :: OccursAt(s, w, p)
  {
    forall w
      ensures Contains(s, w) <==> exists p: nat :: OccursAt(s, w, p)
    {
      if Contains(s, w) {
        var p := ContainsFound(s, w);
      }
      if exists p: nat :: OccursAt(s, w, p) {
        var p: nat :| OccursAt(s, w, p);
        ContainsAt(s, w, p);
      }
    }
  }

  /**
   * `str.contains` with the chili pattern: some alternative occurs in the ingredients, that
   * is, starts at some position of the text.
   */
  predicate MentionsChili(ingredients: string)
    ensures MentionsChili(ingredients)
      <==> exists k: nat, p: nat :: k < |CHILI_VARIANTS| && OccursAt(ingredients, CHILI_VARIANTS[k], p)
  {
    ContainsOccurs(ingredients);
    exists i :: 0 <= i < |CHILI_VARIANTS| && Contains(ingredients, CHILI_VARIANTS[i])
  }

  /**
   * Two of the five alternatives are redundant: "Chilies" contains "Chilie" and "Chiles"
   * contains "Chile", so the filter keeps exactly the texts containing "Chile", "Chilie" or
   * "Cili".
   */
  lemma MentionsChiliReduced(ingredients: string)
    ensures MentionsChili(ingredients)
      <==> Contains(ingredients, "Chile") || Contains(ingredients, "Chilie") || Contains(ingredients, "Cili")
  {
    assert CHILI_VARIANTS[2] == "Chile" && CHILI_VARIANTS[3] == "Chilie" && CHILI_VARIANTS[4] == "Cili";
    if Contains(ingredients, "Chilies") {
      assert "Chilie" <= "Chilies";
      ContainsTransitive(ingredients, "Chilies", "Chilie");
    }
    if Contains(ingredients, "Chiles") {
      assert "Chile" <= "Chiles";
      ContainsTransitive(ingredients, "Chiles", "Chile");
    }
  }

  /** `df['ingredients'].str.contains(...)`: one entry per row of the frame. */
  function ChiliMask(df: Frame<Recipe>): (mask: seq<bool>)
    ensures |mask| == |df.rows|
    ensures forall i :: 0 <= i < |df.rows| ==> (mask[i] <==> MentionsChili(df.rows[i].ingredients))
  {
    seq(|df.rows|, i requires 0 <= i < |df.rows| => MentionsChili(df.rows[i].ingredients))
  }

  /**
   * `df[mask]` on the loaded table: the chili recipes under their load positions. Every kept
   * row mentions a chili; `ChiliFrameExact` adds that the kept rows are exactly those, in order.
   */
  function ChiliFrame(records: seq<Recipe>): (kept: Frame<Recipe>)
    ensures |kept.index| == |kept.rows| <= |records|
    ensures forall i :: 0 <= i < |kept.rows| ==> MentionsChili(kept.rows[i].ingredients)
  {
    var df := FromRecords(records);
    var mask := ChiliMask(df);
    SelectSound(df, mask, 0);
    Select(df, mask)
  }

  /**
   * The filter keeps exactly the recipes whose ingredients mention a chili, in their original
   * relative order: every kept row is the loaded recipe at its label and mentions a chili,
   * the labels increase, and every recipe that mentions a chili is kept.
   */
  lemma ChiliFrameExact(records: seq<Recipe>)
    ensures var kept := ChiliFrame(records);
      && |kept.index| == |kept.rows|
      && Increasing(kept.index)
      && (forall i :: 0 <= i < |kept.index| ==>
            0 <= kept.index[i] < |records| && kept.rows[i] == records[kept.index[i]]
            && MentionsChili(kept.rows[i].ingredients))
      && (forall j :: 0 <= j < |records| && MentionsChili(records[j].ingredients) ==> j in kept.index)
  {
    var df := FromRecords(records);
    var mask := ChiliMask(df);
    SelectSound(df, mask, 0);
    SelectIncreasing(df, mask, 0);
    SelectComplete(df, mask, 0);
    forall j | 0 <= j < |records| && MentionsChili(records[j].ingredients)
      ensures j in ChiliFrame(records).index
    {
      assert mask[j];
    }
  }

  /**
   * The total that the label is computed from, the -1 of an absent duration included: never
   * below -2, exactly -2 when both durations are bare designators, and never negative when
   * neither is.
   */
  function TotalMinutes(r: Recipe): (t: int)
    ensures t >= -2
    ensures t == -2 <==> |r.prepTime| == 2 && |r.cookTime| == 2
    ensures |r.prepTime| != 2 && |r.cookTime| != 2 ==> t >= 0
  {
    GetMinutes(r.prepTime) + GetMinutes(r.cookTime)
  }

  /**
   * The filter-and-derive step of `get_chilies_dataset`: the chili recipes, in order and
   * otherwise unchanged, each with a `difficulty` cell that is present and holds the label
   * of its preparation plus cooking minutes.
   */
  method GetChiliesDataset(records: seq<Recipe>) returns (out: seq<Row>)
    ensures |out| == |ChiliFrame(records).rows|
    ensures forall i :: 0 <= i < |out| ==>
      out[i] == Row(ChiliFrame(records).rows[i], Some(Classify(TotalMinutes(ChiliFrame(records).rows[i]))))
  {
    var df := FromRecords(records);
    var mask := ChiliMask(df);
    var dfChilies := Select(df, mask);
    var prep := TransformTimeToMinutes(Column(dfChilies, (r: Recipe) => r.prepTime));
    var cook := TransformTimeToMinutes(Column(dfChilies, (r: Recipe) => r.cookTime));
    var duration := Add(prep, cook);
    var difficulty := TransformTimeToDifficulty(duration, dfChilies.index);
    var column := Align(difficulty, dfChilies.index);
    SelectIncreasing(df, mask, 0);
    AlignSameIndex(difficulty);
    out := seq(|dfChilies.rows|, i requires 0 <= i < |dfChilies.rows| => Row(dfChilies.rows[i], column[i]));
  }

  /** A recipe with "Chilies, Salt", 10 minutes of preparation and 25 of cooking is kept as Medium. */
  lemma ExampleChiliesSalt(r: Recipe)
    requires r == Recipe("Chilies, Salt", "PT10M", "PT25M", map[])
    ensures MentionsChili(r.ingredients)
    ensures TotalMinutes(r) == 35 && Classify(TotalMinutes(r)) == Medium
  {
    assert CHILI_VARIANTS[0] == "Chilies";
    assert "Chilies" <= r.ingredients;
    ExampleMinutes10(r.prepTime);
    ExampleMinutes25(r.cookTime);
  }

  lemma ExampleMinutes10(time: string)
    requires time == "PT10M"
    ensures GetMinutes(time) == 10
  {
    assert time == "PT" + "10" + "M" + "";
    MinutesOnly("PT", "10", "");
  }

  lemma ExampleMinutes25(time: string)
    requires time == "PT25M"
    ensures GetMinutes(time) == 25
  {
    assert time == "PT" + "25" + "M" + "";
    MinutesOnly("PT", "25", "");
  }

  /** A bare "PT" preparation time counts as -1: 45 minutes of cooking make a total of 44. */
  lemma ExampleSentinelArithmetic(r: Recipe)
    requires r.prepTime == "PT" && r.cookTime == "PT45M"
    ensures TotalMinutes(r) == 44 && Classify(TotalMinutes(r)) == Medium
  {
    ExampleMinutes(r.cookTime);
  }

  /** Two bare "PT" times give -2, which is Unknown; two empty times give 0, also Unknown. */
  lemma ExampleAbsentTimes(r: Recipe)
    requires (r.prepTime == "PT" && r.cookTime == "PT") || (r.prepTime == "" && r.cookTime == "")
    ensures Classify(TotalMinutes(r)) == Unknown
  {
  }

  /** A contained word's first character occurs in the text. */
  lemma {:induction false} ContainsFirst(s: string, w: string)
    requires w != [] && Contains(s, w)
    ensures w[0] in s
    decreases |s|
  {
    if !(w <= s) {
      ContainsFirst(s[1..], w);
    }
  }

  /** A word that is not at the start, and whose first character never occurs later, is absent. */
  lemma NotContainsPastStart(s: string, w: string)
    requires s != [] && w != [] && !(w <= s) && w[0] !in s[1..]
    ensures !Contains(s, w)
  {
    if Contains(s[1..], w) {
      ContainsFirst(s[1..], w);
    }
  }

  /** A text without a capital C mentions no chili: every alternative starts with 'C'. */
  lemma NotMentionedWithoutC(s: string)
    requires 'C' !in s
    ensures !MentionsChili(s)
  {
    MentionsChiliReduced(s);
    forall w | w in ["Chile", "Chilie", "Cili"]
      ensures !Contains(s, w)
    {
      if Contains(s, w) {
        ContainsFirst(s, w);
      }
    }
  }

  /** The match is case-sensitive: "chilies, salt" is not kept. */
  lemma ExampleLowerCase(s: string)
    requires s == "chilies, salt"
    ensures !MentionsChili(s)
  {
    assert 'C' !in s;
    NotMentionedWithoutC(s);
  }

  /** "Chili" alone is none of the alternatives: "Chili powder" is not kept. */
  lemma ExampleChiliAlone(s: string)
    requires s == "Chili powder"
    ensures !MentionsChili(s)
  {
    MentionsChiliReduced(s);
    assert 'C' !in s[1..];
    assert s[1] == 'h' && s[4] == 'i' && s[5] == ' ';
    NotContainsPastStart(s, "Chile");
    NotContainsPastStart(s, "Chilie");
    NotContainsPastStart(s, "Cili");
  }

  /** Of three loaded recipes only the one with chilies is kept, and it keeps its label 1. */
  lemma ExampleThreeRecipes(records: seq<Recipe>)
    requires |records| == 3
    requires records[0].ingredients == "Salt" && records[2].ingredients == "Sugar"
    requires records[1].ingredients == "Chilies, Salt"
    ensures ChiliFrame(records) == Frame([1], [records[1]])
  {
    assert CHILI_VARIANTS[0] == "Chilies";
    assert "Chilies" <= records[1].ingredients;
    NotMentionedWithoutC(records[0].ingredients);
    NotMentionedWithoutC(records[2].ingredients);
    var df := FromRecords(records);
    var mask := ChiliMask(df);
    assert ChiliFrame(records) == Select(df, mask);
    assert !mask[0] && mask[1] && !mask[2];
    assert mask == [false, true, false];
    assert df.index == [0, 1, 2];
    var last := Frame(df.index[1..][1..], df.rows[1..][1..]);
    assert Select(last, mask[1..][1..]) == Frame([], []);
    assert Select(Frame(df.index[1..], df.rows[1..]), mask[1..]) == Frame([1], [records[1]]);
  }
}
