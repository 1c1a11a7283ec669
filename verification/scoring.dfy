/** The scoring engine (`ScoringService`): the categorical sum over a
    scoring framework, with optional per-answer weights and a stable choice
    of the top category. */
module Scoring {
  import opened Base
  import opened JsValues

  /** An answer as scoring reads it. `weights` is `answer.weightMapping`:
      `None` when it is falsy, else the option-key-to-weight table. */
  datatype ScoringAnswer = ScoringAnswer(questionId: JsVal, optionKey: JsVal, weights: Option<map<string, int>>)

  /** A category name and its question ids, in `Object.keys` order. */
  type Category = (string, seq<JsVal>)

  datatype Framework = Framework(scoringMethod: string, categories: seq<Category>)

  datatype ScoreResult = ScoreResult(categories: seq<(string, int)>, topCategory: string, methodUsed: string)

  datatype ScoringError =
    | UnsupportedMethod(name: string)
    /** Sorting the entries of an empty score object and reading element 0 throws. */
    | NoCategories

  function ErrorMessage(e: ScoringError): string {
    match e
    case UnsupportedMethod(m) => "Unsupported scoring method: " + m
    case NoCategories => "Cannot read properties of undefined (reading '0')"
  }

  /** Object keys are distinct. */
  predicate DistinctNames(categories: seq<Category>) {
    forall i, j :: 0 <= i < j < |categories| ==> categories[i].0 != categories[j].0
  }

  /** `questionIds.includes(questionId)`. */
  predicate Includes(ids: seq<JsVal>, q: JsVal) {
    q in ids
  }

  /** `answer.weightMapping[answer.optionKey] || 1`: a missing or zero weight counts as 1. */
  function Weight(a: ScoringAnswer): (w: int)
    requires a.weights.Some?
    ensures w != 0
    ensures ToStr(a.optionKey) in a.weights.value && a.weights.value[ToStr(a.optionKey)] != 0 ==>
      w == a.weights.value[ToStr(a.optionKey)]
    ensures ToStr(a.optionKey) in a.weights.value && a.weights.value[ToStr(a.optionKey)] == 0 ==> w == 1
    ensures ToStr(a.optionKey) !in a.weights.value ==> w == 1
  {
    var key := ToStr(a.optionKey);
    if key in a.weights.value && a.weights.value[key] != 0 then a.weights.value[key] else 1
  }

  /** What one answer adds to a category with question ids `ids`. */
  function Points(a: ScoringAnswer, ids: seq<JsVal>): int {
    if !Includes(ids, a.questionId) then 0
    else if a.weights.Some? then Weight(a)
    else 1
  }

  /** A category's total over a list of answers. */
  function CategoryTotal(answers: seq<ScoringAnswer>, ids: seq<JsVal>): int
    decreases |answers|
  {
    if |answers| == 0 then 0
    else CategoryTotal(answers[..|answers| - 1], ids) + Points(answers[|answers| - 1], ids)
  }

  /** The answer matches some category and carries a weight table. */
  predicate AnswerUsesWeights(a: ScoringAnswer, categories: seq<Category>) {
    a.weights.Some? && exists c :: 0 <= c < |categories| && Includes(categories[c].1, a.questionId)
  }

  predicate UsesWeights(answers: seq<ScoringAnswer>, categories: seq<Category>) {
    exists k :: 0 <= k < |answers| && AnswerUsesWeights(answers[k], categories)
  }

  /** `t` is the index a stable descending sort puts first. */
  predicate IsFirstMax(xs: seq<int>, t: nat) {
    t < |xs| && (forall j :: 0 <= j < |xs| ==> xs[j] <= xs[t]) && (forall j :: 0 <= j < t ==> xs[j] < xs[t])
  }

  const DefaultResult: ScoreResult := ScoreResult([], "General", "default")

  /** `calculateCategoricalSum(answers, categories)`; `answers` is `None`
      when it is missing or not an array. No answers give the default
      result. Otherwise every category gets its total, in key order; the
      top category is the first with the largest total; the method is
      "weighted_sum" exactly when some matching answer had a weight table.
      With no categories, reading the top entry throws. */
  method CalculateCategoricalSum(answers: Option<seq<ScoringAnswer>>, categories: seq<Category>)
    returns (r: Result<ScoreResult, ScoringError>)
    requires DistinctNames(categories)
    ensures answers.None? || |answers.value| == 0 ==> r == Ok(DefaultResult)
    ensures answers.Some? && |answers.value| > 0 && |categories| == 0 ==> r == Err(NoCategories)
    ensures answers.Some? && |answers.value| > 0 && |categories| > 0 ==>
      && r.Ok?
      && |r.value.categories| == |categories|
      && (forall c :: 0 <= c < |categories| ==>
            r.value.categories[c] == (categories[c].0, CategoryTotal(answers.value, categories[c].1)))
      && (exists t: nat :: IsFirstMax(Totals(r.value.categories), t) && r.value.topCategory == categories[t].0)
      && r.value.methodUsed == (if UsesWeights(answers.value, categories) then "weighted_sum" else "categorical_sum")
  {
    if answers.None? || |answers.value| == 0 {
      return Ok(DefaultResult);
    }
    var xs := answers.value;
    var scores := seq(|categories|, _ => 0);
    var weighted := false;
    var i := 0;
    while i < |xs|
      invariant 0 <= i <= |xs|
      invariant |scores| == |categories|
      invariant forall c :: 0 <= c < |categories| ==> scores[c] == CategoryTotal(xs[..i], categories[c].1)
      invariant weighted <==> UsesWeights(xs[..i], categories)
    {
      assert xs[..i + 1][..i] == xs[..i];
      var used;
      scores, used := AddAnswer(scores, xs[i], categories);
      weighted := weighted || used;
      UsesWeightsSnoc(xs, i, categories);
      i := i + 1;
    }
    assert xs[..i] == xs;
    if |categories| == 0 {
      return Err(NoCategories);
    }
    var entries := seq(|categories|, c requires 0 <= c < |categories| => (categories[c].0, scores[c]));
    assert Totals(entries) == scores;
    var t := FirstMaxIndex(scores);
    r := Ok(ScoreResult(entries, categories[t].0, if weighted then "weighted_sum" else "categorical_sum"));
  }

  /** The inner `Object.entries(categories).forEach` for one answer: each
      category whose list contains the question gains the answer's points;
      `used` says whether the answer's weight table was consulted. */
  method AddAnswer(scores: seq<int>, a: ScoringAnswer, categories: seq<Category>)
    returns (scores': seq<int>, used: bool)
    requires |scores| == |categories|
    ensures |scores'| == |categories|
    ensures forall c :: 0 <= c < |categories| ==> scores'[c] == scores[c] + Points(a, categories[c].1)
    ensures used <==> AnswerUsesWeights(a, categories)
  {
    scores' := scores;
    used := false;
    var j := 0;
    while j < |categories|
      invariant 0 <= j <= |categories|
      invariant |scores'| == |categories|
      invariant forall c :: 0 <= c < j ==> scores'[c] == scores[c] + Points(a, categories[c].1)
      invariant forall c :: j <= c < |categories| ==> scores'[c] == scores[c]
      invariant used <==> a.weights.Some? && exists c :: 0 <= c < j && Includes(categories[c].1, a.questionId)
    {
      if Includes(categories[j].1, a.questionId) {
        if a.weights.Some? {
          used := true;
          scores' := scores'[j := scores'[j] + Weight(a)];
        } else {
          scores' := scores'[j := scores'[j] + 1];
        }
      }
      j := j + 1;
    }
  }

  /** The totals of a list of entries, in order. */
  function Totals(entries: seq<(string, int)>): (r: seq<int>)
    ensures |r| == |entries|
    ensures forall c :: 0 <= c < |entries| ==> r[c] == entries[c].1
  {
    seq(|entries|, c requires 0 <= c < |entries| => entries[c].1)
  }

  lemma UsesWeightsSnoc(xs: seq<ScoringAnswer>, i: nat, categories: seq<Category>)
    requires i < |xs|
    ensures UsesWeights(xs[..i + 1], categories) <==>
      UsesWeights(xs[..i], categories) || AnswerUsesWeights(xs[i], categories)
  {
    var p := xs[..i + 1];
    assert forall k :: 0 <= k < i ==> p[k] == xs[..i][k];
    assert p[i] == xs[i];
  }

  /** `calculateScore(answers, framework)`: only "categorical_sum" is supported. */
  method CalculateScore(answers: Option<seq<ScoringAnswer>>, framework: Framework)
    returns (r: Result<ScoreResult, ScoringError>)
    requires DistinctNames(framework.categories)
    ensures framework.scoringMethod != "categorical_sum" ==> r == Err(UnsupportedMethod(framework.scoringMethod))
    ensures framework.scoringMethod == "categorical_sum" && (answers.None? || |answers.value| == 0) ==> r == Ok(DefaultResult)
    ensures framework.scoringMethod == "categorical_sum" && answers.Some? && |answers.value| > 0 && |framework.categories| == 0 ==>
      r == Err(NoCategories)
    ensures framework.scoringMethod == "categorical_sum" && answers.Some? && |answers.value| > 0 && |framework.categories| > 0 ==>
      var categories := framework.categories;
      && r.Ok?
      && |r.value.categories| == |categories|
      && (forall c :: 0 <= c < |categories| ==>
            r.value.categories[c] == (categories[c].0, CategoryTotal(answers.value, categories[c].1)))
      && (exists t: nat :: IsFirstMax(Totals(r.value.categories), t) && r.value.topCategory == categories[t].0)
      && r.value.methodUsed == (if UsesWeights(answers.value, categories) then "weighted_sum" else "categorical_sum")
  {
    if framework.scoringMethod == "categorical_sum" {
      r := CalculateCategoricalSum(answers, framework.categories);
    } else {
      r := Err(UnsupportedMethod(framework.scoringMethod));
    }
  }

  // ---------------------------------------------------------------------
  // Properties of the totals
  // ---------------------------------------------------------------------

  /** Totals add up over a split of the answers, so scoring two batches
      separately and adding the totals agrees with scoring them together. */
  lemma {:induction false} TotalsAdd(xs: seq<ScoringAnswer>, ys: seq<ScoringAnswer>, ids: seq<JsVal>)
    ensures CategoryTotal(xs + ys, ids) == CategoryTotal(xs, ids) + CategoryTotal(ys, ids)
    decreases |ys|
  {
    if |ys| == 0 {
      assert xs + ys == xs;
    } else {
      var ys' := ys[..|ys| - 1];
      assert (xs + ys)[..|xs + ys| - 1] == xs + ys';
      TotalsAdd(xs, ys', ids);
    }
  }

  /** How many answers address one of the category's questions. */
  function MatchCount(answers: seq<ScoringAnswer>, ids: seq<JsVal>): nat {
    |set k | 0 <= k < |answers| && Includes(ids, answers[k].questionId)|
  }

  /** Without weight tables, a category's total is the number of answers
      to its questions. */
  lemma {:induction false} UnweightedTotalIsCount(answers: seq<ScoringAnswer>, ids: seq<JsVal>)
    requires forall k :: 0 <= k < |answers| ==> answers[k].weights.None?
    ensures CategoryTotal(answers, ids) == MatchCount(answers, ids)
    decreases |answers|
  {
    if |answers| > 0 {
      var n := |answers| - 1;
      var init := answers[..n];
      UnweightedTotalIsCount(init, ids);
      var s := set k | 0 <= k < |answers| && Includes(ids, answers[k].questionId);
      var s' := set k | 0 <= k < n && Includes(ids, init[k].questionId);
      assert forall k :: 0 <= k < n ==> init[k] == answers[k];
      if Includes(ids, answers[n].questionId) {
        assert s == s' + {n};
      } else {
        assert s == s';
      }
    }
  }

  /** An answer to a question in none of the categories changes no total. */
  lemma UnmatchedAnswerChangesNothing(answers: seq<ScoringAnswer>, a: ScoringAnswer, categories: seq<Category>)
    requires forall c :: 0 <= c < |categories| ==> !Includes(categories[c].1, a.questionId)
    ensures forall c :: 0 <= c < |categories| ==>
      CategoryTotal(answers + [a], categories[c].1) == CategoryTotal(answers, categories[c].1)
    ensures UsesWeights(answers + [a], categories) == UsesWeights(answers, categories)
  {
    forall c | 0 <= c < |categories|
      ensures CategoryTotal(answers + [a], categories[c].1) == CategoryTotal(answers, categories[c].1)
    {
      assert (answers + [a])[..|answers|] == answers;
    }
    var s := answers + [a];
    assert forall k :: 0 <= k < |answers| ==> s[k] == answers[k];
    assert !AnswerUsesWeights(s[|answers|], categories);
  }

  /** Ties go to the category listed first. */
  lemma TieGoesToFirstCategory(totals: seq<int>, t: nat)
    requires IsFirstMax(totals, t)
    ensures t == FirstMaxIndex(totals)
  {
    FirstMaxIndexUnique(totals, t);
  }
}
