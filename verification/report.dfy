/** The integer arithmetic behind the PDF report (`PDFService`): the six
    conflict-resolution parameter scores from answer-letter counts, the
    DISC percentages, the archetype, and the summary's "approach" phrase.
    Insight texts are represented by their position in each parameter's
    list of texts. */
module Report {
  import opened Base
  import opened AnswerNormalizer

  /** How often each answer letter was chosen within one parameter. */
  datatype Counts = Counts(a: nat, b: nat, c: nat, d: nat)

  const Parameters: string := "ABCDEF"

  /** The parameter an answer counts towards: the first character of its
      question id, when that is one of A to F. */
  function ParameterOf(ans: Canonical): Option<char> {
    if |ans.questionId| > 0 && ans.questionId[0] in Parameters then Some(ans.questionId[0]) else None
  }

  /** The letter an answer counts as: the last character of its selection. */
  function LetterOf(ans: Canonical): Option<char> {
    if |ans.selectedOption| > 0 then Some(ans.selectedOption[|ans.selectedOption| - 1]) else None
  }

  /** `answerPatterns[category][option]++`; letters other than a to d
      create a property nobody reads. */
  function Bump(c: Counts, letter: char): (r: Counts)
    ensures r.a == c.a + (if letter == 'a' then 1 else 0)
    ensures r.b == c.b + (if letter == 'b' then 1 else 0)
    ensures r.c == c.c + (if letter == 'c' then 1 else 0)
    ensures r.d == c.d + (if letter == 'd' then 1 else 0)
  {
    if letter == 'a' then c.(a := c.a + 1)
    else if letter == 'b' then c.(b := c.b + 1)
    else if letter == 'c' then c.(c := c.c + 1)
    else if letter == 'd' then c.(d := c.d + 1)
    else c
  }

  /** The letter counts of parameter `p` over the answers, in order. */
  function Tally(answers: seq<Canonical>, p: char): (r: Counts)
    ensures r.a + r.b + r.c + r.d <= |answers|
    decreases |answers|
  {
    if |answers| == 0 then Counts(0, 0, 0, 0)
    else
      var last := answers[|answers| - 1];
      var before := Tally(answers[..|answers| - 1], p);
      if ParameterOf(last) == Some(p) && LetterOf(last).Some? then Bump(before, LetterOf(last).value) else before
  }

  /** The reference count: how many of the answers belong to parameter `p`
      and end in `letter`. */
  function Occurrences(answers: seq<Canonical>, p: char, letter: char): nat
    decreases |answers|
  {
    if |answers| == 0 then 0
    else
      var last := answers[|answers| - 1];
      Occurrences(answers[..|answers| - 1], p, letter)
      + (if ParameterOf(last) == Some(p) && LetterOf(last) == Some(letter) then 1 else 0)
  }

  /** Each of `p`'s letter counts is the number of answers to `p` that end
      in that letter. */
  lemma {:induction false} TallyCounts(answers: seq<Canonical>, p: char)
    ensures Tally(answers, p).a == Occurrences(answers, p, 'a')
    ensures Tally(answers, p).b == Occurrences(answers, p, 'b')
    ensures Tally(answers, p).c == Occurrences(answers, p, 'c')
    ensures Tally(answers, p).d == Occurrences(answers, p, 'd')
    decreases |answers|
  {
    if |answers| > 0 {
      TallyCounts(answers[..|answers| - 1], p);
    }
  }

  /** An answer whose question is not in parameter `p`, or whose selection
      does not end in a to d, leaves `p`'s counts alone. */
  lemma IrrelevantAnswerIgnored(answers: seq<Canonical>, ans: Canonical, p: char)
    requires ParameterOf(ans) != Some(p) || LetterOf(ans).None? || LetterOf(ans).value !in "abcd"
    ensures Tally(answers + [ans], p) == Tally(answers, p)
  {
    assert (answers + [ans])[..|answers|] == answers;
  }

  function Plus(u: Counts, v: Counts): Counts {
    Counts(u.a + v.a, u.b + v.b, u.c + v.c, u.d + v.d)
  }

  lemma BumpPlus(u: Counts, v: Counts, letter: char)
    ensures Bump(Plus(u, v), letter) == Plus(u, Bump(v, letter))
  {
  }

  function Step(c: Counts, ans: Canonical, p: char): Counts {
    if ParameterOf(ans) == Some(p) && LetterOf(ans).Some? then Bump(c, LetterOf(ans).value) else c
  }

  lemma TallySnoc(s: seq<Canonical>, ans: Canonical, p: char)
    ensures Tally(s + [ans], p) == Step(Tally(s, p), ans, p)
  {
    assert (s + [ans])[..|s|] == s;
  }

  /** Counting is additive over a split of the answers. */
  lemma {:induction false} TallyAppend(xs: seq<Canonical>, ys: seq<Canonical>, p: char)
    ensures Tally(xs + ys, p) == Plus(Tally(xs, p), Tally(ys, p))
    decreases |ys|
  {
    if |ys| == 0 {
      assert xs + ys == xs;
    } else {
      var ys', last := ys[..|ys| - 1], ys[|ys| - 1];
      assert ys == ys' + [last];
      assert xs + ys == (xs + ys') + [last];
      TallyAppend(xs, ys', p);
      TallySnoc(xs + ys', last, p);
      TallySnoc(ys', last, p);
      if ParameterOf(last) == Some(p) && LetterOf(last).Some? {
        BumpPlus(Tally(xs, p), Tally(ys', p), LetterOf(last).value);
      }
    }
  }

  /** A parameter's score and the position of its one insight. */
  datatype ParamScore = ParamScore(score: int, insight: nat)

  /** Parameters A and E: b + 2c + 3d; the insight tiers of A are ≤5, ≤10, ≤15 and above. */
  function WeightedUp(c: Counts): nat { c.b + 2 * c.c + 3 * c.d }

  /** Parameter B: 3a + 2b + c. */
  function WeightedDown(c: Counts): nat { 3 * c.a + 2 * c.b + c.c }

  function FourTiers(score: int): (k: nat)
    ensures k < 4
    ensures k == 0 <==> score <= 5
    ensures k == 1 <==> 5 < score <= 10
    ensures k == 2 <==> 10 < score <= 15
    ensures k == 3 <==> score > 15
  {
    if score <= 5 then 0 else if score <= 10 then 1 else if score <= 15 then 2 else 3
  }

  function ThreeTiers(score: int): (k: nat)
    ensures k < 3
    ensures k == 0 <==> score <= 5
    ensures k == 1 <==> 5 < score <= 10
    ensures k == 2 <==> score > 10
  {
    if score <= 5 then 0 else if score <= 10 then 1 else 2
  }

  /** The most frequent letter (0 for a … 3 for d), ties going to the earlier letter. */
  function Mode(c: Counts): (k: nat)
    ensures k < 4
    ensures var xs := [c.a as int, c.b, c.c, c.d];
      (forall j :: 0 <= j < 4 ==> xs[j] <= xs[k]) && (forall j :: 0 <= j < k ==> xs[j] < xs[k])
  {
    FirstMaxIndex([c.a as int, c.b, c.c, c.d])
  }

  /** The score each mode gives in parameters C, D and F. */
  const CScores: seq<int> := [12, 10, 11, 13]
  const DScores: seq<int> := [6, 7, 5, 8]
  const FScores: seq<int> := [9, 8, 7, 6]

  /** Parameters C, D and F: the entry of the first most frequent letter. */
  function ByMode(c: Counts, table: seq<int>): (r: ParamScore)
    requires |table| == 4
    ensures r.insight < 4 && r.score == table[r.insight]
    ensures var xs := [c.a as int, c.b, c.c, c.d];
      (forall j :: 0 <= j < 4 ==> xs[j] <= xs[r.insight]) && (forall j :: 0 <= j < r.insight ==> xs[j] < xs[r.insight])
  {
    ParamScore(table[Mode(c)], Mode(c))
  }

  /** The six parameter scores A to F from each parameter's letter counts. */
  function ScoresFromCounts(ta: Counts, tb: Counts, tc: Counts, td: Counts, te: Counts, tf: Counts): (r: seq<ParamScore>)
    ensures |r| == 6
    ensures r[0].score == ta.b + 2 * ta.c + 3 * ta.d && r[0].insight == FourTiers(r[0].score)
    ensures r[1].score == 3 * tb.a + 2 * tb.b + tb.c && r[1].insight == ThreeTiers(r[1].score)
    ensures r[4].score == te.b + 2 * te.c + 3 * te.d && r[4].insight == ThreeTiers(r[4].score)
    ensures r[2] == ByMode(tc, CScores) && r[3] == ByMode(td, DScores) && r[5] == ByMode(tf, FScores)
  {
    var sa, sb, se := WeightedUp(ta), WeightedDown(tb), WeightedUp(te);
    [ParamScore(sa, FourTiers(sa)),
     ParamScore(sb, ThreeTiers(sb)),
     ByMode(tc, CScores),
     ByMode(td, DScores),
     ParamScore(se, ThreeTiers(se)),
     ByMode(tf, FScores)]
  }

  /** `calculateConflictResolutionScores`: the six parameters A to F, in order. */
  function ConflictScores(answers: seq<Canonical>): (r: seq<ParamScore>)
    ensures |r| == 6
    ensures 0 <= r[0].score <= 3 * |answers| && 0 <= r[1].score <= 3 * |answers| && 0 <= r[4].score <= 3 * |answers|
    ensures r[0].score == WeightedUp(Tally(answers, 'A')) && r[0].insight == FourTiers(r[0].score)
    ensures r[1].score == WeightedDown(Tally(answers, 'B')) && r[1].insight == ThreeTiers(r[1].score)
    ensures r[4].score == WeightedUp(Tally(answers, 'E')) && r[4].insight == ThreeTiers(r[4].score)
    ensures r[2] == ByMode(Tally(answers, 'C'), CScores)
    ensures r[3] == ByMode(Tally(answers, 'D'), DScores)
    ensures r[5] == ByMode(Tally(answers, 'F'), FScores)
  {
    ScoresFromCounts(Tally(answers, 'A'), Tally(answers, 'B'), Tally(answers, 'C'),
                     Tally(answers, 'D'), Tally(answers, 'E'), Tally(answers, 'F'))
  }

  /** The weighted parameters read straight from the answers: A and E
      weigh b, c and d answers 1, 2 and 3; B weighs a, b and c answers 3, 2
      and 1. */
  lemma WeightedScoresCountAnswers(answers: seq<Canonical>)
    ensures ConflictScores(answers)[0].score
      == Occurrences(answers, 'A', 'b') + 2 * Occurrences(answers, 'A', 'c') + 3 * Occurrences(answers, 'A', 'd')
    ensures ConflictScores(answers)[1].score
      == 3 * Occurrences(answers, 'B', 'a') + 2 * Occurrences(answers, 'B', 'b') + Occurrences(answers, 'B', 'c')
    ensures ConflictScores(answers)[4].score
      == Occurrences(answers, 'E', 'b') + 2 * Occurrences(answers, 'E', 'c') + 3 * Occurrences(answers, 'E', 'd')
  {
    TallyCounts(answers, 'A');
    TallyCounts(answers, 'B');
    TallyCounts(answers, 'E');
  }

  /** No letter counted at all. */
  predicate NoneCounted(c: Counts) {
    c.a == 0 && c.b == 0 && c.c == 0 && c.d == 0
  }

  /** The counts of a parameter that no answer belongs to are all zero. */
  lemma {:induction false} TallyOfUnrelated(answers: seq<Canonical>, p: char)
    requires forall i :: 0 <= i < |answers| ==> ParameterOf(answers[i]) != Some(p)
    ensures NoneCounted(Tally(answers, p))
    decreases |answers|
  {
    if |answers| > 0 {
      TallyOfUnrelated(answers[..|answers| - 1], p);
    }
  }

  /** When no answer belongs to a parameter (no answers at all, say), A, B
      and E score 0 with their best insight, and C, D and F get the score of
      letter a. */
  lemma NoAnswersScores(answers: seq<Canonical>)
    requires forall i :: 0 <= i < |answers| ==> ParameterOf(answers[i]).None?
    ensures ConflictScores(answers) == [ParamScore(0, 0), ParamScore(0, 0), ParamScore(12, 0),
                                        ParamScore(6, 0), ParamScore(0, 0), ParamScore(9, 0)]
  {
    var ta, tb, tc := Tally(answers, 'A'), Tally(answers, 'B'), Tally(answers, 'C');
    var td, te, tf := Tally(answers, 'D'), Tally(answers, 'E'), Tally(answers, 'F');
    assert WeightedUp(ta) == 0 by { TallyOfUnrelated(answers, 'A'); NothingCounted(ta); }
    assert WeightedDown(tb) == 0 by { TallyOfUnrelated(answers, 'B'); NothingCounted(tb); }
    assert Mode(tc) == 0 by { TallyOfUnrelated(answers, 'C'); NothingCounted(tc); }
    assert Mode(td) == 0 by { TallyOfUnrelated(answers, 'D'); NothingCounted(td); }
    assert WeightedUp(te) == 0 by { TallyOfUnrelated(answers, 'E'); NothingCounted(te); }
    assert Mode(tf) == 0 by { TallyOfUnrelated(answers, 'F'); NothingCounted(tf); }
    ScoresFromZeroCounts(ta, tb, tc, td, te, tf);
  }

  lemma ScoresFromZeroCounts(ta: Counts, tb: Counts, tc: Counts, td: Counts, te: Counts, tf: Counts)
    requires WeightedUp(ta) == 0 && WeightedDown(tb) == 0 && WeightedUp(te) == 0
    requires Mode(tc) == 0 && Mode(td) == 0 && Mode(tf) == 0
    ensures ScoresFromCounts(ta, tb, tc, td, te, tf) == [ParamScore(0, 0), ParamScore(0, 0), ParamScore(12, 0),
                                                        ParamScore(6, 0), ParamScore(0, 0), ParamScore(9, 0)]
  {
  }

  lemma NothingCounted(c: Counts)
    requires NoneCounted(c)
    ensures WeightedUp(c) == 0 && WeightedDown(c) == 0 && Mode(c) == 0
  {
    ModeOfNothing(c);
  }

  lemma ModeOfNothing(c: Counts)
    requires NoneCounted(c)
    ensures Mode(c) == 0
  {
    FirstMaxIndexUnique([0, 0, 0, 0], 0);
    assert [c.a as int, c.b, c.c, c.d] == [0, 0, 0, 0];
  }

  /** A tie between the most frequent letters goes to the earlier letter. */
  lemma ModeTieGoesToEarlierLetter(c: Counts)
    requires c.b == c.c && c.c > c.a && c.c >= c.d
    ensures Mode(c) == 1
  {
    FirstMaxIndexUnique([c.a as int, c.b, c.c, c.d], 1);
  }

  /** One more "d" answer in parameter A raises its score by 3. */
  lemma OneMoreDInA(answers: seq<Canonical>, q: string, sel: string)
    requires |q| > 0 && q[0] == 'A' && |sel| > 0 && sel[|sel| - 1] == 'd'
    ensures ConflictScores(answers + [Canonical(q, sel)])[0].score == ConflictScores(answers)[0].score + 3
  {
    var ans := Canonical(q, sel);
    assert ParameterOf(ans) == Some('A') && LetterOf(ans) == Some('d');
    TallySnoc(answers, ans, 'A');
  }

  // ---------------------------------------------------------------------
  // DISC
  // ---------------------------------------------------------------------

  /** An answer's DISC contribution: `discMapping` (absent when falsy) and
      `score` (absent when falsy; only numeric scores are modelled). */
  datatype DiscAnswer = DiscAnswer(mapping: Option<string>, score: Option<int>)

  datatype Disc = Disc(d: int, i: int, s: int, c: int)

  function Add(t: Disc, key: string, v: int): (r: Disc)
    ensures r.d == t.d + (if key == "D" then v else 0)
    ensures r.i == t.i + (if key == "I" then v else 0)
    ensures r.s == t.s + (if key == "S" then v else 0)
    ensures r.c == t.c + (if key == "C" then v else 0)
    ensures r.d + r.i + r.s + r.c == t.d + t.i + t.s + t.c + (if key in {"D", "I", "S", "C"} then v else 0)
  {
    if key == "D" then t.(d := t.d + v)
    else if key == "I" then t.(i := t.i + v)
    else if key == "S" then t.(s := t.s + v)
    else if key == "C" then t.(c := t.c + v)
    else t
  }

  function Contribution(a: DiscAnswer): int {
    if a.score.Some? then a.score.value else 0
  }

  /** The reference sum: the scores of the answers mapped to `key`. */
  function KeySum(answers: seq<DiscAnswer>, key: string): int
    decreases |answers|
  {
    if |answers| == 0 then 0
    else
      var last := answers[|answers| - 1];
      KeySum(answers[..|answers| - 1], key) + (if last.mapping == Some(key) then Contribution(last) else 0)
  }

  /** The raw DISC sums, before conversion to percentages: each key's sum
      is the total score of the answers mapped to it. */
  function DiscSums(answers: seq<DiscAnswer>): (r: Disc)
    ensures r.d == KeySum(answers, "D") && r.i == KeySum(answers, "I")
    ensures r.s == KeySum(answers, "S") && r.c == KeySum(answers, "C")
    decreases |answers|
  {
    if |answers| == 0 then Disc(0, 0, 0, 0)
    else
      var last := answers[|answers| - 1];
      var before := DiscSums(answers[..|answers| - 1]);
      if last.mapping.Some? then Add(before, last.mapping.value, Contribution(last)) else before
  }

  /** The grand total of the sums is the total of the scores of the answers
      mapped to one of the four keys. */
  function MappedTotal(answers: seq<DiscAnswer>): int
    decreases |answers|
  {
    if |answers| == 0 then 0
    else
      var last := answers[|answers| - 1];
      MappedTotal(answers[..|answers| - 1])
      + (if last.mapping.Some? && last.mapping.value in {"D", "I", "S", "C"} then Contribution(last) else 0)
  }

  lemma {:induction false} DiscSumsTotal(answers: seq<DiscAnswer>)
    ensures var t := DiscSums(answers); t.d + t.i + t.s + t.c == MappedTotal(answers)
    decreases |answers|
  {
    if |answers| > 0 {
      DiscSumsTotal(answers[..|answers| - 1]);
    }
  }

  /** `Math.round((sum / 15) * 100)`: the integer nearest to 20·sum/3
      (a tie cannot occur). */
  function DiscPercent(sum: int): (r: int)
    ensures -3 < 6 * r - 40 * sum <= 3
  {
    (200 * sum + 15) / 30
  }

  /** A sum of 15 is 100 percent, 0 is 0, and more never gives less. */
  lemma DiscPercentLandmarks(x: int, y: int)
    requires x <= y
    ensures DiscPercent(15) == 100 && DiscPercent(0) == 0
    ensures DiscPercent(x) <= DiscPercent(y)
  {
  }

  /** `calculateDISCScores`: each key's percentage of 15 points, rounded,
      from the total score of the answers mapped to it. */
  function DiscScores(answers: seq<DiscAnswer>): (r: Disc)
    ensures -3 < 6 * r.d - 40 * KeySum(answers, "D") <= 3
    ensures -3 < 6 * r.i - 40 * KeySum(answers, "I") <= 3
    ensures -3 < 6 * r.s - 40 * KeySum(answers, "S") <= 3
    ensures -3 < 6 * r.c - 40 * KeySum(answers, "C") <= 3
  {
    var t := DiscSums(answers);
    Disc(DiscPercent(t.d), DiscPercent(t.i), DiscPercent(t.s), DiscPercent(t.c))
  }

  /** Answers mapped to anything but D, I, S and C are ignored. */
  lemma UnknownMappingIgnored(answers: seq<DiscAnswer>, a: DiscAnswer)
    requires a.mapping.None? || a.mapping.value !in {"D", "I", "S", "C"}
    ensures DiscScores(answers + [a]) == DiscScores(answers)
  {
    assert (answers + [a])[..|answers|] == answers;
  }

  // ---------------------------------------------------------------------
  // Archetype and approach
  // ---------------------------------------------------------------------

  function Max(x: int, y: int): int { if x >= y then x else y }

  datatype Archetype = Resolver | Communicator | Supporter | Analyzer

  /** `getArchetype`: the first of D, I, S, C that equals the maximum. */
  function GetArchetype(t: Disc): (r: Archetype)
    ensures r == Resolver <==> t.d >= t.i && t.d >= t.s && t.d >= t.c
    ensures r == Communicator <==> t.d < t.i && t.i >= t.s && t.i >= t.c
    ensures r == Supporter <==> t.d < t.s && t.i < t.s && t.s >= t.c
    ensures r == Analyzer <==> t.d < t.c && t.i < t.c && t.s < t.c
  {
    var top := Max(Max(t.d, t.i), Max(t.s, t.c));
    if t.d == top then Resolver else if t.i == top then Communicator else if t.s == top then Supporter else Analyzer
  }

  datatype Approach = DirectAndSolutionFocused | ExpressiveAndCommunicative | SteadyAndEmpathetic | ThoughtfulAndSystematic

  /** The summary's approach phrase: a style is named only when it is the
      strict maximum; otherwise "thoughtful and systematic". */
  function GetApproach(t: Disc): (r: Approach)
    ensures r == DirectAndSolutionFocused <==> t.d > t.i && t.d > t.s && t.d > t.c
    ensures r == ExpressiveAndCommunicative <==> t.i > t.d && t.i > t.s && t.i > t.c
    ensures r == SteadyAndEmpathetic <==> t.s > t.d && t.s > t.i && t.s > t.c
  {
    if t.d > t.i && t.d > t.s && t.d > t.c then DirectAndSolutionFocused
    else if t.i > t.d && t.i > t.s && t.i > t.c then ExpressiveAndCommunicative
    else if t.s > t.d && t.s > t.i && t.s > t.c then SteadyAndEmpathetic
    else ThoughtfulAndSystematic
  }

  /** With a unique top score, the approach names the archetype's style. */
  lemma ApproachAgreesWithArchetype(t: Disc)
    requires GetApproach(t) != ThoughtfulAndSystematic
    ensures GetArchetype(t) == Resolver <==> GetApproach(t) == DirectAndSolutionFocused
    ensures GetArchetype(t) == Communicator <==> GetApproach(t) == ExpressiveAndCommunicative
    ensures GetArchetype(t) == Supporter <==> GetApproach(t) == SteadyAndEmpathetic
  {
  }

  /** A tie for the top score always gives the fallback phrase, even though
      the archetype names the first of the tied styles. */
  lemma TieGivesThoughtful(t: Disc)
    requires t.d == t.i && t.d >= t.s && t.d >= t.c
    ensures GetApproach(t) == ThoughtfulAndSystematic
    ensures GetArchetype(t) == Resolver
  {
  }
}
