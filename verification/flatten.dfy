/** `flattenQuiz`: the questions of all sections in one list, each tagged
    with its section's id. */
module Flatten {
  import opened Base

  datatype Question = Question(
    questionId: string, question: string, options: seq<string>,
    categoryTag: Option<string>, weightMapping: Option<map<string, int>>)

  datatype Section = Section(sectionId: string, questions: seq<Question>)

  datatype FlatQuestion = FlatQuestion(
    questionId: string, sectionId: string, question: string, options: seq<string>,
    categoryTag: Option<string>, weightMapping: Option<map<string, int>>)

  /** The entry pushed for question `q` of section `s`. */
  function Entry(s: Section, q: Question): (e: FlatQuestion)
    ensures e.sectionId == s.sectionId
    ensures e.questionId == q.questionId && e.question == q.question && e.options == q.options
    ensures e.categoryTag == q.categoryTag && e.weightMapping == q.weightMapping
  {
    FlatQuestion(q.questionId, s.sectionId, q.question, q.options, q.categoryTag, q.weightMapping)
  }

  function SectionEntries(s: Section): (r: seq<FlatQuestion>)
    ensures |r| == |s.questions|
    ensures forall j :: 0 <= j < |s.questions| ==> r[j] == Entry(s, s.questions[j])
  {
    seq(|s.questions|, j requires 0 <= j < |s.questions| => Entry(s, s.questions[j]))
  }

  /** The reference definition: the sections' entries, concatenated in order. */
  function Flattened(sections: seq<Section>): seq<FlatQuestion>
    decreases |sections|
  {
    if |sections| == 0 then [] else Flattened(sections[..|sections| - 1]) + SectionEntries(sections[|sections| - 1])
  }

  /** The number of questions in the sections. */
  function QuestionCount(sections: seq<Section>): nat
    decreases |sections|
  {
    if |sections| == 0 then 0 else QuestionCount(sections[..|sections| - 1]) + |sections[|sections| - 1].questions|
  }

  /** `flattenQuiz(quiz)` with its two nested `forEach` loops. */
  method FlattenQuiz(sections: seq<Section>) returns (flat: seq<FlatQuestion>)
    ensures flat == Flattened(sections)
    ensures |flat| == QuestionCount(sections)
  {
    flat := [];
    var i := 0;
    while i < |sections|
      invariant 0 <= i <= |sections|
      invariant flat == Flattened(sections[..i])
    {
      var s := sections[i];
      var j := 0;
      ghost var before := flat;
      while j < |s.questions|
        invariant 0 <= j <= |s.questions|
        invariant flat == before + SectionEntries(s)[..j]
      {
        flat := flat + [Entry(s, s.questions[j])];
        j := j + 1;
      }
      assert SectionEntries(s)[..j] == SectionEntries(s);
      assert sections[..i + 1][..i] == sections[..i];
      i := i + 1;
    }
    assert sections[..i] == sections;
    FlattenedLength(sections);
  }

  /** The flattened length is the total question count. */
  lemma {:induction false} FlattenedLength(sections: seq<Section>)
    ensures |Flattened(sections)| == QuestionCount(sections)
    decreases |sections|
  {
    if |sections| > 0 {
      FlattenedLength(sections[..|sections| - 1]);
    }
  }

  /** Where question `j` of section `i` lands: after all questions of the
      earlier sections. */
  lemma {:induction false} FlattenedPosition(sections: seq<Section>, i: nat, j: nat)
    requires i < |sections| && j < |sections[i].questions|
    ensures QuestionCount(sections[..i]) + j < |Flattened(sections)|
    ensures Flattened(sections)[QuestionCount(sections[..i]) + j] == Entry(sections[i], sections[i].questions[j])
    decreases |sections|
  {
    var n := |sections|;
    var init := sections[..n - 1];
    FlattenedLength(init);
    FlattenedLength(sections[..i]);
    if i == n - 1 {
      assert sections[..i] == init;
    } else {
      assert init[..i] == sections[..i];
      assert init[i] == sections[i];
      FlattenedPosition(init, i, j);
    }
  }
}
