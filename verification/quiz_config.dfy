/** `getQuizConfig`: choosing the e-mail branding for a quiz id by the
    first marker substring it contains. The emoji of each entry is not
    modelled. */
module QuizConfig {
  import opened Base
  import opened Strings

  datatype QuizType =
    | Divorce | HappinessIndex | PreMarriagePreparation | PreMarriageCompatibility
    | Senior | Unemployed | WorkingProfessionals

  datatype Config = Config(category: string, shortName: string, description: string, color: string, branding: string)

  /** The markers tested, in the order they are tested, with the type each selects. */
  const Markers: seq<(string, QuizType)> := [
    ("senior_citizen", Senior),
    ("divorce_conflict", Divorce),
    ("happiness_index", HappinessIndex),
    ("pre_marriage_prep", PreMarriagePreparation),
    ("pre_marriage_compat", PreMarriageCompatibility),
    ("unemployed_career", Unemployed),
    ("career_school", WorkingProfessionals)
  ]

  /** The quiz type of a quiz id; an absent id, or one without any marker,
      is "working-professionals". */
  function GetQuizType(quizId: Option<string>): (t: QuizType)
  {
    if quizId.None? then WorkingProfessionals
    else
      var q := quizId.value;
      if Contains(q, "senior_citizen") then Senior
      else if Contains(q, "divorce_conflict") then Divorce
      else if Contains(q, "happiness_index") then HappinessIndex
      else if Contains(q, "pre_marriage_prep") then PreMarriagePreparation
      else if Contains(q, "pre_marriage_compat") then PreMarriageCompatibility
      else if Contains(q, "unemployed_career") then Unemployed
      else WorkingProfessionals
  }

  /** The first marker of the table that the id contains, read generically. */
  function FirstMarker(q: string, markers: seq<(string, QuizType)>): (r: Option<QuizType>)
    ensures r.None? <==> forall i :: 0 <= i < |markers| ==> !Contains(q, markers[i].0)
    ensures r.Some? ==> exists i :: 0 <= i < |markers| && Contains(q, markers[i].0) && markers[i].1 == r.value
    decreases |markers|
  {
    if |markers| == 0 then None
    else if Contains(q, markers[0].0) then Some(markers[0].1)
    else
      var rest := FirstMarker(q, markers[1..]);
      assert forall i :: 1 <= i < |markers| ==> markers[i] == markers[1..][i - 1];
      rest
  }

  /** The if-chain is a first-match lookup in the marker table, with
      "working-professionals" as the fallback. */
  lemma QuizTypeIsFirstMarker(quizId: string)
    ensures GetQuizType(Some(quizId)) ==
      (match FirstMarker(quizId, Markers) case Some(t) => t case None => WorkingProfessionals)
  {
    var t6: seq<(string, QuizType)> := [("career_school", WorkingProfessionals)];
    var t5 := [("unemployed_career", Unemployed)] + t6;
    var t4 := [("pre_marriage_compat", PreMarriageCompatibility)] + t5;
    var t3 := [("pre_marriage_prep", PreMarriagePreparation)] + t4;
    var t2 := [("happiness_index", HappinessIndex)] + t3;
    var t1 := [("divorce_conflict", Divorce)] + t2;
    assert Markers == [("senior_citizen", Senior)] + t1;
    FirstMarkerCons(quizId, ("senior_citizen", Senior), t1);
    FirstMarkerCons(quizId, ("divorce_conflict", Divorce), t2);
    FirstMarkerCons(quizId, ("happiness_index", HappinessIndex), t3);
    FirstMarkerCons(quizId, ("pre_marriage_prep", PreMarriagePreparation), t4);
    FirstMarkerCons(quizId, ("pre_marriage_compat", PreMarriageCompatibility), t5);
    FirstMarkerCons(quizId, ("unemployed_career", Unemployed), t6);
    FirstMarkerCons(quizId, ("career_school", WorkingProfessionals), []);
    assert t6 == [("career_school", WorkingProfessionals)] + [];
  }

  lemma FirstMarkerCons(q: string, head: (string, QuizType), tail: seq<(string, QuizType)>)
    ensures FirstMarker(q, [head] + tail) ==
      if Contains(q, head.0) then Some(head.1) else FirstMarker(q, tail)
  {
    assert ([head] + tail)[1..] == tail;
  }

  /** An id naming two quiz types gets the earlier one in the table. */
  lemma SeniorWinsOverDivorce(quizId: string)
    requires Contains(quizId, "senior_citizen") && Contains(quizId, "divorce_conflict")
    ensures GetQuizType(Some(quizId)) == Senior
  {
  }

  /** "pre_marriage_prep" is tested before "pre_marriage_compat". */
  lemma PreparationBeforeCompatibility(quizId: string)
    requires Contains(quizId, "pre_marriage_prep") && !Contains(quizId, "senior_citizen")
    requires !Contains(quizId, "divorce_conflict") && !Contains(quizId, "happiness_index")
    ensures GetQuizType(Some(quizId)) == PreMarriagePreparation
  {
  }

  function ConfigOf(t: QuizType): (c: Config)
    ensures c.category == c.branding
  {
    match t
    case Divorce => Config("Divorce Conflict Resolution", "Conflict Resolution",
      "Understanding relationship dynamics and communication patterns", "#8b5cf6", "Divorce Conflict Resolution")
    case HappinessIndex => Config("Marriage Happiness Index", "Happiness Index",
      "Assessing relationship satisfaction and happiness levels", "#f59e0b", "Marriage Happiness Index")
    case PreMarriagePreparation => Config("Pre-Marriage Preparation", "Pre-Marriage Prep",
      "Preparing for a successful marriage journey", "#10b981", "Pre-Marriage Preparation")
    case PreMarriageCompatibility => Config("Pre-Marriage Compatibility", "Compatibility",
      "Understanding relationship compatibility and alignment", "#3b82f6", "Pre-Marriage Compatibility")
    case Senior => Config("Senior Citizen Life", "Senior Life",
      "Life assessment and guidance for senior citizens", "#6b7280", "Senior Citizen Life")
    case Unemployed => Config("Career Guidance", "Career Guidance",
      "Career direction and professional development", "#ef4444", "Career Guidance")
    case WorkingProfessionals => Config("Professional Development", "Professional Development",
      "Career advancement and professional growth", "#8b5cf6", "Professional Development")
  }

  /** The fallback entry, which the lookup can never reach. */
  const DefaultConfig: Config := Config("Personal Assessment", "Assessment",
    "Understanding your personality and potential", "#6b7280", "Personal Assessment")

  /** `getQuizConfig(quizId)`: the entry of the id's quiz type. */
  function GetQuizConfig(quizId: Option<string>): (c: Config)
    ensures c != DefaultConfig
    ensures c.category == c.branding
  {
    ConfigOf(GetQuizType(quizId))
  }

  /** The default quiz id of the deployment gets the divorce entry. */
  lemma DefaultQuizIdIsDivorce()
    ensures GetQuizConfig(Some("divorce_conflict_v1")).category == "Divorce Conflict Resolution"
  {
    var q := "divorce_conflict_v1";
    assert !Contains(q, "senior_citizen") by {
      forall j | 0 <= j ensures !OccursAt(q, "senior_citizen", j) {
        if j + 14 <= |q| { assert q[j..j + 14][0] == q[j]; }
      }
    }
    assert OccursAt(q, "divorce_conflict", 0);
    IndexOfIs(q, "divorce_conflict", 0);
  }

  /** Ids without any marker, and absent ids, get the professional-development entry. */
  lemma UnmarkedIdIsProfessional(quizId: Option<string>)
    requires quizId.Some? ==> forall i :: 0 <= i < |Markers| ==> !Contains(quizId.value, Markers[i].0)
    ensures GetQuizConfig(quizId).category == "Professional Development"
  {
    if quizId.Some? {
      assert Markers[0].0 == "senior_citizen";
      assert !Contains(quizId.value, Markers[0].0) && !Contains(quizId.value, Markers[1].0)
        && !Contains(quizId.value, Markers[2].0) && !Contains(quizId.value, Markers[3].0)
        && !Contains(quizId.value, Markers[4].0) && !Contains(quizId.value, Markers[5].0);
    }
  }
}
