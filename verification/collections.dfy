/** Per-quiz collection and model names of `models/Attempt.js` and
    `models/Result.js`. */
module Collections {
  import opened Base
  import opened Strings

  /** The collection kind, which decides the name suffix and the model prefix. */
  datatype Kind = Attempts | Results

  function Suffix(k: Kind): string {
    match k
    case Attempts => "attempts"
    case Results => "results"
  }

  /** `getCollectionName(quizId)`: `default_<kind>` for a falsy id, else the
      id with its first `_v1` removed (and its first `_` replaced by `_`),
      then `_<kind>`. */
  function CollectionName(k: Kind, quizId: Option<string>): (r: string)
    ensures quizId.None? || quizId.value == "" ==> r == "default_" + Suffix(k)
  {
    if quizId.None? || |quizId.value| == 0 then "default_" + Suffix(k)
    else
      var base := ReplaceFirst(ReplaceFirst(quizId.value, "_v1", ""), "_", "_");
      base + "_" + Suffix(k)
  }

  /** The name for a non-empty id is its first-`_v1`-stripped form plus the
      suffix: the second replacement changes nothing. */
  lemma CollectionNameOfId(k: Kind, quizId: string)
    requires quizId != ""
    ensures CollectionName(k, Some(quizId)) == ReplaceFirst(quizId, "_v1", "") + "_" + Suffix(k)
  {
    ReplaceSameCharIsIdentity(ReplaceFirst(quizId, "_v1", ""), '_');
  }

  /** An id without `_v1` keeps its whole text. */
  lemma IdWithoutV1Kept(k: Kind, quizId: string)
    requires quizId != "" && !Contains(quizId, "_v1")
    ensures CollectionName(k, Some(quizId)) == quizId + "_" + Suffix(k)
  {
    CollectionNameOfId(k, quizId);
  }

  /** For one quiz id the attempt and result collections share their stem
      and differ only in the suffix. */
  lemma SameStem(quizId: Option<string>)
    ensures exists stem :: CollectionName(Attempts, quizId) == stem + "attempts"
                        && CollectionName(Results, quizId) == stem + "results"
  {
    var stem := if quizId.None? || |quizId.value| == 0 then "default_"
      else ReplaceFirst(ReplaceFirst(quizId.value, "_v1", ""), "_", "_") + "_";
    assert CollectionName(Attempts, quizId) == stem + "attempts";
    assert CollectionName(Results, quizId) == stem + "results";
  }

  /** Attempt and result collections never share a name, whatever the ids. */
  lemma KindsNeverCollide(q1: Option<string>, q2: Option<string>)
    ensures CollectionName(Attempts, q1) != CollectionName(Results, q2)
  {
    ThirdLastChar(Attempts, q1);
    ThirdLastChar(Results, q2);
  }

  /** Helper: the third-last character of a collection name comes from its
      suffix: `p` of "attempts" or `l` of "results". */
  lemma ThirdLastChar(k: Kind, quizId: Option<string>)
    ensures var n := CollectionName(k, quizId);
      |n| >= 3 && n[|n| - 3] == (if k == Attempts then 'p' else 'l')
  {
    var x := if quizId.None? || |quizId.value| == 0 then "default_"
      else ReplaceFirst(ReplaceFirst(quizId.value, "_v1", ""), "_", "_") + "_";
    var suffix := Suffix(k);
    assert CollectionName(k, quizId) == x + suffix;
    assert (x + suffix)[|x| + |suffix| - 3] == suffix[|suffix| - 3];
  }

  /** An id and the same id with `_v1` appended share their collections. */
  lemma VersionedIdShares(k: Kind, stem: string)
    requires stem != "" && !Contains(stem, "_v1")
    ensures CollectionName(k, Some(stem + "_v1")) == CollectionName(k, Some(stem))
  {
    var q := stem + "_v1";
    assert OccursAt(q, "_v1", |stem|);
    forall j | 0 <= j < |stem| ensures !OccursAt(q, "_v1", j) {
      if j + 3 <= |stem| {
        assert q[j..j + 3] == stem[j..j + 3];
        assert !OccursAt(stem, "_v1", j);
      } else if j + 3 <= |q| {
        assert q[j..j + 3][|stem| - j] == q[|stem|] == '_';
      }
    }
    IndexOfIs(q, "_v1", |stem|);
    assert q[..|stem|] + "" + q[|stem| + 3..] == stem;
    CollectionNameOfId(k, q);
    IdWithoutV1Kept(k, stem);
  }

  /** `UserAttempt_<collection>` and `UserResult_<collection>`. */
  function ModelName(k: Kind, quizId: Option<string>): (r: string)
    ensures k == Attempts ==> r == "UserAttempt_" + CollectionName(k, quizId)
    ensures k == Results ==> r == "UserResult_" + CollectionName(k, quizId)
  {
    match k
    case Attempts => "UserAttempt_" + CollectionName(k, quizId)
    case Results => "UserResult_" + CollectionName(k, quizId)
  }

  /** The attempt model and the result model never share a name, so both
      can be registered on one connection for any pair of quiz ids. */
  lemma ModelNamesOfKindsDiffer(q1: Option<string>, q2: Option<string>)
    ensures ModelName(Attempts, q1) != ModelName(Results, q2)
  {
    assert ModelName(Attempts, q1)[4] == 'A';
    assert ModelName(Results, q2)[4] == 'R';
  }

  /** Model names are determined by the collection name, and two quiz ids
      get the same model name exactly when they get the same collection. */
  lemma ModelNameIffCollection(k: Kind, q1: Option<string>, q2: Option<string>)
    ensures ModelName(k, q1) == ModelName(k, q2) <==> CollectionName(k, q1) == CollectionName(k, q2)
  {
    var p := if k == Attempts then "UserAttempt_" else "UserResult_";
    if ModelName(k, q1) == ModelName(k, q2) {
      assert ModelName(k, q1)[|p|..] == CollectionName(k, q1);
      assert ModelName(k, q2)[|p|..] == CollectionName(k, q2);
    }
  }
}
