/** `ModelFactory`: a per-quiz cache of attempt and result models, and the
    models a result token points to. A model is represented by what
    identifies it: its kind, its registered name and its collection. */
module ModelFactory {
  import opened Base
  import opened Strings
  import opened Collections
  import opened Tokens

  datatype Model = Model(kind: Kind, modelName: string, collection: string)

  /** The model `getAttemptModel`/`getResultModel` of the models directory builds for a quiz. */
  function ModelFor(k: Kind, quizId: string): Model {
    Model(k, ModelName(k, Some(quizId)), CollectionName(k, Some(quizId)))
  }

  type Cache = map<string, Model>

  function KeyPrefix(k: Kind): string {
    match k
    case Attempts => "attempt_"
    case Results => "result_"
  }

  /** `attempt_${quizId}` or `result_${quizId}`. */
  function CacheKey(k: Kind, quizId: string): string {
    KeyPrefix(k) + quizId
  }

  /** Different kinds or quiz ids never share a cache key. */
  lemma CacheKeyInjective(k1: Kind, q1: string, k2: Kind, q2: string)
    requires CacheKey(k1, q1) == CacheKey(k2, q2)
    ensures k1 == k2 && q1 == q2
  {
    var c := CacheKey(k1, q1);
    assert c[0] == KeyPrefix(k1)[0] && c[0] == KeyPrefix(k2)[0];
    assert c[|KeyPrefix(k1)|..] == q1;
    assert c[|KeyPrefix(k2)|..] == q2;
  }

  /** `getAttemptModel(quizId)` / `getResultModel(quizId)`: build and cache
      the model on the first call for a key; afterwards return the cached one. */
  function GetModel(cache: Cache, k: Kind, quizId: string): (r: (Cache, Model))
    ensures CacheKey(k, quizId) in r.0 && r.1 == r.0[CacheKey(k, quizId)]
    ensures cache.Keys <= r.0.Keys && r.0.Keys <= cache.Keys + {CacheKey(k, quizId)}
    ensures forall key :: key in cache ==> r.0[key] == cache[key]
    ensures CacheKey(k, quizId) !in cache ==> r.1 == ModelFor(k, quizId)
  {
    var key := CacheKey(k, quizId);
    if key in cache then (cache, cache[key])
    else
      var m := ModelFor(k, quizId);
      (cache[key := m], m)
  }

  /** Every cached entry is the model its key names. */
  ghost predicate Coherent(cache: Cache) {
    forall k, q :: CacheKey(k, q) in cache ==> cache[CacheKey(k, q)] == ModelFor(k, q)
  }

  /** Caching is invisible: a coherent cache stays coherent and the model
      returned is always the one built for the quiz. */
  lemma GetModelCoherent(cache: Cache, k: Kind, quizId: string)
    requires Coherent(cache)
    ensures Coherent(GetModel(cache, k, quizId).0)
    ensures GetModel(cache, k, quizId).1 == ModelFor(k, quizId)
  {
    var c' := GetModel(cache, k, quizId).0;
    forall k2, q2 | CacheKey(k2, q2) in c' ensures c'[CacheKey(k2, q2)] == ModelFor(k2, q2) {
      if CacheKey(k2, q2) == CacheKey(k, quizId) {
        CacheKeyInjective(k2, q2, k, quizId);
      }
    }
  }

  /** A second request for the same model changes nothing and returns the
      same model. */
  lemma GetModelTwice(cache: Cache, k: Kind, quizId: string)
    ensures var (c1, m1) := GetModel(cache, k, quizId);
      GetModel(c1, k, quizId) == (c1, m1)
  {
  }

  /** `getQuizTypeFromToken(token)`. */
  function GetQuizTypeFromToken(token: Option<string>): (r: Option<string>)
    ensures r.Some? ==> '_' in r.value
  {
    if token.None? || |token.value| == 0 then None
    else
      var parts := Split(token.value, '_');
      if |parts| >= 4 then
        var qt := parts[0] + "_" + parts[1];
        assert qt[|parts[0]|] == '_';
        Some(qt)
      else None
  }

  /** The factory reads the same quiz type from a token as `parseToken`. */
  lemma QuizTypeFromTokenAgrees(token: Option<string>)
    ensures GetQuizTypeFromToken(token).Some? <==> IsValidToken(token)
    ensures GetQuizTypeFromToken(token).Some? ==> GetQuizTypeFromToken(token).value == ParseToken(token).value.quizType
  {
  }

  const InvalidTokenMessage: string := "Invalid token format"

  /** `getModelsByToken(token)`: both models of the quiz `<quizType>_v1`, or
      the invalid-format error when the token has no quiz type. */
  function GetModelsByToken(cache: Cache, token: Option<string>): (r: Result<(Cache, Model, Model), string>)
    ensures r.Err? <==> GetQuizTypeFromToken(token).None?
    ensures r.Err? ==> r.error == InvalidTokenMessage
    ensures r.Ok? ==> cache.Keys <= r.value.0.Keys
    ensures r.Ok? ==> var quizId := GetQuizTypeFromToken(token).value + "_v1";
      CacheKey(Attempts, quizId) in r.value.0 && CacheKey(Results, quizId) in r.value.0
  {
    match GetQuizTypeFromToken(token)
    case None => Err(InvalidTokenMessage)
    case Some(qt) =>
      var quizId := qt + "_v1";
      var (c1, attempt) := GetModel(cache, Attempts, quizId);
      var (c2, result) := GetModel(c1, Results, quizId);
      Ok((c2, attempt, result))
  }

  /** The factory rejects exactly the tokens `isValidToken` rejects. */
  lemma ModelsByTokenIffValid(cache: Cache, token: Option<string>)
    ensures GetModelsByToken(cache, token).Err? <==> !IsValidToken(token)
  {
    QuizTypeFromTokenAgrees(token);
  }

  /** With a coherent cache, the models are those of the parsed quiz id and
      the cache stays coherent. */
  lemma ModelsByTokenAreParsedQuizModels(cache: Cache, token: Option<string>)
    requires Coherent(cache) && IsValidToken(token)
    ensures var r := GetModelsByToken(cache, token);
      && r.Ok?
      && Coherent(r.value.0)
      && r.value.1 == ModelFor(Attempts, ParseToken(token).value.quizId)
      && r.value.2 == ModelFor(Results, ParseToken(token).value.quizId)
  {
    QuizTypeFromTokenAgrees(token);
    var quizId := ParseToken(token).value.quizId;
    var c1 := GetModel(cache, Attempts, quizId).0;
    GetModelCoherent(cache, Attempts, quizId);
    GetModelCoherent(c1, Results, quizId);
  }

  /** A token generated for a two-word quiz id leads back to that quiz's
      collections. */
  lemma GeneratedTokenFindsItsCollections(x: string, y: string, userId: string, now: nat, bytes: RandomBytes, cache: Cache)
    requires '_' !in x && '_' !in y && '_' !in userId && !StartsWith(y, "v1")
    requires Coherent(cache)
    ensures var quizId := x + "_" + y + "_v1";
      var r := GetModelsByToken(cache, Some(GenerateResultToken(quizId, userId, now, bytes)));
      && r.Ok?
      && r.value.1.collection == CollectionName(Attempts, Some(quizId))
      && r.value.2.collection == CollectionName(Results, Some(quizId))
  {
    var quizId := x + "_" + y + "_v1";
    TwoWordQuizType(x, y);
    GeneratedTokenParses(quizId, x, y, userId, now, bytes);
    ModelsByTokenAreParsedQuizModels(cache, Some(GenerateResultToken(quizId, userId, now, bytes)));
  }
}
