/** The result store: `AttemptService.createResult`, with its duplicate check
    and bounded token retry, and the "latest result" query of
    `getResultsByEmail`. Results are a sequence in insertion order; creation
    time grows with position. Object-id generation and the store's answer to
    a save are injected. */
module ResultStore {
  import opened Base
  import opened Strings
  import opened AnswerNormalizer

  /** A 12-byte Mongo object id. */
  type ObjectId = b: seq<bv8> | |b| == 12 witness seq(12, _ => 0 as bv8)

  /** `ObjectId.toString()`: 24 lower-case hex digits. */
  function TokenOf(id: ObjectId): (t: string)
    ensures |t| == 24
  {
    Hex(id)
  }

  datatype Summary = Summary(score: int, topCategory: string)
  datatype RawRecord = RawRecord(answers: seq<Canonical>, score: int)

  /** The fields the caller supplies; `attemptId` is the attempt's position
      in the attempt store. */
  datatype ResultFields = ResultFields(
    quizId: string, userId: string, email: string, name: string, phone: Option<string>,
    summary: Summary, raw: RawRecord, attemptId: nat)

  /** A stored result: the paths the result schema declares. The
      `resultToken` that `createResult` sets on the document is not one of
      them, so the store, in strict mode, keeps no token. */
  datatype ResultRecord = ResultRecord(fields: ResultFields)

  /** What the store answers to one `save()`: success, a duplicate-key error
      (code 11000) whose key pattern names `resultToken`, which only a unique
      index on that path kept outside the schema can raise, or any other
      error. */
  datatype SaveOutcome = Saved | DuplicateToken | SaveFailed(message: string)

  datatype CreateError = RetriesExhausted | StoreError(message: string)

  const RetriesExhaustedMessage: string := "Failed to create result after multiple retries due to duplicate token"

  /** The most save attempts `createResult` makes. */
  const MaxSaves: nat := 3

  function ErrorMessage(e: CreateError): string {
    match e
    case RetriesExhausted => RetriesExhaustedMessage
    case StoreError(m) => m
  }

  predicate SameAttempt(r: ResultRecord, email: string, quizId: string, attemptId: nat) {
    r.fields.email == email && r.fields.quizId == quizId && r.fields.attemptId == attemptId
  }

  /** `findOne({email, quizId, attemptId})`. */
  function FindExisting(results: seq<ResultRecord>, email: string, quizId: string, attemptId: nat): (r: Option<nat>)
    ensures r.Some? ==> r.value < |results| && SameAttempt(results[r.value], email, quizId, attemptId)
    ensures r.Some? ==> forall j :: 0 <= j < r.value ==> !SameAttempt(results[j], email, quizId, attemptId)
    ensures r.None? ==> forall j :: 0 <= j < |results| ==> !SameAttempt(results[j], email, quizId, attemptId)
    decreases |results|
  {
    if |results| == 0 then None
    else if SameAttempt(results[0], email, quizId, attemptId) then Some(0)
    else match FindExisting(results[1..], email, quizId, attemptId)
      case None => None
      case Some(k) => Some(k + 1)
  }

  /** The duplicate check returns `k` exactly when `k` is the first match. */
  lemma FindExistingIs(results: seq<ResultRecord>, email: string, quizId: string, attemptId: nat, k: nat)
    requires k < |results| && SameAttempt(results[k], email, quizId, attemptId)
    requires forall j :: 0 <= j < k ==> !SameAttempt(results[j], email, quizId, attemptId)
    ensures FindExisting(results, email, quizId, attemptId) == Some(k)
  {
  }

  function ExistingFor(results: seq<ResultRecord>, f: ResultFields): Option<nat> {
    FindExisting(results, f.email, f.quizId, f.attemptId)
  }

  /** The token of the `k`-th save attempt: the k-th generated object id. */
  function TokenAt(newId: nat -> ObjectId, k: nat): string {
    TokenOf(newId(k))
  }

  /** The save attempts before `k` all met a duplicate token. */
  predicate DuplicatesBefore(newId: nat -> ObjectId, save: (nat, string) -> SaveOutcome, k: nat) {
    forall j :: 0 <= j < k ==> save(j, TokenAt(newId, j)) == DuplicateToken
  }

  /** Save `k` and the ones after it, within the retry budget, reach a
      successful save through duplicate-token errors only. */
  predicate SucceedsFrom(newId: nat -> ObjectId, save: (nat, string) -> SaveOutcome, k: nat)
    decreases MaxSaves - k
  {
    k < MaxSaves &&
    match save(k, TokenAt(newId, k))
    case Saved => true
    case DuplicateToken => SucceedsFrom(newId, save, k + 1)
    case SaveFailed(_) => false
  }

  /** Some save within the retry budget succeeds. */
  predicate SaveSucceedsWithin(newId: nat -> ObjectId, save: (nat, string) -> SaveOutcome) {
    SucceedsFrom(newId, save, 0)
  }

  /** Distinct object ids have distinct texts. */
  lemma TokenOfInjective(a: ObjectId, b: ObjectId)
    requires TokenOf(a) == TokenOf(b)
    ensures a == b
  {
    forall k | 0 <= k < 12
      ensures a[k] == b[k]
    {
      HexDecodes(a, k);
      HexDecodes(b, k);
    }
  }

  /** Two save attempts whose generated object ids differ carry different
      tokens: a retry never repeats the token that met the duplicate. */
  lemma RetryTokensDistinct(newId: nat -> ObjectId, j: nat, k: nat)
    requires newId(j) != newId(k)
    ensures TokenAt(newId, j) != TokenAt(newId, k)
  {
    if TokenAt(newId, j) == TokenAt(newId, k) {
      TokenOfInjective(newId(j), newId(k));
    }
  }

  /** The retry loop of `createResult`: up to three saves; save `k` is made
      with the `k`-th generated token set on the document, a new token is generated only after a
      duplicate-token error, any other error ends the loop, and a third
      duplicate fails with the retries message. `saves` is the number of
      save attempts. */
  method SaveWithRetries(f: ResultFields, newId: nat -> ObjectId, save: (nat, string) -> SaveOutcome)
    returns (r: Result<ResultRecord, CreateError>, saves: nat)
    ensures 1 <= saves <= MaxSaves && DuplicatesBefore(newId, save, saves - 1)
    ensures r.Ok? <==> SaveSucceedsWithin(newId, save)
    ensures r.Ok? ==> save(saves - 1, TokenAt(newId, saves - 1)) == Saved && r.value == ResultRecord(f)
    ensures r == Err(RetriesExhausted) <==> DuplicatesBefore(newId, save, MaxSaves)
    ensures r.Err? && r.error.StoreError? ==> save(saves - 1, TokenAt(newId, saves - 1)) == SaveFailed(r.error.message)
  {
    var retries := MaxSaves;
    saves := 0;
    while true
      invariant saves + retries == MaxSaves && retries > 0
      invariant DuplicatesBefore(newId, save, saves)
      invariant SaveSucceedsWithin(newId, save) == SucceedsFrom(newId, save, saves)
      decreases retries
    {
      var token := TokenOf(newId(saves));
      var outcome := save(saves, token);
      saves := saves + 1;
      match outcome {
        case Saved =>
          r := Ok(ResultRecord(f));
          return;
        case SaveFailed(m) =>
          r := Err(StoreError(m));
          return;
        case DuplicateToken =>
          retries := retries - 1;
          if retries == 0 {
            r := Err(RetriesExhausted);
            return;
          }
      }
    }
  }

  /** `createResult`. An existing result for the same e-mail, quiz and
      attempt is returned and nothing is saved; otherwise the record is saved
      by the retry loop and appended when a save succeeds. */
  method CreateResult(results: seq<ResultRecord>, f: ResultFields,
                      newId: nat -> ObjectId, save: (nat, string) -> SaveOutcome)
    returns (r: Result<(seq<ResultRecord>, ResultRecord), CreateError>, saves: nat)
    ensures ExistingFor(results, f).Some? ==>
      saves == 0 && r == Ok((results, results[ExistingFor(results, f).value]))
    ensures ExistingFor(results, f).None? ==> 1 <= saves <= MaxSaves && DuplicatesBefore(newId, save, saves - 1)
    ensures r.Ok? <==> ExistingFor(results, f).Some? || SaveSucceedsWithin(newId, save)
    ensures ExistingFor(results, f).None? && r.Ok? ==>
      && save(saves - 1, TokenAt(newId, saves - 1)) == Saved
      && r.value.1 == ResultRecord(f)
      && r.value.0 == results + [r.value.1]
    ensures r == Err(RetriesExhausted) <==>
      ExistingFor(results, f).None? && DuplicatesBefore(newId, save, MaxSaves)
    ensures r.Err? && r.error.StoreError? ==> save(saves - 1, TokenAt(newId, saves - 1)) == SaveFailed(r.error.message)
  {
    match ExistingFor(results, f) {
      case Some(i) =>
        r, saves := Ok((results, results[i])), 0;
        return;
      case None =>
    }
    var saved;
    saved, saves := SaveWithRetries(f, newId, save);
    match saved {
      case Ok(rec) => r := Ok((results + [rec], rec));
      case Err(e) => r := Err(e);
    }
  }

  /** A result just appended is what the duplicate check finds for its key,
      unless an earlier one already matched; so a repeated `createResult`
      for the same attempt returns it without saving. */
  lemma CreatedResultIsFoundAgain(results: seq<ResultRecord>, rec: ResultRecord)
    requires ExistingFor(results, rec.fields).None?
    ensures ExistingFor(results + [rec], rec.fields) == Some(|results|)
  {
    var s := results + [rec];
    assert forall j :: 0 <= j < |results| ==> s[j] == results[j];
    FindExistingIs(s, rec.fields.email, rec.fields.quizId, rec.fields.attemptId, |results|);
  }

  // ---------------------------------------------------------------------
  // Latest result for an e-mail and quiz
  // ---------------------------------------------------------------------

  predicate SameUserQuiz(r: ResultRecord, email: string, quizId: string) {
    r.fields.email == email && r.fields.quizId == quizId
  }

  /** `findOne({email, quizId}).sort({createdAt: -1})`: the last match in
      insertion order. */
  function LatestFor(results: seq<ResultRecord>, email: string, quizId: string): (r: Option<nat>)
    ensures r.Some? ==> r.value < |results| && SameUserQuiz(results[r.value], email, quizId)
    ensures r.Some? ==> forall j :: r.value < j < |results| ==> !SameUserQuiz(results[j], email, quizId)
    ensures r.None? ==> forall j :: 0 <= j < |results| ==> !SameUserQuiz(results[j], email, quizId)
    decreases |results|
  {
    if |results| == 0 then None
    else if SameUserQuiz(results[|results| - 1], email, quizId) then Some(|results| - 1)
    else LatestFor(results[..|results| - 1], email, quizId)
  }

  /** The result appended by a finalize is the one the lookup returns next. */
  lemma AppendedResultIsLatest(results: seq<ResultRecord>, rec: ResultRecord)
    ensures LatestFor(results + [rec], rec.fields.email, rec.fields.quizId) == Some(|results|)
  {
  }

  /** Results for other users or quizzes do not change what the lookup returns. */
  lemma {:induction false} UnrelatedResultInvisible(results: seq<ResultRecord>, rec: ResultRecord, email: string, quizId: string)
    requires !SameUserQuiz(rec, email, quizId)
    ensures LatestFor(results + [rec], email, quizId) == LatestFor(results, email, quizId)
  {
    assert (results + [rec])[..|results|] == results;
  }
}
