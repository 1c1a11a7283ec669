/** The attempt store (`AttemptService`) over an abstract collection of
    attempt documents. The collection is a sequence in insertion order;
    documents are never deleted, so an attempt's position is its id, and a
    `findOne` without sort returns the first match. */
module AttemptStore {
  import opened Base
  import opened JsValues
  import opened AnswerNormalizer

  /** The schema's status enum; new documents default to `InProgress`. */
  datatype Status = InProgress | Submitted | Finalizing | Completed

  function StatusName(s: Status): string {
    match s
    case InProgress => "in_progress"
    case Submitted => "submitted"
    case Finalizing => "finalizing"
    case Completed => "completed"
  }

  /** The enum check applied when a status string is stored. */
  function ParseStatus(name: string): (r: Option<Status>)
    ensures r.Some? ==> StatusName(r.value) == name
  {
    if name == "in_progress" then Some(InProgress)
    else if name == "submitted" then Some(Submitted)
    else if name == "finalizing" then Some(Finalizing)
    else if name == "completed" then Some(Completed)
    else None
  }

  /** Exactly the four status names are accepted, and they are told apart. */
  lemma StatusNamesRoundTrip(s: Status)
    ensures ParseStatus(StatusName(s)) == Some(s)
  {
  }

  /** A stored answer; `questionId` is a String path, the option fields keep
      whatever value they were given. */
  datatype StoredAnswer = StoredAnswer(questionId: string, optionKey: JsVal, optionValue: JsVal)

  /** The paths the attempt schema declares (timestamps and `meta` aside).
      Writes to undeclared paths (`score`, `completedAt`, `resultId`,
      `attendedAt`) are discarded by the schema's default strict mode, so an
      attempt has no place for them. */
  datatype Attempt = Attempt(
    quizId: string,
    userId: Option<string>,
    email: Option<string>,
    name: Option<string>,
    phone: Option<string>,
    gender: Option<string>,
    userName: Option<string>,
    password: Option<string>,
    answers: seq<StoredAnswer>,
    status: Status)

  type Store = seq<Attempt>

  /** The attempt identity the registration, autosave and finalize paths query by. */
  predicate HasIdentity(a: Attempt, email: string, quizId: string) {
    a.email == Some(email) && a.quizId == quizId
  }

  /** `findOne({email, quizId})`. */
  function FindByIdentity(store: Store, email: string, quizId: string): (r: Option<nat>)
    ensures r.Some? ==> r.value < |store| && HasIdentity(store[r.value], email, quizId)
    ensures r.Some? ==> forall j :: 0 <= j < r.value ==> !HasIdentity(store[j], email, quizId)
    ensures r.None? ==> forall j :: 0 <= j < |store| ==> !HasIdentity(store[j], email, quizId)
    decreases |store|
  {
    if |store| == 0 then None
    else if HasIdentity(store[0], email, quizId) then Some(0)
    else match FindByIdentity(store[1..], email, quizId)
      case None => None
      case Some(k) => Some(k + 1)
  }

  predicate InProgressWithIdentity(a: Attempt, email: string, quizId: string) {
    HasIdentity(a, email, quizId) && a.status == InProgress
  }

  /** `findOne({email, quizId, status: 'in_progress'})`. */
  function FindInProgress(store: Store, email: string, quizId: string): (r: Option<nat>)
    ensures r.Some? ==> r.value < |store| && InProgressWithIdentity(store[r.value], email, quizId)
    ensures r.Some? ==> forall j :: 0 <= j < r.value ==> !InProgressWithIdentity(store[j], email, quizId)
    ensures r.None? ==> forall j :: 0 <= j < |store| ==> !InProgressWithIdentity(store[j], email, quizId)
    decreases |store|
  {
    if |store| == 0 then None
    else if InProgressWithIdentity(store[0], email, quizId) then Some(0)
    else match FindInProgress(store[1..], email, quizId)
      case None => None
      case Some(k) => Some(k + 1)
  }

  /** No two attempts share an e-mail and quiz. Registration keeps this. */
  predicate UniqueIdentities(store: Store) {
    forall i, j :: 0 <= i < j < |store| && store[i].email.Some? ==>
      !HasIdentity(store[j], store[i].email.value, store[i].quizId)
  }

  /** `store` and `store'` agree everywhere except possibly at position `i`. */
  predicate OnlyChangedAt(store: Store, store': Store, i: nat) {
    |store'| == |store| && i < |store| &&
    forall j :: 0 <= j < |store| && j != i ==> store'[j] == store[j]
  }

  // ---------------------------------------------------------------------
  // createOrUpdateUser
  // ---------------------------------------------------------------------

  datatype Registration = Registration(
    userId: string, quizId: string, email: string, name: string, phone: string,
    gender: Option<string>, userName: string, password: string)

  function NewAttempt(reg: Registration): Attempt {
    Attempt(reg.quizId, Some(reg.userId), Some(reg.email), Some(reg.name), Some(reg.phone),
            reg.gender, Some(reg.userName), Some(reg.password), [], InProgress)
  }

  /** Upsert by `(email, quizId)`. An existing attempt gets the six identity
      fields overwritten whatever its status; answers and status are
      kept. Otherwise a new in-progress attempt with no answers is appended.
      Returns the new store and the attempt's position. */
  function CreateOrUpdateUser(store: Store, reg: Registration): (r: (Store, nat))
    ensures r.1 < |r.0| && HasIdentity(r.0[r.1], reg.email, reg.quizId)
    ensures FindByIdentity(store, reg.email, reg.quizId).Some? ==>
      var i := FindByIdentity(store, reg.email, reg.quizId).value;
      var a := store[i];
      && r.1 == i && OnlyChangedAt(store, r.0, i)
      && r.0[i] == a.(userId := Some(reg.userId), name := Some(reg.name), phone := Some(reg.phone),
                      gender := reg.gender, userName := Some(reg.userName), password := Some(reg.password))
    ensures FindByIdentity(store, reg.email, reg.quizId).None? ==>
      && r.0 == store + [r.0[r.1]] && r.1 == |store|
      && r.0[r.1].status == InProgress && r.0[r.1].answers == []
      && r.0[r.1].userId == Some(reg.userId) && r.0[r.1].name == Some(reg.name)
  {
    match FindByIdentity(store, reg.email, reg.quizId)
    case Some(i) =>
      var a := store[i].(userId := Some(reg.userId), name := Some(reg.name), phone := Some(reg.phone),
                         gender := reg.gender, userName := Some(reg.userName), password := Some(reg.password));
      (store[i := a], i)
    case None => (store + [NewAttempt(reg)], |store|)
  }

  /** There is no status guard: re-registering a completed attempt succeeds
      and leaves it completed, with its answers. */
  lemma ReRegistrationKeepsStatus(store: Store, reg: Registration)
    requires FindByIdentity(store, reg.email, reg.quizId).Some?
    ensures
      var i := FindByIdentity(store, reg.email, reg.quizId).value;
      var (s', k) := CreateOrUpdateUser(store, reg);
      k == i && s'[i].status == store[i].status && s'[i].answers == store[i].answers
  {
  }

  /** Registration never creates a second attempt for the same e-mail and quiz. */
  lemma {:induction false} RegistrationKeepsIdentitiesUnique(store: Store, reg: Registration)
    requires UniqueIdentities(store)
    ensures UniqueIdentities(CreateOrUpdateUser(store, reg).0)
  {
    var s' := CreateOrUpdateUser(store, reg).0;
    forall i, j | 0 <= i < j < |s'| && s'[i].email.Some?
      ensures !HasIdentity(s'[j], s'[i].email.value, s'[i].quizId)
    {
      if j == |store| {
        assert FindByIdentity(store, reg.email, reg.quizId).None?;
        assert s'[i] == store[i];
      } else {
        assert s'[i].email == store[i].email && s'[i].quizId == store[i].quizId;
        assert s'[j].email == store[j].email && s'[j].quizId == store[j].quizId;
      }
    }
  }

  /** After registration, the lookup by e-mail and quiz finds the attempt
      registration wrote. */
  lemma RegistrationIsFound(store: Store, reg: Registration)
    ensures FindByIdentity(CreateOrUpdateUser(store, reg).0, reg.email, reg.quizId)
      == Some(CreateOrUpdateUser(store, reg).1)
  {
    var (s1, i1) := CreateOrUpdateUser(store, reg);
    match FindByIdentity(store, reg.email, reg.quizId)
    case Some(i) =>
      assert forall j :: 0 <= j < |s1| && j != i ==> s1[j] == store[j];
      FindByIdentityIs(s1, reg.email, reg.quizId, i);
    case None =>
      assert forall j :: 0 <= j < |store| ==> s1[j] == store[j];
      FindByIdentityIs(s1, reg.email, reg.quizId, |store|);
  }

  /** What a later lookup sees after registration: the registered
      credentials, whether the attempt was created or updated. */
  lemma RegistrationStored(store: Store, reg: Registration)
    ensures
      var s' := CreateOrUpdateUser(store, reg).0;
      var k := FindByIdentity(s', reg.email, reg.quizId);
      && k.Some?
      && s'[k.value].userId == Some(reg.userId) && s'[k.value].name == Some(reg.name)
      && s'[k.value].phone == Some(reg.phone) && s'[k.value].gender == reg.gender
      && s'[k.value].userName == Some(reg.userName) && s'[k.value].password == Some(reg.password)
  {
    RegistrationIsFound(store, reg);
  }

  /** The lookup returns `k` exactly when `k` is the first match. */
  lemma FindByIdentityIs(store: Store, email: string, quizId: string, k: nat)
    requires k < |store| && HasIdentity(store[k], email, quizId)
    requires forall j :: 0 <= j < k ==> !HasIdentity(store[j], email, quizId)
    ensures FindByIdentity(store, email, quizId) == Some(k)
  {
  }

  /** Registering twice for the same e-mail and quiz yields a single attempt. */
  lemma {:induction false} RegisterTwiceOneAttempt(store: Store, reg1: Registration, reg2: Registration)
    requires reg1.email == reg2.email && reg1.quizId == reg2.quizId
    ensures
      var (s1, i1) := CreateOrUpdateUser(store, reg1);
      var (s2, i2) := CreateOrUpdateUser(s1, reg2);
      |s2| == |s1| && i2 == i1
  {
    RegistrationIsFound(store, reg1);
  }

  /** `findUserByEmail`: the first attempt for the e-mail and quiz, if any. */
  function FindUserByEmail(store: Store, email: string, quizId: string): (r: Option<Attempt>)
    ensures r.Some? <==> exists j :: 0 <= j < |store| && HasIdentity(store[j], email, quizId)
    ensures r.Some? ==> HasIdentity(r.value, email, quizId) && r.value in store
  {
    match FindByIdentity(store, email, quizId)
    case None => None
    case Some(i) => Some(store[i])
  }

  // ---------------------------------------------------------------------
  // Answer upsert
  // ---------------------------------------------------------------------

  /** `answers.findIndex(a => String(a.questionId) === questionId)`. */
  function FindAnswer(answers: seq<StoredAnswer>, questionId: string): (r: Option<nat>)
    ensures r.Some? ==> r.value < |answers| && answers[r.value].questionId == questionId
    ensures r.Some? ==> forall j :: 0 <= j < r.value ==> answers[j].questionId != questionId
    ensures r.None? ==> forall j :: 0 <= j < |answers| ==> answers[j].questionId != questionId
    decreases |answers|
  {
    if |answers| == 0 then None
    else if answers[0].questionId == questionId then Some(0)
    else match FindAnswer(answers[1..], questionId)
      case None => None
      case Some(k) => Some(k + 1)
  }

  /** Replace the answer for the same question in place, or append. */
  function UpsertAnswer(answers: seq<StoredAnswer>, a: StoredAnswer): (r: seq<StoredAnswer>)
    ensures FindAnswer(answers, a.questionId).Some? ==>
      var i := FindAnswer(answers, a.questionId).value;
      |r| == |answers| && r[i] == a && forall j :: 0 <= j < |r| && j != i ==> r[j] == answers[j]
    ensures FindAnswer(answers, a.questionId).None? ==> r == answers + [a]
  {
    match FindAnswer(answers, a.questionId)
    case Some(i) => answers[i := a]
    case None => answers + [a]
  }

  /** After an upsert the question's first entry is the new answer, and the
      list grew by at most one. */
  lemma UpsertThenFind(answers: seq<StoredAnswer>, a: StoredAnswer)
    ensures
      var r := UpsertAnswer(answers, a);
      && FindAnswer(r, a.questionId).Some?
      && r[FindAnswer(r, a.questionId).value] == a
      && |answers| <= |r| <= |answers| + 1
  {
    var r := UpsertAnswer(answers, a);
    match FindAnswer(answers, a.questionId)
    case Some(i) =>
      assert r[i].questionId == a.questionId;
      assert forall j :: 0 <= j < i ==> r[j] == answers[j];
    case None =>
      assert r[|answers|] == a;
      assert forall j :: 0 <= j < |answers| ==> r[j] == answers[j];
  }

  /** Saving two answers for the same question keeps only the second. */
  lemma {:induction false} UpsertOverwrites(answers: seq<StoredAnswer>, a: StoredAnswer, b: StoredAnswer)
    requires a.questionId == b.questionId
    ensures UpsertAnswer(UpsertAnswer(answers, a), b) == UpsertAnswer(answers, b)
  {
    var r := UpsertAnswer(answers, a);
    UpsertThenFind(answers, a);
    match FindAnswer(answers, a.questionId)
    case Some(i) =>
      assert forall j :: 0 <= j < i ==> r[j] == answers[j];
      assert FindAnswer(r, b.questionId) == Some(i);
    case None =>
      assert forall j :: 0 <= j < |answers| ==> r[j] == answers[j];
      assert FindAnswer(r, b.questionId) == Some(|answers|);
  }

  predicate DistinctQuestions(answers: seq<StoredAnswer>) {
    forall i, j :: 0 <= i < j < |answers| ==> answers[i].questionId != answers[j].questionId
  }

  /** Upserts keep the question ids of an answer list distinct. */
  lemma UpsertKeepsDistinct(answers: seq<StoredAnswer>, a: StoredAnswer)
    requires DistinctQuestions(answers)
    ensures DistinctQuestions(UpsertAnswer(answers, a))
  {
  }

  // ---------------------------------------------------------------------
  // saveAnswer
  // ---------------------------------------------------------------------

  function NotRegisteredMessage(email: string): string {
    "User attempt not found for email " + email + ". Please register first."
  }

  /** The attempt `saveAnswer` writes to: the first in-progress one for the
      identity, else the first one in any status. */
  function AutosaveTarget(store: Store, email: string, quizId: string): (r: Option<nat>)
    ensures r.Some? <==> FindByIdentity(store, email, quizId).Some?
    ensures r.Some? ==> r.value < |store| && HasIdentity(store[r.value], email, quizId)
    ensures r.Some? && store[r.value].status != InProgress ==>
      forall j :: 0 <= j < |store| ==> !InProgressWithIdentity(store[j], email, quizId)
    ensures FindInProgress(store, email, quizId).Some? ==> r == FindInProgress(store, email, quizId)
    ensures FindInProgress(store, email, quizId).None? ==> r == FindByIdentity(store, email, quizId)
  {
    match FindInProgress(store, email, quizId)
    case Some(i) => Some(i)
    case None => FindByIdentity(store, email, quizId)
  }

  /** The stored form of an autosaved answer: falsy options become "". */
  function AutosaveAnswer(questionId: string, optionKey: JsVal, optionValue: JsVal): StoredAnswer {
    StoredAnswer(questionId, Or(optionKey, Str("")), Or(optionValue, Str("")))
  }

  /** `saveAnswer`: fails with the "register first" message and changes
      nothing when the identity has no attempt; otherwise upserts the answer
      into the chosen attempt and changes nothing else. */
  function SaveAnswer(store: Store, quizId: string, email: string, questionId: string,
                      optionKey: JsVal, optionValue: JsVal): (r: Result<(Store, nat), string>)
    ensures r.Err? <==> FindByIdentity(store, email, quizId).None?
    ensures r.Err? ==> r.error == NotRegisteredMessage(email)
    ensures r.Ok? ==>
      var (s', i) := r.value;
      && Some(i) == AutosaveTarget(store, email, quizId)
      && OnlyChangedAt(store, s', i)
      && s'[i] == store[i].(answers := UpsertAnswer(store[i].answers, AutosaveAnswer(questionId, optionKey, optionValue)))
  {
    match AutosaveTarget(store, email, quizId)
    case None => Err(NotRegisteredMessage(email))
    case Some(i) =>
      var a := store[i];
      var a' := a.(answers := UpsertAnswer(a.answers, AutosaveAnswer(questionId, optionKey, optionValue)));
      Ok((store[i := a'], i))
  }

  /** An autosave arriving after finalize lands in the completed attempt
      when no in-progress attempt exists, and does not reopen it. */
  lemma AutosaveAfterCompletion(store: Store, quizId: string, email: string, qid: string, k: JsVal, v: JsVal)
    requires UniqueIdentities(store)
    requires FindByIdentity(store, email, quizId).Some?
    requires store[FindByIdentity(store, email, quizId).value].status == Completed
    ensures SaveAnswer(store, quizId, email, qid, k, v).Ok?
    ensures
      var (s', i) := SaveAnswer(store, quizId, email, qid, k, v).value;
      s'[i].status == Completed
  {
    var i := FindByIdentity(store, email, quizId).value;
    assert FindInProgress(store, email, quizId).None?;
  }

  // ---------------------------------------------------------------------
  // savePartialAnswer
  // ---------------------------------------------------------------------

  predicate PartialMatch(a: Attempt, userId: string, quizId: string) {
    a.userId == Some(userId) && a.quizId == quizId && a.status == InProgress
  }

  /** `findOne({userId, quizId, status: 'in_progress'})`. */
  function FindPartial(store: Store, userId: string, quizId: string): (r: Option<nat>)
    ensures r.Some? ==> r.value < |store| && PartialMatch(store[r.value], userId, quizId)
    ensures r.Some? ==> forall j :: 0 <= j < r.value ==> !PartialMatch(store[j], userId, quizId)
    ensures r.None? ==> forall j :: 0 <= j < |store| ==> !PartialMatch(store[j], userId, quizId)
    decreases |store|
  {
    if |store| == 0 then None
    else if PartialMatch(store[0], userId, quizId) then Some(0)
    else match FindPartial(store[1..], userId, quizId)
      case None => None
      case Some(k) => Some(k + 1)
  }

  /** `savePartialAnswer`: keyed by user id. Options are stored as given.
      Unlike `saveAnswer`, a missing attempt is created, holding only this answer. */
  function SavePartialAnswer(store: Store, userId: string, quizId: string, questionId: JsVal,
                             optionKey: JsVal, optionValue: JsVal): (r: (Store, nat))
    ensures r.1 < |r.0| && PartialMatch(r.0[r.1], userId, quizId)
    ensures FindPartial(store, userId, quizId).Some? ==>
      var i := FindPartial(store, userId, quizId).value;
      && r.1 == i && OnlyChangedAt(store, r.0, i)
      && r.0[i].answers == UpsertAnswer(store[i].answers, StoredAnswer(ToStr(questionId), optionKey, optionValue))
    ensures FindPartial(store, userId, quizId).None? ==>
      && r.0 == store + [r.0[r.1]] && r.1 == |store|
      && r.0[r.1].answers == [StoredAnswer(ToStr(questionId), optionKey, optionValue)]
      && r.0[r.1].email.None?
  {
    var ans := StoredAnswer(ToStr(questionId), optionKey, optionValue);
    match FindPartial(store, userId, quizId)
    case Some(i) => (store[i := store[i].(answers := UpsertAnswer(store[i].answers, ans))], i)
    case None =>
      var a := Attempt(quizId, Some(userId), None, None, None, None, None, None, [ans], InProgress);
      (store + [a], |store|)
  }

  /** The lookup returns `k` exactly when `k` is the first match. */
  lemma FindPartialIs(store: Store, userId: string, quizId: string, k: nat)
    requires k < |store| && PartialMatch(store[k], userId, quizId)
    requires forall j :: 0 <= j < k ==> !PartialMatch(store[j], userId, quizId)
    ensures FindPartial(store, userId, quizId) == Some(k)
  {
  }

  /** After a partial save, the next lookup by user id and quiz finds the
      attempt written, and its answer for the question is the one saved. */
  lemma SavePartialThenFind(store: Store, userId: string, quizId: string, questionId: JsVal,
                            optionKey: JsVal, optionValue: JsVal)
    ensures
      var (s', i) := SavePartialAnswer(store, userId, quizId, questionId, optionKey, optionValue);
      var ans := StoredAnswer(ToStr(questionId), optionKey, optionValue);
      && FindPartial(s', userId, quizId) == Some(i)
      && FindAnswer(s'[i].answers, ans.questionId).Some?
      && s'[i].answers[FindAnswer(s'[i].answers, ans.questionId).value] == ans
  {
    var (s', i) := SavePartialAnswer(store, userId, quizId, questionId, optionKey, optionValue);
    var ans := StoredAnswer(ToStr(questionId), optionKey, optionValue);
    match FindPartial(store, userId, quizId)
    case Some(k) =>
      assert forall j :: 0 <= j < k ==> s'[j] == store[j];
      FindPartialIs(s', userId, quizId, k);
      UpsertThenFind(store[k].answers, ans);
    case None =>
      assert forall j :: 0 <= j < |store| ==> s'[j] == store[j];
      FindPartialIs(s', userId, quizId, |store|);
      assert FindAnswer(s'[i].answers, ans.questionId) == Some(0);
  }

  /** A partial save never gives two attempts the same e-mail and quiz: an
      attempt it creates has no e-mail, and an update leaves e-mails alone. */
  lemma SavePartialKeepsIdentitiesUnique(store: Store, userId: string, quizId: string, questionId: JsVal,
                                         optionKey: JsVal, optionValue: JsVal)
    requires UniqueIdentities(store)
    ensures UniqueIdentities(SavePartialAnswer(store, userId, quizId, questionId, optionKey, optionValue).0)
  {
    var s' := SavePartialAnswer(store, userId, quizId, questionId, optionKey, optionValue).0;
    assert forall j :: 0 <= j < |store| ==> s'[j].email == store[j].email && s'[j].quizId == store[j].quizId;
  }

  // ---------------------------------------------------------------------
  // finalizeAttempt
  // ---------------------------------------------------------------------

  const NormalizeFailedMessage: string := "normalize-failed: answers missing questionId/selectedOption"

  function AttemptNotFoundMessage(email: string, quizId: string): string {
    "User attempt not found for email " + email + " and quizId " + quizId
  }

  /** The stored form of a canonical answer: key and value both hold the selection. */
  function StorageAnswers(answers: seq<Canonical>): (r: seq<StoredAnswer>)
    ensures |r| == |answers|
    ensures forall i :: 0 <= i < |answers| ==>
      r[i] == StoredAnswer(answers[i].questionId, Str(answers[i].selectedOption), Str(answers[i].selectedOption))
  {
    if |answers| == 0 then []
    else [StoredAnswer(answers[0].questionId, Str(answers[0].selectedOption), Str(answers[0].selectedOption))]
         + StorageAnswers(answers[1..])
  }

  predicate AllComplete(answers: seq<Canonical>) {
    forall i :: 0 <= i < |answers| ==> |answers[i].questionId| > 0 && |answers[i].selectedOption| > 0
  }

  /** The two persisted states of a successful finalize. */
  datatype Finalized = Finalized(score: int, index: nat, midStore: Store, store: Store)

  /** `finalizeAttempt`: rejects answers with an empty field before any
      lookup; locates the attempt by e-mail and quiz only; replaces its
      answers wholesale, saves it as `finalizing`, then saves it as
      `completed`. The score, 10 per answer, is returned but not stored:
      the schema does not declare it. */
  function FinalizeAttempt(store: Store, userId: string, quizId: string, email: string,
                           answers: seq<Canonical>): (r: Result<Finalized, string>)
    ensures !AllComplete(answers) ==> r == Err(NormalizeFailedMessage)
    ensures AllComplete(answers) && FindByIdentity(store, email, quizId).None? ==>
      r == Err(AttemptNotFoundMessage(email, quizId))
    ensures r.Ok? <==> AllComplete(answers) && FindByIdentity(store, email, quizId).Some?
    ensures r.Ok? ==>
      var f := r.value;
      && f.score == 10 * |answers|
      && Some(f.index) == FindByIdentity(store, email, quizId)
      && OnlyChangedAt(store, f.midStore, f.index)
      && f.midStore[f.index] == store[f.index].(answers := StorageAnswers(answers), status := Finalizing)
      && OnlyChangedAt(store, f.store, f.index)
      && f.store[f.index] == f.midStore[f.index].(status := Completed)
  {
    if !AllComplete(answers) then Err(NormalizeFailedMessage)
    else
      var score := |answers| * 10;
      match FindByIdentity(store, email, quizId)
      case None => Err(AttemptNotFoundMessage(email, quizId))
      case Some(i) =>
        var mid := store[i].(answers := StorageAnswers(answers), status := Finalizing);
        var done := mid.(status := Completed);
        Ok(Finalized(score, i, store[i := mid], store[i := done]))
  }

  /** The client-supplied user id plays no part in finalize. */
  lemma FinalizeIgnoresUserId(store: Store, u1: string, u2: string, quizId: string, email: string, answers: seq<Canonical>)
    ensures FinalizeAttempt(store, u1, quizId, email, answers) == FinalizeAttempt(store, u2, quizId, email, answers)
  {
  }

  /** Finalizing twice is tolerated and ends in the same state as once. */
  lemma FinalizeTwice(store: Store, userId: string, quizId: string, email: string, answers: seq<Canonical>)
    requires FinalizeAttempt(store, userId, quizId, email, answers).Ok?
    ensures
      var f1 := FinalizeAttempt(store, userId, quizId, email, answers).value;
      var r2 := FinalizeAttempt(f1.store, userId, quizId, email, answers);
      r2.Ok? && r2.value.store == f1.store && r2.value.score == f1.score
  {
    var f1 := FinalizeAttempt(store, userId, quizId, email, answers).value;
    var i := f1.index;
    assert forall j :: 0 <= j < |store| && j != i ==> f1.store[j] == store[j];
    assert FindByIdentity(f1.store, email, quizId) == Some(i);
    assert f1.store[i := f1.store[i]] == f1.store;
  }

  /** Canonical answers from the normalizer always pass finalize's own check. */
  lemma NormalizedAnswersAreComplete(items: seq<RawItem>)
    ensures AllComplete(Normalize(items).answers)
  {
  }

  // ---------------------------------------------------------------------
  // markAttendance
  // ---------------------------------------------------------------------

  /** `markAttendance`: `findOneAndUpdate({quizId, email}, {$set: …}, {upsert: true})`.
      Of the `$set` paths only `quizId`, `email` and `userId` are declared;
      strict mode drops `resultId` and `attendedAt`. An existing attempt
      therefore only gets the user id; otherwise an attempt with the schema
      defaults (in progress, no answers) is created. */
  function MarkAttendance(store: Store, quizId: string, email: string, userId: string): (r: (Store, nat))
    ensures r.1 < |r.0| && HasIdentity(r.0[r.1], email, quizId) && r.0[r.1].userId == Some(userId)
    ensures FindByIdentity(store, email, quizId).Some? ==>
      var i := FindByIdentity(store, email, quizId).value;
      r.1 == i && OnlyChangedAt(store, r.0, i) && r.0[i] == store[i].(userId := Some(userId))
    ensures FindByIdentity(store, email, quizId).None? ==>
      r.0 == store + [r.0[r.1]] && r.0[r.1].status == InProgress && r.0[r.1].answers == []
  {
    match FindByIdentity(store, email, quizId)
    case Some(i) => (store[i := store[i].(userId := Some(userId))], i)
    case None =>
      var a := Attempt(quizId, Some(userId), Some(email), None, None, None, None, None, [], InProgress);
      (store + [a], |store|)
  }

  /** After marking attendance, the lookup by e-mail and quiz finds the
      attempt written, carrying the user id. */
  lemma AttendanceIsFound(store: Store, quizId: string, email: string, userId: string)
    ensures
      var (s', i) := MarkAttendance(store, quizId, email, userId);
      FindByIdentity(s', email, quizId) == Some(i) && s'[i].userId == Some(userId)
  {
    var (s', i) := MarkAttendance(store, quizId, email, userId);
    assert forall j :: 0 <= j < |store| && j != i ==> s'[j] == store[j];
    FindByIdentityIs(s', email, quizId, i);
  }

  /** Marking attendance keeps e-mail and quiz pairs unique, and marking
      twice leaves a single attempt. */
  lemma AttendanceKeepsIdentitiesUnique(store: Store, quizId: string, email: string, userId: string, userId2: string)
    requires UniqueIdentities(store)
    ensures UniqueIdentities(MarkAttendance(store, quizId, email, userId).0)
    ensures var (s1, i1) := MarkAttendance(store, quizId, email, userId);
      var (s2, i2) := MarkAttendance(s1, quizId, email, userId2);
      |s2| == |s1| && i2 == i1
  {
    var (s', i) := MarkAttendance(store, quizId, email, userId);
    assert forall j :: 0 <= j < |store| ==> s'[j].email == store[j].email && s'[j].quizId == store[j].quizId;
    if FindByIdentity(store, email, quizId).None? {
      forall j | 0 <= j < |store| && store[j].email.Some?
        ensures !HasIdentity(s'[|store|], store[j].email.value, store[j].quizId)
      {
        assert !HasIdentity(store[j], email, quizId);
      }
    }
    AttendanceIsFound(store, quizId, email, userId);
  }
}
