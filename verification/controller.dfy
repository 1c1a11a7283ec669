/** The request handlers of `AttemptController`: registration, the
    single-answer autosave, finalize, and the results lookup. Each handler
    takes the current store contents (`World`) and returns the new contents
    with the HTTP response. Time, randomness, the e-mail format check and
    the store's answers to saves are parameters. */
module QuizController {
  import opened Base
  import opened JsValues
  import opened AnswerNormalizer
  import opened RequestValidation
  import opened Credentials
  import opened AttemptStore
  import opened ResultStore
  import opened Http

  /** The attempt and result collections of one quiz. */
  datatype World = World(attempts: Store, results: seq<ResultRecord>)

  /** A request body value as it is echoed back in JSON. */
  function JsonOf(v: JsVal): Json {
    match v
    case Undefined => JNull
    case Null => JNull
    case Str(s) => JStr(s)
    case Num(n) => JNum(n)
    case Bool(b) => JBool(b)
  }

  /** A schema issue in a response: its path and, for a failed check, the
      check's message. */
  function IssueJson(i: Issue): Json {
    match i.kind
    case WrongType => JObj([("path", JArr([JStr(i.path)]))])
    case Check(m) => JObj([("path", JArr([JStr(i.path)])), ("message", JStr(m))])
  }

  function IssuesJson(issues: seq<Issue>): (r: Json)
    ensures r.JArr? && |r.items| == |issues|
    ensures forall k :: 0 <= k < |issues| ==> r.items[k] == IssueJson(issues[k])
  {
    JArr(seq(|issues|, k requires 0 <= k < |issues| => IssueJson(issues[k])))
  }

  function ItemErrorsJson(errors: seq<ItemError>): (r: Json)
    ensures r.JArr? && |r.items| == |errors|
    ensures forall k :: 0 <= k < |errors| ==>
      r.items[k] == JObj([("index", JNum(errors[k].index)), ("reason", JStr(errors[k].reason))])
  {
    JArr(seq(|errors|, k requires 0 <= k < |errors| =>
      JObj([("index", JNum(errors[k].index)), ("reason", JStr(errors[k].reason))])))
  }

  // ---------------------------------------------------------------------
  // POST register
  // ---------------------------------------------------------------------

  const ValidationFailed: string := "Validation failed"

  /** The attempt fields registration writes for a validated body. */
  function RegistrationFor(quizId: string, v: ValidRegistration, now: int, rand: int): Registration {
    Registration(UserId(v.email, now), quizId, v.email, v.name, v.phone, v.gender,
                 UserName(v.name, rand), Password(v.name, v.phone))
  }

  /** The 200 body of a registration: the generated identifiers, never the password. */
  function RegisteredResponse(userId: string, email: string, userName: string): (r: Response)
    ensures r.status == 200
    ensures Get(r.body, "success") == Some(JBool(true))
  {
    Plain(200, true, RegisteredMembers(userId, email, userName))
  }

  function RegisteredMembers(userId: string, email: string, userName: string): seq<(string, Json)> {
    [("message", JStr("User registered successfully")), ("userId", JStr(userId)),
     ("email", JStr(email)), ("userName", JStr(userName))]
  }

  /** The registration response carries the generated user id and user name. */
  lemma RegisteredResponseFields(userId: string, email: string, userName: string)
    ensures var body := RegisteredResponse(userId, email, userName).body;
      && Get(body, "userId") == Some(JStr(userId))
      && Get(body, "userName") == Some(JStr(userName))
  {
    var members := RegisteredMembers(userId, email, userName);
    PlainGet(200, true, members, 1);
    PlainGet(200, true, members, 3);
  }

  /** The registration response echoes the e-mail as given. */
  lemma RegisteredResponseEmail(userId: string, email: string, userName: string)
    ensures Get(RegisteredResponse(userId, email, userName).body, "email") == Some(JStr(email))
  {
    PlainGet(200, true, RegisteredMembers(userId, email, userName), 2);
  }

  /** The registration response never carries the password. */
  lemma RegisteredResponseHidesPassword(userId: string, email: string, userName: string)
    ensures !Has(RegisteredResponse(userId, email, userName).body, "password")
  {
    var body := RegisteredResponse(userId, email, userName).body;
    forall i | 0 <= i < |body.members|
      ensures body.members[i].0 != "password"
    {
      assert body.members[i].0 in ["success", "message", "userId", "email", "userName"];
    }
    GetAbsent(body.members, "password");
  }

  /** The registration response for a validated body, and the store after
      the attempt is created or updated. */
  function Registered(w: World, quizId: string, v: ValidRegistration, now: int, rand: int): (r: (World, Response))
    ensures r.1.status == 200
    ensures Get(r.1.body, "success") == Some(JBool(true))
    ensures Get(r.1.body, "userId") == Some(JStr(UserId(v.email, now)))
    ensures Get(r.1.body, "email") == Some(JStr(v.email))
    ensures Get(r.1.body, "userName") == Some(JStr(UserName(v.name, rand)))
    ensures !Has(r.1.body, "password")
    ensures r.0.results == w.results
    ensures FindByIdentity(r.0.attempts, v.email, quizId).Some?
    ensures
      var a := r.0.attempts[FindByIdentity(r.0.attempts, v.email, quizId).value];
      && a.userId == Some(UserId(v.email, now)) && a.password == Some(Password(v.name, v.phone))
      && a.name == Some(v.name) && a.phone == Some(v.phone)
  {
    var reg := RegistrationFor(quizId, v, now, rand);
    var attempts' := CreateOrUpdateUser(w.attempts, reg).0;
    RegistrationStored(w.attempts, reg);
    var resp := RegisteredResponse(reg.userId, v.email, reg.userName);
    RegisteredResponseFields(reg.userId, v.email, reg.userName);
    RegisteredResponseEmail(reg.userId, v.email, reg.userName);
    RegisteredResponseHidesPassword(reg.userId, v.email, reg.userName);
    (World(attempts', w.results), resp)
  }

  /** The 400 response for a body that fails a schema. */
  function Rejected(issues: seq<Issue>): (r: Response)
    ensures r.status == 400
    ensures Get(r.body, "success") == Some(JBool(false))
    ensures Get(r.body, "message") == Some(JStr(ValidationFailed))
    ensures Get(r.body, "errors") == Some(IssuesJson(issues))
  {
    var members := [("message", JStr(ValidationFailed)), ("errors", IssuesJson(issues))];
    PlainGet(400, false, members, 0);
    PlainGet(400, false, members, 1);
    Plain(400, false, members)
  }

  /** `registerUser`. A body that fails the schema gets 400 with the issues
      and touches nothing. Otherwise the attempt for the e-mail and quiz is
      created or updated with the derived credentials, and the response
      carries the user id, e-mail and user name, but not the password.
      `now` is `Date.now()`; `rand` is `Math.floor(1000 + Math.random() * 9000)`. */
  function RegisterUser(w: World, quizId: string, body: RegistrationBody, isEmail: string -> bool,
                        now: int, rand: int): (r: (World, Response))
    requires 1000 <= rand <= 9999
    ensures ValidateRegistration(body, isEmail).Err? ==>
      r.0 == w && r.1 == Rejected(ValidateRegistration(body, isEmail).error)
    ensures ValidateRegistration(body, isEmail).Ok? ==>
      var v := ValidateRegistration(body, isEmail).value;
      && v.name == body.name.s && v.email == body.email.s && v.phone == body.phone.s
      && r == Registered(w, quizId, v, now, rand)
  {
    match ValidateRegistration(body, isEmail)
    case Err(issues) => (w, Rejected(issues))
    case Ok(v) => Registered(w, quizId, v, now, rand)
  }

  // ---------------------------------------------------------------------
  // POST answer (autosave)
  // ---------------------------------------------------------------------

  /** `saveAnswer`. A body that fails the schema gets 400 with the issues; an
      e-mail without an attempt gets 500 with the service's message; both
      leave the store alone. Otherwise the answer is stored and 200 returned. */
  function SaveAnswerRoute(w: World, quizId: string, body: AnswerBody, isEmail: string -> bool): (r: (World, Response))
    ensures r.1.status == 200 <==>
      ValidateAnswer(body, isEmail).Ok? &&
      FindByIdentity(w.attempts, ValidateAnswer(body, isEmail).value.email, quizId).Some?
    ensures r.1.status != 200 ==> r.0 == w
    ensures ValidateAnswer(body, isEmail).Err? ==>
      && r.1 == CreateErrorResponse(400, ValidationFailed, IssuesJson(ValidateAnswer(body, isEmail).error))
    ensures ValidateAnswer(body, isEmail).Ok? && r.1.status != 200 ==>
      && r.1.status == 500
      && r.1 == CreateErrorResponse(500, "Failed to save answer: "
           + NotRegisteredMessage(ValidateAnswer(body, isEmail).value.email), JNull)
    ensures r.1.status == 200 ==>
      var v := ValidateAnswer(body, isEmail).value;
      var i := AutosaveTarget(w.attempts, v.email, quizId).value;
      && r.0.results == w.results && OnlyChangedAt(w.attempts, r.0.attempts, i)
      && FindAnswer(r.0.attempts[i].answers, v.questionId).Some?
      && r.0.attempts[i].answers[FindAnswer(r.0.attempts[i].answers, v.questionId).value]
           == AutosaveAnswer(v.questionId, v.optionKey, v.optionValue)
  {
    match ValidateAnswer(body, isEmail)
    case Err(issues) => (w, CreateErrorResponse(400, ValidationFailed, IssuesJson(issues)))
    case Ok(v) =>
      match SaveAnswer(w.attempts, quizId, v.email, v.questionId, v.optionKey, v.optionValue)
      case Err(m) => (w, CreateErrorResponse(500, "Failed to save answer: " + m, JNull))
      case Ok((attempts', i)) =>
        UpsertThenFind(w.attempts[i].answers, AutosaveAnswer(v.questionId, v.optionKey, v.optionValue));
        var data := JObj([("success", JBool(true)), ("message", JStr("Answer saved successfully"))]);
        (World(attempts', w.results), CreateHttpResponse(200, data, JNull))
  }

  // ---------------------------------------------------------------------
  // POST finalize
  // ---------------------------------------------------------------------

  /** The `answers` member of a finalize body: an array of items, or anything else. */
  datatype AnswersField = NotArray | Items(items: seq<RawItem>)

  datatype FinalizeBody = FinalizeBody(userId: JsVal, email: JsVal, name: JsVal, phone: JsVal, answers: AnswersField)

  /** The two e-mails finalize asks for once the result exists. */
  datatype MailRequest =
    | WelcomeMail(to: JsVal, name: JsVal, quizId: string, score: int)
    | OwnerMail(to: JsVal, studentEmail: JsVal, studentName: JsVal, quizId: string, score: int)

  const MissingFieldsMessage: string := "Missing required fields: userId, quizId, email, name"
  const NotArrayMessage: string := "answers must be an array"
  const InvalidAnswersMessage: string := "Invalid answers payload"

  predicate FieldsPresent(quizId: string, b: FinalizeBody) {
    Truthy(b.userId) && |quizId| > 0 && Truthy(b.email) && Truthy(b.name)
  }

  /** The request passes every check the controller makes before calling the service. */
  predicate Admissible(quizId: string, b: FinalizeBody) {
    FieldsPresent(quizId, b) && b.answers.Items? && |Normalize(b.answers.items).errors| == 0
  }

  function FinalizeFailed(message: string): (r: Response)
    ensures r.status == 500 && Get(r.body, "message") == Some(JStr("Finalize failed: " + message))
  {
    var members := [("message", JStr("Finalize failed: " + message)), ("code", JStr("E_FINALIZE_STEP_X"))];
    PlainGet(500, false, members, 0);
    Plain(500, false, members)
  }

  /** A failure body with a single `message` member. */
  function Failure(status: int, message: string): (r: Response)
    ensures r.status == status
    ensures Get(r.body, "success") == Some(JBool(false))
    ensures Get(r.body, "message") == Some(JStr(message))
  {
    PlainGet(status, false, [("message", JStr(message))], 0);
    Plain(status, false, [("message", JStr(message))])
  }

  /** The 422 body listing each bad answer item. */
  function InvalidAnswers(errors: seq<ItemError>): (r: Response)
    ensures r.status == 422
    ensures Get(r.body, "message") == Some(JStr(InvalidAnswersMessage))
    ensures Get(r.body, "details") == Some(ItemErrorsJson(errors))
  {
    var members := [("message", JStr(InvalidAnswersMessage)), ("details", ItemErrorsJson(errors))];
    PlainGet(422, false, members, 0);
    PlainGet(422, false, members, 1);
    Plain(422, false, members)
  }

  /** The 200 body of a finalized attempt: the user id as sent, the quiz and the score. */
  function Finalized(userId: JsVal, quizId: string, score: int): (r: Response)
    ensures r.status == 200
    ensures Get(r.body, "userId") == Some(JsonOf(userId))
    ensures Get(r.body, "quizId") == Some(JStr(quizId))
    ensures Get(r.body, "score") == Some(JNum(score))
  {
    var members := [("userId", JsonOf(userId)), ("quizId", JStr(quizId)), ("score", JNum(score))];
    PlainGet(200, true, members, 0);
    PlainGet(200, true, members, 1);
    PlainGet(200, true, members, 2);
    Plain(200, true, members)
  }

  /** The result fields finalize records for attempt `index`. */
  function FinalizeFields(quizId: string, b: FinalizeBody, answers: seq<Canonical>, score: int, index: nat): ResultFields {
    ResultFields(quizId, ToStr(b.userId), ToStr(b.email), ToStr(b.name), ToField(b.phone),
                 Summary(score, "General"), RawRecord(answers, score), index)
  }

  /** `finalizeAttempt`. Missing fields, a non-array `answers` and any bad
      answer item are answered with 400, 400 and 422 before the store is
      touched. Otherwise the attempt for the e-mail and quiz is completed
      with score 10 per answer, a result with summary `{score, 'General'}`
      is created, the two e-mails are requested, and 200 returns the score.
      A store failure gives 500; a failure while creating the result leaves
      the attempt completed. */
  method Finalize(w: World, quizId: string, body: FinalizeBody, ownerEmail: JsVal,
                  newId: nat -> ObjectId, save: (nat, string) -> SaveOutcome)
    returns (w': World, resp: Response, mails: seq<MailRequest>)
    ensures !FieldsPresent(quizId, body) ==>
      w' == w && mails == [] && resp.status == 400 && Get(resp.body, "message") == Some(JStr(MissingFieldsMessage))
    ensures FieldsPresent(quizId, body) && body.answers.NotArray? ==>
      w' == w && mails == [] && resp.status == 400 && Get(resp.body, "message") == Some(JStr(NotArrayMessage))
    ensures FieldsPresent(quizId, body) && body.answers.Items? && |Normalize(body.answers.items).errors| > 0 ==>
      && w' == w && mails == [] && resp.status == 422
      && Get(resp.body, "message") == Some(JStr(InvalidAnswersMessage))
      && Get(resp.body, "details") == Some(ItemErrorsJson(Normalize(body.answers.items).errors))
    ensures Admissible(quizId, body) && FindByIdentity(w.attempts, ToStr(body.email), quizId).None? ==>
      && w' == w && mails == [] && resp.status == 500
      && Get(resp.body, "message") == Some(JStr("Finalize failed: " + AttemptNotFoundMessage(ToStr(body.email), quizId)))
    ensures Admissible(quizId, body) && FindByIdentity(w.attempts, ToStr(body.email), quizId).Some? ==>
      var i := FindByIdentity(w.attempts, ToStr(body.email), quizId).value;
      var n := |body.answers.items|;
      var fields := FinalizeFields(quizId, body, Normalize(body.answers.items).answers, 10 * n, i);
      && OnlyChangedAt(w.attempts, w'.attempts, i)
      && w'.attempts[i] == w.attempts[i].(answers := StorageAnswers(Normalize(body.answers.items).answers), status := Completed)
      && (resp.status == 200 <==> ExistingFor(w.results, fields).Some? || SaveSucceedsWithin(newId, save))
      && (resp.status != 200 ==> resp.status == 500 && w'.results == w.results)
      && (ExistingFor(w.results, fields).None? && DuplicatesBefore(newId, save, MaxSaves) ==>
            Get(resp.body, "message") == Some(JStr("Finalize failed: " + RetriesExhaustedMessage)))
    ensures resp.status == 200 <==> mails != []
    ensures resp.status == 200 ==>
      var n := |body.answers.items|;
      var i := FindByIdentity(w.attempts, ToStr(body.email), quizId).value;
      var fields := FinalizeFields(quizId, body, Normalize(body.answers.items).answers, 10 * n, i);
      && Admissible(quizId, body)
      && Get(resp.body, "score") == Some(JNum(10 * n))
      && Get(resp.body, "quizId") == Some(JStr(quizId))
      && Get(resp.body, "userId") == Some(JsonOf(body.userId))
      && mails == [WelcomeMail(body.email, body.name, quizId, 10 * n),
                   OwnerMail(ownerEmail, body.email, body.name, quizId, 10 * n)]
      && (ExistingFor(w.results, fields).None? ==>
            w'.results == w.results + [ResultRecord(fields)])
      && (ExistingFor(w.results, fields).Some? ==> w'.results == w.results)
  {
    if !FieldsPresent(quizId, body) {
      return w, Failure(400, MissingFieldsMessage), [];
    }
    if body.answers.NotArray? {
      return w, Failure(400, NotArrayMessage), [];
    }
    var norm := Normalize(body.answers.items);
    if |norm.errors| > 0 {
      return w, InvalidAnswers(norm.errors), [];
    }
    NormalizedAnswersAreComplete(body.answers.items);
    var email := ToStr(body.email);
    match FinalizeAttempt(w.attempts, ToStr(body.userId), quizId, email, norm.answers) {
      case Err(m) =>
        return w, FinalizeFailed(m), [];
      case Ok(f) =>
        // `result.score || 0` leaves an integer score unchanged.
        var score := f.score;
        var fields := FinalizeFields(quizId, body, norm.answers, score, f.index);
        var created, _ := CreateResult(w.results, fields, newId, save);
        match created {
          case Err(e) =>
            return World(f.store, w.results), FinalizeFailed(ErrorMessage(e)), [];
          case Ok(pair) =>
            w' := World(f.store, pair.0);
            resp := Finalized(body.userId, quizId, score);
            mails := [WelcomeMail(body.email, body.name, quizId, score),
                      OwnerMail(ownerEmail, body.email, body.name, quizId, score)];
        }
    }
  }

  // ---------------------------------------------------------------------
  // GET results
  // ---------------------------------------------------------------------

  function SummaryJson(s: Summary): Json {
    JObj([("score", JNum(s.score)), ("topCategory", JStr(s.topCategory))])
  }

  function RawJson(raw: RawRecord): Json {
    var answers := seq(|raw.answers|, k requires 0 <= k < |raw.answers| =>
      JObj([("questionId", JStr(raw.answers[k].questionId)), ("selectedOption", JStr(raw.answers[k].selectedOption))]));
    JObj([("answers", JArr(answers)), ("score", JNum(raw.score))])
  }

  /** The `data` member of a results response. */
  function ResultJson(r: ResultRecord): Json {
    JObj([("quizId", JStr(r.fields.quizId)), ("name", JStr(r.fields.name)), ("email", JStr(r.fields.email)),
          ("summary", SummaryJson(r.fields.summary)), ("raw", RawJson(r.fields.raw))])
  }

  predicate QueryPresent(v: Option<string>) {
    v.Some? && |v.value| > 0
  }

  /** `getResultsByEmail` with the two query parameters (absent when not
      given). 400 unless both are non-empty; 404 when no result has exactly
      that e-mail and quiz; otherwise 200 with the latest such result. */
  function GetResultsByEmail(w: World, email: Option<string>, quizId: Option<string>): (r: Response)
    ensures !(QueryPresent(email) && QueryPresent(quizId)) ==>
      r.status == 400 && Get(r.body, "message") == Some(JStr("Email and quizId are required"))
    ensures QueryPresent(email) && QueryPresent(quizId) && LatestFor(w.results, email.value, quizId.value).None? ==>
      r.status == 404 && Get(r.body, "success") == Some(JBool(false))
    ensures r.status == 200 <==>
      QueryPresent(email) && QueryPresent(quizId) && LatestFor(w.results, email.value, quizId.value).Some?
    ensures r.status == 200 ==>
      var i := LatestFor(w.results, email.value, quizId.value).value;
      && Get(r.body, "data") == Some(ResultJson(w.results[i]))
      && w.results[i].fields.email == email.value && w.results[i].fields.quizId == quizId.value
      && forall j :: i < j < |w.results| ==> !SameUserQuiz(w.results[j], email.value, quizId.value)
  {
    if !(QueryPresent(email) && QueryPresent(quizId)) then
      Failure(400, "Email and quizId are required")
    else
      match LatestFor(w.results, email.value, quizId.value)
      case None => Failure(404, "Results not found for this email and quiz type")
      case Some(i) =>
        PlainGet(200, true, [("data", ResultJson(w.results[i]))], 0);
        Plain(200, true, [("data", ResultJson(w.results[i]))])
  }

  /** Once finalize has recorded a new result, the results lookup for the
      same e-mail and quiz returns it. */
  lemma FinalizedResultIsLookedUp(w: World, rec: ResultRecord)
    requires |rec.fields.email| > 0 && |rec.fields.quizId| > 0
    ensures
      var r := GetResultsByEmail(World(w.attempts, w.results + [rec]), Some(rec.fields.email), Some(rec.fields.quizId));
      r.status == 200 && Get(r.body, "data") == Some(ResultJson(rec))
  {
    AppendedResultIsLatest(w.results, rec);
  }
}
