/** The request schemas of the attempt controller: the single-answer
    autosave body (`answerSchema`) and the registration body
    (`userRegistrationSchema`). The e-mail format check is a parameter,
    since the schema library's e-mail pattern is not part of this model. */
module RequestValidation {
  import opened Base
  import opened Strings
  import opened JsValues

  /** Why a field was rejected. `WrongType` covers the schema library's
      type, union and enum mismatches; `Check` carries the message the
      schema gives for a failed refinement. */
  datatype IssueKind = WrongType | Check(message: string)
  datatype Issue = Issue(path: string, kind: IssueKind)

  function EmailIssues(v: JsVal, isEmail: string -> bool, message: string): seq<Issue> {
    if !v.Str? then [Issue("email", WrongType)]
    else if !isEmail(v.s) then [Issue("email", Check(message))]
    else []
  }

  // ---------------------------------------------------------------------
  // Single-answer body
  // ---------------------------------------------------------------------

  datatype AnswerBody = AnswerBody(email: JsVal, questionId: JsVal, optionKey: JsVal, optionValue: JsVal)

  /** A validated autosave body; a numeric `questionId` has become a string. */
  datatype ValidAnswer = ValidAnswer(email: string, questionId: string, optionKey: JsVal, optionValue: JsVal)

  const EmailRequired: string := "Valid email is required"
  const OptionRequired: string := "Either optionKey or optionValue must be provided"

  /** A type mismatch in any field aborts the object, so its refinement does not run. */
  predicate AnswerAborted(b: AnswerBody) {
    !b.email.Str? || !(b.questionId.Str? || b.questionId.Num?) || !(b.optionKey.Undefined? || b.optionKey.Str?)
  }

  /** Field issues in key order, then the refinement's issue. */
  function AnswerIssues(b: AnswerBody, isEmail: string -> bool): seq<Issue> {
    var fieldIssues :=
      EmailIssues(b.email, isEmail, EmailRequired)
      + (if b.questionId.Str? || b.questionId.Num? then [] else [Issue("questionId", WrongType)])
      + (if b.optionKey.Undefined? || b.optionKey.Str? then [] else [Issue("optionKey", WrongType)]);
    if AnswerAborted(b) || Truthy(b.optionKey) || Truthy(b.optionValue) then fieldIssues
    else fieldIssues + [Issue("optionKey", Check(OptionRequired))]
  }

  /** `answerSchema.parse(body)`: accepted exactly when the e-mail is a
      well-formed string, the question id a string or number, the option
      key absent or a string, and at least one of key and value truthy. */
  function ValidateAnswer(b: AnswerBody, isEmail: string -> bool): (r: Result<ValidAnswer, seq<Issue>>)
    ensures r.Ok? <==>
      && b.email.Str? && isEmail(b.email.s)
      && (b.questionId.Str? || b.questionId.Num?)
      && (b.optionKey.Undefined? || b.optionKey.Str?)
      && (Truthy(b.optionKey) || Truthy(b.optionValue))
    ensures r.Ok? ==> r.value.questionId == ToStr(b.questionId) && r.value.email == b.email.s
    ensures r.Ok? ==> r.value.optionKey == b.optionKey && r.value.optionValue == b.optionValue
    ensures r.Err? ==> |r.error| > 0
  {
    var issues := AnswerIssues(b, isEmail);
    if |issues| == 0 then Ok(ValidAnswer(b.email.s, ToStr(b.questionId), b.optionKey, b.optionValue))
    else Err(issues)
  }

  /** A numeric question id is accepted and converted to its decimal string. */
  lemma NumericQuestionIdBecomesString(email: string, n: int, isEmail: string -> bool)
    requires isEmail(email)
    ensures ValidateAnswer(AnswerBody(Str(email), Num(n), Str("a"), Undefined), isEmail)
      == Ok(ValidAnswer(email, Decimal(n), Str("a"), Undefined))
  {
  }

  // ---------------------------------------------------------------------
  // Registration body
  // ---------------------------------------------------------------------

  datatype RegistrationBody = RegistrationBody(name: JsVal, email: JsVal, phone: JsVal, gender: JsVal)

  datatype ValidRegistration = ValidRegistration(name: string, email: string, phone: string, gender: Option<string>)

  /** Characters the phone pattern `^[0-9+\-\s()]+$` allows. */
  predicate IsPhoneChar(c: char) {
    ('0' <= c <= '9') || c == '+' || c == '-' || c == '(' || c == ')' || IsJsWhitespace(c)
  }

  predicate MatchesPhonePattern(s: string) {
    |s| > 0 && forall i :: 0 <= i < |s| ==> IsPhoneChar(s[i])
  }

  function NameIssues(v: JsVal): seq<Issue> {
    if !v.Str? then [Issue("name", WrongType)]
    else if |v.s| < 1 then [Issue("name", Check("Name is required"))]
    else if |v.s| > 100 then [Issue("name", Check("Name too long"))]
    else []
  }

  /** Every failed phone check is reported, in declaration order. */
  function PhoneIssues(v: JsVal): seq<Issue> {
    if !v.Str? then [Issue("phone", WrongType)]
    else
      (if |v.s| < 10 then [Issue("phone", Check("Phone number must be at least 10 digits"))] else [])
      + (if |v.s| > 15 then [Issue("phone", Check("Phone number too long"))] else [])
      + (if MatchesPhonePattern(v.s) then [] else [Issue("phone", Check("Phone number contains invalid characters"))])
  }

  function GenderIssues(v: JsVal): seq<Issue> {
    if v.Undefined? || v == Str("male") || v == Str("female") then [] else [Issue("gender", WrongType)]
  }

  predicate ValidPhone(v: JsVal) {
    v.Str? && 10 <= |v.s| <= 15 && MatchesPhonePattern(v.s)
  }

  /** `userRegistrationSchema.parse(body)`: accepted exactly when the name
      has 1 to 100 characters, the e-mail is well formed, the phone has 10
      to 15 characters drawn from digits, `+`, `-`, whitespace and
      parentheses, and the gender is absent, "male" or "female". */
  function ValidateRegistration(b: RegistrationBody, isEmail: string -> bool): (r: Result<ValidRegistration, seq<Issue>>)
    ensures r.Ok? <==>
      && b.name.Str? && 1 <= |b.name.s| <= 100
      && b.email.Str? && isEmail(b.email.s)
      && ValidPhone(b.phone)
      && (b.gender.Undefined? || b.gender == Str("male") || b.gender == Str("female"))
    ensures r.Ok? ==>
      && r.value.name == b.name.s && r.value.email == b.email.s && r.value.phone == b.phone.s
      && r.value.gender == (if b.gender.Undefined? then None else Some(b.gender.s))
    ensures r.Err? ==> |r.error| > 0
  {
    var issues := NameIssues(b.name) + EmailIssues(b.email, isEmail, "Invalid email format") + PhoneIssues(b.phone) + GenderIssues(b.gender);
    if |issues| == 0 then
      Ok(ValidRegistration(b.name.s, b.email.s, b.phone.s,
                           if b.gender.Undefined? then None else Some(b.gender.s)))
    else Err(issues)
  }

  /** A phone that is both too short and has a letter gets both complaints. */
  lemma ShortPhoneWithLetterGetsTwoIssues()
    ensures PhoneIssues(Str("12a")) == [
      Issue("phone", Check("Phone number must be at least 10 digits")),
      Issue("phone", Check("Phone number contains invalid characters"))]
  {
    assert !IsPhoneChar("12a"[2]);
  }
}
