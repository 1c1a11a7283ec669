# Quiz backend: attempt and result lifecycle, in Dafny

This project models the core of a quiz backend written for Node.js with Express and Mongoose. The backend serves multiple-choice quizzes and registers the people who take them. It autosaves single answers, then finalizes an attempt into a scored result. It sends a welcome mail and an owner notification, and lets a user look up the latest result by e-mail and quiz. Around this lifecycle sit several pure helpers:

- the answer normalizer, which accepts a preferred and a legacy answer shape;
- the categorical scoring engine;
- the report arithmetic (conflict-parameter scores, DISC percentages, archetype and approach);
- quiz-type branding selection;
- result-token generation and parsing;
- the per-quiz model cache and collection naming;
- quiz flattening;
- the JSON envelope helpers;
- the mail service's fallback chains and error classification;
- the configuration derived from environment variables.

The model is functional. Stores are sequences in insertion order: an attempt's position is its id, and `findOne` returns the first match. Each handler takes the store contents and returns the new contents with the response. Several sources of nondeterminism become parameters:

- time (`Date.now()`) and randomness (`Math.random()`, `crypto.randomBytes`);
- object-id generation;
- the store's answer to a save;
- the transport's answer to a send;
- the e-mail format check of the schema library.

A JavaScript value is a small datatype with JavaScript truthiness, `??`, `||` and `String(...)`.

Modules, one per file:

| file | module | models |
|---|---|---|
| base.dfy | `Base` | `Option`, `Result`, first maximal index (a stable descending sort's head) |
| strings.dfy | `Strings` | `split`/`join`, `trim`, `indexOf`/`replace` (first occurrence), ASCII lower-casing, `toString(36)`, decimal and hex text |
| js_values.dfy | `JsValues` | request-body values, truthiness, `??`, `\|\|`, `String(v)` |
| http.dfy | `Http` | JSON bodies, `createHttpResponse`, `createErrorResponse` |
| normalizer.dfy | `AnswerNormalizer` | the finalize answer normalizer |
| validation.dfy | `RequestValidation` | the answer and registration schemas |
| credentials.dfy | `Credentials` | first/last name, password, user name, user id |
| attempts.dfy | `AttemptStore` | `AttemptService` except `createResult` |
| results.dfy | `ResultStore` | `createResult`, the latest-result query |
| controller.dfy | `QuizController` | `registerUser`, `saveAnswer`, `finalizeAttempt`, `getResultsByEmail` |
| scoring.dfy | `Scoring` | `ScoringService` |
| report.dfy | `Report` | the scoring arithmetic of `PDFService` |
| quiz_config.dfy | `QuizConfig` | `getQuizConfig` |
| tokens.dfy | `Tokens` | `TokenGenerator` |
| collections.dfy | `Collections` | collection and model names of the attempt and result models |
| model_factory.dfy | `ModelFactory` | `ModelFactory` |
| flatten.dfy | `Flatten` | `flattenQuiz` |
| mail.dfy | `Mail` | `MailService` |
| env.dfy | `Env` | `config` of `src/config/env.js` |

Some behaviours of the code worth knowing, all modelled as written:

- Registration has no status guard: re-registering a completed attempt updates it and keeps it completed.
- `createResult` looks for an existing result by e-mail, quiz and attempt, not by attempt alone.
- For string query values, the results lookup matches e-mail and quiz exactly. There is no case-insensitive or pattern fallback.
- Scoring zero answers gives an empty category list and `'General'`, not zeroed categories.
- Finalize does not call the scoring engine. The score is 10 per answer and the summary's top category is always `'General'`.

## Model

| member | source | states |
|---|---|---|
| Base.FirstMaxIndex | src/services/scoring.service.js:61-62 | the index returned holds a maximal value, and every earlier index holds a strictly smaller one: the head of a stable descending sort |
| Base.FirstMaxIndexUnique | src/services/scoring.service.js:61-62 | that characterisation pins the index down: any index with both properties is the one returned |
| Strings.Trim | src/config/env.js:9 | the result is the input with its leading and trailing whitespace removed; it is empty exactly when the input is all whitespace |
| Strings.Split | src/utils/tokenGenerator.js:24 | `split` on one character yields at least one part, and no part contains the separator |
| Strings.JoinSplit | src/utils/tokenGenerator.js:24 | joining the parts of a split with the separator gives back the original text |
| Strings.SplitLength | src/utils/tokenGenerator.js:24-25 | a split has one more part than the text has separators |
| Strings.SplitJoin | src/utils/tokenGenerator.js:15-24 | splitting a join of separator-free parts gives back the parts |
| Strings.SplitAtSep | src/utils/tokenGenerator.js:15-24 | splitting `a + sep + b` is splitting `a` followed by splitting `b` |
| Strings.ReplaceFirst | src/utils/tokenGenerator.js:6 | `replace` with a string pattern and a replacement free of `$` changes only the first occurrence, and changes nothing when there is none |
| Strings.ReplaceSameCharIsIdentity | src/models/Attempt.js:8 | replacing the first `_` with `_` leaves every string unchanged |
| Strings.LowerAscii | src/controllers/quiz.controller.js:93-94 | lower-casing keeps the length and maps exactly the letters A–Z to a–z |
| Strings.DigitsValueOfNatToDigits | src/utils/tokenGenerator.js:9 | `toString(36)` and reading the digits back in base 36 are inverse |
| Strings.Hex | src/utils/tokenGenerator.js:12 | hex text of n bytes is 2n lower-case hex digits |
| Strings.HexAt | src/utils/tokenGenerator.js:12 | characters 2k and 2k+1 of the text are the two-digit hex form of byte k, so bytes are written in order |
| Strings.HexDecodes | src/utils/tokenGenerator.js:12 | reading those two characters as hex digits, high digit first, gives back byte k |
| JsValues.Coalesce | src/controllers/quiz.controller.js:212-222 | `a ?? b` is `b` exactly when `a` is null or undefined, else `a` |
| JsValues.Or | src/services/attempt.service.js:96-97 | `a \|\| b` is `b` exactly when `a` is falsy, else `a` |
| JsValues.ToStr | src/controllers/quiz.controller.js:214-226 | `String(v)`: a string is itself, an integer its decimal text, booleans `true`/`false`, null `null`, undefined `undefined`; the text is empty only for the empty string |
| JsValues.TruthyToStrNonEmpty | src/controllers/quiz.controller.js:212-227 | a truthy value never stringifies to the empty string |
| Http.Get | src/utils/http.js:2-6 | a member lookup finds a member with the key, or reports that no member has it |
| Http.GetAt | src/utils/http.js:2-6 | when member i is the first with its key, the lookup returns member i's value |
| Http.CreateHttpResponse | src/utils/http.js:1-9 | `success` holds iff 200 ≤ status < 300; `data` is carried; `message` is present iff it is truthy |
| Http.CreateErrorResponse | src/utils/http.js:11-21 | `success` is false; the error object carries the message, and `details` iff they are truthy |
| Http.ErrorResponseNeverSuccess | src/utils/http.js:13 | an error response reports failure even with a 2xx status |
| Http.Plain | src/controllers/quiz.controller.js:121-128 | a hand-built body starts with `success` and then the given members in order |
| Http.PlainGet | src/controllers/quiz.controller.js:121-128 | each member of a hand-built body is found under its own key |
| AnswerNormalizer.NormalizeItem | src/controllers/quiz.controller.js:210-236 | an item is accepted iff it has the preferred shape, or has the legacy shape with truthy id and selection; accepted output has non-empty fields; a rejected item gives `{index, reason}` |
| AnswerNormalizer.NormalizeFromErrors | src/controllers/quiz.controller.js:209-236 | the errors collected from position k on carry exactly the indices of the items there that fail |
| AnswerNormalizer.NormalizeFromInOrder | src/controllers/quiz.controller.js:209-236 | with no errors from position k on, the answers are those items' normalized forms in order |
| AnswerNormalizer.Normalize | src/controllers/quiz.controller.js:209-236 | outputs plus errors equal the input count; the errors' indices are exactly the failing items; with no errors the outputs are the items' results in order |
| AnswerNormalizer.PreferredShapeAccepted | src/controllers/quiz.controller.js:212-217 | a preferred item becomes `{String(questionId ?? qId), String(selectedOption ?? option)}` |
| AnswerNormalizer.LegacyShapeAccepted | src/controllers/quiz.controller.js:218-229 | a legacy item with a truthy question and selection becomes `{String(questionId ?? qIndex ?? idx+1), String(selectedOption ?? optionKey ?? optionValue)}` |
| AnswerNormalizer.QIdIgnoredWhenQuestionIdPresent | src/controllers/quiz.controller.js:212-214 | `qId` is irrelevant when `questionId` is neither null nor undefined |
| AnswerNormalizer.OptionIgnoredWhenSelectedOptionPresent | src/controllers/quiz.controller.js:212-215 | `option` is irrelevant when `selectedOption` is neither null nor undefined |
| AnswerNormalizer.LegacyAndPreferredAgree | src/controllers/quiz.controller.js:212-229 | for any truthy question id q and selection k, `{questionId: q, optionKey: k}` and `{questionId: q, selectedOption: k}` both normalize to `{String(q), String(k)}` |
| AnswerNormalizer.LegacyDefaultsQuestionIdToPosition | src/controllers/quiz.controller.js:220-228 | a legacy item without `questionId` or `qIndex` gets the 1-based position as its question id |
| AnswerNormalizer.EmptyOptionKeyShadowsOptionValue | src/controllers/quiz.controller.js:220-223 | an empty-string `optionKey` is not nullish, so it shadows `optionValue` in `??` and the item is rejected |
| AnswerNormalizer.NoSelectionIsError | src/controllers/quiz.controller.js:219-235 | an item with no selection of any kind is an error at its own index |
| AnswerNormalizer.BadItemIsReported | src/controllers/quiz.controller.js:231-244 | one failing item is enough for the batch to have errors, one of them naming that item |
| AnswerNormalizer.AllGoodKeepsOrder | src/controllers/quiz.controller.js:210-236 | when no item fails, the output is each item's normalization, in input order |
| RequestValidation.ValidateAnswer | src/controllers/quiz.controller.js:6-14 | accepted iff the e-mail passes the check, questionId is a string or number, optionKey is absent or a string, and optionKey or optionValue is truthy; the question id is stringified |
| RequestValidation.NumericQuestionIdBecomesString | src/controllers/quiz.controller.js:8 | a numeric question id is accepted and converted to its decimal text |
| RequestValidation.ValidateRegistration | src/controllers/quiz.controller.js:16-24 | accepted iff the name has 1–100 chars, the e-mail passes the check, the phone has 10–15 chars of digits, `+`, `-`, whitespace and parentheses, and gender is absent, male or female |
| RequestValidation.ShortPhoneWithLetterGetsTwoIssues | src/controllers/quiz.controller.js:19-22 | a phone that is both too short and has a bad character gets both issues, in the order the schema checks them |
| Credentials.NamesSplitAtFirstSpace | src/controllers/quiz.controller.js:91-92 | the first name is the text before the first space (or 'User'), the last name is the rest (or 'Name') |
| Credentials.SingleWordName | src/controllers/quiz.controller.js:91-92 | a single-word name has last name 'Name' |
| Credentials.PhonePrefix | src/controllers/quiz.controller.js:99 | `slice(0, 4)` is the first four characters, or the whole phone when it is shorter |
| Credentials.PasswordShape | src/controllers/quiz.controller.js:91-99 | the password is the lower-cased first name, `@`, and the phone's first four characters |
| Credentials.SanitizeEmail | src/controllers/quiz.controller.js:100 | each character is kept if it is an ASCII letter or digit and becomes `_` otherwise; the length is kept |
| Credentials.UserIdParts | src/controllers/quiz.controller.js:100 | the user id is `user_`, then the sanitized e-mail in the e-mail's own length, then `_` and the decimal time |
| Credentials.UserIdCharacters | src/controllers/quiz.controller.js:100 | only `_`, ASCII letters and digits fill the e-mail part of the user id |
| Credentials.SanitizedCollision | src/controllers/quiz.controller.js:100 | two different e-mails can get the same user id at the same instant |
| AttemptStore.ParseStatus | src/models/Attempt.js:31-35 | only the four enum names are accepted, each as its own status |
| AttemptStore.StatusNamesRoundTrip | src/models/Attempt.js:31-35 | every status's name parses back to that status |
| AttemptStore.FindByIdentity | src/services/attempt.service.js:14 | `findOne({email, quizId})` returns the first matching attempt, or reports that none matches |
| AttemptStore.FindInProgress | src/services/attempt.service.js:73 | the same lookup restricted to in-progress attempts |
| AttemptStore.CreateOrUpdateUser | src/services/attempt.service.js:9-49 | an existing attempt gets exactly userId, name, phone, gender, userName and password overwritten, nothing else; otherwise an in-progress attempt with no answers is appended |
| AttemptStore.ReRegistrationKeepsStatus | src/services/attempt.service.js:16-24 | re-registration keeps status and answers, whatever the status |
| AttemptStore.RegistrationKeepsIdentitiesUnique | src/services/attempt.service.js:14-40 | if no two attempts share an e-mail and quiz before registration, none do after it |
| AttemptStore.RegistrationIsFound | src/services/attempt.service.js:14-44 | the lookup by e-mail and quiz afterwards returns the attempt registration wrote |
| AttemptStore.RegistrationStored | src/services/attempt.service.js:18-36 | that attempt carries the registered credentials |
| AttemptStore.FindByIdentityIs | src/services/attempt.service.js:14 | the lookup returns k exactly when k is the first match |
| AttemptStore.RegisterTwiceOneAttempt | src/services/attempt.service.js:14-42 | registering twice for one e-mail and quiz leaves one attempt |
| AttemptStore.FindUserByEmail | src/services/attempt.service.js:51-64 | an attempt is found iff one with that e-mail and quiz exists, and the one found has them |
| AttemptStore.FindAnswer | src/services/attempt.service.js:93 | `findIndex` by stringified question id: the first match, or none |
| AttemptStore.UpsertAnswer | src/services/attempt.service.js:93-108 | an answer with the same question id is replaced in place, everything else kept; otherwise the answer is appended |
| AttemptStore.UpsertThenFind | src/services/attempt.service.js:93-108 | afterwards the question's entry is the new answer, and the list grew by at most one |
| AttemptStore.UpsertOverwrites | src/services/attempt.service.js:93-108 | saving two answers to one question equals saving only the second |
| AttemptStore.UpsertKeepsDistinct | src/services/attempt.service.js:93-108 | upserts keep question ids distinct |
| AttemptStore.AutosaveTarget | src/services/attempt.service.js:73-81 | an in-progress attempt is preferred; another status is used only when no in-progress one exists; a target exists iff any attempt has the identity; the target is the first in-progress attempt with the identity, and when there is none the first attempt with it in any status |
| AttemptStore.SaveAnswer | src/services/attempt.service.js:66-118 | fails with "Please register first" and changes nothing iff no attempt exists; otherwise only the target changes, by one upsert of `{String(qid), optionKey \|\| '', optionValue \|\| ''}` |
| AttemptStore.AutosaveAfterCompletion | src/services/attempt.service.js:73-110 | an autosave after finalize writes into the completed attempt and does not reopen it |
| AttemptStore.FindPartial | src/services/attempt.service.js:128 | `findOne({userId, quizId, status: 'in_progress'})` returns the first in-progress attempt with that user id and quiz, or reports that none exists |
| AttemptStore.SavePartialAnswer | src/services/attempt.service.js:120-170 | upserts into the in-progress attempt for the user id; otherwise appends an attempt holding only this answer |
| AttemptStore.FindPartialIs | src/services/attempt.service.js:128 | the lookup returns k exactly when k is the first match |
| AttemptStore.SavePartialThenFind | src/services/attempt.service.js:120-170 | after a partial save the lookup by user id and quiz finds the attempt written, and that attempt's entry for the question is the answer saved |
| AttemptStore.SavePartialKeepsIdentitiesUnique | src/services/attempt.service.js:120-170 | a partial save keeps e-mail and quiz pairs unique: a created attempt has no e-mail, and an update leaves e-mails alone |
| AttemptStore.StorageAnswers | src/services/attempt.service.js:184-189 | each canonical answer is stored with key and value both equal to its selection, in order |
| AttemptStore.FinalizeAttempt | src/services/attempt.service.js:172-223 | rejects answers with an empty field before any lookup; fails when no attempt has the e-mail and quiz; otherwise replaces the answers wholesale, saves `finalizing`, then `completed`, touching no other attempt; returns the score 10 × count, which the schema does not store |
| AttemptStore.FinalizeIgnoresUserId | src/services/attempt.service.js:195 | the user id plays no part in finalize |
| AttemptStore.FinalizeTwice | src/services/attempt.service.js:195-211 | finalizing again with the same answers ends in the same store and score |
| AttemptStore.NormalizedAnswersAreComplete | src/services/attempt.service.js:175 | the normalizer's output always passes finalize's own check |
| AttemptStore.MarkAttendance | src/services/attempt.service.js:309-333 | the upsert sets the user id on the attempt with the e-mail and quiz and changes nothing else, or appends an in-progress one with no answers; `resultId` and `attendedAt` are undeclared and dropped |
| AttemptStore.AttendanceIsFound | src/services/attempt.service.js:309-325 | afterwards the lookup by e-mail and quiz finds the attempt written, carrying the user id |
| AttemptStore.AttendanceKeepsIdentitiesUnique | src/services/attempt.service.js:309-325 | e-mail and quiz pairs stay unique, and marking attendance twice keeps one attempt |
| ResultStore.TokenOf | src/services/attempt.service.js:245 | an object id's text is 24 characters, so it is never empty |
| ResultStore.FindExisting | src/services/attempt.service.js:230-234 | the duplicate check finds the first result with that e-mail, quiz and attempt, or none |
| ResultStore.FindExistingIs | src/services/attempt.service.js:230-234 | it returns k exactly when k is the first match |
| ResultStore.SaveWithRetries | src/services/attempt.service.js:269-291 | at most 3 saves; save k carries the k-th token, and a new token follows only a duplicate; any other error ends the loop; success iff the saves reach a successful one through duplicates only; three duplicates fail with the retries message |
| ResultStore.CreateResult | src/services/attempt.service.js:225-307 | an existing result is returned with no save; otherwise the record is saved by the retry loop; success iff a result existed or a save within the budget succeeded; success appends exactly one record holding the caller's declared fields and no token, since the result schema declares no `resultToken` path |
| ResultStore.TokenOfInjective | src/services/attempt.service.js:245 | two object ids with the same text are the same id |
| ResultStore.RetryTokensDistinct | src/services/attempt.service.js:281-282 | a retry's fresh object id gives a token different from the one that met the duplicate |
| ResultStore.CreatedResultIsFoundAgain | src/services/attempt.service.js:230-239 | a repeated call for the same attempt finds the result just created |
| ResultStore.LatestFor | src/controllers/quiz.controller.js:352 | the latest result with the e-mail and quiz, or none |
| ResultStore.AppendedResultIsLatest | src/controllers/quiz.controller.js:352 | a newly appended result is the one the lookup returns |
| ResultStore.UnrelatedResultInvisible | src/controllers/quiz.controller.js:352 | results for other users or quizzes do not change the lookup |
| QuizController.IssuesJson | src/controllers/quiz.controller.js:132-137 | one JSON entry per schema issue, in order |
| QuizController.ItemErrorsJson | src/controllers/quiz.controller.js:238-243 | one `{index, reason}` entry per normalizer error, in order |
| QuizController.RegisteredResponseFields | src/controllers/quiz.controller.js:121-128 | the registration response carries the generated user id and user name |
| QuizController.RegisteredResponseEmail | src/controllers/quiz.controller.js:121-128 | the registration response echoes the e-mail as given |
| QuizController.RegisteredResponseHidesPassword | src/controllers/quiz.controller.js:121-128 | the registration response has no `password` member, although a password was generated and stored |
| QuizController.Registered | src/controllers/quiz.controller.js:88-128 | the stored attempt carries the derived user id and password; the response carries the derived ids; results are untouched |
| QuizController.Rejected | src/controllers/quiz.controller.js:132-137 | a failed schema gives 400, success false, "Validation failed" and the issues |
| QuizController.RegisterUser | src/controllers/quiz.controller.js:70-145 | a body failing the schema gets 400 and changes nothing; otherwise the registration is stored and answered |
| QuizController.SaveAnswerRoute | src/controllers/quiz.controller.js:147-174 | 200 iff the body validates and the e-mail has an attempt; 400 with the issues, or 500 with the service message, leaves the store alone; on 200 the answer is the question's stored entry |
| QuizController.FinalizeFailed | src/controllers/quiz.controller.js:298-303 | a failure inside finalize gives 500 and "Finalize failed: " plus the message |
| QuizController.Failure | src/controllers/quiz.controller.js:194-197 | a plain failure body has the status, success false and the message |
| QuizController.Finalize | src/controllers/quiz.controller.js:176-305 | 400 on missing fields, 400 on a non-array, 422 with the item errors, all before the store is touched; otherwise the attempt is completed with the normalized answers; 200 iff a result already existed or a save succeeded, else 500 with results unchanged (the attempt stays completed) and the retries message after three duplicates; on 200 the score is 10 × count, the result has `summary {score, 'General'}`, and both mails are requested |
| QuizController.GetResultsByEmail | src/controllers/quiz.controller.js:335-383 | 400 unless both parameters are non-empty; 404 when no result matches exactly; else 200 with the latest match, for string query values |
| QuizController.FinalizedResultIsLookedUp | src/controllers/quiz.controller.js:270-279 | a result recorded by finalize is what the results lookup then returns |
| Scoring.Weight | src/services/scoring.service.js:50 | the weight is the mapped weight for the option key when it is non-zero; a missing or zero mapped weight gives 1 |
| Scoring.CalculateCategoricalSum | src/services/scoring.service.js:19-71 | missing or empty answers give the default; otherwise each category's total is the sum of its answers' points; top is the first maximal; methodUsed is 'weighted_sum' iff a matching answer had weights |
| Scoring.AddAnswer | src/services/scoring.service.js:41-58 | one answer adds its points to every category listing its question, and records whether weights were used |
| Scoring.CalculateScore | src/services/scoring.service.js:4-71 | any method but 'categorical_sum' fails naming the method; otherwise missing or empty answers give the default, no categories fail, and else each category totals its answers' points, the top is the first maximal total, and methodUsed is 'weighted_sum' iff a matching answer had weights |
| Scoring.TotalsAdd | src/services/scoring.service.js:41-58 | category totals add over concatenated answer lists |
| Scoring.UnweightedTotalIsCount | src/services/scoring.service.js:52-55 | without weights a category's total is the number of its matching answers |
| Scoring.UnmatchedAnswerChangesNothing | src/services/scoring.service.js:45-46 | an answer no category lists changes no total and no method |
| Scoring.TieGoesToFirstCategory | src/services/scoring.service.js:61-62 | a tie for the top goes to the earliest category |
| Report.Bump | src/services/pdf.service.js:36 | counting one answer raises exactly the count of its letter by one when that letter is a–d, and no other count |
| Report.Tally | src/services/pdf.service.js:30-38 | a parameter's a–d counts together never exceed the number of answers |
| Report.TallyCounts | src/services/pdf.service.js:30-38 | each of a parameter's letter counts equals the number of answers to that parameter whose selection ends in that letter |
| Report.IrrelevantAnswerIgnored | src/services/pdf.service.js:32-35 | an answer of another parameter, or without a letter a–d, changes no count |
| Report.TallyAppend | src/services/pdf.service.js:31-38 | counts over concatenated answer lists add |
| Report.FourTiers | src/services/pdf.service.js:47-55 | parameter A's insight is tier 0 iff score ≤ 5, tier 1 iff 5 < score ≤ 10, tier 2 iff 10 < score ≤ 15, tier 3 iff score > 15 |
| Report.ThreeTiers | src/services/pdf.service.js:60-66 | B's and E's insight is tier 0 iff score ≤ 5, tier 1 iff 5 < score ≤ 10, tier 2 iff score > 10 |
| Report.Mode | src/services/pdf.service.js:70-83 | the chosen letter has the largest count and every earlier letter a smaller one |
| Report.ByMode | src/services/pdf.service.js:69-129 | C, D and F take the table entry of the first letter whose count is maximal: its count is at least every other and strictly above every earlier one |
| Report.ConflictScores | src/services/pdf.service.js:11-133 | A scores b+2c+3d with the four-tier insight, B 3a+2b+c and E b+2c+3d with the three-tier insight, all between 0 and 3 × the answer count; C, D and F take their tables' entries for their most frequent letter |
| Report.ScoresFromCounts | src/services/pdf.service.js:41-129 | from the six parameters' counts, the score and insight formulas of each parameter |
| Report.WeightedScoresCountAnswers | src/services/pdf.service.js:30-112 | A's, B's and E's scores in terms of how many of their answers end in each letter |
| Report.NoAnswersScores | src/services/pdf.service.js:41-129 | when no answer belongs to any parameter (no answers at all, say), A, B and E score 0, and C, D and F get their 'a' values 12, 6 and 9 |
| Report.TallyOfUnrelated | src/services/pdf.service.js:21-38 | a parameter no answer belongs to counts no letters |
| Report.ModeTieGoesToEarlierLetter | src/services/pdf.service.js:70-77 | a tie between b and c goes to b |
| Report.OneMoreDInA | src/services/pdf.service.js:32-46 | one more answer 'd' on an A question raises A's score by exactly 3 |
| Report.Add | src/services/pdf.service.js:140-141 | the key D, I, S or C named receives the value and the other three are unchanged; any other key changes nothing |
| Report.DiscSums | src/services/pdf.service.js:137-143 | each key's sum is the total score of the answers mapped to that key |
| Report.DiscSumsTotal | src/services/pdf.service.js:139-143 | the four sums together are the total of the scores of the mapped answers |
| Report.DiscPercent | src/services/pdf.service.js:147 | the percentage is within half a unit of 100·sum/15 (`Math.round`) |
| Report.DiscPercentLandmarks | src/services/pdf.service.js:145-148 | a sum of 15 gives 100, 0 gives 0, and the rounding is monotone |
| Report.DiscScores | src/services/pdf.service.js:136-151 | each of D, I, S, C is within half a unit of 100/15 of the total score of the answers mapped to it (`Math.round`) |
| Report.UnknownMappingIgnored | src/services/pdf.service.js:140 | an answer without a known mapping changes nothing |
| Report.GetArchetype | src/services/pdf.service.js:196-202 | Resolver iff D is maximal, else Communicator iff I is, else Supporter iff S is, else Analyzer |
| Report.GetApproach | src/services/pdf.service.js:519-525 | each named approach requires its score to be strictly above the other three |
| Report.ApproachAgreesWithArchetype | src/services/pdf.service.js:196-202 | when a strict maximum exists, the approach and the archetype name the same letter |
| Report.TieGivesThoughtful | src/services/pdf.service.js:519-525 | a tie at the top gives 'thoughtful and systematic', while the archetype picks D |
| QuizConfig.FirstMarker | src/config/quizConfig.js:76-90 | a first-match lookup in an ordered marker table: none iff no marker occurs |
| QuizConfig.QuizTypeIsFirstMarker | src/config/quizConfig.js:74-90 | the quiz type is the first of the seven markers the id contains, or working-professionals |
| QuizConfig.SeniorWinsOverDivorce | src/config/quizConfig.js:76-79 | an id with both 'senior_citizen' and 'divorce_conflict' is senior |
| QuizConfig.PreparationBeforeCompatibility | src/config/quizConfig.js:82-85 | 'pre_marriage_prep' is tested before 'pre_marriage_compat' |
| QuizConfig.ConfigOf | src/config/quizConfig.js:2-59 | every entry's branding is its category |
| QuizConfig.GetQuizConfig | src/config/quizConfig.js:72-96 | the result is never the default entry |
| QuizConfig.DefaultQuizIdIsDivorce | src/config/quizConfig.js:3-10 | the fallback quiz id gets the divorce branding |
| QuizConfig.UnmarkedIdIsProfessional | src/config/quizConfig.js:74 | an id without any marker, or no id, gets 'Professional Development' |
| Tokens.Timestamp | src/utils/tokenGenerator.js:9 | the base-36 time is non-empty and has no `_` |
| Tokens.RandomPart | src/utils/tokenGenerator.js:12 | the random part is 16 characters with no `_` |
| Tokens.GenerateResultToken | src/utils/tokenGenerator.js:4-19 | the token is the quiz type, user id, base-36 time and random part joined by `_`; it ends in `_` and the random part |
| Tokens.ParseToken | src/utils/tokenGenerator.js:21-34 | a token parses only with at least four parts; its quiz id is its quiz type plus `_v1`; user id and timestamp have no `_` |
| Tokens.ValidIffThreeSeparators | src/utils/tokenGenerator.js:36-39 | a token is valid iff it has at least three `_` |
| Tokens.GeneratedTokenParses | src/utils/tokenGenerator.js:4-34 | for a two-word quiz type and a user id without `_`, parsing the generated token recovers quiz type, quiz id, user id, timestamp and random part |
| Tokens.StripFinalV1 | src/utils/tokenGenerator.js:6 | removing the first `_v1` removes the final one when no earlier one exists |
| Tokens.TwoWordQuizType | src/utils/tokenGenerator.js:6 | `x_y_v1` has quiz type `x_y` |
| Tokens.RegisteredUserIdLost | src/utils/tokenGenerator.js:29 | for a user id made at registration, the parsed user id is "user" and not the one generated |
| Tokens.ParseTokenFromBothEnds | src/utils/tokenGenerator.js:21-34 | the corrected parse accepts the same tokens and reads the same quiz type; it agrees with the original on tokens of at most five parts |
| Tokens.GeneratedTokenParsesFromBothEnds | src/utils/tokenGenerator.js:4-34 | the corrected parse recovers any user id, including one containing `_` |
| Tokens.RegisteredUserIdKept | src/controllers/quiz.controller.js:100 | the corrected parse recovers a registered user id |
| Tokens.ThreeWordQuizType | src/utils/tokenGenerator.js:6 | `x_y_z_v1` has quiz type `x_y_z` |
| Tokens.ThreeWordQuizIdCut | src/utils/tokenGenerator.js:28-32 | a token for a three-word quiz id `x_y_z_v1` parses to the different quiz id `x_y_v1` |
| Collections.CollectionName | src/models/Attempt.js:4-10 | a falsy quiz id gives `default_<kind>` |
| Collections.CollectionNameOfId | src/models/Attempt.js:8-9 | otherwise the name is the id with its first `_v1` removed, then `_<kind>` |
| Collections.IdWithoutV1Kept | src/models/Result.js:8-9 | an id without `_v1` is kept whole |
| Collections.SameStem | src/models/Result.js:9 | for one quiz id the attempt and result collections differ only in the suffix |
| Collections.KindsNeverCollide | src/models/Result.js:9 | an attempt collection never shares its name with a result collection |
| Collections.VersionedIdShares | src/models/Attempt.js:8 | `x` and `x_v1` share their collections |
| Collections.ModelNamesOfKindsDiffer | src/models/Attempt.js:38 | the attempt model and the result model never share a name, whatever the two quiz ids |
| Collections.ModelNameIffCollection | src/models/Result.js:26 | two quiz ids share a model name iff they share the collection |
| ModelFactory.CacheKeyInjective | src/services/model.factory.js:11-23 | distinct kinds or quiz ids never share a cache key |
| ModelFactory.GetModel | src/services/model.factory.js:10-32 | the key is cached afterwards; earlier entries are kept; a model is built only on a miss |
| ModelFactory.GetModelCoherent | src/services/model.factory.js:10-32 | with a coherent cache, the model returned is the one built for the quiz, and the cache stays coherent |
| ModelFactory.GetModelTwice | src/services/model.factory.js:13-19 | a second call returns the same model and leaves the cache unchanged |
| ModelFactory.GetQuizTypeFromToken | src/services/model.factory.js:35-46 | a quiz type read from a token always contains `_` |
| ModelFactory.QuizTypeFromTokenAgrees | src/services/model.factory.js:35-46 | it exists iff the token is valid, and equals the parsed quiz type |
| ModelFactory.GetModelsByToken | src/services/model.factory.js:49-60 | 'Invalid token format' iff the token has no quiz type; otherwise both models of `<type>_v1` are cached |
| ModelFactory.ModelsByTokenIffValid | src/services/model.factory.js:49-53 | the factory rejects exactly the tokens `isValidToken` rejects |
| ModelFactory.ModelsByTokenAreParsedQuizModels | src/services/model.factory.js:55-59 | the models are those of the parsed quiz id |
| ModelFactory.GeneratedTokenFindsItsCollections | src/services/model.factory.js:49-60 | a token generated for a two-word quiz leads back to that quiz's collections |
| Flatten.Entry | src/utils/flattenQuiz.js:6-13 | an entry carries its section's id and copies the question's fields |
| Flatten.SectionEntries | src/utils/flattenQuiz.js:5-14 | one entry per question of a section, in order |
| Flatten.FlattenQuiz | src/utils/flattenQuiz.js:1-18 | the nested loops produce the sections' entries concatenated in order, as many as there are questions |
| Flatten.FlattenedLength | src/utils/flattenQuiz.js:4-15 | the flattened length is the total question count |
| Flatten.FlattenedPosition | src/utils/flattenQuiz.js:4-5 | question j of section i sits after all questions of earlier sections |
| Mail.WelcomeQuizId | src/services/mail.service.js:28-31 | the quiz id when it is non-empty; else the environment's QUIZ_ID when non-empty; else 'divorce_conflict_v1' |
| Mail.WelcomeReason | src/services/mail.service.js:61-73 | the failure reason is never empty |
| Mail.SendWelcome | src/services/mail.service.js:20-91 | a bad address fails before any send; success iff a message id is returned, which is then the result; every failure is "Email sending failed: …" |
| Mail.AuthBeatsResponseCode | src/services/mail.service.js:63-68 | EAUTH outranks response code 535 |
| Mail.WelcomeWithoutMessageIdFails | src/services/mail.service.js:53-55 | a send without a message id is a failure with its own reason |
| Mail.OwnerReason | src/services/mail.service.js:119-127 | the owner failure reason is never empty |
| Mail.SendOwnerNotification | src/services/mail.service.js:93-139 | no send iff neither `to` nor the owner address is set; the recipient is `to` when non-empty, else the owner address; the subject names the student; it never fails: a missing message id or an error gives a null result with a reason |
| Mail.TimeoutClassifiedDifferently | src/services/mail.service.js:65-123 | ETIMEDOUT is a connection failure for the welcome mail but not for the owner mail |
| Mail.MissingMessageIdFailsBoth | src/services/mail.service.js:53-113 | both paths treat a missing message id as failure |
| Env.OrDefault | src/config/env.js:6-21 | `process.env.X \|\| d` is the variable when set and non-empty, else d |
| Env.ParseInt | src/config/env.js:26 | `parseInt` is NaN exactly when no digit follows the whitespace, sign and radix prefix |
| Env.ParseIntOfDecimal | src/config/env.js:26 | `parseInt` reads back any integer's decimal text, whatever non-digit text follows |
| Env.HexPrefixRead | src/config/env.js:26 | a `0x` prefix is read as hexadecimal |
| Env.ParseIntSkipsWhitespace | src/config/env.js:26 | leading whitespace is skipped |
| Env.CleanOrigins | src/config/env.js:9 | the origins kept are non-empty and trimmed, and never more than the parts |
| Env.CorsOrigins | src/config/env.js:9-14 | an unset CORS_ORIGIN gives the four localhost origins |
| Env.CleanOriginsMembers | src/config/env.js:9 | the cleaned list holds every trimmed non-blank piece, and nothing that is not a trimmed piece |
| Env.CorsOriginsOfVariable | src/config/env.js:9-14 | when CORS_ORIGIN is set, the origins, as a set, are exactly its trimmed non-blank comma-separated entries |
| Env.CorsOriginsEdgeCases | src/config/env.js:9 | an empty CORS_ORIGIN gives no origins; a trailing comma adds none |
| Env.SingleOrigin | src/config/env.js:9 | a value without commas gives its trimmed self |
| Env.SmtpPort | src/config/env.js:26 | the port is never 0, and is 465 when unset |
| Env.SmtpPortOfDecimal | src/config/env.js:26 | a decimal SMTP_PORT is read back as its number, with 0 falling back to 465 |
| Env.TrimmedOr | src/config/env.js:28-32 | the value has no whitespace at either end |
| Env.BrandingSite | src/config/env.js:37 | BRAND_SITE when set; empty iff it is not set and NODE_ENV is 'production' |
| Env.LoadConfig | src/config/env.js:5-39 | secure iff SMTP_SECURE is exactly 'true'; port never 0; PORT, NODE_ENV and QUIZ_ID are used when set and non-empty, with the quiz id defaulting to 'career_school_v1'; the Mongo URIs are taken as given; a password is set iff SMTP_PASS is non-empty |
| Env.SecureOnlyForExactTrue | src/config/env.js:27 | 'TRUE' does not turn secure on |
| Env.EmptyEnvironmentDefaults | src/config/env.js:5-39 | an empty environment gives the documented defaults |

## Left out

- The attempt record holds only the paths the schema declares, apart from `meta` and the per-answer `ts`, which are left out. Strict mode drops the undeclared paths that finalize (`score`, `completedAt`) and `markAttendance` (`resultId`, `attendedAt`) write, and the model does not store them either. Schema casting, `timestamps` (`createdAt`, `updatedAt`), indexes and the error a second model registration under the same name raises are not modelled. Stores are sequences; "latest" means last appended, which assumes creation times grow.
- The result schema declares no `resultToken` path or unique index, so strict mode drops the token `createResult` sets on the document, both at creation and on a retry. The stored record holds no token. A duplicate-token answer to a save can only come from an index kept outside the schema; it is a possible store outcome, supplied by the caller.
- The fallback token built from `Date.now()` and `Math.random()` when object-id generation throws is not modelled. Object-id generation is a total parameter.
- `ResultStore.CreateResult`: does not promise that stored results carry distinct tokens, because the store keeps no token. Only the tokens the retry loop tries are shown distinct (`ResultStore.RetryTokensDistinct`), given distinct object ids.
- Request query and body values are modelled as strings or the scalar values below. An array (`?email=a&email=b`) or an operator object (`email[$ne]=x`) is not modelled. Mongoose would turn those into `$in` or operator queries, and an array `quizId` would make `quizId.replace` throw in `getResultModel`, giving a 500.
- Numbers are integers. `optionValue` and other mixed fields hold only the JavaScript values modelled (undefined, null, string, integer, boolean); objects, arrays and fractional numbers are not.
- `String(v)` of a boolean or integer follows JavaScript's text. Lower-casing covers ASCII only, and strings are sequences of characters, not UTF-16 code units.
- Zod's error objects are reduced to path, kind and message. The e-mail format check is a parameter. Zod's exact issue order beyond the phone rules is not claimed.
- `Report.DiscSums`: `answer.score || 0` is modelled for integer scores only. A string score would concatenate; that case is not modelled.
- The emoji fields of the archetype and quiz configs, the skill breakdown (pdf.service.js:153-193), the averages and improvement text (pdf.service.js:516-530) and the whole PDF layout are left out. They are floating point and drawing code.
- Logging, `console.time` instrumentation, the SAFE_MODE and DIAG_EARLY_200 bypasses, and the `details: error.stack` member of the finalize 500 body are left out.
- The `getQuiz` handler and the quiz service are out of scope; `flattenQuiz` carries their logic.
- The mails are requested, not sent. Their promises are fire-and-forget and never change the finalize response, so `Finalize` returns the two requests. The user name and `'hidden'` password in the welcome request are not modelled.
- Database errors other than the modelled save outcomes are left out, as are the 500 responses they cause in registration and lookup. So is concurrency between autosave and finalize; every operation runs alone.
- `Env.LoadConfig`: the built-in SMTP password default is not reproduced. An unset SMTP_PASS gives no password. `dotenv` loading is left out, and the environment is a map.
- `Env.ParseInt`: only the prefix forms the port needs are modelled: whitespace, sign, `0x`, and decimal or hex digits. `Number.MAX_SAFE_INTEGER` precision is not modelled.
- `Tokens.GenerateResultToken`: the clock and the eight random bytes are parameters, the time a natural number of milliseconds; the console log is left out.
- Object key order is the order of the category list given to the scoring engine.

## Findings

| source | as written | input that shows it | evidently intended | confidence | as-written member | corrected member |
|---|---|---|---|---|---|---|
| src/utils/tokenGenerator.js:29 | `parseToken` takes the user id as `parts[2]`, the single part after the two-word quiz type. The user ids made at registration (`user_<sanitized e-mail>_<time>`, quiz.controller.js:100) always contain `_`. | quiz id `divorce_conflict_v1`, user id `user_a_b_com_1700000000000`: the token parses with user id `user` | the user id is everything between the quiz type and the last two parts, so it survives the round trip | not executed | Tokens.RegisteredUserIdLost | Tokens.ParseTokenFromBothEnds (proved by Tokens.GeneratedTokenParsesFromBothEnds and Tokens.RegisteredUserIdKept) |

A related behaviour is modelled but not reported as a finding. A quiz id of three words, such as `pre_marriage_prep_v1`, comes back from a token as `pre_marriage_v1` (`Tokens.ThreeWordQuizIdCut`). `getModelsByToken` would then open the collections of a different quiz. The round trip also needs the second word not to start with `v1`, because `replace('_v1', '')` removes the first occurrence.
