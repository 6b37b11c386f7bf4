# Certification portal core, modelled in Dafny

This project models the core of an ISO 17024 certification portal built on
Odoo. It covers four pieces of domain logic:

- **Quiz attempt engine** (`quiz.dfy`, module `Quiz`). Creating an attempt
  snapshots the quiz's time limit and creates one unanswered answer line per
  question, in shuffled order. Each line scores itself: full weight when the
  selected choice is the correct one, otherwise 0. The attempt adds the lines
  into `score_total` and `max_score`, turns them into a percentage, takes off
  the violation penalty (never below 0) and decides pass or fail against the
  passing score (70 when left empty). `log_violation` escalates: warning,
  then a 10 % penalty, then auto-submit. `action_finish` stamps and rescores.
- **Session registry** (`sessions.dfy`, module `Sessions`). A table of login
  sessions with at most one active session per user. `create_session`
  evicts the user's active sessions. `validate_session` touches a known
  token, refuses an unknown one while another session of the user was active
  in the last five minutes, and otherwise retires the stale session and
  (optionally) creates one for the token.
- **Registration gate** (`registration.dfy`, module `Registration`, with
  `decimal.dfy` for decimal text). Approval moves a pending candidate to
  approved with a code `SVK-{CIG01|CIG02}-{sequence}-{YYMMDD}`. The sequence
  comes from a per-level counter, or from counting existing codes of the
  level when there is no counter. Rejection stops with a warning at the first
  pending candidate without an admin note.
- **Application lifecycle** (`applications.dfy`, module `Applications`, and
  `portal.dfy`, module `Portal`). The application record has the states
  draft, submitted and verified, and a `current_step` cursor. The wizard's
  step handlers write onto it, and the admin actions set verified or draft.
  The status, wizard and step pages choose a redirect from (application
  exists, state, step, edit flag).

Imperative parts are classes whose methods update fields in place:
`Quiz.Attempt`, `Sessions.SessionTable`, `Registration.RegistrationDesk`,
`Applications.Application` and `Portal.ApplicationTable`. A database table
is a `seq` field; the position of a record in it stands for its id.
Computations are functions with lemmas. Timestamps are integers passed in by
the caller. The shuffle order is a parameter that must be a permutation of
the quiz's questions. Today's date is a parameter. Percentages and
penalties are `real`; weights and scores are integers (weights are integer
fields in the source).

Where the code and its design description differ, the model follows the code:

- Applications have only the three states draft, submitted and verified.
- `action_finish` has no guard for an attempt that is already done.
- `log_violation` does not check the attempt's state.
- `action_request_revision` does not check the admin note.
- A rejection without a note returns a warning instead of raising an error.
  Partners rejected earlier in the same batch stay rejected.

The handlers do not check the application's state either. `SubmitStep1`'s
contract shows that submitting step 1 sets any application, submitted or
verified included, back to draft.

## Model

| member | source | states |
|---|---|---|
| `Quiz.ComputeResult` | iso17024_portall/models/quiz.py:247-255 | a line is correct iff a choice is selected and equals the correct one; it earns the full weight when correct and 0 otherwise, so between 0 and the weight |
| `Quiz.EffectivePassingScore` | iso17024_portall/models/quiz.py:182 | an empty (zero) passing score counts as 70; any other value is used as is |
| `Quiz.ComputeScore` | iso17024_portall/models/quiz.py:166-185 | total and max are the line sums; the percentage is never negative; with max 0 (or less) it is 0 and the attempt fails; passed iff max > 0 and percentage >= effective passing score; the percentage is at least the raw percentage minus the penalty, and a positive percentage equals it, so it is max(0, raw - penalty) |
| `Quiz.ScoreBounds` | iso17024_portall/models/quiz.py:169-173 | with non-negative weights, 0 <= score_total <= max_score |
| `Quiz.PercentageBounds` | iso17024_portall/models/quiz.py:175-181 | with non-negative weights and penalty, the percentage lies in [0, 100] |
| `Quiz.PenaltyMonotone` | iso17024_portall/models/quiz.py:175-182 | a larger penalty never raises the percentage and never turns a fail into a pass |
| `Quiz.TwoQuestionScenario` | iso17024_portall/models/quiz.py:166-185 | two questions of weight 1 and passing score 70: one right answer gives 50 % and a fail, two give 100 % and a pass |
| `Quiz.SumWeightsPermutation` | iso17024_portall/models/quiz.py:170 | the weight sum (max_score) does not depend on the order of the questions |
| `Quiz.NewLines` | iso17024_portall/models/quiz.py:149-153 | the new lines carry exactly the shuffled questions, in that order, all unanswered |
| `Quiz.PermutationKeepsDistinctIds` | iso17024_portall/models/quiz.py:141-153 | a reordering of questions with distinct ids has distinct ids |
| `Quiz.NewAttemptLines` | iso17024_portall/models/quiz.py:139-153 | a new attempt has one line per quiz question: the same multiset of questions, no id twice, and max_score equal to the quiz's weight sum |
| `Quiz.Attempt.Create` | iso17024_portall/models/quiz.py:129-155 | time_limit_seconds is the quiz's minutes times 60; state in progress; lines are the shuffled questions unanswered; no violations, no penalty, empty log; stored score consistent |
| `Quiz.Attempt.Finish` | iso17024_portall/models/quiz.py:157-164 | state done, finished_at stamped, score recomputed from the current lines and penalty; time limit, lines, penalty and log unchanged |
| `Quiz.EscalationAction` | iso17024_portall/models/quiz.py:205-216 | the new count 2 gives penalty, a count of 3 or more gives auto-submit, anything below 2 gives a warning |
| `Quiz.PenaltyIncrement` | iso17024_portall/models/quiz.py:206-212 | only the penalty action adds 10 points; the others add nothing |
| `Quiz.PenaltyAfterValue` | iso17024_portall/models/quiz.py:205-222 | penalties accumulate additively: after n violations of a fresh attempt the penalty is 10 when n >= 2 and 0 before; `Quiz.Attempt.Valid` holds every attempt's penalty to this accumulation |
| `Quiz.Attempt.LogViolation` | iso17024_portall/models/quiz.py:187-229 | the count goes up by exactly 1; exactly one entry (type, time, new count) is appended, earlier entries unchanged; the penalty grows by the escalation increment; the report carries the action, the new count and the stored total penalty, which is 10 from the second violation on and 0 before; time limit, lines and state unchanged |
| `Sessions.Latest` | iso17024_portall/models/session.py:76-80 | the search with limit 1 returns a matching record with the latest login time, or none exactly when nothing matches |
| `Sessions.Deactivated` | iso17024_portall/models/session.py:29-35 | a deactivated session is inactive, carries the reason and the logout time, and keeps its user, token and activity times |
| `Sessions.SessionTable.DeactivateSessions` | iso17024_portall/models/session.py:29-35 | the chosen sessions are deactivated with the given reason (default manual); the others are unchanged |
| `Sessions.SessionTable.CreateSession` | iso17024_portall/models/session.py:37-60 | the table becomes the user's sessions evicted plus the new session, whose position is returned; the at-most-one-active invariant is kept |
| `Sessions.CreateSessionEffect` | iso17024_portall/models/session.py:40-57 | afterwards the user's only active session is the new one with the given token; every previously active session of the user is inactive with reason new_device; other users' sessions are unchanged |
| `Sessions.CreateSessionKeepsInvariant` | iso17024_portall/models/session.py:41-57 | create_session keeps "at most one active session per user" over the whole table |
| `Sessions.SessionTable.ValidateSession` | iso17024_portall/models/session.py:62-120 | result and new table are those of the validation rules below; the at-most-one-active invariant is kept |
| `Sessions.ValidateEmptyToken` | iso17024_portall/models/session.py:71-73 | an empty token is refused and nothing changes |
| `Sessions.ValidateKnownToken` | iso17024_portall/models/session.py:75-85 | with an active session for (user, token), the token is accepted and only that session's last activity changes |
| `Sessions.ValidateConflict` | iso17024_portall/models/session.py:87-102 | no session for the token and the user's active session was used in the last 5 minutes: refused, nothing changes |
| `Sessions.ValidateStale` | iso17024_portall/models/session.py:103-120 | no session for the token and the user's active session is stale: it is deactivated with reason expired; with auto_create a new active session for the token is added and the result is true, otherwise false; nothing else changes |
| `Sessions.ValidateFirstSession` | iso17024_portall/models/session.py:108-120 | a user without active sessions is accepted, with a new session, exactly when auto_create is set |
| `Sessions.ValidateKeepsAtMostOne` | iso17024_portall/models/session.py:87-118 | a user with at most one active session before validation has at most one after |
| `Sessions.ValidateShape` | iso17024_portall/models/session.py:62-120 | validation only appends sessions of the user; it never activates an existing session or changes whose it is |
| `Sessions.ValidateKeepsInvariant` | iso17024_portall/models/session.py:62-120 | validation keeps "at most one active session per user" over the whole table |
| `Sessions.ValidateAcceptedIsActive` | iso17024_portall/models/session.py:75-118 | when the token is accepted, the table afterwards has an active session of the user with that token |
| `Sessions.SessionTable.GetActiveSession` | iso17024_portall/models/session.py:122-128 | some active session of the user is returned iff the user has one; under the invariant it is the only one |
| `Sessions.SessionTable.ForceLogout` | iso17024_portall/models/session.py:130-141 | the one session the action runs on is deactivated with reason admin and no other session changes; the at-most-one-active invariant is kept |
| `Sessions.DeactivateKeepsInvariant` | iso17024_portall/models/session.py:29-35 | deactivating any sessions keeps "at most one active session per user" |
| `Sessions.RemoveUser` | iso17024_portall/models/session.py:146-148 | the remaining sessions are exactly those of other users, and the number removed is the user's session count |
| `Sessions.SessionTable.ClearAllUserSessions` | iso17024_portall/models/session.py:143-148 | every session of the record's user is deleted and the others kept; the returned count is that user's session count, at least 1 |
| `Registration.EffectiveLevel` | iso17024_portall/models/partner.py:72-73 | an unset pending level counts as level 1; a set level is used |
| `Decimal.NatToStringValue` | iso17024_portall/models/partner.py:84 | `str(n)` reads back as n |
| `Decimal.NatToStringNoLeadingZero` | iso17024_portall/models/partner.py:84 | `str(n)` starts with 0 only for n = 0 |
| `Decimal.ZFillValue` | iso17024_portall/models/partner.py:84 | zero padding keeps a digit string a digit string and keeps its number |
| `Decimal.ZFill` | iso17024_portall/models/partner.py:84 | `zfill(width)` pads with zeros on the left up to the width and keeps longer strings as they are |
| `Decimal.Pad2` | iso17024_portall/models/partner.py:69 | a two-digit date field is two digits denoting the number |
| `Registration.DateStr` | iso17024_portall/models/partner.py:68-69 | the YYMMDD date part is six digits |
| `Registration.DateStrFields` | iso17024_portall/models/partner.py:68-69 | its first two digits denote the year of the century, the next two the month and the last two the day |
| `Registration.ParseCode` | iso17024_portall/models/partner.py:86 | a code that reads back has a non-empty digit sequence, a six-digit date and starts with its level's prefix `SVK-CIGxx-` |
| `Registration.ParseFormatCode` | iso17024_portall/models/partner.py:60-86 | a code built from a level, a digit sequence and a date reads back to exactly that level, sequence and YYMMDD |
| `Registration.FirstLevel1Code` | iso17024_portall/models/partner.py:60-86 | the first level-1 code on 15 October 2026 is SVK-CIG01-0001-261015 |
| `Registration.CounterSequence` | iso17024_portall/models/partner.py:76-77 | the counter's number is spelled with at least four digits and reads back as the number |
| `Registration.ContainsAt` | iso17024_portall/models/partner.py:81-83 | the `like` match holds exactly when the pattern occurs at some position of the code |
| `Registration.FallbackCountsEmbeddedPrefix` | iso17024_portall/models/partner.py:81-83 | a code such as `OLD-SVK-CIG01-0003-250101` is counted for level 1, because `like` matches anywhere in the code |
| `Registration.FallbackSequence` | iso17024_portall/models/partner.py:79-84 | without a counter, the sequence is the count of codes containing the level's prefix `SVK-CIGxx-`, plus one, with at least four digits |
| `Registration.CounterSequencePadded` | iso17024_portall/models/partner.py:76-77 | the counter's number is written as zeros followed by its own digits, four characters when it has fewer digits and exactly its digits otherwise |
| `Registration.FallbackSequencePadded` | iso17024_portall/models/partner.py:84 | `str(count + 1).zfill(4)`: zeros followed by the digits of count + 1, four characters when it has fewer digits and exactly its digits otherwise |
| `Registration.RegistrationDesk.NextByCode` | iso17024_portall/models/partner.py:76-77 | a level with a counter yields its number and advances only that level's counter; a level without one yields nothing and changes nothing |
| `Registration.RegistrationDesk.GenerateCode` | iso17024_portall/models/partner.py:60-86 | the code is `SVK-` + level code + `-` + sequence + `-` + YYMMDD with the counter's number, or the fallback count when the level has no counter; it reads back with the partner's effective level and today's date |
| `Registration.RegistrationDesk.ApprovePartner` | iso17024_portall/models/partner.py:95-101 | one pending partner becomes approved with approved_by and approved_date and the code built from its level's counter, which then advances by one, or, for a level without a counter, from the fallback count, with the counters unchanged; no other field and no other partner changes; the new table and counters are exactly `ApproveOne` of the old ones |
| `Registration.RegistrationDesk.ApproveRegistration` | iso17024_portall/models/partner.py:92-118 | pending partners of the batch become approved with a well-formed code of their level and date, approved_by and approved_date, and nothing else changes on them; other partners keep every field, code included; a failed notification does not undo the approval and is reported; no counter is added or dropped, each advances by the number of partners of its level approved, and partners approved at levels with a counter carry distinct numbers from it; the final table and counters are exactly `ApproveOutcome`, the batch-order fold of `ApproveOne` over the partners still pending at their turn; when no pending partner of the batch held a code before, no two partners approved in the run share a code, whatever their levels |
| `Registration.ApproveOneWrite` | iso17024_portall/models/partner.py:95-101 | the single-partner write `ApproveOne` is the approval write: approved state, code of the partner's level from its counter or from the fallback count, approver and time, the counter of that level advanced, nothing else changed |
| `Registration.ApproveOutcomeProgress` | iso17024_portall/models/partner.py:92-101 | the batch fold approves exactly the partners of the batch that were pending, keeps every other partner, and advances each level's counter by the partners of that level it approved, each holding a distinct number from that counter |
| `Registration.CodeContainsOwnPrefixOnly` | iso17024_portall/models/partner.py:72-84 | a code built for one level contains the `SVK-CIGnn-` prefix of that level and never that of the other level, so the fallback count of one level is unaffected by codes issued at the other |
| `Registration.ApproveOutcomeFallback` | iso17024_portall/models/partner.py:79-101 | for levels without a counter, the batch fold grows the count of codes containing the level's prefix by one per partner of that level approved, and gives each such partner a distinct number above the count the run started from, provided the pending partners held no code |
| `Registration.ApprovedCodesDistinct` | iso17024_portall/models/partner.py:76-101 | when no pending partner of the batch held a code, any two partners approved in one run get different codes, whether their level uses a counter or the fallback count |
| `Registration.IssuedCodesDistinct` | iso17024_portall/models/partner.py:76-98 | partners approved in one run at levels with a counter never share a code |
| `Registration.RegistrationDesk.RejectRegistration` | iso17024_portall/models/partner.py:120-141 | warning and new table are those of the rejection rules below |
| `Registration.RejectChangesOnlyNotedPending` | iso17024_portall/models/partner.py:120-137 | rejection only changes pending partners of the batch with a note, and only their state, to rejected; non-pending partners are skipped |
| `Registration.RejectWarnsOnEmptyNote` | iso17024_portall/models/partner.py:124-134 | a pending partner of the batch with an empty note makes rejection return the warning, and that partner stays pending |
| `Registration.RejectStopsAtEmptyNote` | iso17024_portall/models/partner.py:122-134 | rejection stops at the first pending partner with an empty note: the table is what rejecting the partners before it gives, and no partner outside them changes |
| `Registration.RejectCompletes` | iso17024_portall/models/partner.py:123-137 | without a warning, every pending partner of the batch ends rejected |
| `Applications.StateKeyInjective` | iso17024_portall/models/application.py:22-26 | the three states are stored under three distinct keys |
| `Applications.Application.constructor` | iso17024_portall/models/application.py:22-71 | a new application has the given state and personal data, step 1, type new, no scheme, no documents, no declarations |
| `Applications.Application.VerifyDocuments` | iso17024_portall/models/application.py:99-101 | the state becomes verified from any state; nothing else changes |
| `Applications.Application.RequestRevision` | iso17024_portall/models/application.py:104-106 | the state goes back to draft from any state, whatever the admin note; nothing else changes |
| `Portal.StatusRouteSpec` | iso17024_portall/controllers/main.py:76-90 | the status page is shown iff an application exists and is not in draft; otherwise the candidate is sent to the wizard |
| `Portal.ApplicationTable.ApplicationStatus` | iso17024_portall/controllers/main.py:76-90 | the response is the status routing decision for the candidate's application |
| `Portal.RevisionBranchUnreachable` | iso17024_portall/controllers/main.py:105-113 | no state is stored under the key `revision`, so the wizard's write of draft never happens |
| `Portal.WizardRouteSpec` | iso17024_portall/controllers/main.py:95-132 | without the edit flag: not draft goes to status; draft goes to step 2, 3 or 4 for steps 2, 3 and >= 4; otherwise, and always with the edit flag or without an application, the wizard page is shown |
| `Portal.ApplicationTable.CertificationWizard` | iso17024_portall/controllers/main.py:95-132 | the response is the wizard routing decision and no application changes |
| `Portal.Step4RouteSpec` | iso17024_portall/controllers/main.py:298-310 | step 4 is shown iff the candidate has an application, and the candidate is sent to the wizard otherwise |
| `Portal.Step2RouteSpec` | iso17024_portall/controllers/main.py:180-198 | step 2 sends to step 3 iff the application is at step 3 and not edited, to the wizard iff there is no application, and shows the page otherwise |
| `Portal.Step3RouteSpec` | iso17024_portall/controllers/main.py:226-245 | step 3 sends to step 4 iff the application is at step 4 and not edited, to the wizard iff there is no application, and shows the page otherwise |
| `Portal.FindByPartner` | iso17024_portall/controllers/main.py:164-166 | the lookup finds the first application of the partner, or none exactly when the partner has none |
| `Portal.ApplicationTable.SubmitStep1` | iso17024_portall/controllers/main.py:137-175 | an existing application of the partner is updated (personal data, state draft) and no other one changes; otherwise one is created in draft at step 1 with the personal data, type new, no scheme, no previous number, no documents, all declarations false, no signature and no note; the partner's application count goes from 0 to 1 or stays; "one per partner" is kept |
| `Portal.ApplicationTable.SubmitStep2` | iso17024_portall/controllers/main.py:203-221 | with an application: type, previous certificate number and scheme written and step 2, nothing else; without one nothing changes |
| `Portal.FileVals` | iso17024_portall/controllers/main.py:256-289 | the values hold exactly the inputs that carried a file with a file name and non-empty content, with that content |
| `Portal.Step3FilesSpec` | iso17024_portall/controllers/main.py:262-291 | writing those values replaces every uploaded document and keeps every other one as it was |
| `Portal.ApplicationTable.SubmitStep3` | iso17024_portall/controllers/main.py:249-293 | with an application: step 3, uploaded documents replaced, all other documents and fields unchanged; without one nothing changes |
| `Portal.Ticked` | iso17024_portall/controllers/main.py:323-325 | a declaration is true iff its input was `on` |
| `Portal.ApplicationTable.SubmitFinal` | iso17024_portall/controllers/main.py:314-336 | with an application: the three declarations true iff their inputs were `on`, the signature written, state submitted and step 4, nothing else; without one nothing changes |

## Left out

- Answer recording: the lines' `selected` field is set by exam pages that are not part of this model. A new attempt's lines start unanswered. The scoring functions are stated for any answers.
- Quiz bank fields that no core operation uses are not modelled: names, descriptions, scheme, `published`, question text and choice texts. The counters `question_count` and `attempt_count` and the display name are left out too.
- Stored computed fields: Odoo recomputes `_compute_score` when its inputs change. The model recomputes it on every write that changes the lines or the penalty, and `Quiz.Attempt.Valid` keeps the stored score equal to `ComputeScore`.
- The quiz an attempt points to is a constant value of the attempt. Later edits of the quiz's passing score are not modelled.
- `security_log` is a sequence of (type, time, count) entries. Its JSON text, and the error a malformed log would raise, are left out.
- `create` with several value dictionaries creates several attempts; the model creates one attempt per call.
- Logging, chatter messages (`message_post`) and notification pop-ups are left out. So is rendering the approval e-mail. An e-mail failure is a set of partners passed in, and they are reported.
- `ir.sequence` is a per-level counter. A level without a sequence yields nothing. The counter's number is written with four-digit zero padding; the sequences' own definitions are not part of this model.
- Percentages are exact rationals, not IEEE doubles. At the pass threshold the two can disagree: with total 29 and max 50, `(29 / 50) * 100` is 57.99999999999999 in doubles, so a passing score of 58 fails that attempt in the source, while `Quiz.ComputeScore` computes 58 and passes it.
- The fallback count is not atomic: two approvals at the same time can get the same code. The model is sequential.
- Base64 encoding of uploads is left out; documents store the uploaded bytes rather than their base64 text. The encoding is non-empty exactly when the content is, so whether a document is written or skipped is the same; the stored value is the raw content, not its encoding.
- ORM validation of required fields (`nik`, `birth_date`, `partner_id`) on create and write is left out. An empty `nik` or `birth_date` submitted in step 1 therefore succeeds in the model, where the ORM would refuse both the new record and the update of an existing one. Step 1 also renames the partner; that is left out too.
- Parsing the step-1 form is left out. This includes the integer conversion of `nationality_id` and the error it raises on non-numeric input. The handler receives the parsed values. Likewise, step 2's `scheme` and `application_type` arrive as values of their selections; an unknown value, which makes the write raise (controllers/main.py:210-216), is not modelled.
- Ties in `search(limit=1)` ordered by `login_time desc`: the database decides the order among sessions with the same login time. `Sessions.Latest` picks the earliest of them in the table.
- The fallback `search_count` counts only the partners the model holds. Archived partners, which Odoo's default domain hides, are not modelled.
- Signup, login, template rendering and the webcam face-detection script are left out.
- `Sessions.ValidateConflict`: stated for tables where each user has at most one active session. The code checks only the active session with the latest login; with several active sessions the lemma would have to name that one.
- `Sessions.ValidateStale`: stated under the same invariant, for the same reason.
