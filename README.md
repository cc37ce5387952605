# EIC Student Pathway — a verified model

The EIC Student Pathway is a web portal for the students of an entrepreneurship
centre (the EIC). It walks them through five curriculum phases, and staff-issued
unlock codes gate each phase. This project models its core in Dafny:

- **Sign-up and sign-in on the server.** The Express API (`server/index.js`) and the
  stand-alone `http` server (`simple-unified-server.js`) both do the following:
  - send a six-digit e-mail verification code, which is kept in a
    `verificationCodes` collection with an expiry and an attempt counter;
  - check the code, then register a user with a bcrypt-hashed password;
  - log the user in and issue a JWT access/refresh pair.
  The Express API also puts a per-address lockout in front of login and rotates
  refresh tokens. The stand-alone server also routes requests and picks content
  types for static files.
- **The browser session** (`src/lib/auth.ts`). Pages accept only a student address
  and keep the signed-in user under one local-storage key.
- **The pathway page** (`src/pages/Pathway.tsx`). This is a state machine over the
  completed and unlocked phase numbers. Marking a phase complete, typing its code
  (`EIC-<n>`) and receiving the level-assessment result move it forward.
- **The level assessment** (`src/components/LevelAssessment.tsx`). Eight questions
  give a point total, which turns into a level. The most frequently hinted phase
  is the recommended start.
- **The phase libraries and views** (`src/lib/phases/*.ts` and the components
  `Phase1Ideation`, `Phase2Validation` and `Phase4EICDeepDive`). They hold the task
  lists with XP, the quizzes scored to a pass mark, and the completion checks.

How the model is built:
- Every server route is one pure step function. It takes the collections (and the
  lockout map) to a reply and the new collections. Lemmas about these functions
  carry the properties.
- The classes `IndexServer.AuthServer` and `SimpleServer.UnifiedServer` hold the
  same state in fields. Their handler methods update those fields in place, and
  each method's postcondition ties it to the step function.
- The React components are handled the same way. Their state hooks become class
  fields (`PathwayPage`, `AssessmentWizard`, `PhaseView`), and their handlers
  become methods specified by the pure transition functions.
- `completeAssessment` is a method. Its loops total the points, count the hints
  and pick the most common one. It is proved against a declarative
  "most frequent, smallest on a tie" predicate.
- Time is integer milliseconds. `Math.random()`, bcrypt salts and token decoding
  are parameters. A JWT is a value: its key, its `userId` claim and its `iat`
  second.

The model follows the code where the code's own comments, or the project's
documentation, say otherwise:
- **The Express API accepts a code for two hours, not one.** `isVerificationCodeExpired`
  is given `expiresAt` (already one hour after issue) instead of the creation
  time. See `Ledger.IssuedCodeLifetime` and `SimpleServer.ServersDisagreeOnExpiry`.
- **Re-sending a code keeps an earlier verification.** The upsert never clears
  `verified`.
- **Failures count toward the lockout however far apart they are.** There is no
  time window.

One defect is corrected rather than followed. The Express refresh route looks the
user up in a way that can never match. `IndexServer.Refresh` is the corrected route,
and `IndexServer.RefreshAsWritten` keeps the route as written; see "## Findings".

## Model

| member | source | states |
|---|---|---|
| Tokens.GenerateTokens | server/index.js:80-84 | both tokens carry the given user id; the access token verifies with the access secret only, the refresh token with the refresh secret only; the two are different tokens |
| Tokens.SameSecondSameTokens | server/index.js:80-84 | two pairs for one user are identical exactly when minted in the same second (the `iat` claim has one-second resolution) |
| Tokens.BearerHeader | server/index.js:62-77 | a `Bearer <t>` header passes to the route exactly when `t` decodes to a token signed with the access secret, with those claims; every other such header is refused 403, never 401 |
| Tokens.HeaderWithoutSpace | server/index.js:63-68 | a header with no space carries no token and is refused 401 |
| EmailRules.AcceptedAddress | server/index.js:341-382 | an address passes the format regex and the domain list only if it is a non-empty local part without white space or `@`, an `@`, and one of the two university domains |
| EmailRules.InstitutionalAddress | server/index.js:155-174 | every `<local>@bowiestate.edu` and `<local>@students.bowiestate.edu` with a plain local part passes both address checks |
| EmailRules.ValidDomainShape | server/index.js:167-168 | each listed domain is a dotted name with no `@`, as the regex requires after the `@` |
| Users.FindByEmail | server/index.js:475 | `findOne({ email })` finds the first document with that address, and finds none exactly when no document has it |
| Users.FindByIdAndToken | server/index.js:537-541 | the lookup by id text and stored refresh token finds a document holding both, and finds none exactly when no document does |
| Users.ReplaceFirstById | server/index.js:495-503 | `updateOne({ _id })` keeps the length and replaces the first document with that id and nothing else |
| Users.ReplaceAtUniqueId | server/index.js:551-554 | with unique ids, updating by a document's id changes exactly that document |
| Users.InsertKeepsIdsValid | server/index.js:436-437 | inserting with the next ObjectId keeps every id unique and below the next one |
| Users.ReplaceKeepsIdsValid | server/index.js:495-503 | updating a document under its own id keeps the ids unique |
| Ledger.GenerateVerificationCode | server/index.js:37-39 | the code is six decimal digits whose value is 100000 plus the random draw |
| Ledger.DistinctDraws | server/index.js:37-39 | different draws give different codes, so each of the 900000 codes can be issued |
| Ledger.Issue | server/index.js:193-203 | the upsert stores the new code, an expiry one hour on and zero attempts for that address; it keeps the address's earlier verification and changes no other record |
| Ledger.IssuedCodeLifetime | server/index.js:41-45 | a fresh code is accepted until exactly its rule's lifetime after issue: two hours under the Express API's rule, one hour under the stand-alone server's |
| Ledger.AcceptedIff | server/index.js:226-288 | a code is accepted exactly when a record exists, has not expired and holds that code; acceptance only stamps the verification instant |
| Ledger.ExpiryBeforeComparison | server/index.js:240-248 | an expired record is deleted and reported expired, whatever code was submitted |
| Ledger.CheckTouchesOneRecord | server/index.js:226-288 | a check never changes the record of any other address |
| Ledger.ThirdMissDeletes | server/index.js:250-268 | from a fresh code, the first two wrong guesses are counted and refused; the third deletes the record, after which even the right code finds nothing |
| Ledger.ReissueKeepsVerification | server/index.js:193-203 | re-issuing a code after a successful check leaves the address verified at the earlier instant |
| Ledger.VerificationWindow | server/index.js:402-407 | after a correct code, the address counts as verified for registration for exactly one hour |
| Lockout.CheckLockSpec | server/index.js:116-131 | locked exactly when the count is at least five and the last failure is under thirty minutes old; a lapsed lock deletes the entry and any other check leaves the map unchanged |
| Lockout.RecordFailedSpec | server/index.js:133-138 | a failure adds one to the address's count (from zero if absent), stamps it now, and leaves every other entry |
| Lockout.RecordSuccessSpec | server/index.js:140-142 | a success removes that address's entry and no other |
| Lockout.FailuresAccumulate | server/index.js:133-138 | n failures from a clean slate give a count of n, however far apart they are |
| Lockout.BelowThresholdNeverLocked | server/index.js:116-131 | below five failures the address is not locked and the check changes nothing |
| Lockout.FiveFailuresLock | server/index.js:111-142 | five failures lock the address for thirty minutes after the fifth; the first check after that drops the entry, so the next failure counts from one |
| Accounts.VerifyCode | server/index.js:226-288 | the verify-code reply is success exactly when the ledger accepts the code; every refusal is a 400; users are untouched |
| Accounts.EnrollSucceedsIff | server/index.js:389-415 | enrolment succeeds exactly when the address has a verification at most an hour old and no user has the address |
| Accounts.EnrollCreates | server/index.js:417-443 | a successful enrolment appends one user with the trimmed names and id, the hashed password, phase 1 current and unlocked, and nothing completed; it deletes the code record, answers 201 with the sanitised user, and changes nothing else |
| Accounts.EnrollTwice | server/index.js:389-400 | registering the same request again is refused "Email not verified", because the first registration deleted the verification |
| IndexServer.SendVerificationSpec | server/index.js:152-219 | a code is issued exactly for a well-formed, institutional, unregistered address; it is six digits, expires in an hour, has no attempts and keeps any earlier verification; a refusal is a 400 that changes nothing |
| IndexServer.CheckEmailAgrees | server/index.js:295-339 | verify-email reports an address available exactly when send-verification would send it a code, and changes nothing |
| IndexServer.RegisterSucceedsIff | server/index.js:341-450 | registration succeeds exactly when every field check passes in order, the verification is at most an hour old and the address is unused |
| IndexServer.CodeOnlyLengthChecked | server/index.js:384-387 | the submitted code is never compared with the stored one: any two codes of six trimmed characters give the same outcome |
| IndexServer.RequestChecksFirst | server/index.js:346-387 | a request refused by a field check gets the same reply and no change, whatever the database holds |
| IndexServer.SignUpPath | server/index.js:152-450 | send, then the right code within two hours, then registration within an hour of that, creates the account for a fresh institutional address |
| IndexServer.LockCheckedFirst | server/index.js:465-470 | a locked address gets 423 whatever the password and whether or not a user exists, and no failure is recorded |
| IndexServer.FailedLoginsAlike | server/index.js:474-486 | with no lock, an unknown address and a wrong password get the same 401, record one failure and leave the collections unchanged |
| IndexServer.LoginSuccess | server/index.js:456-513 | login succeeds exactly with the right password for a known, unlocked address; it clears the lockout entry, stamps `lastLogin`, stores the new refresh token on that user alone, and returns the prior user without password and token |
| IndexServer.FifthFailureLocks | server/index.js:465-486 | after a fifth failure, even the right password gets 423 until thirty minutes after that failure |
| IndexServer.RefreshSpec | server/index.js:523-558 | refresh succeeds exactly for a refresh-secret token stored by the user it names, and then replaces that user's stored token alone; a missing token is 400, any other refusal 403, with nothing changed |
| IndexServer.TokenOwner | server/index.js:537-541 | with unique ids, only the user whose id the token names can match it |
| IndexServer.RefreshRotates | server/index.js:549-554 | after a refresh the presented token is refused, unless the new one was minted in the same second and is the same token |
| IndexServer.FindByBsonIdAndToken | server/index.js:538-541 | the filter finds the first document whose `_id` equals the filter value and that holds the token, and finds none exactly when none does |
| IndexServer.StringIdMatchesNothing | server/index.js:538-541 | a string `_id` filter value matches no document |
| IndexServer.RefreshAsWrittenRefusesLogin | server/index.js:523-545 | the route as written refuses with 403 the refresh token a successful login has just issued, while the corrected route honours it |
| IndexServer.AuthServer.constructor | server/index.js:111-112 | the server starts with empty collections and an empty lockout map |
| IndexServer.AuthServer.IsAccountLocked | server/index.js:116-131 | the answer and the new lockout map are the lockout check's |
| IndexServer.AuthServer.RecordFailedAttempt | server/index.js:133-138 | the lockout map becomes the recorded-failure map; nothing else changes |
| IndexServer.AuthServer.RecordSuccessfulAttempt | server/index.js:140-142 | the lockout map loses the address's entry; nothing else changes |
| IndexServer.AuthServer.PostSendVerification | server/index.js:152-224 | reply and new state are those of the send-verification step |
| IndexServer.AuthServer.PostVerifyCode | server/index.js:226-293 | reply and new state are those of the verify-code step |
| IndexServer.AuthServer.PostVerifyEmail | server/index.js:295-339 | reply is the availability check's; the state is unchanged |
| IndexServer.AuthServer.PostRegister | server/index.js:341-453 | reply and new state are those of the registration step |
| IndexServer.AuthServer.PostLogin | server/index.js:456-520 | reply, collections and lockout map are those of the login step |
| IndexServer.AuthServer.PostRefresh | server/index.js:523-566 | reply and new state are those of the corrected refresh step |
| SimpleServer.SendVerificationSpec | simple-unified-server.js:72-109 | a code is sent for every non-empty address, registered or not and whatever its domain, with a one-hour expiry and no attempts; an empty address is 400 with nothing changed |
| SimpleServer.ExpiryInstant | simple-unified-server.js:135-143 | a check made exactly at `expiresAt` goes ahead; one a millisecond later deletes the record as expired |
| SimpleServer.ServersDisagreeOnExpiry | simple-unified-server.js:135-143 | a right code checked more than one and at most two hours after sending is accepted by the Express API and refused as expired here |
| SimpleServer.CheckEmailSpec | simple-unified-server.js:348-399 | an address is reported available exactly when it is well formed, institutional and unused; nothing changes |
| SimpleServer.RegisterSucceedsIff | simple-unified-server.js:191-291 | registration succeeds exactly when the fields are present, the password has at least 8 characters, the address is well formed and institutional, verified at most an hour ago and unused |
| SimpleServer.OnlyPresenceOfOtherFields | simple-unified-server.js:196-223 | the student id, the names and the code only have to be present: their content never decides the outcome |
| SimpleServer.LoginSpec | simple-unified-server.js:293-346 | login succeeds exactly with the right password for a known address and then stores only the new refresh token on that user; any failure is 400/401 and changes nothing, so failures are unlimited |
| SimpleServer.DispatchSpec | simple-unified-server.js:402-469 | OPTIONS is answered 200; under `/api/auth/` a known endpoint is handled for POST and refused 405 otherwise, an unknown one is 404 |
| SimpleServer.EndpointNamesDistinct | simple-unified-server.js:419-467 | two names selecting the same endpoint are the same name |
| SimpleServer.StaticMapping | simple-unified-server.js:473 | the root is served as `/index.html`, and any other path outside the API keeps its path |
| SimpleServer.ContentTypeKnown | simple-unified-server.js:56-69 | exactly the nine listed extensions get their own type; any other, including `.jpeg` and `.HTML`, gets `text/plain` |
| SimpleServer.UnifiedServer.constructor | simple-unified-server.js:17-30 | the server starts with empty collections |
| SimpleServer.UnifiedServer.HandleSendVerification | simple-unified-server.js:72-115 | reply and new state are those of the send step |
| SimpleServer.UnifiedServer.HandleVerifyCode | simple-unified-server.js:117-189 | reply and new state are those of the verify-code step with the `now > expiresAt` rule |
| SimpleServer.UnifiedServer.HandleVerifyEmail | simple-unified-server.js:348-399 | reply is the availability check's; the state is unchanged |
| SimpleServer.UnifiedServer.HandleRegister | simple-unified-server.js:191-291 | reply and new state are those of the registration step |
| SimpleServer.UnifiedServer.HandleLogin | simple-unified-server.js:293-346 | reply and new state are those of the login step |
| ClientAuth.IsEmailAllowedIff | src/lib/auth.ts:11-12 | an address is allowed exactly when it is a non-empty local part of `[A-Za-z0-9._%+-]` followed by `@students.bowiestate.edu` |
| ClientAuth.AllowedPassesServerChecks | src/lib/auth.ts:11-12 | every address the pages allow passes both servers' format and domain checks |
| ClientAuth.StaffAddressRefused | src/lib/auth.ts:11-12 | a staff address at `bowiestate.edu` is refused by the pages although both servers accept it |
| ClientAuth.SessionRoundTrip | src/lib/auth.ts:14-35 | storing a user reads back that user, its address and first name unless empty; removing it reads back nothing; both touch the session key alone |
| ClientAuth.SessionStore.constructor | src/lib/auth.ts:1 | the store opens on the storage given |
| ClientAuth.SessionStore.LoginUser | src/lib/auth.ts:14-16 | the user is stored under `eicUser`, and `getUser` then returns it |
| ClientAuth.SessionStore.LogoutUser | src/lib/auth.ts:18-20 | the key is removed, and `getUser`, `getUserEmail` and `getUserFirstName` then return nothing |
| LevelAssessment.QuestionData | src/components/LevelAssessment.tsx:22-108 | eight questions with ids 1 to 8 in order, four options each, every option worth 1 to 4 points and hinting at phase 1 to 4 |
| LevelAssessment.FirstOptionWith | src/components/LevelAssessment.tsx:141 | `find` returns the option of that value at the first position holding the value, and returns nothing exactly when no option has it |
| LevelAssessment.FindOption | src/components/LevelAssessment.tsx:138-141 | an option found has the value looked up, and nothing is found exactly when no question offers the value |
| LevelAssessment.FindOptionFirst | src/components/LevelAssessment.tsx:138-141 | what is found is `find`'s answer on the first question offering the value; every earlier question finds nothing |
| LevelAssessment.FirstOfferFound | src/components/LevelAssessment.tsx:138-141 | for any value, the lookup returns its first option in the first question offering it, whichever question it was chosen on |
| LevelAssessment.ScoredByFirstOffer | src/components/LevelAssessment.tsx:137-151 | a value's points and hint are those of its first option in the first question offering it |
| LevelAssessment.FirstQuestionWins | src/components/LevelAssessment.tsx:137-151 | "basic" scores 2 and hints 1 although question 5 offers it at 3 points and hint 2; "some" scores 3 and hints 2 although question 3 offers it too |
| LevelAssessment.UnknownValue | src/components/LevelAssessment.tsx:137-150 | a value no question offers scores 0 points and hints at phase 1 |
| LevelAssessment.ValueRanges | src/components/LevelAssessment.tsx:142-151 | every value scores at most 4 points and hints at a phase from 1 to 4 |
| LevelAssessment.LevelBands | src/components/LevelAssessment.tsx:163-170 | beginner exactly up to 16 points, intermediate exactly from 17 to 24, advanced exactly from 25; the level never drops as the total grows |
| LevelAssessment.HintsInRange | src/components/LevelAssessment.tsx:146-152 | every hint is a phase from 1 to 4 |
| LevelAssessment.OccurrencesRange | src/components/LevelAssessment.tsx:155-158 | with hints from 1 to 4, no other phase is counted and the four counts add up to the number of answers |
| LevelAssessment.RecommendationUnique | src/components/LevelAssessment.tsx:160-161 | the recommendation, "most frequent, smallest on a tie, 1 without answers", names one phase only |
| LevelAssessment.PointBounds | src/components/LevelAssessment.tsx:137-143 | the total is at most 4 points per answer |
| LevelAssessment.CompleteAssessment | src/components/LevelAssessment.tsx:136-170 | the level is the band of the answers' point total, and the phase is the most frequently hinted one (the smallest on a tie, 1 without answers) |
| LevelAssessment.TotalPoints | src/components/LevelAssessment.tsx:137-143 | the loop's total is the sum of the answers' points |
| LevelAssessment.CountPhases | src/components/LevelAssessment.tsx:155-158 | the map has exactly the hinted phases as keys, each with its number of occurrences |
| LevelAssessment.MostHinted | src/components/LevelAssessment.tsx:160-161 | the entry taken after the stable descending sort of integer keys is the most frequent phase, the smallest on a tie, or phase 1 with no entries |
| LevelAssessment.AnswerValuesCount | src/components/LevelAssessment.tsx:137 | `Object.values(answers)` has one value per answered question |
| LevelAssessment.AssessmentWizard.constructor | src/components/LevelAssessment.tsx:111-113 | the wizard opens on the first question, with no answers and no result |
| LevelAssessment.AssessmentWizard.HandleAnswer | src/components/LevelAssessment.tsx:118-120 | the answer is recorded for the question shown; the others and the position are kept |
| LevelAssessment.AssessmentWizard.HandleNext | src/components/LevelAssessment.tsx:122-128 | from questions 1 to 7 the wizard moves on one; on question 8 it completes with the level and phase of the answers given |
| LevelAssessment.AssessmentWizard.HandlePrevious | src/components/LevelAssessment.tsx:130-134 | the wizard moves back one question, never before the first; the answers are kept |
| Pathway.DedupSpec | src/pages/Pathway.tsx:116-117 | `Array.from(new Set(...))` keeps exactly the same elements and none twice |
| Pathway.DedupOfNoDup | src/pages/Pathway.tsx:116-117 | a list without repeats is unchanged |
| Pathway.DedupAppend | src/pages/Pathway.tsx:116-117 | de-duplicating a list without repeats plus `x` appends `x` unless it is already there |
| Pathway.InitialProgress | src/pages/Pathway.tsx:48-51 | fresh progress has only phase 1 unlocked and nothing completed, a run from phase 1 in which every completed phase is unlocked |
| Pathway.MarkCompletedSpec | src/pages/Pathway.tsx:102-107 | marking adds the phase to the completed list exactly when it is unlocked and not yet completed, and otherwise changes nothing; no other field changes and no phase is listed twice |
| Pathway.LowerKeyUpperCases | src/pages/Pathway.tsx:113 | upper-casing `eic-<n>` gives `EIC-<n>` |
| Pathway.PaddedLowerCaseAccepted | src/pages/Pathway.tsx:110-113 | `EIC-<n>` or `eic-<n>`, padded with any white space, is accepted for phase n |
| Pathway.BlankRejected | src/pages/Pathway.tsx:110-111 | nothing typed, an empty value or white space alone is never accepted |
| Pathway.StageKeyKept | src/pages/Pathway.tsx:113 | upper-casing leaves every character of `EIC-<n>` as it is |
| Pathway.AcceptsIff | src/pages/Pathway.tsx:110-113 | a typed value is accepted for phase n exactly when, trimmed, it has the length of `EIC-<n>` and each character is the key's, the lower case of a capital in it, or dotless i for its `I` |
| Pathway.CodeNamesOneStage | src/pages/Pathway.tsx:113 | a typed value is accepted for at most one phase |
| Pathway.AfterCodeSpec | src/pages/Pathway.tsx:114-118 | an accepted code adds the phase to the completed list and the next phase to the unlocked list, as sets and without repeats; repeat-free lists keep their order with the new phase at the end; the level and the phase 2 flag are dropped |
| Pathway.AfterCodeIdempotent | src/pages/Pathway.tsx:114-118 | accepting the same code again changes nothing more |
| Pathway.SubmitIdempotent | src/pages/Pathway.tsx:109-125 | a submission either takes the accepted-code step or leaves the progress as it was, and submitting the same code a second time changes nothing more |
| Pathway.LadderPreserved | src/pages/Pathway.tsx:274 | the unlocked phases stay a run from phase 1 within 1 to 5 under marking, and under codes entered where the page offers the input (an unlocked phase below 5) |
| Pathway.SubmitPastLastPhase | src/pages/Pathway.tsx:113-118 | without the page's `s < 5` guard, the phase 5 code would unlock a phase 6 |
| Pathway.CompletedUnlockedPreserved | src/pages/Pathway.tsx:102-118 | every completed phase stays unlocked under marking and under a code entered for an unlocked phase |
| Pathway.AssessmentStrandsCompleted | src/pages/Pathway.tsx:75-79 | the assessment keeps the completed phases while replacing the unlocked ones, so a completed phase can end up locked |
| Pathway.AssessmentSpec | src/pages/Pathway.tsx:60-83 | after the assessment: phase 1 is always unlocked; 2 for intermediate with recommendation 2 or later, or advanced with 3 or later; 3 for the latter only; the unlocked phases are a run from 1; the page opens the recommendation exactly when it is unlocked, and phase 1 otherwise |
| Pathway.AssessmentFallsBack | src/pages/Pathway.tsx:65-83 | advanced recommended 2, and intermediate recommended 3, open phase 1; advanced 3 and intermediate 2 open the recommendation; a beginner always opens phase 1 |
| Pathway.PathwayPage.constructor | src/pages/Pathway.tsx:46-52 | the page opens on the stored progress, or fresh progress when nothing is stored, showing phase 1 with no codes typed |
| Pathway.PathwayPage.MarkComplete | src/pages/Pathway.tsx:102-107 | the progress becomes the marked progress; phase shown and codes are kept |
| Pathway.PathwayPage.SetCode | src/pages/Pathway.tsx:46 | records the text typed for one phase and nothing else |
| Pathway.PathwayPage.SubmitCode | src/pages/Pathway.tsx:109-125 | reports whether the typed code is accepted, and the progress becomes the submitted progress |
| Pathway.PathwayPage.ApplyAssessment | src/pages/Pathway.tsx:60-93 | the progress records the level and the new unlocked phases, and the phase shown is the assessed phase |
| Pathway.PathwayPage.FinishPhase | src/pages/Pathway.tsx:187-234 | a phase view's completion marks its phase; phases 1 to 4 move the page to the next phase, and phase 5 stays |
| Phases.ReduceIsSum | src/lib/phases/phase1-ideation.ts:396-398 | the `reduce` from an accumulator gives the accumulator plus the sum of the tasks' XP |
| Phases.PhaseXpTotals | src/lib/phases/phase1-ideation.ts:388-398 | a phase's XP is the sum of its tasks' XP: 580, 680, 700 and 870 for phases 1, 2, 4 and 5 |
| Phases.EveryDoneIff | src/lib/phases/phase1-ideation.ts:400-405 | `every` holds exactly when each task has a status with `completed` set |
| Phases.IsPhaseCompleteSpec | src/lib/phases/phase1-ideation.ts:400-405 | a phase is complete exactly when each of its tasks is done; statuses of other ids play no part, and a phase without tasks is complete |
| Phases.NumberedIdsDistinct | src/lib/phases/phase1-ideation.ts:93-386 | task ids numbered by position are distinct |
| Phases.Phase1Data | src/lib/phases/phase1-ideation.ts:93-391 | phase 1 has seven well-formed tasks with distinct ids, each worth some XP, and the only quiz is on task 6: three questions, 70% to pass |
| Phases.Phase2Data | src/lib/phases/phase2-validation.ts:84-290 | phase 2 has seven well-formed tasks with distinct ids, each worth some XP, and the only quiz is on task 6: three questions, 70% to pass |
| Phases.Phase4Data | src/lib/phases/phase4-eic-deep-dive.ts:83-254 | phase 4 has seven well-formed tasks with distinct ids, each worth some XP, and no quiz |
| Phases.Phase5Data | src/lib/phases/phase5-launch-pitch.ts:83-254 | phase 5 has seven well-formed tasks with distinct ids, each worth some XP, and no quiz |
| PhaseViews.ToggleSpec | src/components/Phase1Ideation.tsx:36-40 | toggling flips whether that task is done, keeps its quiz score, and leaves every other status |
| PhaseViews.ToggleTwice | src/components/Phase1Ideation.tsx:36-40 | toggling twice restores a task that had a status; one without a status is left incomplete, and every task's done-ness is as before |
| PhaseViews.ToggleCount | src/components/Phase1Ideation.tsx:25-40 | a toggle moves the completed count by exactly one, down if the task was done and up otherwise |
| PhaseViews.AnswerSpec | src/components/Phase1Ideation.tsx:51-56 | choosing an answer records it, and every other task's and question's answer stays |
| PhaseViews.CorrectCountBound | src/components/Phase1Ideation.tsx:62-64 | no more answers are right than there are questions |
| PhaseViews.QuizScoreRounds | src/components/Phase1Ideation.tsx:65 | the score is within a half of 100 × correct / total, above it by at most the half, and never negative |
| PhaseViews.ThreeQuestionScores | src/components/Phase1Ideation.tsx:65-67 | a three-question quiz scores 0, 33, 67 or 100, so a 70% pass mark needs all three right |
| PhaseViews.QuizOutcomeSpec | src/components/Phase1Ideation.tsx:58-82 | submitting marks the task completed with its score exactly when the score reaches the pass mark; otherwise, or without a quiz, nothing changes; no other task changes, and resubmitting the same answers changes nothing more |
| PhaseViews.PhaseQuizzesNeedAllRight | src/lib/phases/phase1-ideation.ts:284-330 | the phase 1 and phase 2 quizzes pass exactly when all three answers are right |
| PhaseViews.EarnedXpBounds | src/components/Phase1Ideation.tsx:26-29 | earned XP never exceeds the total, equals it once every task is done, and, when every task is worth some XP, equals it only then |
| PhaseViews.EarnedXpMatchesCompletion | src/components/Phase1Ideation.tsx:26-29 | for a view's phase, earned XP equals the phase's XP exactly when the phase is complete, and is at most it otherwise |
| PhaseViews.PhaseView.constructor | src/components/Phase1Ideation.tsx:20-23 | the view opens on its phase with no statuses and no answers |
| PhaseViews.PhaseView.MarkTaskComplete | src/components/Phase1Ideation.tsx:36-49 | the statuses become the toggled statuses; answers are kept |
| PhaseViews.PhaseView.HandleQuizAnswer | src/components/Phase1Ideation.tsx:51-56 | the answers become the answers with that choice recorded; statuses are kept |
| PhaseViews.PhaseView.SubmitQuiz | src/components/Phase1Ideation.tsx:58-82 | reports whether the quiz passed, and the statuses become the quiz outcome |
| Text.ToUpper | src/pages/Pathway.tsx:113 | the length is kept, no character that upper-casing changes remains, and a string with no such character is returned unchanged |
| Text.ToUpperIdempotent | src/pages/Pathway.tsx:113 | upper-casing twice is upper-casing once |
| Text.UpperCharPreimage | src/pages/Pathway.tsx:113 | the characters that upper-case to a kept `k` are `k`, its ASCII lower case, and dotless i or long s for `I` or `S` |
| Text.ToUpperEqualsIff | src/pages/Pathway.tsx:113 | a string upper-cases to a string of kept characters exactly when it has its length and matches it case-insensitively character by character |
| Text.TrimPadding | src/pages/Pathway.tsx:110 | trimming removes exactly the white space around a trimmed core |
| Text.TrimEmptyIffAllSpace | src/pages/Pathway.tsx:110-111 | a trimmed value is empty exactly when the input is white space alone |
| Text.ParseNatToString | server/index.js:491 | reading back the decimal text of a number gives the number |

## Left out

- The per-IP rate limiters of `server/index.js` (lines 87-109). They depend on request
  origin and wall-clock windows, which the model does not have.
- Sending mail with nodemailer, and all console logging. These are I/O with no effect on state.
- MongoDB, Express and `http` plumbing: connecting, JSON body parsing, CORS
  headers and response writing. A body field that is absent, or is not a string,
  is modelled as the empty string.
- Non-string body fields. `express.json()` passes objects through, and the Express
  login uses them as they come. An `email` such as `{"$eq": "<address>"}` passes the
  presence test, the lockout `Map` keys it by object identity, so it is never locked
  or counted, and `findOne` runs it as a query that finds that address's user. The
  model's fields are strings. So `IndexServer.LockCheckedFirst`,
  `IndexServer.FifthFailureLocks` and the `Lockout` lemmas hold for string addresses
  only.
- JWT expiry (`15m`, `7d`), the HMAC signatures, and the bcrypt work factor.
  Tokens and hashes are idealised values. A token's decoding is a parameter.
- `GET /api/health`, the `/api/user/...` routes and the `PUT` progress, assessment
  and phase routes (`server/index.js` lines 568-666). They are outside the sign-up and
  sign-in core.
- Reading files for static serving, and the fallback to `index.html`
  (`simple-unified-server.js` lines 474-493). Only the path mapping and
  `getContentType` are modelled.
- The 500 answers of the `catch` blocks. The model has no failing database or hash call.
- `src/lib/phases/phase3-build.ts` and the phase 3 and phase 5 view components. They
  are not part of this model. Phase 5's task data is modelled.
- Texts, resources, templates and rubrics of the phase libraries; toasts, timers,
  quotes, the header greeting and all rendering.
- Saving the pathway progress to local storage (`Pathway.tsx` lines 95-97), and
  clearing `window.history`. The page's progress field stands for what is stored.
- Percentages as floating point. `Math.round(c / n * 100)` is modelled as the exact
  rational rounded half up. This can differ from the floating-point result only
  when that result lies within rounding error of a half.
- `toUpperCase` maps the ASCII letters plus dotless ı and long ſ, the only single
  characters whose upper case is ASCII. Every other character is kept, which cannot
  change whether a typed value equals the ASCII `EIC-<n>`. Multi-character
  expansions (such as `ß` to `SS`) are not modelled. String length is counted in
  characters, not UTF-16 units.
- Concurrency between requests. Each route is one atomic step.
- `Math.random()`. It is the parameter `draw` (0 to 899999).
- The JSON round trip of the session store. It is taken as the identity.
- LevelAssessment.AssessmentWizard.HandleNext: it is not gated on `canProceed`. The
  page only disables the button.
- PhaseViews.PhaseView.SubmitQuiz: it is not gated on `CanSubmitQuiz`. The phase
  views only disable the button until every question is answered
  (`Phase1Ideation.tsx` line 264).
- PhaseViews.QuizScoreRounds: it states the rounding bounds but not, separately,
  that the score lies in 0..100 and grows with the number right. Those follow from
  the bounds, but the model does not prove them as lemmas.

## Findings

| source | as written | input that shows it | evidently intended | confidence | as-written member | corrected member |
|---|---|---|---|---|---|---|
| server/index.js:538-541 | the refresh route filters `users.findOne({ _id: decoded.userId, refreshToken })` with the `userId` claim, which is the string `user._id.toString()`; MongoDB never matches a string against an ObjectId, so no user is found and every refresh is refused 403 | log in, then post the refresh token just received | look the user up by `new ObjectId(decoded.userId)`, so that the token stored at login is honoured and rotated | not executed | IndexServer.RefreshAsWrittenRefusesLogin | IndexServer.RefreshSpec |
