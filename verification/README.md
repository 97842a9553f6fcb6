# Lernify Road backend — decision logic in Dafny

This project models the rules of the Lernify Road learning-platform backend:
registration and login, password change, profile read and update, the
roadmap catalog with its idempotent startup seeding, assessment scoring
and the sequential-step gate, progress tracking, and the resume store.

The document store is abstracted as one immutable `Store` value holding one
sequence per collection (`users`, `roadmaps`, `progress`, `results`,
`resumes`) in insertion order. An equality `find_one` is "the first record
whose key matches" (`Seqs.IndexOf`). A user's id is its position in `users`,
so the id an insert hands out is always fresh. Every handler is a pure
function from the store and the request to a reply (`Http.Result`: a body or
an `HttpError` with its status) and, where the handler writes, the next
store. Each HTTP status the source raises is its own `Status` constructor.
Request-body validation that runs before a handler body is modelled as an
`Unprocessable` (422) error.

Two foreign functions are parameters, bundled as `Db.Env`:
- `hash`: the SHA-256 password digest, treated as an uninterpreted deterministic function;
- `parseId`: the parse of a textual object id, answering `None` for a malformed id.

Modules: `Http` (reply shapes), `Seqs` (collection queries, `$addToSet`),
`Schemas` (records and body validators), `Db` (the store), `Identity`,
`Catalog`, `Grading`, `Progression`, `Resumes`.

Behaviours of the code worth knowing before reading the contracts:
- The gate refuses a step only when `step_order > 1` and the previous order
  is not completed. Orders of 1 or less are therefore never gated, not just
  order 1.
- Registration answers 403 for a qualification off the allow-list and 400
  for a taken email.
- A profile update for a well-formed id that names no user answers 200 with
  no user rather than 404 (`UpdateProfile` returns `Ok(None)`).
- A profile update compares the qualification unstripped. It applies none
  of the user record's name and phone rules.

## Model

| member | source | states |
|---|---|---|
| `Seqs.IndexOf` | main.py:252 | the lookup answers the first position whose key matches, and answers none exactly when no record has the key |
| `Seqs.AddToSet` | main.py:296 | `$addToSet`: the element set becomes old set plus the value; existing entries keep their order; freedom from duplicates is preserved; a present value changes nothing |
| `Schemas.AllowListHasSevenDistinctEntries` | schemas.py:14-22 | the allow-list holds exactly seven distinct qualifications |
| `Schemas.Strip` | schemas.py:25-26 | stripping removes exactly the leading and trailing whitespace runs (characters with the Unicode White_Space property, which excludes U+001C..U+001F); the result is an infix that neither starts nor ends with whitespace |
| `Schemas.SeparatorIsKept` | schemas.py:25-26 | the information separator U+001C is not stripped, so "\u001cA" keeps both characters and is a valid name |
| `Schemas.StripIdempotent` | schemas.py:25-29 | stripping a stripped value changes nothing |
| `Schemas.StripBCA` | schemas.py:29 | " BCA " strips to "BCA", which is on the allow-list, although " BCA " itself is not |
| `Schemas.ValidName` | schemas.py:25-26 | a name is accepted iff at least two characters remain after stripping |
| `Schemas.ValidPhone` | schemas.py:28 | a phone is accepted iff it is exactly ten ASCII digits |
| `Schemas.MatchPhone` | schemas.py:28 | the anchored match accepts a phone exactly when it is ten ASCII digits |
| `Schemas.ValidateRegistration` | schemas.py:24-32 | a registration body is accepted iff both names keep two characters after stripping and the phone is ten digits; names and qualification come out stripped, role defaults to "student", avatar to none |
| `Schemas.ValidLogin` | schemas.py:34-36 | a login body needs a password of at least six characters |
| `Schemas.ValidPasswordChange` | schemas.py:38-41 | a password-change body needs both the old and the new password to have at least six characters |
| `Schemas.ValidResume` | schemas.py:71-75 | a resume needs a summary of at least 20 characters and every skill of at least two |
| `Schemas.EmptyProgress` | schemas.py:62-66 | a new progress record has no completed steps and no scores |
| `Identity.Register` | main.py:147-157 | 422 for a bad body; 403 for a disallowed qualification, checked before the email; 400 for a taken email; succeeds iff none of these, appending exactly one user with the digest of the password, and otherwise changes nothing |
| `Identity.RegisterPreservesUsersWellFormed` | main.py:149-155 | registration keeps emails unique and every stored qualification on the allow-list |
| `Identity.ShortPasswordRegisters` | schemas.py:30 | a five-character-or-shorter password is accepted at registration |
| `Identity.ShortPasswordNeverLogsIn` | schemas.py:30-36 | an account registered with a password under six characters cannot log in with it |
| `Identity.RegisterWithPasswordRule` | schemas.py:36 | registration with the login's six-character rule: shorter passwords are refused with 422 and the store is unchanged; otherwise as registration |
| `Identity.RegisterThenLogin` | main.py:147-168 | with the password rule, every successful registration logs in with its email and password and gets the same user back |
| `Identity.Login` | main.py:160-168 | 422 for a short password; otherwise success iff a user has that email and the digest of the password matches; every failure is the same 401 "Invalid credentials"; the reply carries the profile and never the digest |
| `Identity.LoginFailuresIndistinguishable` | main.py:162-166 | an unknown email and a wrong password for a known email give the identical response |
| `Identity.ChangePassword` | main.py:171-183 | 422, 400 malformed id, 404 unknown user, 401 wrong old password, in that order; success iff none applies, and then only that user's digest changes, to the digest of the new password |
| `Identity.ChangePasswordPreservesUsersWellFormed` | main.py:180-182 | a password change keeps emails unique and qualifications on the allow-list |
| `Identity.ChangePasswordThenLogin` | main.py:180-182 | after a password change the user logs in with the new password, and, when the two digests differ, the old password is refused with 401 "Invalid credentials" |
| `Identity.GetProfile` | main.py:189-198 | 400 malformed id, 404 unknown user, else the stored profile without the digest |
| `Identity.UpdateProfile` | main.py:209-220 | 400 malformed id, then 400 for a qualification off the allow-list, with nothing changed; otherwise the names, phone, qualification and avatar are overwritten while email, role and digest stay; an unknown id changes nothing and answers no user |
| `Identity.UpdateProfilePreservesUsersWellFormed` | main.py:215-218 | profile updates keep emails unique and qualifications on the allow-list |
| `Identity.UpdateProfileSkipsRecordChecks` | main.py:201-217 | an update stores a phone registration would reject, and refuses " BCA ", which registration accepts |
| `Catalog.SeedRoadmaps` | main.py:43-98 | the seed catalogue: frontend, backend and ai-ml with their steps, videos and questions |
| `Catalog.SeedDataWellFormed` | main.py:43-98 | the seed domains are distinct; in each, step orders run 1..n consecutively and every answer index names one of its options |
| `Catalog.SeedInto` | main.py:104-110 | seeding keeps the existing roadmaps as a prefix, leaves every seed domain present, and appends only seeds whose domain was absent |
| `Catalog.EnsureSeeded` | main.py:101-110 | startup seeding changes only the roadmap collection, never overwrites an existing roadmap, and leaves every seed domain present |
| `Catalog.SeedIntoPresentIsNoop` | main.py:105-106 | when every seed domain is already present, seeding inserts nothing |
| `Catalog.EnsureSeededIdempotent` | main.py:101-110 | seeding twice equals seeding once |
| `Catalog.SeedIntoKeepsPresentCount` | main.py:105-110 | a domain already present keeps its number of roadmaps |
| `Catalog.SeedIntoAddsAbsentOnce` | main.py:105-110 | an absent seed domain ends with exactly one roadmap |
| `Catalog.SeedingYieldsOneRoadmapPerDomain` | main.py:101-113 | with at most one roadmap per seed domain before, seeding twice leaves exactly one per seed domain |
| `Catalog.SeedIntoFreshAppendsAll` | main.py:104-110 | distinct, absent seed domains are all appended in seed order |
| `Catalog.SeedingEmptyStoreStoresSeeds` | main.py:43-110 | seeding an empty store stores exactly the seed roadmaps |
| `Catalog.ListDomains` | main.py:226-229 | one name per stored roadmap, in store order, and a name is listed iff some roadmap has that domain |
| `Catalog.GetRoadmap` | main.py:232-237 | 404 "Roadmap not found" iff no roadmap has the domain, else the steps of the first roadmap of that domain |
| `Catalog.SeededStoreListsSeedDomains` | main.py:226-229 | after seeding an empty store the domains are listed as frontend, backend, ai-ml |
| `Catalog.SeededStoreServesSeedSteps` | main.py:232-237 | after seeding an empty store each seed domain is served with its seed steps |
| `Catalog.SeededStoreServesSeeds` | main.py:226-237 | after seeding an empty store, the domains are listed as frontend, backend, ai-ml and each is served with its seed steps |
| `Grading.AnswerKey` | main.py:277 | one key entry per question, the question's answer index, in question order |
| `Grading.Score` | main.py:278 | the score never exceeds the number of questions nor the number of answers |
| `Grading.ScoreCountsMatches` | main.py:278 | the score is the number of positions inside both the answers and the key where they are equal |
| `Grading.ExtraAnswersIgnored` | main.py:278 | answers past the last question do not change the score |
| `Grading.KeyScoresFull` | main.py:277-279 | answering with the key itself scores one per question |
| `Grading.PassMark` | main.py:280 | the pass mark is at least one, and is 60% of the total rounded down whenever that is one or more |
| `Grading.Passes` | main.py:279-280 | a submission passes iff its score reaches the pass mark |
| `Grading.NoQuestionsNeverPass` | main.py:279-280 | a step without questions is never passed |
| `Grading.SingleQuestionPassIff` | main.py:278-280 | a one-question step is passed iff the first answer is present and correct |
| `Grading.PerfectSubmissionPasses` | main.py:277-280 | a fully correct submission passes any step with questions |
| `Grading.ScoringExample` | main.py:277-280 | key [0,1,0,2] against answers [0,1,1,2] scores 3, the mark for 4 questions is 2, and it passes |
| `Grading.Grade` | main.py:277-280 | the enumerating loop counts exactly the matching positions, and passes iff the count reaches the pass mark |
| `Progression.GetProgress` | main.py:250-256 | returns the stored record when one exists, changing nothing; otherwise inserts and returns an empty record; only the progress collection can change |
| `Progression.GetProgressIdempotent` | main.py:252-255 | a second read returns the first read's record and inserts nothing |
| `Progression.GetProgressPreservesWellFormed` | main.py:252-255 | reads keep at most one progress record per user and domain |
| `Progression.Unlocked` | main.py:269-275 | a step is open iff its order is at most 1 or the previous order is among the completed steps |
| `Progression.Advance` | main.py:295-298 | the step joins the completed set without duplicates, its score is set, other scores and the owner stay |
| `Progression.AdvanceTwiceKeepsCompleted` | main.py:296 | passing the same step again leaves the completed set as the first pass left it |
| `Progression.RecordPass` | main.py:292-300 | the upsert advances the first record of the user and domain and no other, or inserts one holding just this step and score |
| `Progression.RecordPassPreservesWellFormed` | main.py:292-300 | recording a pass keeps one record per user and domain, each free of duplicate steps |
| `Progression.StepOf` | main.py:260-265 | the graded step carries the requested order and is the first such step of the first roadmap of the domain |
| `Progression.Submit` | main.py:259-302 | 404 "Roadmap not found" or "Step not found" before any change when the domain or step is unknown; 403 iff the gate is closed, after only the read-or-create; otherwise exactly one result is appended, scored positionally, passed iff the score reaches the mark, labelled "Passed"/"Failed"; users, roadmaps and resumes never change |
| `Progression.SubmitGateLaw` | main.py:269-275 | with the previous step not completed, a later step is refused whatever the answers, no result is logged, and at most the empty record is created |
| `Progression.SubmitFailLeavesProgress` | main.py:292-300 | a failing submission changes progress only by the read-or-create |
| `Progression.SubmitPassRecordsStep` | main.py:292-300 | a passing submission advances exactly the record the gate read and leaves every other record alone |
| `Progression.SubmitPreservesProgressWellFormed` | main.py:270-300 | submissions keep one progress record per user and domain with duplicate-free completed sets |
| `Progression.SubmitPassOpensNextStep` | main.py:274-298 | after passing a step the next step's gate is open for that user and domain |
| `Resumes.UpsertResume` | main.py:322-332 | 422 iff the body is invalid; otherwise the user's resume is replaced in place, or the body is appended when the user has none; the reply equals the body; other users' resumes and other collections are untouched; one resume per user is preserved |
| `Resumes.GetResume` | main.py:335-340 | 404 "Resume not found" iff the user has no resume, else a stored resume of that user |
| `Resumes.UpsertResumeIdempotent` | main.py:324-331 | repeating an upsert with the same body changes nothing further and gives the same reply |
| `Resumes.UpsertThenGetResume` | main.py:322-340 | after an accepted upsert, reading the user's resume returns the body |

## Left out

- Web framework wiring is not modelled. This covers routing, CORS, server startup, the `/` liveness message and the `/test` diagnostic. It is transport and environment I/O.
- `dashboard` and `to_str_id` are not modelled. They are a per-user filter and a field rename.
- The seeding guard for a missing database connection is not modelled. Every other handler also assumes a connection.
- SHA-256 is not modelled; `Env.hash` stands for it, with no collision reasoning.
- Object-id parsing is not modelled; `Env.parseId` stands for it.
- Email validation and normalisation by the validation library are not modelled. Emails are compared as given.
- The detail text of 422 errors is not modelled. Neither are bodies of the wrong JSON shape or type.
- `Grading.PassMark` computes the pass mark as `max(1, (3*total)/5)` in integers. The source multiplies by the float `0.6` and truncates. The two are assumed to agree for question counts of realistic size.
- Progression.Submit: the reply is modelled as the result record and the message. The source returns the result dictionary after `insert_one` has added the store-assigned `_id` to it (main.py:290, 302), and that id is not converted to text; how the framework serialises such a reply is framework behaviour and is not modelled, so a reply the framework could fail to encode after the writes have happened is not represented.
- The read-then-write race between the gate check and the recording of a pass is not modelled. It is a concurrency concern.
- Storage failures are not modelled. They would be internal errors.
- Progress scores are keyed by the step order. The store keys them by the decimal text of the order, which is injective.
- Questions, steps and roadmaps are typed records. A stored document missing `answerIndex`, `order`, `questions` or `steps` is therefore not modelled.
- A resume upsert overwrites every schema field, so the stored record equals the body. Extra fields an existing document might carry outside the schema are not modelled.

## Findings

| source | as written | input that shows it | evidently intended | confidence | as-written member | corrected member |
|---|---|---|---|---|---|---|
| schemas.py:30-36 | registration accepts a password of any length, but login requires at least six characters | register with password "abc"; registration succeeds, and every login with "abc" is refused | registration applies the same six-character minimum, so every registered account can log in | medium, not executed | `Identity.ShortPasswordNeverLogsIn` | `Identity.RegisterWithPasswordRule` |
