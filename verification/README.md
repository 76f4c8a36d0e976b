# Project recommendations and sign-in: a Dafny model

This project models the decision logic of a Next.js app that recommends
developer projects. That logic is:

- the recommendation route (`GET` and `POST`), including the merge of an
  optional language-model ranking into the rule-based list;
- the in-memory store behind it, with users, the project catalogue and
  login sessions;
- the parts of the Firestore adapter that compute something;
- the sign-up and login routes that write to the store.

The model proves what each of them promises.

Modules, one per source file plus two shared ones:

- `Seqs` (`seqs.dfy`) holds the array operations the code is built from:
  `find`, `findIndex`, `filter`, `map` and `slice(0, n)`. It also proves how
  they compose, for example that two filters are one filter, and which element
  a filter removes.
- `Strings` (`strings.dfy`) holds the string operations the code uses:
  - `toLowerCase`, on ASCII letters;
  - `includes`;
  - `split` on one character, proved to round-trip with `join`;
  - `replace` of the first occurrence of one character;
  - `parseInt` (a sign, then decimal digits, else NaN), proved to read back
    rendered numbers.
- `Entities` (`entities.dfy`) holds the user, project and session records
  and the difficulty gate that the route and the Firestore adapter share.
- `MemoryStore` (`memory_store.dfy`) models `src/lib/database.ts`:
  - the password placeholders and the finders;
  - `recommend`, with its time-commitment parsing;
  - session lookup and deletion;
  - a `Database` class whose `users`, `projects` and `sessions` sequences are
    changed in place by `create`, `update`, `sessions.create` and
    `sessions.delete`.
- `FirestoreStore` (`firestore_store.dfy`) models the adapter's own
  `recommend`, `findByTechnology` and `sessions.findByToken` over a
  collection taken as a sequence. It proves where they agree with the
  in-memory store and where they do not.
- `Recommendations` (`recommendations.dfy`) models the recommendation route:
  - `GET` as a function of the store contents and the query;
  - `POST` as a method;
  - the language-model merge as a method whose loop builds the `merged`
    array, proved against a specification function.
- `AuthRoutes` (`auth.dfy`) models the sign-up and login routes. Each runs
  its guards in order and then writes to a `Database`.

Conventions:

- A missing or empty request field is the empty string, because the code
  tests fields for truthiness.
- Times are integers in milliseconds.
- Fresh ids, tokens and the current time are parameters.
- The model's answer is an `LlmOutcome`: no text, unparsable text, a JSON
  value that is not an array, or an array of items.

Three places where the route's evident intent and its code part ways. The
model follows the code in each:

- **Repeated ids in the merge.** The merge appears meant to reorder and
  re-annotate the candidates without changing their number. The loop at
  src/app/api/projects/recommendations/route.ts:169-183 pushes one entry per
  array element, so an id the model names twice is pushed twice.
  `Recommendations.MergeIsReordering` proves the count is kept when ids are
  distinct. `Recommendations.MergeRepeatedIdDuplicates` shows the duplication.
- **Technology match in `POST`.** Unlike the stores' case-insensitive
  `findByTechnology`, the `POST` filter at
  src/app/api/projects/recommendations/route.ts:121-123 compares
  technologies with exact equality, through `includes` on the preference
  array.
- **Reasons from the language model.** The test at
  src/app/api/projects/recommendations/route.ts:178 is `Array.isArray`, so
  any array replaces the candidate's reasons, the empty one included.

The Firestore adapter's `hashPassword`/`verifyPassword` pair
(src/lib/firestoreDb.ts:171-180) is character for character the in-memory one.
It is modelled once, in `MemoryStore`.

## Model

| member | source | states |
|---|---|---|
| Entities.AdmittedFor | src/app/api/projects/recommendations/route.ts:43-54 | keeps exactly the catalogue projects the skill level admits, each as often as it is stored, dropping and repeating none |
| Entities.AdmittedForLevels | src/app/api/projects/recommendations/route.ts:43-54 | beginner never gets an advanced project; intermediate and advanced get the whole catalogue; any other level gets nothing |
| MemoryStore.VerifyHashedPassword | src/lib/database.ts:37-46 | a hash verifies against the password it was made from, and against no other password |
| MemoryStore.NewRecord | src/lib/database.ts:85-93 | the created record carries every given field, the fresh id, and the creation time in both dates |
| MemoryStore.Database.CreateUser | src/lib/database.ts:85-96 | exactly one user carrying the given fields is appended; earlier users, projects and sessions are unchanged |
| MemoryStore.FindByEmail | src/lib/database.ts:98-100 | the first user with that email, or none exactly when no user has it |
| MemoryStore.FindById | src/lib/database.ts:102-104 | the first user with that id, or none exactly when no user has it |
| MemoryStore.FindByEmailAfterCreate | src/lib/database.ts:94-100 | after a create, findByEmail returns an earlier user with the email if there is one, else the new user if it has the email, else nothing |
| MemoryStore.IndexOfId | src/lib/database.ts:110 | the index of the first user with the id, or none exactly when no user has it |
| MemoryStore.ApplyUpdate | src/lib/database.ts:112 | the overlaid record is stamped with the update time |
| MemoryStore.Database.UpdateUser | src/lib/database.ts:106-114 | an absent id returns null and changes nothing; otherwise only the first entry with the id is replaced by the overlay, and that entry is returned |
| MemoryStore.FindByIdAfterUpdate | src/lib/database.ts:106-114 | after an update that leaves the id alone or sets it to itself, findById returns the updated record |
| MemoryStore.FindByDifficulty | src/lib/database.ts:122-124 | keeps exactly the projects with that difficulty, each as often as it is stored, dropping and repeating none |
| MemoryStore.FindByDifficultyKeepsOrder | src/lib/database.ts:122-124 | the matches keep stored order: on a store split in two, the first part's matches come before the second part's |
| MemoryStore.FindByTechnology | src/lib/database.ts:126-132 | keeps a project if and only if one of its technologies contains the query, ignoring case, each as often as it is stored |
| MemoryStore.FindByTechnologyIgnoresCase | src/lib/database.ts:126-132 | a query and its lower-cased form find the same projects |
| MemoryStore.TimeWindowOfRange | src/lib/database.ts:142-146 | the commitment `"a-b"` is the hour window from a to b |
| MemoryStore.TimeWindowOfOpenRange | src/lib/database.ts:142-146 | the commitment `"a+"` is the window of a hours or more |
| MemoryStore.Recommend | src/lib/database.ts:134-156 | at most five projects, each from the store and passing both filters; never advanced for a beginner; fewer than five only when every passing project is included |
| MemoryStore.RecommendIsFirstFive | src/lib/database.ts:134-156 | recommend is the first five projects passing both filters, in store order |
| MemoryStore.RecommendHonoursTimeCommitment | src/lib/database.ts:141-153 | with `"a-b"` every recommended project takes a to b hours; with `"a+"`, at least a |
| MemoryStore.RecommendAdmitsAllLevelsBeyondBeginner | src/lib/database.ts:136-139 | any experience other than beginner is shown every difficulty, and only the hour filter applies |
| MemoryStore.NewSession | src/lib/database.ts:160-167 | the session belongs to the user, carries the token and expires one day after creation |
| MemoryStore.Database.CreateSession | src/lib/database.ts:160-170 | exactly one session is appended; users and projects are unchanged |
| MemoryStore.IndexOfToken | src/lib/database.ts:179 | the index of the first session with the token, or none exactly when no session has it |
| MemoryStore.FindByToken | src/lib/database.ts:172-176 | null exactly when no session has the token or the first one with it has expired; otherwise the first session with the token, unexpired |
| MemoryStore.CreatedSessionIsFound | src/lib/database.ts:160-176 | a session created with a fresh token is found by it until its expiry, and not after |
| MemoryStore.AfterDelete | src/lib/database.ts:178-181 | the first session with the token is spliced out; with no such session nothing changes |
| MemoryStore.Database.DeleteSession | src/lib/database.ts:178-181 | the session list becomes the spliced list; users and projects are unchanged |
| MemoryStore.DeletedSessionIsGone | src/lib/database.ts:172-181 | with unique tokens, a deleted token is no longer found |
| MemoryStore.Database.constructor | src/lib/database.ts:48-81 | the store starts with no users, no sessions and the three seed projects |
| FirestoreStore.TimeWindowOfMissing | src/lib/firestoreDb.ts:108-110 | a missing time commitment reads as `"0+"`, which admits every non-negative hour count |
| FirestoreStore.TimeWindowOfRange | src/lib/firestoreDb.ts:108-119 | `"a-b"` bounds the hours by [a, b] when b is positive, and only from below when b is 0 |
| FirestoreStore.TimeWindowOfOpenRange | src/lib/firestoreDb.ts:108-119 | `"a+"` admits a hours or more |
| FirestoreStore.TimeWindowsDifferOnZero | src/lib/firestoreDb.ts:111-119 | on `"a-0"` the adapter ignores the bound, while the in-memory store admits only hours from a up to 0 |
| FirestoreStore.TimeWindowsDifferOnText | src/lib/firestoreDb.ts:108-110 | on `"a-x"` the adapter reads the bound as 0 and ignores it, while the in-memory store reads NaN and admits nothing |
| FirestoreStore.Recommend | src/lib/firestoreDb.ts:97-122 | at most five documents, each passing the level gate and the hour window; fewer than five only when every passing document is included |
| FirestoreStore.RecommendIsFirstFive | src/lib/firestoreDb.ts:97-122 | recommend is the first five documents passing both filters, in collection order |
| FirestoreStore.RecommendLevels | src/lib/firestoreDb.ts:100-106 | a beginner never gets an advanced project; an experience outside the three levels gets nothing |
| FirestoreStore.FindByTechnology | src/lib/firestoreDb.ts:83-95 | skips documents without technologies, and keeps the others if and only if a technology contains the query, ignoring case, each as often as it occurs |
| FirestoreStore.FindByTechnologyAgrees | src/lib/firestoreDb.ts:87-93 | reading a missing technologies field as none, the adapter finds what the in-memory store finds |
| FirestoreStore.FindByToken | src/lib/firestoreDb.ts:142-156 | only an unexpired session with the token is returned |
| FirestoreStore.FindByTokenAgrees | src/lib/firestoreDb.ts:142-156 | the adapter's token lookup, first match then expiry, answers as the in-memory one does |
| Recommendations.Ranked | src/app/api/projects/recommendations/route.ts:56-68 | one recommendation per project, in order, showing its fields; the first scores the base and each next one 5 less |
| Recommendations.Get | src/app/api/projects/recommendations/route.ts:7-82 | the projects are a prefix of the candidates, and totalCount is the number of candidates before truncation |
| Recommendations.GetGeneralLevelGate | src/app/api/projects/recommendations/route.ts:39-54 | without a user id, a missing or beginner level never shows advanced; intermediate and advanced count the whole catalogue; other levels give nothing |
| Recommendations.GetUnknownUser | src/app/api/projects/recommendations/route.ts:17-20 | an unknown user id gives an empty list with total 0 |
| Recommendations.GetPersonalised | src/app/api/projects/recommendations/route.ts:17-36 | a known user gets at most five projects, each passing the store's recommend for that user, none advanced for a beginner |
| Recommendations.GetScores | src/app/api/projects/recommendations/route.ts:22-68 | the candidate at position i scores 95 − 5i on the personalised path and 90 − 5i on the general path |
| Recommendations.GetDefaultLimit | src/app/api/projects/recommendations/route.ts:13 | with no limit, at most five projects are returned |
| Recommendations.GetPositiveLimit | src/app/api/projects/recommendations/route.ts:74-75 | a limit k returns the first min(k, n) of n candidates |
| Recommendations.GetNegativeLimit | src/app/api/projects/recommendations/route.ts:74 | a limit of −k (k > 0) drops the last k candidates |
| Recommendations.GetNaNLimit | src/app/api/projects/recommendations/route.ts:13 | a limit without digits returns no project, and the total still counts every candidate |
| Recommendations.GetCriteriaEcho | src/app/api/projects/recommendations/route.ts:76 | with a skill level, the criteria are that level followed by the interests, whose comma-join is the parameter; otherwise `["general"]` |
| Recommendations.ShortlistIsOneFilter | src/app/api/projects/recommendations/route.ts:104-126 | the two POST filters are one order-preserving filter, keeping a project if and only if it passes the difficulty gate and, with preferences, uses a preferred technology exactly |
| Recommendations.Lookup | src/app/api/projects/recommendations/route.ts:165-170 | the id map returns the last candidate with the id, and none exactly when no candidate has it |
| Recommendations.Overlay | src/app/api/projects/recommendations/route.ts:172-181 | the merged entry shows the same project as its candidate |
| Recommendations.Merge | src/app/api/projects/recommendations/route.ts:164-188 | fails exactly when the array holds a null element; otherwise returns the merged entries in model order followed by the unnamed candidates in their order |
| Recommendations.MergedItemsFromCandidates | src/app/api/projects/recommendations/route.ts:168-183 | each merged entry shows a candidate's project, and its id is named by some item |
| Recommendations.MergeKeepsEveryCandidate | src/app/api/projects/recommendations/route.ts:184-188 | every candidate's id appears in the merge result |
| Recommendations.MergeAddsNoProject | src/app/api/projects/recommendations/route.ts:165-188 | every entry of the merge result shows some candidate's project |
| Recommendations.MergedItemsDistinct | src/app/api/projects/recommendations/route.ts:168-183 | when the model names each id at most once, the merged entries have distinct ids, all of them candidate ids |
| Recommendations.LeftoverCount | src/app/api/projects/recommendations/route.ts:185-187 | with distinct ids, the leftovers number the candidates minus the candidate ids that were merged |
| Recommendations.MergeIsReordering | src/app/api/projects/recommendations/route.ts:165-188 | with distinct candidate ids and distinct item ids, the result has as many entries as the candidates and the same ids |
| Recommendations.MergeRepeatedIdDuplicates | src/app/api/projects/recommendations/route.ts:165-183 | an id the model names twice yields the candidate twice |
| Recommendations.MergeWithoutKnownIds | src/app/api/projects/recommendations/route.ts:169-188 | an array naming no candidate, the empty one included, leaves the recommendations unchanged |
| Recommendations.MergeSingleItem | src/app/api/projects/recommendations/route.ts:165-188 | a single item naming candidate j moves it first; it takes the model's score only when one is given and the model's reasons only when given, keeping its own otherwise; the rest keep their order |
| Recommendations.Post | src/app/api/projects/recommendations/route.ts:95-216 | returns the first ten of the re-ranked list and its full count, echoes level, interests and technologies, and every returned project passes both gates |
| Recommendations.RerankKeepsGates | src/app/api/projects/recommendations/route.ts:104-188 | whatever the model answers, every recommendation passes the difficulty gate and the technology gate |
| Recommendations.PostFailsOpen | src/app/api/projects/recommendations/route.ts:139-204 | with no usable model answer, POST keeps the rule-based list, scored 95 − 5i |
| AuthRoutes.PublicDropsOnlyPassword | src/app/api/auth/signup/route.ts:51 | the response user loses the password and nothing else |
| AuthRoutes.Registration | src/app/api/auth/signup/route.ts:36-45 | the created user gets every field of the body except the confirmation exactly as given: names, email, password, GitHub username, experience, goals and time commitment |
| AuthRoutes.SignupCheck | src/app/api/auth/signup/route.ts:12-33 | in order: 400 exactly when a required field is missing, then 400 when the confirmation differs, then 409 when a stored user has the email; otherwise passes the registration |
| AuthRoutes.SignupKeepsEmailsUnique | src/app/api/auth/signup/route.ts:27-45 | a sign-up that passes its guards keeps emails unique in the store |
| AuthRoutes.SignupThenLogin | src/app/api/auth/signup/route.ts:27-45 | after a sign-up, the same email and password log in as the new user, and a second sign-up with that email gets 409 |
| AuthRoutes.Signup | src/app/api/auth/signup/route.ts:5-61 | on a guard's error nothing is written; otherwise exactly one user and one session for that user are appended, and the response carries the user without the password and the token |
| AuthRoutes.LoginCheck | src/app/api/auth/login/route.ts:12-34 | the outcome is a pass, the 400 or the 401, and nothing else; 400 exactly when email or password is missing; 401, with one message, exactly for an unknown email or a wrong password; otherwise the first user with the email, whose password matches |
| AuthRoutes.LoginAcceptsExactlyStoredCredentials | src/app/api/auth/login/route.ts:20-34 | with unique emails, login passes if and only if a stored user has that email and password, and every rejection is the same 401 |
| AuthRoutes.Login | src/app/api/auth/login/route.ts:5-50 | on a guard's error no session is created; otherwise one session for the user is appended, and the response carries the user without the password and the token |
| AuthRoutes.IssuedTokenAuthenticates | src/app/api/auth/login/route.ts:37-50 | the returned token finds a session of that user for one day, and not after |

## Left out

- Outside the model: HTTP plumbing, `async`/`await`, logging, and the 500
  catch-all of every route. The `try` around the model call is the fail-open
  rule only.
- The language-model call (`src/lib/gemini.ts`), prompt building, and the regex
  extraction and `JSON.parse` of its answer are taken as an `LlmOutcome` input.
  A `String(item.id)` on a non-string id is taken as already done.
- A `null` array element throws when its `id` is read. It is modelled as
  `NullItem`, which leaves the list as it was. Other throwing elements are not
  modelled.
- Integers stand for `number`s: `matchScore`, `estimatedHours`, the
  model's `score` and dates. Fractional numbers, `Infinity` and the
  `isFinite` tests are not modelled, and `parseInt` yields only NaN or an
  integer. A digit run long enough to give `Infinity` is not modelled.
- `parseInt` skips no leading whitespace and reads no `0x` prefix. "-0" reads as 0.
- `toLowerCase` changes ASCII letters only.
- Fresh ids and tokens (`Math.random`, `uuidv4`) and the clock are
  parameters.
- Firestore I/O is not modelled:
  - user creation and session writes, `findAll`'s `createdAt` ordering and
    `findByDifficulty` are queries or writes of the database service;
  - the collection is a sequence in whatever order the query returns;
  - `findByToken` takes the first matching document.
- Fields the TypeScript types declare but a request may omit are given
  their empty value: "" for the strings `experience` and `timeCommitment` of
  a sign-up body, the empty sequence for `goals`. `undefined` values inside
  records are not modelled. This hides one behaviour: a user stored without
  `timeCommitment` makes `recommend` throw at src/lib/database.ts:142-143
  (`split` on `undefined`), so the personalised `GET` answers 500. The model
  reads the missing value as "", which `recommend` treats as 0 hours or more.
- MemoryStore.ApplyUpdate: its contract states only the new `updatedAt`. The
  overlay of the other fields is its definition, and
  MemoryStore.FindByIdAfterUpdate and MemoryStore.Database.UpdateUser state
  what it is used for.
- Recommendations.Overlay: its own contract states only that the entry
  shows the candidate's project. The score and reasons fallback is its
  definition, and Recommendations.MergeSingleItem states it for every
  combination of a given or missing score and reasons.
- Recommendations.GetNegativeLimit: stated for k > 0, because a limit of "-0"
  reads as zero and returns no project.
