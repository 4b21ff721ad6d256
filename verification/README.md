# Timed quiz: a Dafny model of the exam session and its routes

The application is a timed multiple-choice exam written in TypeScript. A React
context holds one exam session in the browser:

- fifteen answer slots;
- a cursor;
- the visited and marked sets;
- a 30-minute clock;
- a one-shot submission latch.

The session talks to a handful of HTTP routes backed by MongoDB:

- a question-set route with a 30-second cache and a built-in fallback;
- a progress store that autosave writes to and reloads read from;
- a submit route that scores and stores an attempt;
- result and history lookups;
- registration and login.

This project models that core as pure functions over immutable data and proves
what the code promises about it.

- `Common`: the JavaScript value distinctions the code relies on. These are
  `undefined`, `null` and a string, plus truthiness and `||`. It also holds the
  answer slots and the question shape.
- `Query`: how a value the browser interpolates unencoded into a query string reads
  back on the server (`&` and `#` cut it short, `+` becomes a space, `%hh` is
  decoded).
- `Hex`, `Documents`: object ids, as 24 hex digits whose first eight are the creation
  second, and the stored records (progress row, submission, user).
- `QuizContext`: the session, its transitions, the autosave payload, the submission
  latch, the unmount hook and the load/resume protocol. Requests are returned as
  effects, and replies and the clock arrive as parameters.
- `QuizPage`, `Timer`, `OverviewPanel`: the screen chosen for a session, the main
  button, the countdown, the `MM:SS` display, the palette counters and colours, and
  arbitrary runs of user and timer actions.
- `QuizRoute`, `ProgressRoute`, `SubmitRoute`, `ResultRoute`, `AttemptsRoute`,
  `Auth`: one module per route.
- `ResultPage`: the score line, the per-question badges and the attempt number.
- `Scenarios`: properties that span the browser and several routes. They cover a save
  that a reload restores, a fresh start after submitting, and a submission that the
  result page and the history show. Registration followed by login is proved in `Auth`.

Three behaviours of the code are modelled as written.

When a reload finds that the time has already run out, the resume path calls a
`submit` captured by the first render. That render has no user yet, so nothing is
sent and the spinner stays. The only submission left is the one the unmount hook
sends (`ExpiredResumeOnMountSubmitsNothing`, `ExpiredResumeSubmitsOnUnmount`).

The submit route scores against `correct_answer || correctAnswer`, while the result
page compares with `correctAnswer`. The two agree on every question the quiz route
produces (`CorrectBadgesMatchScore`, `SubmittedResultShowsScore`). A record carrying
both keys with different values is scored one way and shown the other
(`KeysDisagree`).

The reload and the result page put the user's email into the query string without
encoding it (`?email=${user.email}`), while the autosave and the submit route carry it
in a JSON body. An address with `+`, `&`, `#` or a `%hh` escape therefore reaches the
progress and attempts routes changed (`Query.QueryValueIdentity`): such a user finds
no saved progress on reload and starts over (`UnsurvivingEmailReloadsFresh`), and the
result page shows attempt 1 every time (`UnsurvivingEmailShowsFirstAttempt`). The
save-and-reload and history properties are stated for addresses that survive the
query string.

## Model

| member | source | states |
|---|---|---|
| `Documents.ParseObjectId` | app/api/result/route.ts:18 | an id is accepted exactly when it is 24 hex digits in either case; the result is that text lower-cased and denotes the same number, and canonical ids come back unchanged |
| `Documents.IdSeconds` | app/api/attempts/route.ts:27 | the creation second read from an id's first eight hex digits always fits in 32 bits |
| `Documents.MintObjectId` | app/api/attempts/route.ts:27 | an id minted at a given second decodes back to that second from its first eight hex digits |
| `Hex.ParseEncode` | app/api/attempts/route.ts:27 | fixed-width lower-case hex encoding and `parseInt(…, 16)` are inverse for numbers that fit the width |
| `QuizContext.Initial` | context/QuizContext.tsx:30-40 | the first render has 15 null answers, the cursor on a visited question 0, nothing marked, 1800 s, loading, no user and the latch open |
| `QuizContext.InitialIsConsistent` | context/QuizContext.tsx:30-34 | the first render satisfies the session invariants: the cursor is visited, every answered slot is visited, there are 15 slots and visited stays inside them |
| `QuizContext.MoveTo` | context/QuizContext.tsx:197-199 | moving the cursor to `i` adds exactly `i` to visited and changes nothing else |
| `QuizContext.Assign` | context/QuizContext.tsx:202-203 | writing slot `i` of an array copy sets that slot, keeps every other slot, and past the end grows the array with empty slots in between |
| `QuizContext.SelectOption` | context/QuizContext.tsx:201-205 | choosing an option sets only the current slot to that option; the rest of the session is unchanged |
| `QuizContext.ClearResponse` | context/QuizContext.tsx:211-215 | clearing sets only the current slot to null; the rest of the session is unchanged |
| `QuizContext.SaveAndNext` | context/QuizContext.tsx:207-209 | the cursor advances by one exactly when it is before the last question and then visits it; on the last question nothing changes; it never leaves the question range |
| `QuizContext.MarkForReviewAndNext` | context/QuizContext.tsx:217-220 | the current question joins the marked set and the cursor advances under the same last-question guard |
| `QuizContext.TransitionsPreserveInvariants` | context/QuizContext.tsx:197-220 | every editing and moving transition keeps the session consistent and bounded and never shrinks visited or marked |
| `QuizContext.Submit` | context/QuizContext.tsx:222-232 | a request is sent exactly when the latch is open and a user is known; it carries the user's email, the questions and the answers, and the latch and spinner are set; otherwise nothing changes |
| `QuizContext.SubmitFailed` | context/QuizContext.tsx:235-240 | a failed submission reopens the latch and hides the spinner, keeping questions and answers for a retry |
| `QuizContext.LatchBlocksSecondSubmission` | context/QuizContext.tsx:222-224 | after a submission is sent, neither another `submit` nor the unmount hook sends anything |
| `QuizContext.Unmount` | context/QuizContext.tsx:159-176 | leaving the page sends the current questions and answers exactly when the latch is open, questions are loaded and the cookie names a user |
| `QuizContext.AutoSave` | context/QuizContext.tsx:179-195 | once a user is known and loading is over, the saved payload is the whole current session under the user's email; before that nothing is saved (at the time the effect runs; a save already pending when loading starts is not cancelled, see Left out) |
| `QuizContext.ErrorMessage` | context/QuizContext.tsx:142-153 | a 429 shows the rate-limit text; another HTTP error shows its server message when there is one; no reply, or an HTTP error without a message, shows "Failed to load quiz."; a non-HTTP fault shows the generic text; the text is never empty |
| `QuizContext.Remaining` | context/QuizContext.tsx:110-111 | the seconds left are 1800 minus the whole seconds elapsed, rounded down |
| `QuizContext.SubmitSucceeded` | context/QuizContext.tsx:233 | a stored submission sends the browser to the result page with the new id in the query string, and the page reads back exactly that id |
| `QuizContext.MigrationSnapshot` | context/QuizContext.tsx:85-97 | the one-time save of an old row keeps its answers, visited and marked sets and truthy start time, fills defaults otherwise, resets the cursor to 0, and carries the fetched questions so a later load reuses them |
| `QuizContext.Resume` | context/QuizContext.tsx:79-120 | a stored row's questions are reused or the fetched ones adopted and saved first; its answers, visited and marked replace the session's when present; the cursor stays; with a start time the clock continues from it, with time left on the timer and no time left submitting through the render's `submit` with the spinner up; without one the clock starts now |
| `QuizContext.FreshStart` | context/QuizContext.tsx:121-138 | without a stored row the fetched questions are adopted, the clock starts now, only question 0 is visited, and one save carries empty answers, cursor 0, nothing marked and the start time |
| `QuizContext.Load` | context/QuizContext.tsx:62-154 | no cookie user only redirects to the login page; otherwise the user is set and a failed request shows its error and sends nothing, an empty marker starts fresh and saves, and a stored row is resumed with the clock as its start time dictates |
| `QuizContext.LoadWithoutUserRedirects` | context/QuizContext.tsx:62-67 | without a user cookie the load changes nothing and only redirects to the login page |
| `QuizContext.FreshStartSaves` | context/QuizContext.tsx:121-138 | with no saved progress the fetched questions are adopted, only question 0 is visited, the clock starts now, and that state is saved once with the cursor at 0 |
| `QuizContext.ResumeRestores` | context/QuizContext.tsx:79-106 | a saved row restores its questions (or adopts and saves the fetched ones when it has none), its answers, visited and marked, and leaves the cursor where it was |
| `QuizContext.ResumeWithTimeLeft` | context/QuizContext.tsx:108-120 | with time left, the clock shows exactly the remaining seconds from the saved start, loading ends and nothing is submitted |
| `QuizContext.ExpiredResumeOnMountSubmitsNothing` | context/QuizContext.tsx:108-115 | when time ran out while away, the mount sends no submission, the spinner stays and the recovered answers are in place |
| `QuizContext.ExpiredResumeSubmitsOnUnmount` | context/QuizContext.tsx:159-176 | after such an expired resume, the unmount hook sends the recovered answers |
| `QuizContext.LoadFailureShowsError` | context/QuizContext.tsx:142-153 | a failed load stops the spinner, shows the error text, sends nothing and keeps the questions |
| `QuizPage.Render` | app/quiz/page.tsx:21-23 | the spinner while loading, else the error text when there is one, else nothing for an empty question set, else the exam |
| `QuizPage.MainLabel` | app/quiz/page.tsx:67 | the main button reads "Submit Test" exactly on the last question and "Save & Next" everywhere else |
| `QuizPage.PressMain` | app/quiz/page.tsx:63-64 | the main button submits on the last question and saves-and-advances elsewhere; it sends a request exactly on the last question with the latch open and a user known |
| `QuizPage.TimerOf` | app/quiz/page.tsx:44 | the header timer starts from the session's initial time and is armed |
| `QuizPage.TimerEnd` | app/quiz/page.tsx:44 | running out of time sends the current answers exactly when the latch is open and a user is known, and sets the latch; otherwise nothing changes |
| `QuizPage.Apply` | app/quiz/page.tsx:44-68 | only the main button and the timer send a submission, and only with the latch open, which they then set; a failed submission reopens the latch; with the latch set nothing else sends; no action changes the questions |
| `QuizPage.Run` | app/quiz/page.tsx:44-68 | a run of actions sends at most one submission per action, none without a main-button press or a time-up, and keeps the question set |
| `QuizPage.DoubleTriggerSendsOnce` | app/quiz/page.tsx:44-68 | pressing Submit and the timer running out, in either order, send one submission between them |
| `QuizPage.RunPreservesInvariants` | app/quiz/page.tsx:54-68 | every sequence of choose, clear, mark, main-button, palette, time-up and failure actions keeps the session consistent and bounded |
| `QuizPage.AtMostOneSubmission` | app/quiz/page.tsx:44-68 | unless a submission fails, any run of actions sends at most one submission, and none once the latch is set |
| `Timer.Mount` | components/Timer.tsx:4-5 | a mounted timer shows the given initial time, or 1800 when none is given, and is armed |
| `Timer.TickOnce` | components/Timer.tsx:12-20 | an armed tick above one second counts down by one; at one second or less it shows zero, disarms and fires `onEnd`; a disarmed timer does not change |
| `Timer.StoppedStays` | components/Timer.tsx:14-16 | a disarmed timer never changes and never fires again |
| `Timer.CountdownFiresOnce` | components/Timer.tsx:11-21 | from `t` seconds the display counts down one per tick and `onEnd` fires exactly once, on tick `max(t, 1)`, after which it shows 0 and stays disarmed |
| `Timer.Retarget` | components/Timer.tsx:7-9 | a new initial time resets the display without arming or disarming the interval |
| `Timer.Rearm` | components/Timer.tsx:11-24 | a new `onEnd` arms a fresh interval at the current display |
| `Timer.RearmedAtZeroFiresAgain` | components/Timer.tsx:11-24 | a timer that already fired and is re-armed with a new callback fires again on its next tick |
| `Timer.FormatTime` | components/Timer.tsx:26-30 | the display ends in `:` and two second digits, and is exactly five characters for fewer than 100 minutes |
| `Timer.TwoDigits` | components/Timer.tsx:26-30 | a number below 100, padded to two digits, is two decimal digits that read back as the number |
| `Timer.FormatTimeRoundTrip` | components/Timer.tsx:26-30 | the display is five characters `MM:SS` that read back as the seconds it was made from |
| `OverviewPanel.AnsweredCountIsSize` | components/OverviewPanel.tsx:10 | counting non-null answers gives the number of answered positions |
| `OverviewPanel.MarkedAnsweredCountIsSize` | components/OverviewPanel.tsx:14 | counting answered-and-marked gives the number of positions that are both |
| `OverviewPanel.ComputeStats` | components/OverviewPanel.tsx:9-17 | the five counters are the answered positions, visited minus answered, 15 minus visited, the marked size, and the answered-and-marked positions, which are at most both the answered and the marked |
| `OverviewPanel.StatsNonNegative` | components/OverviewPanel.tsx:11-12 | in a consistent, bounded session neither the not-answered nor the not-visited counter is negative |
| `OverviewPanel.TileOf` | components/OverviewPanel.tsx:85-96 | a button is grey exactly when unvisited, green exactly when visited and answered, purple exactly when visited, unanswered and marked, and red otherwise |
| `OverviewPanel.CellOf` | components/OverviewPanel.tsx:98-118 | a button has its status colour, is highlighted exactly when it is the current question, and carries the tick exactly when it is marked and answered |
| `OverviewPanel.GreenIsAnswered` | components/OverviewPanel.tsx:85-90 | when answered implies visited, the green buttons are exactly the answered questions |
| `OverviewPanel.GreyIsUnvisited` | components/OverviewPanel.tsx:85-87 | the grey buttons are exactly the slots not yet visited |
| `OverviewPanel.PurpleAndRedAreVisitedUnanswered` | components/OverviewPanel.tsx:91-96 | the purple and red buttons are disjoint and together are the visited, unanswered questions |
| `OverviewPanel.PaletteMatchesStats` | components/OverviewPanel.tsx:9-96 | in a consistent, bounded session the number of green buttons is the answered counter, grey is not-visited, and purple plus red is not-answered |
| `OverviewPanel.Click` | components/OverviewPanel.tsx:103-106 | clicking a button moves the cursor there, visits it and closes the sidebar; answers, marks and the latch stay |
| `ProgressRoute.Merge` | app/api/progress/route.ts:13-22 | the `$set` keeps the payload's email, replaces each field the payload carries, keeps each field it lacks, and stamps `updatedAt` |
| `ProgressRoute.Post` | app/api/progress/route.ts:4-30 | without an email, a 400 and no change; otherwise the row of that email is created or updated field by field, present fields replacing and absent ones keeping the stored value, with `updatedAt` set, no other row touched and rows kept keyed by email |
| `ProgressRoute.Get` | app/api/progress/route.ts:32-50 | without an email, a 400; otherwise the stored row, or the empty marker exactly when there is none |
| `ProgressRoute.Delete` | app/api/progress/route.ts:52-70 | without an email, a 400 and no change; otherwise exactly that email's row is removed |
| `ProgressRoute.SaveThenLoad` | app/api/progress/route.ts:13-44 | a saved payload is read back under its email with every field it carried |
| `ProgressRoute.PostIdempotent` | app/api/progress/route.ts:13-22 | posting the same payload twice at the same time leaves the same store as posting it once |
| `ProgressRoute.DeleteIdempotent` | app/api/progress/route.ts:57-62 | deleting twice equals deleting once, and afterwards the load gives the empty marker |
| `SubmitRoute.ScoreOf` | app/api/submit/route.ts:10-16 | the score never exceeds the number of questions |
| `SubmitRoute.ScoreOfCountsMatches` | app/api/submit/route.ts:10-16 | the score is the number of positions whose answer equals that question's key |
| `SubmitRoute.ComputeScore` | app/api/submit/route.ts:10-16 | the loop's count is the number of positions whose answer equals the key, at most the number of questions |
| `SubmitRoute.Key` | app/api/submit/route.ts:12 | the scoring key is `correct_answer` when truthy, and `correctAnswer` otherwise |
| `SubmitRoute.KeyPrecedence` | app/api/submit/route.ts:12 | a question with a string `correctAnswer` always has a string key, and the key is `null` exactly when `correct_answer` is falsy and `correctAnswer` is `null` |
| `SubmitRoute.NullNeverScores` | app/api/submit/route.ts:12-13 | an unanswered slot never scores against a string key |
| `SubmitRoute.Submit` | app/api/submit/route.ts:4-31 | one record is appended with the posted questions, answers and other fields, the computed score and `submittedAt`; earlier records are untouched; the reply carries the new id; only the submitter's progress row is deleted; ids stay distinct |
| `SubmitRoute.DoubleSubmitStoresTwice` | app/api/submit/route.ts:19-27 | the route does not deduplicate: the same body posted twice stores two records with equal scores |
| `ResultRoute.Status` | app/api/result/route.ts:9-29 | the status is 200 exactly for a found record, 404 exactly for a well-formed id that names none, and 400 exactly for a missing or malformed id |
| `ResultRoute.ErrorText` | app/api/result/route.ts:9-29 | the three failures read "Missing ID", "Invalid ID" and "Not Found", each text belonging to one failure |
| `Common.FindBy` | app/api/result/route.ts:16-18 | a lookup by a field finds nothing exactly when no element has that value, and otherwise an element of the collection with it |
| `ResultRoute.Lookup` | app/api/result/route.ts:5-30 | a missing id is "Missing ID", malformed text is "Invalid ID", a well-formed id with no record is "Not Found", and otherwise a stored record with that id |
| `ResultRoute.FoundIsTheRecord` | app/api/result/route.ts:16-24 | with distinct ids, looking up a stored record's id returns that record |
| `AttemptsRoute.Filter` | app/api/attempts/route.ts:18-19 | the selection holds exactly the records of the email, as a sub-multiset of the collection |
| `AttemptsRoute.Insert` | app/api/attempts/route.ts:20 | inserting adds exactly the one element to the multiset of records and nothing else |
| `AttemptsRoute.InsertSorted` | app/api/attempts/route.ts:20 | inserting into a list sorted newest first keeps it sorted |
| `AttemptsRoute.Sort` | app/api/attempts/route.ts:20 | the sort is a permutation ordered by `createdAt` descending, with records lacking it last |
| `AttemptsRoute.DateOf` | app/api/attempts/route.ts:27 | the date is `createdAt` when present and non-zero, otherwise the id's creation second in milliseconds |
| `AttemptsRoute.Entry` | app/api/attempts/route.ts:23-28 | an entry has the record's id, its score or 0, its question count or 15 when absent or zero, and its date |
| `AttemptsRoute.List` | app/api/attempts/route.ts:4-33 | without an email, a 400; otherwise exactly that email's records, ordered by `createdAt` descending, mapped one to one into entries, with their number as the count |
| `AttemptsRoute.NoRecordsNoHistory` | app/api/attempts/route.ts:18-33 | an email without records gets count 0 and an empty history |
| `AttemptsRoute.EveryRecordListed` | app/api/attempts/route.ts:18-28 | every record of the email appears in its history |
| `QuizRoute.Shuffle` | app/api/quiz/route.ts:75 | the options are a permutation of the correct and incorrect answers |
| `QuizRoute.FirstCanLandAnywhere` | app/api/quiz/route.ts:75 | the correct answer, listed first before shuffling, can end up at every position |
| `QuizRoute.Normalise` | app/api/quiz/route.ts:73-79 | a served question keeps the text, category and difficulty, has the key in `correctAnswer` and no `correct_answer`, and its options are the answers shuffled, containing the key |
| `QuizRoute.NormaliseAll` | app/api/quiz/route.ts:73-79 | every provider record becomes one served question, in order |
| `QuizRoute.Get` | app/api/quiz/route.ts:53-99 | cached data younger than 30 s is served without a provider call; otherwise a good reply is normalised, cached with the time and served; a failed call serves the cached set however old, and with nothing cached the shuffled built-in set, which is not cached |
| `QuizRoute.CachedWithinWindow` | app/api/quiz/route.ts:61-81 | within 30 s of a good provider reply every request gets that same set, whatever the provider and the shuffle would do |
| `QuizRoute.NoFallbackOnceCached` | app/api/quiz/route.ts:85-98 | once anything is cached the built-in set is never served and the cache never empties |
| `QuizRoute.FallbackShape` | app/api/quiz/route.ts:86-98 | with nothing cached and the provider down, five questions are served, each with four options containing its key, and the next request asks the provider again |
| `Auth.SessionCookies` | app/api/auth/register/route.ts:41-62 | signing in sets an http-only token carrying id, username and email, and a client-readable username and email, both for seven days |
| `Auth.CurrentUser` | context/QuizContext.tsx:50-60 | the page's user is read from a `curr_user` cookie exactly when one is set |
| `Auth.Register` | app/api/auth/register/route.ts:7-64 | missing fields or an email or username in use give a 400 and no change; otherwise the user is appended with the hashed password and both cookies are set; email, username and id stay unique when registrations are handled one at a time |
| `Auth.Login` | app/api/auth/login/route.ts:7-61 | missing fields give a 400; the store never changes; success exactly when a user has the email and the password checks against its hash, with that user's cookies; with both fields given, every other outcome is 401 "Invalid credentials" with no cookie |
| `Auth.UnknownEmailLooksLikeWrongPassword` | app/api/auth/login/route.ts:22-36 | an unknown email and a wrong password get identical replies |
| `Auth.RegisterThenLogin` | app/api/auth/login/route.ts:20-61 | after registering, logging in with the same email and password succeeds with the same cookies, and the page reads the new user |
| `ResultPage.Classify` | app/result/page.tsx:101-123 | a badge is Skipped exactly for a null answer, Correct exactly for a non-null answer equal to `correctAnswer`, and Incorrect otherwise |
| `ResultPage.Badges` | app/result/page.tsx:101-104 | one badge per question, each classifying that position's answer |
| `ResultPage.ViewOf` | app/result/page.tsx:34-40 | no record shows "Result not found"; a record without questions cannot render; otherwise the score or 0, over the question count or 15, with the badges |
| `ResultPage.PageView` | app/result/page.tsx:16-35 | without an id the spinner stays; a found record is shown; any failed lookup shows "Result not found" |
| `ResultPage.AttemptNumber` | app/result/page.tsx:21-24 | the attempt number is 0 unless the record has an email and the history arrives, and then the count, at least 1 |
| `ResultPage.CorrectBadgesMatchScore` | app/result/page.tsx:101-116 | for questions keyed only by `correctAnswer`, the Correct badges are exactly the scored positions, so their number is the score |
| `ResultPage.KeysDisagree` | app/result/page.tsx:103 | with both keys present and different, one answer is scored correct yet shown Incorrect |
| `Scenarios.SaveThenReload` | context/QuizContext.tsx:76-120 | for an address that survives the query string, a session's autosave, stored and read back on the next mount, restores questions, answers, visited, marked and the start time, with the cursor at 0 and the remaining time on the clock |
| `Scenarios.UnsurvivingEmailReloadsFresh` | context/QuizContext.tsx:76 | for an address the query string changes, the reload misses the saved row and starts a fresh quiz with new questions, empty answers and a full clock, whose save overwrites the stored answers |
| `Scenarios.SubmitThenReloadStartsFresh` | app/api/submit/route.ts:28 | after submitting, the progress row is gone and the next mount starts a fresh quiz with empty answers and saves it, provided no autosave from before the submit reaches the server after it |
| `Query.QueryValue` | app/api/progress/route.ts:34-35 | the value read back is never longer than the value sent |
| `Query.QueryValueIdentity` | app/api/progress/route.ts:34-35 | a value interpolated unencoded reads back unchanged exactly when it has no `&`, `#` or `+` and no `%` starting an escape |
| `Query.UnescapeIdentity` | app/api/attempts/route.ts:6-7 | form decoding leaves a text alone exactly when it has no `+` and no escape |
| `Query.Param` | app/api/attempts/route.ts:6-7 | the route receives the parameter, equal to the sent value exactly when that value survives the query string |
| `Query.PlusBecomesSpace` | context/QuizContext.tsx:76 | an address with a `+` arrives with a space in its place |
| `Query.SeparatorCutsShort` | app/result/page.tsx:22 | an address with an `&` or a `#` arrives cut short before it |
| `Query.HexSurvives` | app/result/page.tsx:18 | an id of hex digits in the query string arrives unchanged |
| `Scenarios.SubmittedResultShowsScore` | app/result/page.tsx:16-116 | a served quiz submitted from the session is found under the returned id, and the page shows the stored score with exactly that many Correct badges |
| `Scenarios.SubmitThenHistory` | app/api/attempts/route.ts:18-33 | for an address that survives the query string, a submission appears in its email's history with its score and a date from its id, and the attempt number is the record count |
| `Scenarios.UnsurvivingEmailShowsFirstAttempt` | app/result/page.tsx:22-23 | for an address the query string changes, the history the result page asks for is empty and the page shows attempt 1 however often the address has submitted |

## Left out

- Rendering, styling, the question card and the pages outside the core (home,
  instructions, login and signup forms, logout) are not modelled.
- Network, database and clock: every request is an effect or a route function, every
  reply and every clock reading is a parameter. `Promise.all` over the two initial
  requests is one joint outcome.
- `QuizContext.AutoSave`: the one-second debounce timing is not modelled. The member
  gives the payload a save would carry, not which of several rapid edits reach the
  store.
- Every request is handled in sequence: the model has no overlapping requests. Two
  consequences are not covered:
  - The autosave effect (context/QuizContext.tsx:179-195) tests `loading` only when it
    runs, and `loading` is not among its dependencies. A save scheduled before `submit`
    sets `loading` still fires with the pre-submit snapshot. If it reaches the server
    after the submit route's `deleteOne`, it re-creates the progress row and the next
    mount resumes the submitted quiz. `Scenarios.SubmitThenReloadStartsFresh` assumes
    no such save arrives late.
  - The register route looks the email and username up and then inserts, with no
    unique index. Two concurrent registrations with the same email or username can both
    pass the lookup. `Auth.Register` keeps accounts unique only when registrations are
    handled one at a time.
- Password hashing and comparison are the parameters `hash` and `verify`. Token signing
  and its secret are represented by the claims the token carries. The `secure` flag
  depends on the deployment environment and is not modelled. `SameSite=Strict` and
  `path=/` are the same for every cookie.
- `QuizRoute.Shuffle`: the shuffle library is not part of this model. Any sequence of
  draws gives a permutation, and every position is reachable for the correct answer.
  Uniformity is a statistical property and is not stated.
- The result page's percentage uses `Math.round` on a floating-point ratio, and dates are
  formatted by the locale; neither is modelled.
- Unexpected faults answered with status 500 are not modelled, and neither are request
  bodies or fields of other JSON types. The 500 cases include a failed database
  connection, unparsable bodies, and submit bodies without `questions` or `answers`.
  In the result route a failing `findOne` is answered 400 "Invalid ID" like a malformed
  id; the model has only the malformed-id cause. Only absent, `null` and string values
  are represented.
- Object ids given as 12-character strings are not modelled. Only the 24-hex-digit form
  is accepted.
- `AttemptsRoute.Sort`: the database leaves the order of records with equal `createdAt`
  unspecified. The model keeps collection order among them, and the contract states only
  the descending order and the permutation. The submit route never sets `createdAt`,
  so every record the application writes ties, and the model lists them oldest first.
- `Timer.FormatTimeRoundTrip`: the round trip is stated for fewer than 6000 seconds. That
  is two minute digits, and the clock never exceeds 1800.
- `handleTimeUpdate` is an empty callback and the timer never calls it, so it is not
  modelled.
- The provider's rate-limit response code is not told apart from other non-zero codes.
  Both lead to the stale cache or the built-in set, as the code does.
- The palette has one button per answer slot (`answers.map`): fifteen in a new session,
  and as many as a resumed row's answers. With the five built-in questions, a click can
  move the cursor past the last question, and the model allows that as the code does.
- `QuizContext.Assign`: writing past the end of the answers fills the gap with `null`.
  JavaScript leaves holes there instead, which the palette draws no button for and a
  later copy turns into `undefined`, counted as answered. This needs more questions than
  the fifteen slots: the default provider request asks for fifteen, but a configured
  provider URL can return more.
- `Query.QueryValue`: a `%hh` escape decodes to the character with that code. For codes
  of 0x80 and above the server decodes UTF-8 byte sequences instead; no address in this
  model needs that distinction. The browser's own percent-encoding of spaces and
  non-ASCII characters decodes back to the same text and is not modelled.
- The home page's history request (`app/page.tsx`) interpolates the address the same
  way as the result page; the home page itself is not modelled.
- A submit body whose email is not a string deletes no progress row in the model.
- `SubmitRoute.Submit`: other body fields are kept as strings in the record's `extra`.
  The route spreads them into the stored document, so an `_id`, `createdAt` or `email`
  key there would become the record's real id, creation date or address. The model
  keeps them apart. The quiz context's bodies (`QuizContext.SubmitBodyOf`) carry only
  the email, the questions and the answers.
- The re-attempt link's `fresh=true` parameter is read by no modelled code.
