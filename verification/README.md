# NCERT quiz app: a verified model of its core

This project models the core logic of the NCERT quiz app in Dafny: a React Native client and a FastAPI backend for Indian school students. The app generates multiple-choice questions (MCQs) and flashcards for a chapter through a language model, runs practice quizzes, and keeps per-chapter revision progress. It covers:

- **AI generation endpoints** (`AiGeneration`):
  - stored items are served once a chapter has five;
  - each user has a daily counter of at most five requests;
  - the model's reply loses its Markdown fences;
  - on a failure the endpoint falls back to the stored items or returns an error.
  - Both endpoints are a pure function from the tables to a response plus new tables. The `Database` class runs the same checks in place, with the source's append loops.
- **Practice quiz screen** (`Practice`):
  - fetched MCQs are turned into labelled options A–D;
  - a fetch failure is classified for the error view;
  - one answer per question, a running score, forward-only moves, one progress report at the end;
  - the result view shows the rounded percentage and its band.
- **Flashcard screen** (`Flashcards`): the index, the flip flag and the fixed three-card deck.
- **Reusable MCQ card** (`McqCard`): the first tap wins, `onAnswer` is called once, and each option gets its style.
- **Controlled dropdown** (`SelectDropdown`) and **progress bar** (`ProgressBar`).
- **Authentication store** (`AuthStore`): the flags and the persisted token.
- **Profile form** (`EditProfile`): validation, the saved payload, the fallback class list and the avatar initial.
- **Revision progress** (`Revision`): the per-(user, chapter) upsert and the statistics over a user's rows.

Modelling conventions:

- Handlers that change component or table state are methods of a class whose fields mirror that state. Each method is proved to produce exactly the state that a pure transition function gives. The properties are lemmas about those functions.
- `Wrappers` holds `Option`. `Text` holds the string helpers:
  - prefix and suffix tests and substring search;
  - JavaScript's `trim` over the ECMAScript white-space set;
  - Python's `strip` over the `str.isspace` set.

Notes on the code as written:

- The backend's counter refusal at `backend/app/api/v1/ai.py:36` spells its last character as the four characters U+00F0 U+0178 U+0152 U+0178. These are the UTF-8 bytes of U+1F31F read as Windows-1252. The client's own fallback message at `frontend/src/screens/Practice/PracticeScreen.tsx:45` has the real U+1F31F. The model keeps both as written.
- In `generate_flashcards`, a chapter whose subject or class is missing is not a 404. It is an `AttributeError` outside the `try` block (`backend/app/api/v1/ai.py:152-157`), so the client gets a 500.
- A generated MCQ item with a missing key or a JSON `null` value puts `None` into a NOT NULL column. So does a flashcard item whose "question" or "answer" is `null` (a missing key there defaults to ""). The model treats this as a failed commit and takes the `except Exception` path.

## Model

| member | source | states |
|---|---|---|
| AiGeneration.StripFences | backend/app/api/v1/ai.py:76-82 | the unfenced reply is never longer than the reply |
| AiGeneration.CleanReply | backend/app/api/v1/ai.py:74-84 | the text handed to the JSON parser (stripped, unfenced, stripped again) is never longer than the reply and has no Python white space at either end |
| AiGeneration.StripFencesIsSlice | backend/app/api/v1/ai.py:76-82 | the unfenced reply is a contiguous slice of the reply that drops at most 10 leading and 3 trailing characters |
| AiGeneration.StripFencesUnfenced | backend/app/api/v1/ai.py:77-82 | a reply with no fence at either end passes through unchanged |
| AiGeneration.StripJsonFence | backend/app/api/v1/ai.py:77-82 | for a body that does not itself start with a fence, "```json" + body + "```" is cut back to exactly the body |
| AiGeneration.PlainFenceNotJson | backend/app/api/v1/ai.py:77 | a plain fence around a body that does not start with "json" is not taken for a "```json" fence |
| AiGeneration.StripPlainFence | backend/app/api/v1/ai.py:77-82 | for any body not starting with "json", "```" + body + "```" is cut back to exactly the body |
| AiGeneration.NewMcqs | backend/app/api/v1/ai.py:86-98 | one MCQ row per parsed item, in order, each built from that item's keys and numbered consecutively |
| AiGeneration.NewFlashcards | backend/app/api/v1/ai.py:185-193 | one flashcard row per parsed item, in order, numbered consecutively |
| AiGeneration.ChapterMcqs | backend/app/api/v1/ai.py:28 | exactly the stored MCQs of the chapter |
| AiGeneration.ChapterFlashcards | backend/app/api/v1/ai.py:138 | exactly the stored flashcards of the chapter |
| AiGeneration.ChapterMcqsAppend | backend/app/api/v1/ai.py:97-100 | after rows are appended, a chapter's MCQs are its old ones followed by its new ones |
| AiGeneration.ChapterFlashcardsAppend | backend/app/api/v1/ai.py:192-195 | after rows are appended, a chapter's flashcards are its old ones followed by its new ones |
| AiGeneration.ChapterMcqsOwn | backend/app/api/v1/ai.py:88-98 | rows all built for one chapter are exactly that chapter's rows |
| AiGeneration.ChapterFlashcardsOwn | backend/app/api/v1/ai.py:187-193 | the same for flashcard rows |
| AiGeneration.Counted | backend/app/api/v1/ai.py:102-108 | the caller's counter for the day is created at 1 or raised by exactly 1; every other counter is unchanged |
| AiGeneration.CountedStaysCapped | backend/app/api/v1/ai.py:102-108 | a counter below five that is counted once is still within five (the refusal at lines 35-36 checks the same bound) |
| AiGeneration.McqFailure | backend/app/api/v1/ai.py:115-131 | a failure serves the stored MCQs if there are any; otherwise the error is a 429 exactly for a client error whose text contains "429" or "RESOURCE_EXHAUSTED", and a 500 in every other case |
| AiGeneration.McqEndpoint | backend/app/api/v1/ai.py:23-131 | the flashcard table and its next id never change; the MCQ table changes only on a served response, by appending exactly the served rows; every HTTP error is a 404, 429 or 500 |
| AiGeneration.FlashcardEndpoint | backend/app/api/v1/ai.py:133-215 | the MCQ table and its next id never change; the flashcard table changes only on a served response, by appending exactly the served rows; every HTTP error is a 404, 429 or 500 |
| AiGeneration.FlashcardFailure | backend/app/api/v1/ai.py:210-215 | a failure serves the stored flashcards if there are any, else it is a 500 with the flashcard failure detail |
| AiGeneration.McqServesStored | backend/app/api/v1/ai.py:28-30 | with five or more stored MCQs they are served and no table changes, the counter included |
| AiGeneration.FlashcardServesStored | backend/app/api/v1/ai.py:138-140 | the same for flashcards |
| AiGeneration.ExhaustedRefuses | backend/app/api/v1/ai.py:33-36 | a counter at five refuses with 429 on both endpoints and changes nothing (lines 143-146 for flashcards) |
| AiGeneration.McqCounting | backend/app/api/v1/ai.py:86-113 | the tables change only on a served generation; then the new rows are appended and returned, one per item, and the counter, previously below five, is counted once |
| AiGeneration.FlashcardCounting | backend/app/api/v1/ai.py:185-208 | the same for flashcards |
| AiGeneration.McqFailureNotCounted | backend/app/api/v1/ai.py:115-131 | a failed generation leaves every table as it was, and anything served is the stored MCQs |
| AiGeneration.McqGenerationStored | backend/app/api/v1/ai.py:86-113 | past the key check, the stored short-circuit, the counter and the catalogue, a generation whose rows all fill the six NOT NULL columns is served as exactly the new rows; they are appended with consecutive ids, the counter is counted once, and the chapter's MCQs become the old ones followed by the new |
| AiGeneration.McqGenerationRefused | backend/app/api/v1/ai.py:86-100 | past the same gates, a generation with any row missing a NOT NULL value is rolled back: the stored-MCQ failure response and unchanged tables |
| AiGeneration.McqStorableIff | backend/app/api/v1/ai.py:88-100 | an MCQ item is stored exactly when each of its six keys is present with a non-null value |
| AiGeneration.FlashcardGenerationStored | backend/app/api/v1/ai.py:185-208 | the same as McqGenerationStored for a flashcard generation whose rows all have a question and an answer |
| AiGeneration.FlashcardGenerationRefused | backend/app/api/v1/ai.py:185-195 | a flashcard generation with a null field is rolled back: the stored-flashcard failure response and unchanged tables |
| AiGeneration.FlashcardDefaults | backend/app/api/v1/ai.py:189-190 | a missing "question" or "answer" key is stored as ""; a present key keeps its value, so a null stays null |
| AiGeneration.FlashcardStorableIff | backend/app/api/v1/ai.py:189-195 | a flashcard item is stored exactly when neither of its present keys holds null |
| AiGeneration.HandleCapped | backend/app/api/v1/ai.py:102-108 | one request to either endpoint keeps every counter at most five (the refusals are at lines 35-36 and 145-146, the flashcard counter at 197-203) |
| AiGeneration.HandleAllCapped | backend/app/api/v1/ai.py:102-108 | over any sequence of requests no (user, day) counter passes five (the refusals are at lines 35-36 and 145-146, the flashcard counter at 197-203) |
| AiGeneration.Database.CountRequest | backend/app/api/v1/ai.py:102-108 | the counter update in place equals `Counted`, and the other tables are untouched |
| AiGeneration.Database.GenerateMcqs | backend/app/api/v1/ai.py:23-131 | the response and the new tables are exactly those of the MCQ endpoint function (key check, stored short-circuit, counter refusal, three 404s, generation with its append loop, failure paths) |
| AiGeneration.Database.GenerateFlashcards | backend/app/api/v1/ai.py:133-215 | the same for the flashcard endpoint, whose missing subject or class gives a 500 |
| Practice.Format | frontend/src/screens/Practice/PracticeScreen.tsx:28-38 | an MCQ becomes a question with exactly four options labelled A, B, C, D in order, carrying option_a to option_d, with id, question and correct label kept |
| Practice.FormatAll | frontend/src/screens/Practice/PracticeScreen.tsx:28-39 | the formatted list has one question per MCQ, in the order fetched |
| Practice.Load | frontend/src/screens/Practice/PracticeScreen.tsx:26-48 | questions are loaded exactly when the response holds a non-empty list; any failure has a non-empty message and is a rate-limit refusal exactly when the status is 429 |
| Practice.RateLimitViewAsWritten | frontend/src/screens/Practice/PracticeScreen.tsx:97 | the text rule fires only on a message of at least five characters, and always on one that starts with "limit" |
| Practice.QuotaRefusalMisclassified | frontend/src/screens/Practice/PracticeScreen.tsx:97 | the quota refusal's detail (a 429) does not contain "limit", so the source's own rule shows it as a generic error |
| Practice.LimitMessagesContainLimit | frontend/src/screens/Practice/PracticeScreen.tsx:97 | the client's fallback daily-limit text and the server's counter refusal (backend/app/api/v1/ai.py:36) both contain "limit" (the fallback text is at line 45) |
| Practice.OtherMessagesLackLimit | frontend/src/screens/Practice/PracticeScreen.tsx:41-47 | neither the empty-list text nor the generic failure text contains "limit" (the text rule is at line 97) |
| Practice.TextRuleAgreesOtherwise | frontend/src/screens/Practice/PracticeScreen.tsx:41-47 | on every other outcome (empty list, the counter refusal, the fixed fallback, any other error) the source's text rule and the status rule agree (the text rule is at line 97) |
| Practice.ChapterIdOf | frontend/src/screens/Practice/PracticeScreen.tsx:10 | the chapter id is never 0: it is the route's when that is present and non-zero, and 1 when it is missing or 0 |
| Practice.StartInv | frontend/src/screens/Practice/PracticeScreen.tsx:16-19 | a fresh quiz over a non-empty list satisfies the session invariant (index in range, score at most the answered questions) |
| Practice.Select | frontend/src/screens/Practice/PracticeScreen.tsx:56-62 | the first answer to a question is recorded and scores one point exactly when it is the correct label; a later answer changes nothing; the invariant is kept |
| Practice.Next | frontend/src/screens/Practice/PracticeScreen.tsx:64-80 | before the last question the index advances and the answer clears with no report; on the last question the result is shown and exactly one report (chapter, score, question count) is produced; the invariant is kept |
| Practice.RepeatedSelectIsNoOp | frontend/src/screens/Practice/PracticeScreen.tsx:57 | once a question is answered, any number of further taps leave the session unchanged |
| Practice.PlayScores | frontend/src/screens/Practice/PracticeScreen.tsx:56-80 | answering every remaining question ends on the result view with the score raised by exactly the number of right answers, and exactly one report |
| Practice.WholeQuiz | frontend/src/screens/Practice/PracticeScreen.tsx:56-80 | a whole quiz from the start scores exactly the number of right answers (at most the number of questions) and reports it once |
| Practice.Percent | frontend/src/screens/Practice/PracticeScreen.tsx:115 | the percentage is the nearest integer to 100·score/total, halves rounded up |
| Practice.PercentBounded | frontend/src/screens/Practice/PracticeScreen.tsx:115 | a score no larger than the total gives a percentage of at most 100 |
| Practice.PercentMonotone | frontend/src/screens/Practice/PracticeScreen.tsx:115 | a higher score never gives a lower percentage |
| Practice.BandOf | frontend/src/screens/Practice/PracticeScreen.tsx:122 | "Excellent" exactly from 80, "Good Job" exactly from 60 below 80, "Keep Practicing" exactly below 60 |
| Practice.Result | frontend/src/screens/Practice/PracticeScreen.tsx:114-124 | the result view's title is that of the band, and it is green exactly when the band is not "Keep Practicing" |
| Practice.ResultExamples | frontend/src/screens/Practice/PracticeScreen.tsx:115-122 | 7 of 10 is 70% "Good Job" and green, 9 of 10 is 90% "Excellent", 3 of 10 is 30% "Keep Practicing" and red, 1 of 1 is 100% |
| Practice.OptionStyles | frontend/src/screens/Practice/PracticeScreen.tsx:144-155 | each option row is styled by the card's rule: green for the correct one, red for a wrong pick, once answered |
| Practice.FillPercent | frontend/src/screens/Practice/PracticeScreen.tsx:138 | the fill of question i of n lies in (0, 100] and is full on the last question |
| Practice.Screen.FetchDone | frontend/src/screens/Practice/PracticeScreen.tsx:21-54 | after the fetch the screen holds a fresh quiz over the formatted list, or the classified failure, and is no longer loading |
| Practice.Screen.HandleSelect | frontend/src/screens/Practice/PracticeScreen.tsx:56-62 | the screen's state becomes `Select` of the old state |
| Practice.Screen.HandleNext | frontend/src/screens/Practice/PracticeScreen.tsx:64-72 | the screen's state becomes `Next` of the old state, and its report, if any, is appended to the reports sent |
| Practice.Screen.SubmitProgress | frontend/src/screens/Practice/PracticeScreen.tsx:74-81 | one report of chapter, score and question count is sent |
| Practice.Screen.Render | frontend/src/screens/Practice/PracticeScreen.tsx:84-185 | spinner while loading; the error view when there is an error or no question, the rate-limit view exactly for a failure that `Load` marked as a 429 (the corrected rule of "## Findings", not line 97's text test); the result view with a percentage of at most 100; otherwise question i of n, its option styles, a fill between 0 and 100, and a next button exactly once answered, labelled "Finish Quiz" exactly on the last question; with questions loaded and no error, the result view appears exactly when the result flag is set, and otherwise the view is question currentIndex + 1 |
| Flashcards.Next | frontend/src/screens/Practice/FlashcardsScreen.tsx:19-24 | before the last card: the next card, face down; on the last: no change |
| Flashcards.Prev | frontend/src/screens/Practice/FlashcardsScreen.tsx:26-31 | after the first card: the previous card, face down; on the first: no change |
| Flashcards.Flip | frontend/src/screens/Practice/FlashcardsScreen.tsx:42 | the same card, the other face |
| Flashcards.RunStaysInDeck | frontend/src/screens/Practice/FlashcardsScreen.tsx:19-33 | whatever the user does, the index stays a valid card index |
| Flashcards.FlipTwice | frontend/src/screens/Practice/FlashcardsScreen.tsx:42 | two taps give back the starting state |
| Flashcards.NextThenPrev | frontend/src/screens/Practice/FlashcardsScreen.tsx:19-31 | from any card but the last, next then previous returns to it face down |
| Flashcards.PrevThenNext | frontend/src/screens/Practice/FlashcardsScreen.tsx:19-31 | from any card but the first, previous then next returns to it face down |
| Flashcards.Counter | frontend/src/screens/Practice/FlashcardsScreen.tsx:37 | the counter's total is the deck size and its first number is at least 1, and at most the total for an index in the deck |
| Flashcards.CounterMoves | frontend/src/screens/Practice/FlashcardsScreen.tsx:19-37 | the counter starts at 1, a move to the next or previous card raises or lowers it by exactly 1, a move past either end and a flip leave it as it was |
| Flashcards.FaceAfterFlip | frontend/src/screens/Practice/FlashcardsScreen.tsx:42-62 | a flip from the question shows the card's answer, a flip from the answer shows its question, two flips show the same face |
| Flashcards.FaceAfterMove | frontend/src/screens/Practice/FlashcardsScreen.tsx:19-62 | a move to the next or previous card shows that card's question, whichever face was up before |
| Flashcards.FaceAtStart | frontend/src/screens/Practice/FlashcardsScreen.tsx:10-50 | the screen opens on the question of the first card of the fixed deck |
| Flashcards.CounterOverMockDeck | frontend/src/screens/Practice/FlashcardsScreen.tsx:10-37 | over the fixed deck every reachable counter lies between 1 / 3 and 3 / 3 |
| Flashcards.Screen.HandleNext | frontend/src/screens/Practice/FlashcardsScreen.tsx:19-24 | the state becomes `Next` of the old state and the index stays in the deck |
| Flashcards.Screen.HandlePrev | frontend/src/screens/Practice/FlashcardsScreen.tsx:26-31 | the state becomes `Prev` of the old state |
| Flashcards.Screen.HandleTap | frontend/src/screens/Practice/FlashcardsScreen.tsx:42 | the state becomes `Flip` of the old state |
| McqCard.StyleOf | frontend/src/components/MCQCard.tsx:20-25 | neutral before a selection; afterwards the correct option is green, and an option is red exactly when it is the selection and not the correct one |
| McqCard.TextStyleOf | frontend/src/components/MCQCard.tsx:27-31 | after a selection the text is emphasised exactly for the correct and the selected option |
| McqCard.SelectedStays | frontend/src/components/MCQCard.tsx:14-16 | once an option is selected no further tap changes the selection |
| McqCard.FirstTapWins | frontend/src/components/MCQCard.tsx:14-16 | from a fresh card any run of taps leaves the first tapped option selected |
| McqCard.NoAnswerAfterSelection | frontend/src/components/MCQCard.tsx:15-17 | once selected, further taps call `onAnswer` no more |
| McqCard.AnsweredOnce | frontend/src/components/MCQCard.tsx:14-18 | from a fresh card `onAnswer` is called exactly once, with whether the first tap was correct |
| McqCard.WrongStyleIsThePick | frontend/src/components/MCQCard.tsx:22-23 | a red option exists exactly when the pick was wrong and is among the options, and any red option is the pick |
| McqCard.Card.HandleSelect | frontend/src/components/MCQCard.tsx:14-18 | the selection becomes the first tap's, and the `onAnswer` calls grow as `Answers` says |
| McqCard.Card.Styles | frontend/src/components/MCQCard.tsx:36-46 | one style pair per option, in order, given by `StyleOf` and `TextStyleOf` |
| SelectDropdown.FindIndex | frontend/src/components/SelectDropdown.tsx:38 | the index of the first option whose value equals the prop, or none exactly when no option has it |
| SelectDropdown.Find | frontend/src/components/SelectDropdown.tsx:38 | any option found is one of the options and carries the value |
| SelectDropdown.PlaceholderWhenNoMatch | frontend/src/components/SelectDropdown.tsx:52-53 | the placeholder is shown exactly when no option carries the value |
| SelectDropdown.TriggerShowsFirstMatch | frontend/src/components/SelectDropdown.tsx:38-53 | the trigger shows the label of the first option carrying the value |
| SelectDropdown.MarkedRowsAgree | frontend/src/components/SelectDropdown.tsx:38-73 | every marked row carries the value that the trigger's option carries |
| SelectDropdown.NullValueShowsPlaceholder | frontend/src/components/SelectDropdown.tsx:32-73 | with a null value the placeholder is shown and no row is marked |
| SelectDropdown.Dropdown.constructor | frontend/src/components/SelectDropdown.tsx:32-37 | the picker starts closed, with "Select an option" as the default placeholder |
| SelectDropdown.Dropdown.PressTrigger | frontend/src/components/SelectDropdown.tsx:49 | tapping the trigger opens the picker and reports nothing |
| SelectDropdown.Dropdown.Dismiss | frontend/src/components/SelectDropdown.tsx:61-65 | the overlay and the close button shut the picker and report nothing |
| SelectDropdown.Dropdown.Pick | frontend/src/components/SelectDropdown.tsx:77 | picking a row reports exactly its value and shuts the picker |
| SelectDropdown.Dropdown.Rows | frontend/src/components/SelectDropdown.tsx:69-83 | one row per option with its label, marked exactly when its value equals the prop |
| ProgressBar.Clamp | frontend/src/components/ProgressBar.tsx:10 | the clamped value lies in [0, 100], equals the input inside that range, and is 0 below it and 100 above it |
| ProgressBar.Round | frontend/src/components/ProgressBar.tsx:17 | the rounded value is within a half of the input, halves rounded up |
| ProgressBar.Render | frontend/src/components/ProgressBar.tsx:10-21 | the fill is the clamped value; the label row appears exactly for a non-empty label and shows the fill rounded to the nearest whole percent, a value in 0..100 |
| ProgressBar.ClampIdempotent | frontend/src/components/ProgressBar.tsx:10 | clamping twice is clamping once |
| ProgressBar.ClampMonotone | frontend/src/components/ProgressBar.tsx:10 | a larger progress never gives a smaller bar |
| ProgressBar.LabelOfPercentage | frontend/src/components/ProgressBar.tsx:14-17 | with a non-empty caption the label shows the caption and the rounded clamped progress: the rounded progress inside [0, 100], 0 at or below 0, 100 at or above 100 |
| AuthStore.Initial | frontend/src/store/authStore.ts:13-14 | the store starts logged out and loading |
| AuthStore.AfterLogin | frontend/src/store/authStore.ts:16-19 | login stores the token (when the write succeeds) and flags the user logged in |
| AuthStore.AfterLogout | frontend/src/store/authStore.ts:21-24 | logout deletes the token (when the delete succeeds) and flags the user logged out |
| AuthStore.AfterCheckAuth | frontend/src/store/authStore.ts:26-30 | a check ends loading and flags the user logged in exactly when a non-empty token was read |
| AuthStore.LoginThenCheck | frontend/src/store/authStore.ts:16-30 | after logging in with a non-empty token a check finds the user logged in |
| AuthStore.LogoutThenCheck | frontend/src/store/authStore.ts:21-30 | after a logout a check finds the user logged out |
| AuthStore.EmptyTokenLogin | frontend/src/store/authStore.ts:16-30 | logging in with "" flags the user logged in, yet the next check logs the user out |
| AuthStore.CheckAuthIdempotent | frontend/src/store/authStore.ts:26-30 | a second check agrees with the first |
| AuthStore.Store.Login | frontend/src/store/authStore.ts:16-19 | the store's state becomes `AfterLogin` of the old state |
| AuthStore.Store.Logout | frontend/src/store/authStore.ts:21-24 | the store's state becomes `AfterLogout` of the old state |
| AuthStore.Store.CheckAuth | frontend/src/store/authStore.ts:26-30 | the store's state becomes `AfterCheckAuth` of the old state |
| EditProfile.Errors | frontend/src/screens/Profile/EditProfileScreen.tsx:73-81 | the error map `validate` records has no keys other than the username and the phone |
| EditProfile.ErrorMapKeys | frontend/src/screens/Profile/EditProfileScreen.tsx:75-78 | a blank username, which is also short, never keeps the "required" message: the username key is present exactly when the username is short, the phone key exactly when the phone is bad, and the map is empty exactly when neither holds |
| EditProfile.ErrorKeys | frontend/src/screens/Profile/EditProfileScreen.tsx:73-78 | the username is in error exactly when shorter than three UTF-16 code units once trimmed (message "at least 3 characters"); the phone exactly when non-empty and not ten digits starting 6–9; no other keys |
| EditProfile.NoErrorsIffPasses | frontend/src/screens/Profile/EditProfileScreen.tsx:73-80 | no error is recorded exactly when the trimmed username has three or more UTF-16 code units and the phone is empty or valid |
| EditProfile.BlankUsernameIsShort | frontend/src/screens/Profile/EditProfileScreen.tsx:76-77 | a blank username gets the "at least 3 characters" message, not "required" |
| EditProfile.LongUsernameAccepted | frontend/src/screens/Profile/EditProfileScreen.tsx:76-78 | a username with no surrounding white space and at least three UTF-16 code units, with no phone, records no error |
| EditProfile.AstralUsernameAccepted | frontend/src/screens/Profile/EditProfileScreen.tsx:77 | a username of two characters above U+FFFF passes, since `.length` counts them as four code units |
| EditProfile.BmpUsernameLength | frontend/src/screens/Profile/EditProfileScreen.tsx:77 | for a username with no character above U+FFFF the code-unit length of the trimmed text is its character count |
| EditProfile.PaddedPhoneRefused | frontend/src/screens/Profile/EditProfileScreen.tsx:78 | a phone starting with white space is refused, since the pattern is matched against the untrimmed text |
| EditProfile.MobileTrimmed | frontend/src/screens/Profile/EditProfileScreen.tsx:78-88 | a phone the pattern accepts is unchanged by trimming |
| EditProfile.PayloadOf | frontend/src/screens/Profile/EditProfileScreen.tsx:86-91 | the payload's username is trimmed, its phone is the trimmed phone or null when that is empty, class and user type pass through |
| EditProfile.SentUsernameClean | frontend/src/screens/Profile/EditProfileScreen.tsx:84-87 | a username that passes is sent with at least three UTF-16 code units and no white space at either end |
| EditProfile.SentPhoneClean | frontend/src/screens/Profile/EditProfileScreen.tsx:84-88 | a phone that passes is sent as typed and valid, or as null exactly when empty |
| EditProfile.Decimal | frontend/src/screens/Profile/EditProfileScreen.tsx:67 | the rendering of a number is a non-empty string of digits |
| EditProfile.DecimalRoundTrip | frontend/src/screens/Profile/EditProfileScreen.tsx:67 | reading the rendered digits back gives the number |
| EditProfile.FallbackClasses | frontend/src/screens/Profile/EditProfileScreen.tsx:65-70 | exactly seven options; option i is "Class " + (i + 6) with value i + 1 |
| EditProfile.FallbackLabelsReadBack | frontend/src/screens/Profile/EditProfileScreen.tsx:65-70 | each fallback label names, after "Class ", its value plus five |
| EditProfile.FallbackExamples | frontend/src/screens/Profile/EditProfileScreen.tsx:65-70 | the first option is "Class 6" with value 1, the last "Class 12" with value 7 |
| EditProfile.ClassOptions | frontend/src/screens/Profile/EditProfileScreen.tsx:54-71 | fetched classes become options (name, id) in order; a failed fetch gives the fallback list |
| EditProfile.Upper | frontend/src/screens/Profile/EditProfileScreen.tsx:132 | lower-case ASCII letters become upper case, any other character is kept |
| EditProfile.AvatarInitial | frontend/src/screens/Profile/EditProfileScreen.tsx:132 | the upper-cased first character of the username, else of the email, else 'S'; never a lower-case ASCII letter |
| EditProfile.Form.ProfileLoaded | frontend/src/screens/Profile/EditProfileScreen.tsx:38-52 | the fields take the profile's values with their fallbacks ("", "student", a 0 class as null); a failed load leaves them; loading ends |
| EditProfile.Form.ClassesLoaded | frontend/src/screens/Profile/EditProfileScreen.tsx:54-71 | the class list becomes `ClassOptions` of the fetch |
| EditProfile.BuildErrors | frontend/src/screens/Profile/EditProfileScreen.tsx:75-78 | the three assignments of `validate`, one test at a time, build exactly the error map of the three outcomes |
| EditProfile.CheckFields | frontend/src/screens/Profile/EditProfileScreen.tsx:74-80 | the error map is that of the fields, and the result is true exactly when it is empty, that is, exactly when the form passes |
| EditProfile.Form.Validate | frontend/src/screens/Profile/EditProfileScreen.tsx:73-81 | the stored errors are the error map of the fields, and the result is true exactly when it is empty, that is, when the form passes |
| EditProfile.Form.HandleSave | frontend/src/screens/Profile/EditProfileScreen.tsx:83-92 | exactly one update with the normalised payload is sent when the form passes, none otherwise |
| Revision.Accuracy | backend/app/api/v1/revision.py:23 | accuracy times total is 100 times correct when total is positive, else 0 |
| Revision.AccuracyBounded | backend/app/api/v1/revision.py:23 | a score between 0 and the total gives an accuracy in [0, 100] |
| Revision.FindRow | backend/app/api/v1/revision.py:21 | the first row of the user and chapter, or none exactly when there is no such row |
| Revision.Update | backend/app/api/v1/revision.py:20-43 | the table grows by one row exactly when the pair had none, every row of another pair is unchanged, and the pair has a row afterwards |
| Revision.FirstReport | backend/app/api/v1/revision.py:25-33 | the first report for a pair appends one row with streak 1 and the reported accuracy, keeping every other row |
| Revision.LaterReport | backend/app/api/v1/revision.py:34-39 | a later report raises that row's streak by exactly 1, sets its accuracy to the mean of old and new, and changes no other row |
| Revision.UpdateKeepsUnique | backend/app/api/v1/revision.py:21-39 | an update never creates a second row for a (user, chapter) pair |
| Revision.UpdateKeepsAccuracyInRange | backend/app/api/v1/revision.py:23-36 | with in-range scores every stored accuracy stays in [0, 100] |
| Revision.UserRows | backend/app/api/v1/revision.py:80 | no more rows than the table, each of them the user's |
| Revision.UserRowsMembers | backend/app/api/v1/revision.py:80 | a row is among the user's rows exactly when it is in the table and belongs to the user |
| Revision.MaxStreak | backend/app/api/v1/revision.py:90 | the largest streak among the rows, attained by one of them |
| Revision.MaxStreakRaise | backend/app/api/v1/revision.py:90 | raising one row's streak never lowers the largest streak (the streak is raised at line 37) |
| Revision.Trunc | backend/app/api/v1/revision.py:93 | truncation toward zero |
| Revision.Stats | backend/app/api/v1/revision.py:80-97 | all zeros for no rows; otherwise the row count, the sum of streaks, the largest streak, and the truncated mean accuracy |
| Revision.StatsAccuracyBounded | backend/app/api/v1/revision.py:85-93 | with accuracies in range the reported accuracy is in 0..100 |
| Revision.QuizzesAtLeastChapters | backend/app/api/v1/revision.py:86-87 | when every row has streak at least 1, the quiz total is at least the chapter count |
| Revision.ReportEffectOnStats | backend/app/api/v1/revision.py:20-43 | each report raises the user's quiz total by exactly 1, adds a completed chapter exactly on the first report for it, never lowers the best streak, and leaves other users' rows unchanged (the statistics are computed at lines 80-97) |
| Revision.ProgressTable.UpdateProgress | backend/app/api/v1/revision.py:20-43 | the table becomes `Update` of the old table, stays unique, and the returned row is the pair's row in it |
| Text.CodeUnitsFrom | frontend/src/screens/Profile/EditProfileScreen.tsx:77 | the UTF-16 code units of a suffix (JavaScript `.length` when taken from 0, as `Text.Utf16Length`) lie between its character count and twice it |
| Text.BmpUtf16Length | frontend/src/screens/Profile/EditProfileScreen.tsx:77 | with no character above U+FFFF the code-unit count is the character count |
| Text.TrimIsSlice | frontend/src/screens/Profile/EditProfileScreen.tsx:76-77 | trimming yields the contiguous middle of the input, with only white space cut from either side |
| Text.TrimIdempotent | frontend/src/screens/Profile/EditProfileScreen.tsx:87 | trimming twice is trimming once |
| Text.TrimEmpty | frontend/src/screens/Profile/EditProfileScreen.tsx:76 | the trimmed text is empty exactly when the input is all white space |

## Left out

- HTTP transport, the API client's interceptors, and every screen's fetch effect are left out. A fetch result is an input to the model: items, an empty list, an error status with its detail, or no response.
- The language-model call, its prompt, and `json.loads` are foreign code. A generation is an abstract list of parsed items or a raised exception with its text. `AiGeneration.CleanReply` gives only the text that would be parsed.
- The SQL session (commit, rollback, refresh) is left out. Tables are sequences and maps, and ids come from counters. Gaps that a database sequence leaves after a rollback are not modelled.
- The six NOT NULL text columns of a generated MCQ and the two of a flashcard are taken as the only cause of a failed commit. Database errors of any other kind are not modelled.
- A parsed item's values are strings or JSON `null`. Numbers, booleans, nested objects, and a top-level value that is not a list of objects are not modelled.
- Concurrency is not modelled. The counter's check-then-increment is racy under parallel requests, so the at-most-five bound is proved only for requests served one at a time. Responses of async screen effects that arrive stale are not modelled either.
- `daily_revision` (random selection) and the home screen's random pick are left out because they depend on randomness.
- Display-only screens, colours, icons and animations are not modelled.
- Login and OTP screens, password hashing, JWT decoding and the seeding scripts are not part of this model.
- The "max 2" reset quota appears only as a comment, with no code enforcing it, so it is not modelled.
- Floating point is not modelled. Accuracies and the progress bar use mathematical reals, and the quiz percentage is the integer `(200·score + n) div (2n)`. NaN and infinite progress values are not modelled.
- Clocks are parameters: the server's date for the counter key, and the time stamped on a progress row.
- The API key's presence is a parameter of each call.
- Storage failures in the auth store are a parameter `ok`. The store's async ordering is not modelled.
- EditProfile.Upper: upper-cases ASCII letters only. JavaScript's `toUpperCase` on other letters, and its multi-character results (for example for U+00DF), are not modelled.
- EditProfile.AvatarInitial: a Dafny character is a Unicode scalar value, while `charAt(0)` returns a UTF-16 code unit, so a first character outside the Basic Multilingual Plane is not split as the source splits it.
- The profile screen's `saving` flag, its alerts and its navigation after a save are not modelled.
- The error detail of a failed save, and the alert for a failed profile load, are not modelled.
- McqCard.Card.HandleSelect: requires a non-empty option id. An empty id is falsy in JavaScript and would not block a second tap.
- Practice.Select: requires a non-empty label for the same reason. The screen only passes the labels A–D.
- Practice.Screen.FetchDone: models only the first load. The screen's reload when the route's chapter changes, with `setLoading(true)` and `setError(null)`, is not modelled.
- Practice.Screen.Render: chooses the rate-limit view by the corrected status rule of `Practice.Load`, not by the text test `error?.includes('limit')` of `frontend/src/screens/Practice/PracticeScreen.tsx:97`. The two differ exactly on a 429 whose detail lacks "limit", such as the quota refusal of `backend/app/api/v1/ai.py:121`: the screen as written shows "Oops!" there and the model shows "Daily Limit Reached". `Practice.QuotaRefusalMisclassified` states the as-written outcome, and `Practice.TextRuleAgreesOtherwise` shows the rules agree on every other outcome.
- Practice.Screen.SubmitProgress: records the report that is sent. Its delivery and the swallowed error are not modelled.
- Revision.ProgressTable.ProgressStatsOf: has no contract of its own. Its meaning is `Revision.Stats` over `Revision.UserRows`.
- The table has no database uniqueness constraint on (user, chapter). Uniqueness is proved only for a table built through `update_progress`.
- The flashcard screen's `chapterId` parameter is read but unused by the code, so it is not modelled.

## Findings

| source | as written | input that shows it | evidently intended | confidence | as-written member | corrected member |
|---|---|---|---|---|---|---|
| frontend/src/screens/Practice/PracticeScreen.tsx:97 | the rate-limit view is chosen when the error text contains "limit" | the MCQ endpoint's 429 refusal when the model's quota is exhausted, whose detail is "AI daily quota exceeded. Try again tomorrow or use existing questions." (backend/app/api/v1/ai.py:121); the screen shows "Oops!" | every 429 refusal shows the "Daily Limit Reached" view | high; not executed | Practice.QuotaRefusalMisclassified | Practice.Load |

`Practice.RateLimitViewAsWritten` is the source's text rule. `Practice.Load` marks a failure as a rate-limit refusal exactly when its status is 429, and `Practice.Screen.Render` chooses the view from that mark. `Practice.TextRuleAgreesOtherwise` shows that the two rules agree on every other outcome the screen can meet.
