# Neon Quiz engine, modelled in Dafny

The quiz app (`script.js`) runs a timed multiple-choice quiz in the browser.
This project models the engine underneath the page:

- **The quiz session.** A logged-in user picks a category, gets its questions shuffled, and answers them against a 15-second clock.
  - The player has three lives.
  - There are three lifelines: 50/50 once, hint once, skip twice.
- **The score store.** Every session end calls `saveHighScore` once. The save is skipped without a user ID or a category, and the new entry itself can be cut when 100 better-or-equal entries are already stored. The list is kept sorted by descending score and capped at 100 entries.
- **The completion tracker.** It allows one attempt per user and category.
- **The question bank.** The admin page edits it, validating each question form.

The model is split into these modules:

- `Common`: option and result types, a `Filter` with its lemmas, and the splice `RemoveAt`.
- `Shuffle`: the in-place Fisher–Yates loop over an `array`. It is specified by `Shuffled`, a function on the draws.
- `Questions`: questions and form validation, and the `QuestionBank` class whose map field the admin handlers update.
- `Scores`: the `ScoreStore` class. It is specified by `Saved`, a stable insertion sort and a cut to 100, plus the two admin filters.
- `Completion`: the `CompletionTracker` class. It is specified by `Marked` and `Unmarked` on the user-to-categories map.
- `QuizState`: the session variables as one `Play` value, with one step function per event handler and the session invariant `Good`.
- `Session`: the `QuizSession` class. Its fields are the page's session variables. Each method performs its handler's updates in place, and its `ensures` ties the new state to the matching `QuizState` step and to `Saved`/`Marked` on the stores.
- `Admin`: the per-row "Remove" button of the admin scores table.
- `Login`: the user login form's ID and name check.

Several behaviours are kept as the code has them:

- **Pending continuations.**
  - The 1-second `setTimeout` continuations are a FIFO queue, `pending`. Several can be alive at once: all have the same delay, so they run in order.
  - When a continuation runs (`Fire`), it does not check whether the quiz is still running.
- **The timer.**
  - `timeLeft` counts tenths of a second, 150 per question, one per 100 ms tick.
  - The original subtracts the float 0.1 each tick. After 150 ticks the value is a tiny positive residue, not 0, so the clock expires on the 151st tick. The model's 0 stands for that residue, and it expires on the tick after 0 (`ExpiresOnTick151`).
  - Only `startQuiz` starts the interval. `loadQuestion` refills the clock but does not restart it, so after its first expiry the timer stays stopped for the rest of the session.
- **Answering.**
  - `selectAnswer` checks only `quizRunning`. "Answer once" comes from the option buttons being disabled, which `ClickOption` models: the browser drops clicks on disabled buttons.
  - A timeout does not disable the buttons. A wrong click in the second after an expiry therefore costs a second life, and lives can reach -1 (`ExpiryThenWrongClick`).
- **Ending and skipping.**
  - Every call of `endQuiz` calls `saveHighScore` once (the `Saved` step) and marks the category.
  - `useSkip` uses up a skip even when the skip ends the quiz.
- **The category select.** It stays live during a quiz (`ChooseCategory`), so a score can be saved under a category other than the one played.

## Model

| member | source | states |
|---|---|---|
| Shuffle.ValidDraws | script.js:374 | The draw for position i is at most i, so the first draw is always 0. |
| Shuffle.ShuffleDown | script.js:373-376 | The swap loop from position k - 1 down to 1 keeps the length, and with k <= 1 it does nothing. |
| Shuffle.Shuffled | script.js:372-378 | The shuffle keeps the length, and a list of 0 or 1 elements comes back unchanged. |
| Shuffle.ShuffleArray | script.js:372-378 | The array afterwards is `Shuffled(old contents, draws)` and a permutation of the old contents (same multiset, same length). |
| Shuffle.ShuffledIsPermutation | script.js:372-378 | Whatever the draws (each `j <= i`), the shuffled sequence is a permutation of the input. |
| Shuffle.ShuffleDownPermutes | script.js:373-376 | Running the swap loop down from any position permutes the sequence. |
| Shuffle.SwapPermutes | script.js:376 | Swapping two positions keeps the multiset. |
| Shuffle.Swap | script.js:376 | After the swap, positions i and j hold each other's old elements and every other position is unchanged. |
| Shuffle.ShuffleDownKeepsTail | script.js:373-376 | The iterations from position k - 1 down to 1 never move an element at position k or above. |
| Questions.BuiltInBank | script.js:13-39 | The shipped bank is valid and has General (2 questions) and Math (1 question). |
| Questions.PointsOf | script.js:755 | Points are the parsed number, except that a missing, non-numeric or 0 value gives 10. |
| Questions.QuestionFromForm | script.js:748-775 | Fails with MissingField exactly when the text or an option is empty. Otherwise it fails with BadCorrectIndex exactly when the index is not a number in 0..3. Otherwise it builds a well-formed question from the fields. |
| Questions.QuestionBank.constructor | script.js:60-70 | The stored bank if there is one, else the built-in bank; either way valid. |
| Questions.QuestionBank.AddCategory | script.js:648-656 | Refuses an empty name, then a name that is already a category or a name every JavaScript object inherits (`constructor`, `toString`, `__proto__`, …), changing nothing. Otherwise adds the name with an empty list. |
| Questions.QuestionBank.DeleteCategory | script.js:658-667 | Refuses when no category is selected. Otherwise removes the category and its questions. |
| Questions.QuestionBank.AddQuestion | script.js:706-718 | Appends the form's question to the category exactly when a category is selected, the form is valid and the category exists. Otherwise nothing changes, and a bad form reports its reason. |
| Questions.QuestionBank.EditQuestion | script.js:720-732 | Needs a loaded question. Replaces the question at the index, or appends when the index equals the length. Any refusal changes nothing. |
| Questions.QuestionBank.DeleteQuestion | script.js:734-746 | Splices out the question at the index; an index past the end removes nothing. Refusals change nothing. |
| Common.RemoveAt | script.js:741 | The splice result is one shorter, keeps the elements before i, and shifts the ones after it down by one. |
| Common.RemoveAtNoDup | script.js:332 | Splicing a duplicate-free list keeps it duplicate-free and drops exactly the spliced element. |
| Scores.InsertLast | script.js:101 | One insertion step of the stable descending sort adds exactly one element. |
| Scores.SortDesc | script.js:101 | The descending sort keeps the length. |
| Scores.Saved | script.js:85-103 | A save with an empty user or category returns the list unchanged. Otherwise the list grows by one, or stays at 100 when already full. |
| Scores.NewEntry | script.js:93-99 | The pushed entry carries the user, score, category and date; an empty name becomes "Anonymous". |
| Scores.InsertLastPermutes | script.js:101 | One insertion step adds exactly the inserted entry to the multiset. |
| Scores.SortDescPermutes | script.js:101 | The sort is a permutation of its input. |
| Scores.InsertLastSorted | script.js:101 | Inserting into a descending list keeps it descending. |
| Scores.SortDescSorted | script.js:101 | The sort's result is in descending score order. |
| Scores.InsertLastStable | script.js:101 | Among entries of equal score, insertion keeps their relative order. |
| Scores.SortDescStable | script.js:101 | The sort is stable: the entries with any given score appear in their original order. |
| Scores.InsertLastPosition | script.js:101 | In a sorted list the new entry lands right after the entries scoring at least as much. |
| Scores.Take | script.js:102 | `slice(0, n)` is the prefix of length min(n, length). |
| Scores.SavedProperties | script.js:85-103 | A save with an empty user or category changes nothing. Otherwise the list is sorted, has at most 100 entries, draws only on the old list plus the new entry, and keeps all of them while under 100. |
| Scores.SaveRank | script.js:85-103 | Let k be the number of stored entries scoring at least the new score. If k < 100, the new entry sits at rank k. Otherwise it is dropped and the list is the best 100 old entries. |
| Scores.ScoreStore.SaveHighScore | script.js:85-103 | The stored list becomes `Saved(old list, …)`; after a valid save it is sorted and at most 100 long. |
| Scores.ScoreStore.CleanUpInvalidScores | script.js:507-515 | Keeps exactly the entries with a user and a category, in order, and keeps the list sorted. |
| Scores.IsValidEntry | script.js:509 | An entry passes the clean-up test exactly when a save with its fields would store something. |
| Scores.CleanUpExact | script.js:509 | After clean-up every entry is valid, and each valid entry keeps its count. |
| Scores.ScoreStore.RemoveScore | script.js:607-618 | With a user and a category, keeps exactly the entries that are not that user's score in that category, in order. Otherwise changes nothing. |
| Scores.NotScoreOf | script.js:615-617 | The remove test keeps every entry of another user or another category. With a user and a category given, it drops only valid entries. |
| Scores.RemoveScoreExact | script.js:615-617 | Removal drops every entry of that user and category and keeps every other entry's count. |
| Scores.FilterSorted | script.js:509 | Filtering a sorted list leaves it sorted. |
| Completion.Has | script.js:116-119 | True exactly when the user has a list and the category occurs at some position in it. |
| Completion.CategoriesOf | script.js:121-124 | The listed categories are exactly those `hasCompletedCategory` reports. |
| Completion.Marked | script.js:105-114 | Afterwards the category is marked. Only that user's list can change, gaining exactly that category. |
| Completion.MarkedIdempotent | script.js:110-113 | Marking the same category twice is marking it once. |
| Completion.MarkedNoDuplicates | script.js:110-113 | Marking keeps every list free of duplicates. |
| Completion.Unmarked | script.js:126-132 | Afterwards the category is not marked for the user. Other categories and other users are unchanged. |
| Completion.Other | script.js:129 | The filter test rejects the category itself and keeps every other category. |
| Completion.UnmarkedNoDuplicates | script.js:129 | Unmarking keeps every list free of duplicates. |
| Completion.UnmarkUndoesMark | script.js:105-132 | Removing a category that marking added gives back the original map. |
| Completion.CompletionTracker.MarkCategoryCompleted | script.js:105-114 | The map becomes `Marked(old map, …)`, staying duplicate-free. |
| Completion.CompletionTracker.RemoveCompletedCategory | script.js:126-132 | The map becomes `Unmarked(old map, …)`, staying duplicate-free. |
| QuizState.Initial | script.js:42-55 | Before any quiz: not running, timer off, 3 lives, lifelines 1/1/2. |
| QuizState.Ended | script.js:135-144 | Stops the session and the timer. Shows one result, a success iff asked for or the index is past the last question. Score, lives, index, category, questions, lifelines and queued continuations are unchanged. |
| QuizState.Shown | script.js:238-255 | A question is displayed with nothing hidden or disabled, no hint and a full clock. The timer is neither started nor stopped, and every other session variable is unchanged. |
| QuizState.Loaded | script.js:226-256 | No questions ends as a failure. An index past the end ends as a success. Otherwise the question is shown. |
| QuizState.Advanced | script.js:270-273 | The index goes up by one with score and lives unchanged. The quiz ends with success iff that passes the last question. |
| QuizState.LostLife | script.js:276-284 | One life lost and the score unchanged. Schedules the end at 0 lives or below, otherwise the next question. |
| QuizState.Answered | script.js:258-287 | Does nothing unless running; otherwise disables every option. A correct answer adds exactly the question's points, keeps lives and schedules the next question. A wrong one keeps the score and loses a life. |
| QuizState.Clicked | script.js:249-264 | A click on a disabled option changes nothing; any other click is `selectAnswer`. |
| QuizState.Ticked | script.js:289-309 | Off: nothing. Above 0: one tenth less. On the tick after 0 (the float residue going negative) the timer stops for good, the clock is clamped to 0 and a life is lost as on a wrong answer, with the options left enabled. |
| QuizState.Ticks | script.js:289-309 | Any number of ticks keeps the session invariant and leaves score, index and running unchanged. |
| QuizState.TicksCountDown | script.js:291-294 | A running clock reading t goes down one tenth per tick for t ticks, and the next tick expires it with a life lost. |
| QuizState.ExpiresOnTick151 | script.js:291-294 | From a full clock, 150 ticks leave it running at 0 with lives intact; the 151st stops it and costs one life. |
| QuizState.Fired | script.js:269-284 | Runs the oldest continuation, an advance or `endQuiz(false)`, whether or not the quiz still runs. |
| QuizState.WrongOptions | script.js:326-328 | The first loop collects exactly the option indices other than the correct one, three of them for four options. |
| QuizState.WrongOptionsNoDup | script.js:326-328 | The collected wrong options are distinct. |
| QuizState.Picked | script.js:330-335 | The splice loop hides only wrong options, and nothing when there are no draws or no wrong options. |
| QuizState.PickedStep | script.js:330-332 | One splice step hides the drawn option, and the remaining draws fit the shortened list. |
| QuizState.PickedDistinct | script.js:330-335 | The splice loop hides only wrong options, and as many distinct ones as it has draws. |
| QuizState.ValidPicks | script.js:331 | The two draws are `floor(random * 3)` then `floor(random * 2)`: each fits the list of wrong options as it shrinks. |
| QuizState.FiftyFiftyHidden | script.js:318-336 | 50/50 hides exactly two option indices, never the correct one. |
| QuizState.FiftyFiftied | script.js:318-339 | Nothing happens unless running with a 50/50 left. Otherwise at most two more options are hidden and disabled, never the correct one, and the 50/50 count drops by exactly one. |
| QuizState.FiftyFiftiedRunning | script.js:318-339 | With a 50/50 left in a running quiz, the step adds `FiftyFiftyHidden` to the hidden and disabled options and uses one 50/50. |
| QuizState.HideTwo | script.js:330-337 | Hiding and disabling two wrong options in range keeps the session invariant and hides at most two more. |
| QuizState.Hinted | script.js:341-349 | Nothing happens unless running with a hint left. Otherwise the hint is shown (a fallback text when empty) and the count drops by one. |
| QuizState.Skipped | script.js:351-359 | Nothing happens unless running with a skip left. Otherwise the index goes up by one with score, lives and continuations untouched, and the skip is used even if that ends the quiz. |
| QuizState.Started | script.js:205-223 | The new questions from the first one, score 0, 3 lives, lifelines 1/1/2, running with the timer on. Queued continuations survive. |
| QuizState.Next | script.js:473-503 | Every in-session event (a click on one of the four options, valid 50/50 draws) keeps the session invariant: counters never negative, a running quiz points at a question, and the correct option is never hidden. |
| QuizState.NextMonotone | script.js:258-359 | No event raises a lifeline count or lives, or restarts a stopped timer. The score moves only on a correct click, and then by exactly the question's points. |
| QuizState.EndsOnlyBy | script.js:135-144 | A result is shown only by the end button, a continuation or a skip past the end. |
| QuizState.LastCorrectAnswerWins | script.js:233-236 | A correct answer to the last question, then its continuation, ends the quiz as a success with the points added. |
| QuizState.ExpiryThenWrongClick | script.js:291-307 | After an expiry (the tick after 0) with one life left, a wrong click takes lives to -1 and queues two `endQuiz(false)`. |
| Session.ShuffledCopy | script.js:204-205 | The played list is a shuffled copy of the category's list: a permutation of it, with all questions well formed. |
| Session.CollectWrong | script.js:326-328 | The first loop of useFiftyFifty collects exactly `WrongOptions` for the four buttons. |
| Session.SpliceDraws | script.js:330-335 | The splice loop of useFiftyFifty computes exactly `Picked` for the draws. |
| Session.FiftyFiftyDraw | script.js:326-335 | The two loops of useFiftyFifty compute `FiftyFiftyHidden`. |
| Session.QuizSession.constructor | script.js:445-446 | A fresh session, named by the stored name or "User-" followed by the ID. |
| Session.QuizSession.ChooseCategory | script.js:464-466 | Only the current category changes. |
| Session.QuizSession.StartQuiz | script.js:190-224 | An attempted category is refused first, then a missing or empty one; both leave everything but the current category alone. Otherwise it plays a permutation of the category's questions from a `Started` state and marks the category. |
| Session.QuizSession.Begin | script.js:205-223 | Performs exactly the `Started` step. |
| Session.QuizSession.ShowQuestion | script.js:238-255 | Performs exactly the `Shown` step. |
| Session.QuizSession.EndQuiz | script.js:135-144 | Performs `Ended`, saves the score with `Saved` (also when 0) and marks the category with `Marked`. |
| Session.QuizSession.LoadQuestion | script.js:226-256 | Performs `Loaded`. The stores change, by one save and one mark, exactly when a result is shown. |
| Session.QuizSession.Advance | script.js:270-273 | Performs `Advanced`, with the same store rule. |
| Session.QuizSession.LoseLife | script.js:276-284 | Performs `LostLife`. |
| Session.QuizSession.SelectAnswer | script.js:258-287 | Performs `Answered`. |
| Session.QuizSession.ClickOption | script.js:249-264 | Performs `Clicked`. |
| Session.QuizSession.Tick | script.js:289-309 | Performs `Ticked`. |
| Session.QuizSession.Fire | script.js:269-305 | Performs `Fired`, with the same store rule. |
| Session.QuizSession.UseFiftyFifty | script.js:318-339 | Performs `FiftyFiftied` for the given draws. |
| Session.QuizSession.UseHint | script.js:341-349 | Performs `Hinted`. |
| Session.QuizSession.UseSkip | script.js:351-359 | Performs `Skipped`, with the same store rule. |
| Session.QuizSession.StartButton | script.js:497-503 | While running it ends the quiz as a failure, saving and marking. Otherwise it is `StartQuiz` on the selected category, and the scores are untouched. |
| Admin.RemoveUserScore | script.js:602-628 | Refuses when the user or the category is missing. Otherwise it deletes every score of that user in that category and reopens the category for the user, unless the user reads "undefined". |
| Login.DigitsOnly | script.js:404 | True exactly when every character is a decimal digit. |
| Login.UserLogin | script.js:399-419 | Succeeds exactly for a 10-digit ID and a non-empty name. A bad ID is reported before a missing name. |

## Left out

- DOM rendering: the results modal, the redirect countdown, the option colouring, the scores table and its search filter, and the lifeline labels. These are presentation with no state the engine reads back; button disabling and hiding are kept as index sets.
- `localStorage` and JSON: each store is an object whose constructor takes the stored document. A malformed stored bank, which `loadBank` keeps from being loaded, is not modelled. A stored bank must be valid (four options and an index in 0..3) to be loaded.
- `setTimeout` and `setInterval`: the model uses explicit `Tick` and `Fire` events. Real-time interleaving with the host is not modelled beyond that FIFO order.
- Floating point:
  - `timeLeft -= 0.1` is modelled as one integer tenth per tick. The model fixes expiry at the 151st tick, which is where the float residue of 150 subtractions goes negative; the residue itself is not modelled.
  - The timer arc and `Math.ceil` display are left out.
- `Math.random` and the clock: the shuffle draws, the two 50/50 draws and the save date are parameters.
- `trim()` on form fields and the login inputs: the model takes the fields already trimmed.
- `confirm()` dialogs: they are taken as accepted. A declined dialog does nothing.
- The admin credential table and the admin login (script.js:7-11, 421-440): authentication glue.
- Loading a question into the admin form (script.js:687-704): it only copies fields into the form. `EditQuestion` receives its outcome as the category and index it remembered.
- Questions.QuestionBank.EditQuestion: an index beyond the length is refused with `StaleIndex`. JavaScript would create holes in the array, which the sequence model cannot hold.
- Questions.QuestionBank.AddQuestion: when the selected category is missing, the original throws a TypeError; the model returns `UnknownCategory` with nothing changed. EditQuestion and DeleteQuestion do the same.
- Session.QuizSession.StartQuiz: an already attempted category is refused with nothing else changed, but the original also navigates to `index.html` (script.js:195); page navigation is not modelled.
- Session.QuizSession.StartQuiz: it requires one shuffle draw per question, each `j <= i`, standing for `Math.floor(Math.random() * (i + 1))`.
- The score fields `score || 0`, `userId || 'guest_…'` and `category || 'General'`: the model has no NaN or undefined score. The fallbacks for user and category cannot apply after the validation, so they are not modelled.
