# Hipo flashcards: scheduler, due-set selector, session and card creation

Hipo is a flashcard note-taker. A user pastes text, an external language model
turns it into a title, a summary, keywords and a recall question, and the app
schedules spaced-repetition reviews of the resulting card. This project models
the deterministic core of the app in Dafny and proves properties of it:

- `Scheduler` (services/storageService.ts, `calculateNextReview`) computes a
  card's next interval, status, review count and due time after a FORGOT,
  HARD or EASY rating.
- `DueSelector` (services/storageService.ts, `getCardsDueForReview`) filters
  the due cards and stable-sorts them by due time. `ReviewQueue` caps the
  result at the "Daily 3".
- `Session` (App.tsx) is the app's state machine over Home, Review and Weekly.
  It holds the card store, the review queue, the review position and the
  store writes, and it is a pure `(state, event) -> state` function.
- `CardInput` (components/InputSection.tsx, `handleSave`) has the blank-text
  guard, the construction of a new card and the failure path of the metadata
  call.
- `LocalTime` has the calendar arithmetic behind `setHours(4, 0, 0, 0)`,
  `getDay()` and `new Date(x)`.
- `SaveRace` (App.tsx `handleSaveCard`, InputSection.tsx `handleSave`)
  models a save whose metadata call is still pending when the store changes,
  as written and as corrected (see "## Findings").
- `Types` (types.ts) holds the card, status, rating and screen types.

Modelling choices:

- The clock (`Date.now()`) becomes a parameter `now`. The id from `uuidv4()`
  becomes a parameter `id`. The result of the metadata call becomes a
  parameter `Option<Metadata>`: `None` means the call rejected.
- `interval` is a `real`. Every reachable interval comes from
  {0, 1, 3, 7, 21} through `* 2.5`, `* 0.5`, floor and `min 365`, so it is a
  dyadic rational. JavaScript numbers hold those values exactly, so `real`
  arithmetic with `.Floor` matches the source.
- The local time zone is a fixed offset from UTC (`Zone`). With that
  assumption, "04:00 on the same local day" (`At4am`) is computed exactly.
  `At4am` carries the two properties as its contract: same local day, and
  time of day 04:00. `At4amUnique` shows these two properties determine the
  result.
- `new Date(x)` truncates a fractional millisecond count toward zero. This is
  `TimeValue`.
- Stability of the sort is stated per due time. `KeyRun(s, k)` is the
  subsequence of cards due exactly at `k`. The selector keeps every run of
  the input up to `now`. `StableSortUnique` shows that sortedness plus equal
  runs determine a sequence. So `SelectDueIsTheStableSort` shows the selector
  is the one and only stable sort of the due cards.
- The queue effect of App.tsx:23-29 runs after a render in which the store
  array or the screen changed, while the screen is Home. `Session.Settle`
  models this. Both the store writers (`handleSaveCard`,
  `handleReviewRating`) build a new array, so each counts as a change.
  Clicking the logo while already on Home changes nothing, so the queue is
  not rebuilt then.
- Events are accepted only where the screen renders their control:
  - Start, the text area and Save on Home;
  - the rating buttons on Review with a non-empty queue;
  - the report's close button on Weekly;
  - the report button on Home when the local day is a Sunday;
  - the logo on every screen.
- The input section is unmounted when Home is left, so its form state is
  reset then.

## Model

| member | source | states |
|---|---|---|
| `LocalTime.At4am` | services/storageService.ts:45-46 | the normalised due time lies on the same local calendar day as its input and its local time of day is exactly 04:00:00.000 |
| `LocalTime.At4amUnique` | services/storageService.ts:46 | any instant on the same local day at 04:00 equals At4am's result, so the two properties fully describe the normalisation |
| `LocalTime.TimeValue` | services/storageService.ts:45 | `new Date(x)` keeps the whole-millisecond part of x, rounding toward zero, for negative x as well |
| `LocalTime.DayOfWeek` | App.tsx:64 | `getDay()` is a weekday number in 0..6 |
| `LocalTime.SundayWeekly` | App.tsx:64 | a Sunday is followed by a non-Sunday and by another Sunday seven days later |
| `LocalTime.EpochThursday` | App.tsx:64 | the local day of 1970-01-01 has weekday number 4 (Thursday), which anchors `getDay()` |
| `LocalTime.DayOfWeekNext` | App.tsx:64 | the next local day has the next weekday number, Saturday (6) wrapping to Sunday (0) |
| `Scheduler.NextInterval` | services/storageService.ts:28-39 | an interval of at most 365 stays at most 365; an interval of 0 or at least 1 gives at least 1; EASY grows every non-negative interval below the cap; HARD gives at least 1, shrinks every interval of 2 or more, and gives 1 below 2 |
| `Scheduler.NextReview` | services/storageService.ts:23-55 | review count +1; every field except interval, status, due time and review count is copied; due at 04:00 local on the local day of `now + interval` days; FORGOT gives Active, HARD keeps the status, EASY gives Mastered exactly when the new interval exceeds 21 or the card was already mastered |
| `Scheduler.ForgotResets` | services/storageService.ts:28-30 | FORGOT gives interval 1 and status Active whatever the prior status, Mastered included |
| `Scheduler.HardHalves` | services/storageService.ts:31-32 | HARD gives max(1, floor(I / 2)) and keeps the status |
| `Scheduler.EasyClimbsLadder` | services/storageService.ts:35-38 | EASY on an interval equal to 0, 1, 3 or 7 moves to the next rung of 0, 1, 3, 7, 21 |
| `Scheduler.EasyOffLadder` | services/storageService.ts:39 | EASY on any other interval gives min(I * 2.5, 365) |
| `Scheduler.IntervalRangeKept` | services/storageService.ts:28-39 | every rating keeps an interval in [1, 365] inside [1, 365] |
| `Scheduler.StatusOnlyAdvances` | services/storageService.ts:31-41 | HARD and EASY never move a status back along New, Active, Mastered |
| `Scheduler.ReviewedCardNotDue` | services/storageService.ts:45-46 | with a prior interval of 0 or at least 1, the new due time is after `now`, so a reviewed card is not due again at once |
| `Scheduler.EasyRunFromNewCard` | services/storageService.ts:35-41 | EASY ratings from a new card give 3, 7, 21 with status unchanged, then 52.5 with status Mastered |
| `Scheduler.EasyRunToCap` | services/storageService.ts:39 | beyond 21 the EASY run is 52.5, 131.25, 328.125, then 365, which stays |
| `DueSelector.Due` | services/storageService.ts:59 | the filter's result holds exactly the input cards due at or before `now` and is no longer than the input |
| `DueSelector.KeyRunMember` | services/storageService.ts:59 | the run for due time k holds exactly the cards due at k |
| `DueSelector.Insert` | services/storageService.ts:59 | insertion gives one more card, and the cards are those of the sequence plus the inserted one, as a multiset |
| `DueSelector.InsertSorted` | services/storageService.ts:59 | inserting into a sequence sorted by due time keeps it sorted |
| `DueSelector.SortByDue` | services/storageService.ts:59 | the sort's output is a permutation of its input, sorted non-decreasing by due time |
| `DueSelector.InsertKeyRun` | services/storageService.ts:59 | insertion puts the card at the front of its own run and leaves all other runs alone |
| `DueSelector.SortKeyRun` | services/storageService.ts:59 | the sort is stable: every run of equal due times keeps its input order |
| `DueSelector.DueKeyRun` | services/storageService.ts:59 | filtering keeps the runs for due times up to `now` and empties the others |
| `DueSelector.KeyRunAppend` | services/storageService.ts:59 | the run of a concatenation is the concatenation of the runs |
| `DueSelector.StableSortUnique` | services/storageService.ts:59 | two sorted sequences with the same run for every due time are equal |
| `DueSelector.SelectDue` | services/storageService.ts:57-60 | the result holds exactly the due cards, is a permutation of the filtered input, is sorted by due time, and keeps input order among equal due times |
| `DueSelector.SelectDueIsTheStableSort` | services/storageService.ts:57-60 | any sorted sequence with the due cards' runs is the selector's result |
| `DueSelector.ReviewQueue` | App.tsx:25-27 | the queue is a prefix of the selector's result with at most 3 cards, and fewer only when fewer are due |
| `CardInput.TrimStart` | components/InputSection.tsx:16 | the result is a suffix of the input, does not start with white space, and only white space was dropped |
| `CardInput.TrimEnd` | components/InputSection.tsx:16 | the result is a prefix of the input, does not end with white space, and only white space was dropped |
| `CardInput.Trim` | components/InputSection.tsx:16 | the trimmed text is a contiguous slice of the input that neither starts nor ends with white space, and everything dropped before and after it is white space |
| `CardInput.BlankIffAllSpace` | components/InputSection.tsx:16 | the guard `!text.trim()` holds exactly when every character is white space |
| `CardInput.NewCard` | components/InputSection.tsx:24-36 | a new card has interval 1, review count 0 and status New; it is due exactly one day after creation and not at creation; its keywords are the metadata's, or empty when they are omitted |
| `CardInput.HandleSave` | components/InputSection.tsx:15-45 | blank text changes nothing; a card is produced exactly when the text is not blank and the metadata call succeeds, and it is the fresh card built from the text, the metadata, the id and the clock; success clears the form, failure keeps the text and shows the failure message |
| `CardInput.WhitespaceCreatesNothing` | components/InputSection.tsx:16 | text made only of white space never creates a card |
| `Session.Ids` | App.tsx:49 | the id list has one id per card, in store order |
| `Session.Init` | App.tsx:11-29 | the initial session is on Home with the loaded store, satisfies the session invariant, has an empty form and no writes, and its queue is the first three due cards of the loaded store |
| `Session.SaveCard` | App.tsx:31-35 | the new card is first and the old store follows unchanged; the store is written once |
| `Session.StartReview` | App.tsx:37-42 | with a non-empty queue, Review at index 0 and nothing else changed; otherwise no change |
| `Session.ReplaceById` | App.tsx:49 | same length; each card whose id matches is replaced by the updated card and every other card is kept |
| `Session.ReplaceKeepsIds` | App.tsx:49 | replacing by id with a card of that id keeps the store's id list |
| `Session.RateCard` | App.tsx:44-60 | the store is the id replacement with the scheduler's result for the current queue card; ids kept; one write; the next index, or Home after the last card |
| `Session.Settle` | App.tsx:23-29 | the queue is rebuilt on Home after a store write or a screen change and kept otherwise; the form is kept on Home and discarded elsewhere; store, screen, index and writes are those of the handler |
| `Session.OnLogo` | App.tsx:71 | the logo leads Home from any screen with an empty form, keeps the store and writes nothing, changes nothing on Home, and the session obeys the event rules |
| `Session.OnWeeklyOpened` | App.tsx:76-78 | the report opens exactly when the session is on Home and the local day of the click is a Sunday; any other click changes nothing; the store is kept and nothing is written |
| `Session.OnWeeklyClosed` | App.tsx:158 | closing the report leads Home with an empty form, and does nothing on any other screen; the store is kept and nothing is written |
| `Session.OnReviewStarted` | App.tsx:37-42 | Start on Home with a non-empty queue enters Review at index 0 with that queue, writing nothing; otherwise nothing changes |
| `Session.OnRated` | App.tsx:44-60 | on Review the store becomes the id replacement with the scheduler's result and is written once; the index moves on, or the session returns Home after the last card; on other screens nothing changes |
| `Session.OnTextEdited` | components/InputSection.tsx:51-52 | typing changes only the form's text, and only on Home |
| `Session.OnSaveClicked` | components/InputSection.tsx:15-45 | saving non-blank text with metadata prepends the new card, rebuilds the queue and clears the form; a blank or failed save on Home changes only the form, as `handleSave` leaves it; off Home nothing changes; the screen never changes |
| `Session.Step` | App.tsx:23-60 | keeps the session invariant (queue of at most 3, index inside the queue while reviewing); the queue changes only on Home and is fresh on every return to Home, where the form is empty; Weekly is entered only from Home on a Sunday (the clock read at the click); the logo leads Home; Review is entered only by Start at index 0; cards are never dropped and each store change is one write (saves atomic) |
| `Session.SavePrependsCard` | App.tsx:31-35 | saving a note on Home puts the new card first, writes once, rebuilds the queue and clears the form |
| `Session.FailedSaveKeepsStore` | components/InputSection.tsx:21-42 | a failed metadata call or blank text leaves the store unchanged and unwritten |
| `Session.RatingReplacesById` | App.tsx:44-51 | a rating replaces exactly the cards with the current queue card's id by the scheduler's result, keeps the store length and all other cards, and writes once |
| `Session.RatingAdvances` | App.tsx:54-60 | after a rating the index moves on by one, or after the last card the session is on Home with a rebuilt queue |
| `Session.StartNeedsQueue` | App.tsx:37-42 | Start enters Review at index 0 only with a non-empty queue, otherwise nothing changes |
| `Session.Run` | App.tsx:11-60 | any event sequence keeps the invariant and never drops a card; there is at most one store write per event (with each save taken as one atomic event; see `SaveRace` for overlapping saves) |
| `SaveRace.ResolveStale` | App.tsx:31-35 | as written: a save landing after the click puts the new card in front of the captured store; the store it lands on survives as the tail exactly when it is the captured one, so any change made meanwhile is overwritten |
| `SaveRace.ResolveFresh` | App.tsx:31-35 | corrected: the new card goes in front of the store it lands on, and that store, contents included, follows it unchanged |
| `SaveRace.SaveCardIsFresh` | App.tsx:31-35 | the session's save is the corrected functional update |
| `SaveRace.FreshSaveKeepsEverything` | App.tsx:31-35 | corrected: a save landing after changes that kept the cards of the click keeps those cards and every card added meanwhile |
| `SaveRace.OverlappingFreshSavesKeepBoth` | components/InputSection.tsx:15-45 | corrected: two overlapping saves both land, newest first |
| `SaveRace.RatingDuringSaveIsKept` | App.tsx:31-51 | corrected: on the same input, the save lands after the rating and the rated card (interval 3) is kept |
| `SaveRace.RatingDuringSaveIsLost` | App.tsx:31-51 | as written: a rating made while a save is pending is undone when the save lands |
| `SaveRace.OverlappingSavesDropCard` | components/InputSection.tsx:15-45 | as written: on a store with one due card, Save, then Start and the logo (remounting the input), then a second Save; the two saves resolving in click order leave only the second new card |
| `Session.RatingEvents` | components/ReviewCard.tsx:12-16 | one rating event per rating, in order |
| `Session.ReviewPass` | App.tsx:44-60 | a review pass walks the queue in order; after rating every remaining card the session is back on Home |
| `Session.StepKeepsIntervals` | App.tsx:44-51 | every card in the store and the queue keeps an interval in [1, 365] across any event |

## Findings

| source | as written | input that shows it | evidently intended | confidence | as-written member | corrected member |
|---|---|---|---|---|---|---|
| App.tsx:31-35 | `handleSaveCard` closes over the store of its render, and `handleSave` calls it after awaiting the metadata call (components/InputSection.tsx:15-45), so the save writes `[newCard, ...storeAtClick]` | store `[a]`: click Save, start the review, rate `a` Easy, then the call resolves, and `a` is back at interval 1; or on `[a]` with `a` due: click Save, press Start and then the logo (the input remounts), click Save again, and the two calls resolving in click order leave `[second, a]` | `setCards(prev => [newCard, ...prev])`: the new card is added to the store as it is when the call resolves | medium, not executed | `SaveRace.RatingDuringSaveIsLost`, `SaveRace.OverlappingSavesDropCard` | `SaveRace.RatingDuringSaveIsKept`, `SaveRace.FreshSaveKeepsEverything`, `SaveRace.SaveCardIsFresh` |

## Left out

- Persistence (`loadCards`/`saveCards`, services/storageService.ts:5-21) is
  `localStorage` plus JSON. It is modelled only as a count of store writes
  (`Session.State.writes`). The loaded store is a parameter of
  `Session.Init`.
- services/geminiService.ts is network calls to an external language-model
  SDK. It appears only as the `Option<Metadata>` outcome of the call.
- components/WeeklyReport.tsx is left out. It is asynchronous, reads the
  clock, calls the language model, and its success rate is a presentation
  heuristic. Only the screen changes into and out of it are modelled.
- components/ReviewCard.tsx (the reveal toggle) and components/HipoLogo.tsx
  are rendering only.
- The "Recently Saved" list (`cards.slice(0, 3)`) and all other rendering are
  left out.
- The input section's loading flag is left out. While the call is pending it
  disables the text area and the Save button, but Start, the logo and the
  rating buttons stay live, and the flag is fresh after the input section
  remounts on a return to Home.
- `Session.OnSaveClicked`: a save is one atomic event in the session, from
  the click to the store write, and it uses the functional update of
  `SaveRace.ResolveFresh`. The source's save lands later on the store captured
  at the click. Ratings or saves made meanwhile are then overwritten (a
  rating undone, a new card dropped). `SaveRace` models that race, and
  "## Findings" records it.
- `Session.Run`: "never drops a card" and "each store change is one write"
  hold for atomic saves only. With overlapping saves as written, a card is
  dropped (`SaveRace.OverlappingSavesDropCard`).
- `Session.OnWeeklyOpened`: the report button is gated on the Sunday flag
  of the click instant. The source computes `isSunday` when App renders
  (App.tsx:64) and does not check it again in the click handler
  (App.tsx:78). App re-renders only when its own state changes, so a Home
  screen last rendered on a Sunday still opens the report after midnight.
  The model does not carry the render time, so `Session.Step`'s "Weekly only
  on a Sunday" holds only for a click on the day of the last render.
- Daylight-saving transitions are left out: the zone is a fixed offset, so
  every local day is 24 hours long. The local-time helpers
  (`LocalTime.At4am`, `LocalTime.DayOfWeek`) are exact only under that
  assumption.
- `LocalTime.TimeValue`: time values beyond the ECMAScript range of
  ±8.64e15 ms, which give an invalid date, are not modelled.
- `Scheduler.NextInterval`: NaN, infinite or non-number intervals, which only
  a corrupt store could hold, are not modelled. Neither is 64-bit float
  rounding: every reachable interval is exact in both representations.
- `CardInput.NewCard`: the source reads the clock twice, for `createdAt` and
  for `nextReviewAt`. The model reads it once, so the one-day gap is exact.
- `CardInput.HandleSave`: metadata whose fields are missing or of the wrong
  type is not modelled. Only a missing `keywords` list is.
- Ids are opaque strings supplied by the caller; `uuidv4` is not modelled.
- Review counts beyond 2^53 are not modelled; `reviewCount` is an unbounded
  integer.
- The comment at services/storageService.ts:34 gives the EASY ladder as
  1 -> 3 -> 7 -> 21 -> 60. The code gives 52.5 after 21. The model follows
  the code (`Scheduler.EasyRunFromNewCard`).
