# alshaybgame — a verified model of the game server's store, routes and game rules

alshaybgame is an Arabic party-quiz web application. A server keeps game
categories, questions, players, penalties and settings in memory and exposes
them over a JSON API. Questions can be bulk-imported from a spreadsheet. The
browser client runs rounds with a 60-second clock, keeps scores and draws a
penalty for one of the losing players.

This project models, in Dafny:

- **the in-memory store** (`Storage`, class `MemStorage`). Each JavaScript
  `Map` is held as the sequence of its values in iteration order. This works
  because every record is stored under its own `id`, and every setting under
  its `key`. New keys append, re-set keys keep their place, and deleted keys
  are cut out in place. Each numeric table is invariantly ordered by strictly
  increasing id below its counter.
- **the record shapes and validators** (`Schema`). Each entity has a record
  type and an insert type without `id`. The spreadsheet row schema, its
  `letterCount` coercion and the insert schemas of the API are modelled as
  parse functions that return `None` on a validation error.
- **JavaScript's `parseInt`** (`JsValues`), as section 18.2.5 of ECMAScript
  2015 defines it for a call without a radix. Every `:id` path parameter
  and every spreadsheet `letterCount` string goes through it.
- **the request handlers** (`Routes`). Each returns a status code and a body.
  The model covers the bulk-import row mapping and its clear-then-validate
  order, and the 400/404 decisions of the id and score routes.
- **the Fisher–Yates shuffle** (`Utils`). It runs on an array copy. The
  random pick of each step is a parameter in range.
- **the penalty draw** (`PenaltySystem`): stable sort by score, the losers,
  and the draw guard.
- **the score buttons** (`ScoreBoard`): the scores they send, the conditions
  under which they are enabled, and the confirmations they ask for.
- **the round state machine** (`GamePage`): the clock tick, the next question,
  revealing the answer, the `gameId` reset, the timer colour and the
  question cycling.

In `server/routes.ts:97` the string branch of the `letterCount` ternary is
dead code. `excelRowSchema` (`shared/schema.ts:73`) has already turned every
string into a number by `parseInt`, so the model applies `parseInt` once,
inside `Schema.LetterCount`, and `Routes.BuildQuestion` copies the number
through. A string that does not parse becomes NaN and is stored as such
(`JsNumber.NaN`).

## Model

| member | source | states |
|---|---|---|
| Schema.CategoryWithId | shared/schema.ts:5-15 | a category is its insert payload plus the id: the payload is recovered unchanged and the id is the given one |
| Schema.QuestionWithId | shared/schema.ts:17-33 | a question is its insert payload plus the id, with the payload recovered unchanged |
| Schema.PlayerWithId | shared/schema.ts:35-44 | a player is its insert payload plus the id, with the payload recovered unchanged |
| Schema.PenaltyWithId | shared/schema.ts:46-54 | a penalty is its insert payload plus the id, with the payload recovered unchanged |
| Schema.RecordsAreIdPlusPayload | shared/schema.ts:13-15 | splitting any stored record into payload and id and joining them again gives the record back, so the insert shapes lose nothing but the id |
| Schema.ParseInsertQuestion | shared/schema.ts:18-33 | a question body is accepted exactly when categoryId, clue1, clue2, answer and letterCount are present with the right types and the three variant columns are absent, null or well typed; the result carries exactly those values |
| Schema.ParseInsertPlayer | shared/schema.ts:36-44 | a player body is accepted exactly when name is a string and score a number, and the result is built from them |
| Schema.ParseInsertPenalty | shared/schema.ts:47-54 | a penalty body is accepted exactly when description is a string |
| Schema.LetterCount | shared/schema.ts:73 | letterCount is accepted exactly when it is a number or a string; a number is kept and a string goes through parseInt |
| Schema.LetterCountOfDecimalString | shared/schema.ts:73 | a spreadsheet cell holding the decimal spelling of n yields letter count n |
| Schema.ParseExcelRow | shared/schema.ts:68-84 | a row is accepted exactly when category, clue1, clue2 and answer are strings, letterCount is a number or string, and every optional column is absent or a string; the row carries the four required strings, the coerced letterCount, and each optional column's text, or None when the column is absent |
| Schema.ParseExcelData | shared/schema.ts:86 | the payload is accepted exactly when it is an array whose every item is a valid row; the result has one parsed row per item, in order |
| JsValues.ParseIntOfDecimal | shared/schema.ts:73 | parseInt reads back every integer from its decimal spelling |
| JsValues.ParseIntIgnoresSuffix | server/routes.ts:20-23 | parseInt stops at the first non-digit, so "12abc" reads as 12, unless it is a "0x"/"0X" prefix |
| JsValues.ParseInt | server/routes.ts:20 | parseInt itself has no contract; what it does is stated by the ParseInt* lemmas in the rows that follow |
| JsValues.ParseIntHexPrefix | server/routes.ts:20 | for every non-empty run of hexadecimal digits, "0x" or "0X" followed by it (and by anything that is not a hex digit) reads as its radix-16 value |
| JsValues.ParseIntHexPrefixWithoutDigits | server/routes.ts:20 | "0x" or "0X" not followed by a hexadecimal digit reads as NaN, not 0 |
| Storage.MemStorage.constructor | server/storage.ts:56-87 | a fresh store holds exactly the eight default categories, in the listed order, with ids 1 to 8; the category counter is 9; every other table is empty with its counter at 1 |
| Storage.MemStorage.InitializeDefaultGameCategories | server/storage.ts:72-87 | creates the defaults one by one: each gets the next id, in list order, and nothing else changes |
| Storage.MemStorage.GetAllGameCategories | server/storage.ts:90-92 | the listing is in insertion order, which is strictly increasing id order |
| Storage.MemStorage.GetGameCategory | server/storage.ts:94-96 | finds the listed category with that id; none means no listed category has it |
| Storage.MemStorage.CreateGameCategory | server/storage.ts:98-103 | returns the payload with id equal to the counter's old value, increments only that counter, and appends the record to the listing; nothing else changes |
| Storage.MemStorage.GetAllGameQuestions | server/storage.ts:106-108 | the listing is in strictly increasing id order |
| Storage.MemStorage.GetGameQuestionsByCategoryId | server/storage.ts:110-114 | a question is in the result exactly when it is stored with that categoryId; the result is empty exactly when none is; order is preserved |
| Storage.FilterByCategory | server/storage.ts:111-113 | the filter yields only stored questions of that category and is no longer than its input |
| Storage.FilterByCategoryComplete | server/storage.ts:111-113 | every stored question of that category survives the filter |
| Storage.FilterByCategoryEmpty | server/storage.ts:111-113 | the filter is empty exactly when no question has the category |
| Storage.FilterByCategoryAppend | server/storage.ts:111-113 | a newly created question appears at the end of its own category's listing and of no other |
| Storage.FilterByCategoryOrdered | server/storage.ts:111-113 | filtering keeps the listing order: increasing ids stay increasing |
| Storage.MemStorage.GetGameQuestion | server/storage.ts:116-118 | finds the listed question with that id; none means no listed question has it |
| Storage.MemStorage.CreateGameQuestion | server/storage.ts:120-125 | returns the payload with the counter's old value as id, increments only that counter, appends the record; nothing else changes |
| Storage.MemStorage.BulkCreateGameQuestions | server/storage.ts:127-134 | one record per input, in input order, with consecutive ids from the old counter, each appended as a single create would; the counter advances by the input length |
| Storage.MemStorage.DeleteAllGameQuestions | server/storage.ts:136-139 | empties the question table and resets its counter to 1, so the next question gets id 1; other tables are untouched |
| Storage.MemStorage.GetAllPlayers | server/storage.ts:142-144 | the listing is in strictly increasing id order |
| Storage.MemStorage.GetPlayer | server/storage.ts:146-148 | finds the listed player with that id; none means no listed player has it |
| Storage.MemStorage.CreatePlayer | server/storage.ts:150-155 | returns the payload with the counter's old value as id, increments only that counter, appends the record |
| Storage.MemStorage.UpdatePlayerScore | server/storage.ts:157-165 | for a stored id, replaces only the score, keeps id, name and list position, and returns the new record; for an absent id, returns none and changes nothing |
| Storage.MemStorage.DeletePlayer | server/storage.ts:167-169 | removes only that player, keeping the others' order; an absent id is a no-op; no counter changes |
| Storage.MemStorage.ResetAllScores | server/storage.ts:171-175 | every player's score becomes 0; count, ids, names and order are unchanged |
| Storage.MemStorage.GetAllPenalties | server/storage.ts:178-180 | the listing is in strictly increasing id order |
| Storage.MemStorage.GetPenalty | server/storage.ts:182-184 | finds the listed penalty with that id; none means no listed penalty has it |
| Storage.MemStorage.CreatePenalty | server/storage.ts:186-191 | returns the payload with the counter's old value as id, increments only that counter, appends the record |
| Storage.MemStorage.DeletePenalty | server/storage.ts:193-195 | removes only that penalty, keeping the others' order; an absent id is a no-op; no counter changes |
| Storage.MemStorage.DeleteAllPenalties | server/storage.ts:197-200 | empties the penalty table and resets its counter to 1 |
| Storage.MemStorage.GetSetting | server/storage.ts:203-205 | finds the setting stored under that key; none means no setting has it |
| Storage.MemStorage.CreateOrUpdateSetting | server/storage.ts:207-219 | an existing key keeps its id and place, takes the new value and leaves the counter alone; a new key is stored as a setting with the counter's old id, and the counter increments |
| Routes.IdParam | server/routes.ts:20-23 | the id is rejected exactly when parseInt gives NaN; otherwise it is parseInt's value |
| Routes.GetCategoryRoute | server/routes.ts:19-31 | 400 exactly for a NaN id, 404 exactly for a number with no stored category, and 200 exactly otherwise, with the stored category of that id |
| Routes.GetCategoryIgnoresIdSuffix | server/routes.ts:20 | an id with trailing junk ("3abc") gets exactly the answer of the plain id ("3") |
| Routes.GetQuestionsRoute | server/routes.ts:34-48 | a missing or empty categoryId lists every question; a NaN one gives 400; a number lists exactly that category's questions |
| Routes.FindCategoryByName | server/routes.ts:87-88 | finds the first category with that name; none means no category has it |
| Routes.ResolveCategoryId | server/routes.ts:87-89 | a row's category id is the id of the first category with that name, and 1 when no category has it |
| Routes.TruthyValues | server/routes.ts:111-117 | the pushed clues are non-empty, at most as many as the columns, and none exactly when no column is truthy |
| Routes.TruthyPositions | server/routes.ts:111-117 | the positions of the truthy columns, strictly increasing, each truthy, and every truthy column among them |
| Routes.TruthyValuesInColumnOrder | server/routes.ts:111-117 | the k-th pushed clue is the value of the k-th truthy column: column order and repeated values are kept |
| Routes.TruthyValuesMembers | server/routes.ts:111-117 | a string is among the pushed clues exactly when some column holds it and it is non-empty |
| Routes.BuildQuestion | server/routes.ts:84-125 | clues, answer and letterCount are copied; imageUrl is set exactly for category صور with a truthy value; missingText exactly for أكمل المثل with a truthy value; extraClues exactly for من أنا with some truthy clue, as the truthy clues in column order (1 to 6 of them) |
| Routes.BuildQuestions | server/routes.ts:84 | one question per row, in row order |
| Routes.VariantFieldsIgnoreResolvedId | server/routes.ts:89-122 | against any two category lists, a row yields questions that differ at most in categoryId: variant gating depends on the name, not on the resolved id |
| Routes.FormNamesNotSeeded | server/storage.ts:73-82 | none of صور, من أنا and أكمل المثل is a seeded category name |
| Routes.FormRowOnSeededStore | server/routes.ts:87-122 | on the seeded categories, a bulk row named صور, من أنا or أكمل المثل gets categoryId 1 (the first seeded category) and still carries its truthy variant field |
| Routes.ScoreField | server/routes.ts:162-165 | the score is accepted exactly when the body's score field is a number |
| Routes.BulkImportRoute | server/routes.ts:73-135 | with clear=true the questions are deleted before validation, so an invalid body gives 400 with an empty question table (otherwise it is unchanged); a valid body appends one question per row with consecutive ids and answers 201 with the row count |
| Routes.CreateQuestionRoute | server/routes.ts:60-71 | an invalid body gives 400 and stores nothing; a valid one is created and returned with 201 |
| Routes.CreatePlayerRoute | server/routes.ts:143-154 | an invalid body gives 400 and stores nothing; a valid one is created and returned with 201 |
| Routes.UpdateScoreRoute | server/routes.ts:156-173 | a NaN id gives 400; a non-number score gives 400; an unknown player gives 404; in all three cases the players are unchanged; otherwise the score is replaced in place and the updated player returned with 200 |
| Routes.DeletePlayerRoute | server/routes.ts:175-183 | a NaN id gives 400 and changes nothing; otherwise 204, with the player removed if present |
| Routes.ResetScoresRoute | server/routes.ts:185-188 | every score becomes 0 and the route answers 200 |
| Routes.CreatePenaltyRoute | server/routes.ts:196-207 | an invalid body gives 400 and stores nothing; a valid one is created and returned with 201 |
| Routes.DeletePenaltyRoute | server/routes.ts:209-217 | a NaN id gives 400 and changes nothing; otherwise 204, with the penalty removed if present |
| Routes.DeleteAllQuestionsRoute | server/routes.ts:51-58 | empties the questions, resets their ids and answers 200 |
| Routes.DeleteAllPenaltiesRoute | server/routes.ts:219-222 | empties the penalties, resets their ids and answers 200 |
| Utils.Swap | client/src/lib/utils.ts:18 | exchanges positions i and j and leaves every other position unchanged |
| Utils.SwapPermutes | client/src/lib/utils.ts:18 | a swap keeps the multiset of elements |
| Utils.Shuffled | client/src/lib/utils.ts:11-21 | the shuffle keeps the length |
| Utils.ShuffleStepsPermutes | client/src/lib/utils.ts:14-19 | the remaining loop steps i down to 1 keep the multiset, whatever the picks in [0, i] |
| Utils.ShuffledPermutes | client/src/lib/utils.ts:13-20 | the result is a permutation of the input for every legal sequence of picks |
| Utils.ShuffledShort | client/src/lib/utils.ts:14 | arrays of length 0 or 1 come back equal |
| Utils.ShuffleStepsIdentity | client/src/lib/utils.ts:14-18 | when every pick is j = i, the order is kept, so the identity is among the outcomes |
| Utils.ShuffleArray | client/src/lib/utils.ts:11-21 | returns a fresh array, leaves the input unchanged, and the result is the specified shuffle of the input, hence a permutation of it |
| PenaltySystem.Insert | client/src/components/PenaltySystem.tsx:28 | inserting into a score-sorted list keeps it sorted and adds exactly that player |
| PenaltySystem.SortByScore | client/src/components/PenaltySystem.tsx:28 | the result is sorted by ascending score and is a permutation of the players |
| PenaltySystem.ScoreGroup | client/src/components/PenaltySystem.tsx:28 | the players with one score, in list order; every one of them is in the list with that score |
| PenaltySystem.InsertIsStable | client/src/components/PenaltySystem.tsx:28 | insertion places the new player after every player it ties with and reorders no group of equal scores |
| PenaltySystem.SortByScoreIsStable | client/src/components/PenaltySystem.tsx:28 | the sort is stable: for every score, the players with that score keep their input order |
| PenaltySystem.SortedPlayers | client/src/components/PenaltySystem.tsx:27-29 | ascending by score and a permutation of the players; empty while they have not loaded |
| PenaltySystem.Losers | client/src/components/PenaltySystem.tsx:32-34 | with two or more sorted players, all but the last; otherwise all of them |
| PenaltySystem.LosersExcludeOneTopScorer | client/src/components/PenaltySystem.tsx:27-34 | with more than one player exactly one player is left out, it has the maximum score (even under ties), and every loser scores at most that |
| PenaltySystem.ExcludedIsLastListedTopScorer | client/src/components/PenaltySystem.tsx:27-34 | among tied top scorers, the player left out of the losers is the one listed last |
| PenaltySystem.LosersOfAtMostOne | client/src/components/PenaltySystem.tsx:32-34 | with one player or none, the losers are the players themselves |
| PenaltySystem.SelectRandomPenalty | client/src/components/PenaltySystem.tsx:73-88 | a drawn penalty is one of the penalties and a drawn loser one of the losers |
| PenaltySystem.DrawDisabled | client/src/components/PenaltySystem.tsx:219 | the draw button's guard, a predicate without a contract; DrawRefusedIffDisabled ties it to the handler |
| PenaltySystem.DrawRefusedIffDisabled | client/src/components/PenaltySystem.tsx:74-77 | the handler refuses exactly when the draw button (line 219) is disabled |
| PenaltySystem.DrawnLoserIsALoser | client/src/components/PenaltySystem.tsx:80-85 | with penalties and two or more players the draw succeeds and names the picked penalty and the picked non-top loser |
| ScoreBoard.Increase | client/src/components/ScoreBoard.tsx:21-25 | the increase sends the same player id and one more than the score, at least 1 from a non-negative score |
| ScoreBoard.IncreaseEnabled | client/src/components/ScoreBoard.tsx:138 | the "+" guard, a predicate without a contract: enabled exactly while no increase is pending |
| ScoreBoard.DecreaseEnabled | client/src/components/ScoreBoard.tsx:145 | the "−" guard, a predicate without a contract; EnabledDecreaseIsExact states what an enabled press sends |
| ScoreBoard.ResetEnabled | client/src/components/ScoreBoard.tsx:175 | the reset guard, a predicate without a contract; ResetGuardRefinesNavGuard relates it to the penalty-page guard |
| ScoreBoard.PenaltyNavEnabled | client/src/components/ScoreBoard.tsx:184 | the penalty-page guard, a predicate without a contract: enabled exactly when players have loaded and there is one or more |
| ScoreBoard.Decrease | client/src/components/ScoreBoard.tsx:32-35 | the decrease sends the same player id and a score that is never negative: one less when the score is at least 1, else 0 |
| ScoreBoard.IncreaseThenDecrease | client/src/components/ScoreBoard.tsx:23 | the increase sends one more than the score: decreasing afterwards comes back to a non-negative starting score |
| ScoreBoard.EnabledDecreaseIsExact | client/src/components/ScoreBoard.tsx:145 | whenever the decrease button is enabled it sends exactly score - 1, which is non-negative |
| ScoreBoard.ResetGuardRefinesNavGuard | client/src/components/ScoreBoard.tsx:175 | reset is enabled exactly when no reset is pending and the penalty-page button (line 184) is enabled, i.e. there are players |
| ScoreBoard.HandleResetScores | client/src/components/ScoreBoard.tsx:65-69 | the reset request is issued exactly when the confirmation returned true |
| ScoreBoard.HandleDeletePlayer | client/src/components/ScoreBoard.tsx:71-75 | the delete request for that player is issued exactly when the confirmation returned true |
| ScoreBoard.ScoreRequestPassesValidation | client/src/components/ScoreBoard.tsx:23 | the id and body the score buttons send pass both 400 checks of the PATCH route, which reads back the same id and score |
| GamePage.InitialInv | client/src/pages/GamePage.tsx:15-18 | the first render satisfies the round invariant |
| GamePage.TransitionsKeepInv | client/src/pages/GamePage.tsx:60-100 | tick, next, reveal and the gameId reset keep timeLeft within [0, 60], keep the timer running exactly while the answer is hidden, and keep a running clock at 1 or more |
| GamePage.ZeroMeansRevealed | client/src/pages/GamePage.tsx:65-71 | in a reachable state a clock at 0 has stopped and shows the answer |
| GamePage.TicksRunOut | client/src/pages/GamePage.tsx:63-75 | a running clock at t counts down by one per tick, and after exactly t ticks it is at 0, stopped, with the answer shown; the question index does not change |
| GamePage.TimerBarColor | client/src/pages/GamePage.tsx:106-110 | destructive exactly at 5 or less, warning exactly above 5 up to 10, accent exactly above 10 |
| GamePage.QuestionAt | client/src/pages/GamePage.tsx:55-57 | there is no current question exactly when the list is empty; otherwise it is one of the shuffled questions |
| GamePage.QuestionAtPeriodic | client/src/pages/GamePage.tsx:56 | the index grows without bound and the question sequence repeats with period length |
| GamePage.QuestionsOfAPass | client/src/pages/GamePage.tsx:56 | within the first pass, index i shows the i-th shuffled question |
| GamePage.GamePageState.constructor | client/src/pages/GamePage.tsx:15-18 | starts at question 0 with the answer hidden, 60 seconds and the timer running |
| GamePage.GamePageState.OnTick | client/src/pages/GamePage.tsx:63-75 | with the timer on, timeLeft 1 or less becomes 0, the timer stops and the answer shows; otherwise timeLeft drops by 1 |
| GamePage.GamePageState.NextQuestion | client/src/pages/GamePage.tsx:81-87 | increments the index, hides the answer, sets 60 seconds and restarts the timer |
| GamePage.GamePageState.OnGameIdChange | client/src/pages/GamePage.tsx:90-94 | sets 60 seconds, restarts the timer and hides the answer, keeping the question index |
| GamePage.GamePageState.HandleShowAnswer | client/src/pages/GamePage.tsx:97-100 | shows the answer and stops the timer, leaving timeLeft and the index unchanged |
| GamePage.GamePageState.CurrentQuestion | client/src/pages/GamePage.tsx:55-57 | there is no current question exactly when the shuffled list is empty; otherwise it is one of the shuffled questions |
| GamePage.GamePageState.OnQuestionsLoaded | client/src/pages/GamePage.tsx:46-52 | a non-empty question list is replaced by its shuffle, a permutation of it; an empty one changes nothing; the round state is untouched |

## Left out

- HTTP plumbing (Express, `res.status().json()`, server creation) is left out. Handlers return a `Routes.Response` with a status and a body. The 500 branches are left out because no modelled operation throws anything but a validation error.
- The plain `GET` listings of categories, players and penalties are left out, because they only return `getAll*`. Those are modelled as the `MemStorage.GetAll*` functions.
- zod's internals are left out: error messages and the issue lists in 400 bodies. Validation is modelled as parse functions returning `None`.
- Schema.ParseInsertPlayer: it requires `score`. The insert schema allows the field to be absent (the column has a database default of 0), but `MemStorage` would store such a player without any score, a state the record type cannot express.
- Schema.ParseInsertQuestion: `extraClues` is a JSON column that accepts any JSON value. The model accepts only `null` or an array of strings, since that is all the application ever stores there.
- JSON numbers are integers in the model. Fractional numbers, `Infinity`, and parseInt's loss of precision on very long digit strings are left out.
- Async and Promise wrappers are left out: the store's methods are synchronous.
- `Math.random` is left out. The shuffle's picks and the penalty draw's indices are parameters constrained to the ranges `Math.floor(Math.random() * n)` produces. Distributions are not modelled.
- Timers are left out: `setInterval` timing, notifications and sounds. Only the transition of one tick is modelled. With the timer off, no interval exists, so the model's tick is a no-op.
- Rendering is left out: the timer-bar width percentage (floating point), confetti and all JSX.
- The question forms, modals, `excelParser.ts` and `DataImport.tsx` are not part of this model. The client import forwards only five columns, so variant fields reach the bulk route only from other clients.
- `req.query.clear` and `req.query.categoryId` are modelled as an optional string. Repeated query parameters, which Express turns into arrays, are left out.
- Concurrency between requests is left out: each handler runs to completion on the store.
