# Word Horizon Academy: session state machine and analysis client

Word Horizon Academy is a themed front end over a remote text-generation
service. The user picks a language and a learning category, types a word,
topic or sentence, and the service returns a structured analysis that is
shown as a card. This project models the two parts of the application that
carry logic of their own:

- **The session** (`App.tsx`): six screens (`LANG_SELECT`, `CAT_SELECT`,
  `WORD_INPUT`, `LOADING`, `ANALYSIS`, `ERROR`), the language and category
  selections, the input buffer, the current result, the loading flag, the
  append-only history, the favorites list with toggle semantics, and the
  phone overlay flag. The one submit path (`executeAnalysis`) trims the
  input, ignores empty terms and missing selections, recognises the in-band
  commands `fav`, `history`/`favorites`/`my favorites` and `menu`/`home` by
  exact comparison of the lower-cased term, and otherwise starts an
  analysis. The asynchronous handler is split into two steps. `Submit` runs
  everything before the `await` and records the captured term, language and
  category as an outstanding call. `Complete` (or `Settle`, which also runs
  the client) runs everything after it.
- **The analysis client** (`analyzeWord` in `geminiService.ts`): one call
  to the service, a single retry when the caught value is an `Error` whose
  message contains `xhr error`, and the overwrite of the payload's category
  on the primary path.

## Layout

- `types.dfy` (`Types`): languages, categories, screens, the analysis
  payload reduced to `word` and `category`, history entries.
- `js_text.dfy` (`JsText`): `String.prototype.trim`, `toLowerCase` and
  `includes`, with their characterisations.
- `gemini_service.dfy` (`GeminiService`): the request configurations, the
  response schema's top-level field lists, and `AnalyzeWord`. The service
  is an oracle: the caller passes the response the first call gets and the
  one a retry would get. `JSON.parse` is a function parameter.
- `app.dfy` (`App`): the pure submit decision, the favorites list
  functions, the placeholder, the transition functions over a `State`
  value, and the `Session` class. Each method of the class is proved
  against those functions.
- `scenarios.dfy` (`Scenarios`): walkthroughs on fresh sessions, each
  with what it ends in as its postcondition.

## Where the code is looser than one might expect

The model follows the code in each of these places:

- The Back buttons change only the screen; they do not clear the language
  or category (App.tsx:240, 278).
- Submissions are not refused while a call is outstanding. The phone
  overlay is always reachable, so a second analysis can start during
  `LOADING`.
- A completion is applied whatever happened meanwhile. There is no
  stale-result guard: an answer that arrives after a reset still shows the
  result screen, with no language selected (`Scenarios.LateCompletionAfterReset`).
- A failed analysis shows the error screen but keeps the previous result
  and the input.
- `fav` with no current result is not a no-op. It is analysed as an
  ordinary word (`App.FavWithoutResultIsAnalysed`).
- A payload returned by the retry keeps whatever category the service
  echoed. Only the primary path stamps the requested category.

## Model

| member | source | states |
|---|---|---|
| `JsText.Trim` | App.tsx:69 | `inputText.trim()` drops leading and trailing whitespace/line terminators only; the result is empty exactly when every character is whitespace, and otherwise starts and ends with a kept character |
| `JsText.TrimIsSlice` | App.tsx:69 | the trimmed term is a slice of the input with only whitespace before and after it |
| `JsText.TrimUnchanged` | App.tsx:69 | a term with nothing to trim at either end is submitted as typed |
| `JsText.TrimIdempotent` | App.tsx:69 | trimming an already trimmed term changes nothing |
| `JsText.ToLower` | App.tsx:73 | lower-casing keeps the length and maps each character on its own |
| `JsText.LowerEquals` | App.tsx:73-84 | comparing the lower-cased term with a lower-case command is a whole-string, case-insensitive comparison (same length, each character the command's in either case) |
| `JsText.Includes` | geminiService.ts:195 | `message.includes('xhr error')` holds exactly when the fragment occurs at some offset of the message |
| `GeminiService.SchemaRequiresMandatory` | geminiService.ts:124 | the schema requires exactly the twelve mandatory fields of the analysis record (types.ts), none of the optional ones |
| `GeminiService.SchemaOrdersAllFields` | geminiService.ts:125 | the schema's field order is the record's field list in declaration order: the twelve mandatory fields, then `trickyPairs`, `quiz`, `vocabUpgrades` and `grammar` |
| `GeminiService.NoResponseNotRetryable` | geminiService.ts:192-195 | the "No response" error does not contain `xhr error`, so it is never retried |
| `GeminiService.AnalyzeWord` | geminiService.ts:176-209 | at most two calls; the first uses `gemini-3-pro-preview` with thinking budget 2000, the retry `gemini-3-flash-preview` with none, both the same schema and prompt; a retry happens exactly when the caught value is an `Error` whose message contains `xhr error`; a primary payload carries the requested category, a retried one is returned as parsed; a retry without text rethrows the first error, a retry that throws or does not parse propagates its own |
| `App.ChosenTerm` | App.tsx:69-70 | `wordToSearch || inputText.trim()`: a non-empty argument is used as given; the term is empty exactly when there is no argument (or an empty one) and the input is all whitespace |
| `App.Classify` | App.tsx:70-87 | the handler does nothing exactly when the term is empty or a selection is missing; the `fav` toggle needs a current result; an analysis is of the term as chosen |
| `App.ClassifyMeaning` | App.tsx:69-87 | nothing happens without a term, a language and a category; otherwise a term spelling `fav` in any case toggles the favorite only when there is a current result, one spelling `history`/`my favorites`/`favorites` opens the overlay, one spelling `menu`/`home` resets, and every other term is analysed in the case it was typed |
| `App.FavWithoutResultIsAnalysed` | App.tsx:74-78 | `fav` with no current result is not intercepted and is sent for analysis |
| `App.ArgumentIsNotTrimmed` | App.tsx:69 | a term passed by the overlay is not trimmed: " menu" is analysed, not taken for a command |
| `App.InputIsTrimmed` | App.tsx:69-86 | a typed " menu " is trimmed and resets the session |
| `App.Without` | App.tsx:61 | `filter(w => w !== word)` keeps exactly the entries other than the word, never more of them |
| `App.WithoutAbsent` | App.tsx:61 | filtering out an absent word leaves the list as it was |
| `App.WithoutAt` | App.tsx:58-61 | in a list without duplicates, filtering out an entry removes just its position and keeps the others in order |
| `App.ToggleMembership` | App.tsx:57-66 | toggling flips the word's membership and no other word's |
| `App.ToggleFacts` | App.tsx:57-66 | toggling appends an absent word at the end, takes a present word out of its place, keeps the others in order, and never creates a duplicate |
| `App.ToggleTwice` | App.tsx:57-66 | toggling an absent word twice restores any list exactly; in a list without duplicates, toggling a present word twice moves it to the end |
| `App.GetPlaceholder` | App.tsx:116-134 | the input placeholder for the selected language and category; it begins with the Vietnamese "Nhập" exactly when Vietnamese is selected, and no language reads as English |
| `App.PlaceholderDistinguishes` | App.tsx:116-134 | two placeholders are equal exactly when the categories are equal and both or neither selection is Vietnamese; no language reads as English |
| `App.SubmitFacts` | App.tsx:68-92 | a submission never touches the history, adds one outstanding call exactly when it analyses, changes nothing for an empty term or a missing selection, and an analysis shows the loading screen with the loading flag set |
| `App.CompleteFacts` | App.tsx:93-105 | a completion ends on the result screen exactly when it succeeded and on the error screen exactly when it failed, with the loading flag down; the history grows by one entry, at the end, exactly on success |
| `App.SubmitKeepsConsistent` | App.tsx:68-92 | a submission keeps favorites free of duplicates, the selections each screen needs, a result on the result screen, an outstanding call and the loading flag on the loading screen, and a non-empty term in every outstanding call |
| `App.CompleteKeepsConsistent` | App.tsx:93-105 | a completion keeps the same invariant |
| `App.Session.constructor` | App.tsx:13-24 | the session starts on the language screen with nothing selected, empty input, no result, empty history and favorites, and the overlay closed |
| `App.Session.SelectLanguage` | App.tsx:39-43 | selecting a language sets it and shows the category screen |
| `App.Session.SelectCategory` | App.tsx:45-49 | selecting a category sets it and shows the input screen |
| `App.Session.BackToLanguages` | App.tsx:240 | Back on the category screen changes only the screen |
| `App.Session.BackToCategories` | App.tsx:278 | Back on the input screen changes only the screen |
| `App.Session.SetInput` | App.tsx:266 | typing replaces the input buffer and nothing else |
| `App.Session.OpenPhone` | App.tsx:155-156 | the phone button opens the overlay and changes nothing else |
| `App.Session.ClosePhone` | App.tsx:141 | closing the overlay changes nothing else |
| `App.Session.AddToHistory` | App.tsx:50-54 | one entry with the word, the category and the given time is appended at the end, with no deduplication; nothing else changes |
| `App.Session.ToggleFavorite` | App.tsx:57-66 | the favorites become the toggled list and the word's membership flips |
| `App.Session.ResetToStart` | App.tsx:108-114 | clears language, category, input and result and shows the language screen; history, favorites, the overlay and outstanding calls are untouched |
| `App.Session.Submit` | App.tsx:68-92 | the handler's decision and its effect on the whole state, with the captured term and selections recorded for an analysis |
| `App.Session.Perform` | App.tsx:74-91 | each decided action's effect on the whole state: the toggle and the overlay command clear the input, the reset command resets, an analysis shows the loading screen and records the captured term and selections |
| `App.Session.Complete` | App.tsx:93-105 | applies a completion to the whole state, whatever screen is showing, and counts a success exactly when the client returned, so the history keeps one entry per success |
| `App.Session.Settle` | App.tsx:93-105 | runs the client on the captured term and selections and completes the call: the primary and retry requests carry the captured values, a retry happens exactly on a transport error, a failure ends on the error screen with the error that propagated, and a result from the first service call carries the category selected at submission |
| `App.Session.SelectFromPhone` | App.tsx:139-145 | picking an overlay entry submits it as the argument and then closes the overlay |
| `Scenarios.HeartRound` | App.tsx:68-106 | English, word formation, "Heart", first call answers: result screen, history holds one entry, one service call |
| `Scenarios.FavTwice` | App.tsx:74-78 | from a result, "fav" then "FAV" adds and removes it from favorites, staying on the result screen with no call made |
| `Scenarios.MenuFromResult` | App.tsx:84-86 | "Menu" from a result returns to the first screen with no selections and the history kept |
| `Scenarios.ErrorThenStartOver` | App.tsx:100-102 | a non-transport error gives one call and the error screen; "Start over" returns to the first screen |
| `Scenarios.RetryRound` | geminiService.ts:193-206 | a transport error then a good retry: two calls, the result screen, and the service's echoed category kept |
| `Scenarios.FavWithoutResult` | App.tsx:74 | "fav" with no result starts an analysis of "fav" |
| `Scenarios.HistoryCommand` | App.tsx:79-83 | "History" opens the overlay, clears the input and stays on the same screen |
| `Scenarios.LateCompletionAfterReset` | App.tsx:93-105 | a reset from the overlay during loading does not stop the late answer from showing the result screen and adding to the history |

## Left out

- Rendering, styling and the presentational components (`WordAnalysisCard`, `IsabelleAvatar`, the overlay's list). The overlay's only effect on the session is picking an entry, modelled as `SelectFromPhone`.
- The sound-effect caption and its `setTimeout`: cosmetic and timer-driven.
- The input focus effect and speech synthesis: browser APIs.
- The SDK client, API key and network call: the two possible responses are oracle parameters. `JSON.parse` is a function parameter. `console.error` logging is left out.
- The payload is reduced to `word` and `category`. A JSON value that is not an object (such as `null`) would make the category write throw; this is not modelled.
- The prompt text: `Prompt` only records that it embeds the term, the category name and the language.
- The nested parts of the response schema (word-family entries, quiz, grammar block): only the top-level required list and field order are modelled.
- Asynchronous interleaving: submissions and completions are discrete steps. The caller chooses which outstanding call completes next (`k`), but nothing is proved about concurrent runs.
- `Date.now()`: the timestamp is a parameter of `Complete` and `AddToHistory`.
- JsText.ToLower: folds only 'A'-'Z' and the Kelvin sign (which lower-cases to 'k'). Every other character's lower-case form is itself or contains a non-ASCII character, so whether a term equals one of the ASCII commands is unaffected. The lower-cased string itself is only exact for such terms.
- React batches the state writes of one handler; the model applies them in order. The only place where the order could show is picking a command such as `history` from the overlay, which sets the overlay open and then closed; the later write wins in both.
