# Posts search view and to-do list, modelled in Dafny

This project models two pieces of list logic from a small React application.

**The articles view** (`src/components/Posts.jsx`). The `useApiData` hook fetches the full article list. It filters the list locally against a search term: the term is matched, ignoring case, as a substring of the title, the description or any tag. It then cuts the filtered list into pages of ten and exposes `data`, `loading`, `error` and `totalCount`. The `ApiIntegration` component debounces the search box, resets to page 1 whenever a debounced term takes effect, accepts only page changes in `1 .. totalPages`, and picks one of several content blocks to render.

**The task manager** (`src/components/TaskManager.jsx`) holds a list of `{id, text, completed}` tasks. It can add a task (after trimming the input and refusing a blank one), toggle and delete tasks by id, filter by status, and count tasks.

Modules:

- `Wrappers`: `Option`.
- `Seqs`: an order-preserving `Filter`, the subsequence relation, and lemmas about filtering. Filtering keeps exactly the matching elements and never duplicates, and filtering is idempotent. It also distributes over concatenation, and a predicate and its complement split the length.
- `Strings`: ASCII `Lower`; `Contains`, a left-to-right search proved equal to "some occurrence exists"; JavaScript `trim` over the ECMAScript whitespace set; and decimal rendering of numbers with its inverse.
- `Posts`: the record type, the search predicate, `FilterPosts`, JavaScript `slice`, `PageSlice`, `TotalPages`, and the lemma that the pages concatenate back to the filtered list.
- `PostsView`: the view's whole state as a datatype, one transition function per event, an invariant that every event preserves, and lemmas about debouncing, the page guard, the fetch lifecycle and the render modes. The class `ApiIntegration` holds the same state in fields, and each of its event methods is proved to produce exactly the transition function's result.
- `Tasks`: `Toggle`, `Delete`, `FilteredTasks` and `Stats` as functions with lemmas, and the class `TaskManager` whose handlers update `tasks`, `newTask` and `filter`.

The model follows the code as written:

- `totalPages` is `Math.ceil(totalCount / 10)`, so it is 0 when nothing matches, not at least 1.
- There is no guard against out-of-order responses. Every fetch that settles writes its own result, so a stale response can overwrite a newer one. `PostsView.StaleResponseWins` exhibits such a trace: the view ends on term "b" but shows the records found for "a".
- Retry reloads the browser page, so there is no retry operation to model.

Modelling choices:

- The debounce is modelled with discrete events: an edit, the timer elapsing, and teardown. The timer is represented by the value it will emit.
- An edit that does not change the search box does nothing. React skips the re-render, so the debounce effect does not run again.
- The fetch effect starts a request only when the page or the debounced term differs from its last run, as React's dependency list does.
- Fetches in flight form a list. Any one of them may settle next.
- A fetch's outcome is an input: a response with a status and a body, or a thrown exception with a message.
- `error` counts as present only when it is set and non-empty, as JavaScript truthiness decides.
- After teardown, settling fetches change nothing but the in-flight list.

## Model

| member | source | states |
|---|---|---|
| `Seqs.Filter` | src/components/Posts.jsx:29 | the result is no longer than the input |
| `Seqs.FilterMembers` | src/components/Posts.jsx:29 | a value is in the result exactly when it is in the input and satisfies the predicate |
| `Seqs.FilterSubsequence` | src/components/Posts.jsx:29 | the result keeps the input's order: it is a subsequence of the input |
| `Seqs.FilterMultiset` | src/components/Posts.jsx:29 | each kept value occurs as often as in the input and every other value not at all: filtering never duplicates |
| `Seqs.FilterComplementLength` | src/components/TaskManager.jsx:61-62 | the parts kept by a predicate and by its complement have lengths that add up to the whole list |
| `Seqs.FilterLengthCountsPositions` | src/components/TaskManager.jsx:61-62 | the length of a filtered list is the number of positions whose element the predicate accepts |
| `Seqs.FilterConcat` | src/components/TaskManager.jsx:30 | filtering a concatenation is concatenating the filtered parts |
| `Seqs.FilterIdempotent` | src/components/TaskManager.jsx:44 | filtering twice with one predicate equals filtering once |
| `Seqs.FilterAll` | src/components/TaskManager.jsx:44 | a predicate every element meets keeps the whole list |
| `Seqs.FilterNone` | src/components/Posts.jsx:29 | a predicate no element meets keeps nothing |
| `Strings.Lower` | src/components/Posts.jsx:30 | lower-casing keeps the length and maps each character A-Z to its lower-case letter, leaving every other character |
| `Strings.LowerIdempotent` | src/components/Posts.jsx:30 | lower-casing an already lower-cased string changes nothing |
| `Strings.Contains` | src/components/Posts.jsx:30 | `includes` is true exactly when the needle occurs in the text at some position |
| `Strings.IsWhitespace` | src/components/TaskManager.jsx:23 | the characters `trim` removes: ECMAScript WhiteSpace and LineTerminator code points |
| `Strings.StartIndex` | src/components/TaskManager.jsx:23 | the index returned is the first non-whitespace position at or after the start, and everything skipped is whitespace |
| `Strings.EndIndex` | src/components/TaskManager.jsx:23 | the index returned is one past the last non-whitespace position before the end, and everything skipped is whitespace |
| `Strings.Trim` | src/components/TaskManager.jsx:23 | the trimmed text is no longer than the input and neither starts nor ends with whitespace |
| `Strings.TrimIsInfix` | src/components/TaskManager.jsx:26 | the trimmed text is a contiguous middle part of the input, with only whitespace cut off on either side |
| `Strings.TrimEmptyIff` | src/components/TaskManager.jsx:23 | the input trims to the empty string exactly when it consists only of whitespace |
| `Strings.TrimIdempotent` | src/components/TaskManager.jsx:26 | trimming a trimmed string changes nothing |
| `Strings.DecimalString` | src/components/Posts.jsx:21 | the interpolated status is a non-empty string of digits with no leading zero: it starts with '0' only when it is "0", for the status 0 |
| `Strings.DecimalRoundTrip` | src/components/Posts.jsx:21 | reading the rendered numeral back gives the number |
| `Posts.SomeTagContains` | src/components/Posts.jsx:32 | `tags.some(...)` is true exactly when some tag, lower-cased, contains the term |
| `Posts.Matches` | src/components/Posts.jsx:29-33 | the search test: the lower-cased term occurs in the lower-cased title, or in the description when there is one, or in some tag when there are tags |
| `Posts.FilterPosts` | src/components/Posts.jsx:26-34 | an empty term keeps the fetched list unchanged; a non-empty term keeps a record exactly when it matches; every matching record keeps all its occurrences and no other record occurs; the result is an order-preserving subsequence |
| `Posts.FilterPostsMembership` | src/components/Posts.jsx:29-33 | with a non-empty term, a record is kept exactly when the lower-cased term occurs in its lower-cased title, in its description when present, or in some tag when tags are present |
| `Posts.TitleOnlyRecord` | src/components/Posts.jsx:30-32 | a record with no description and no tags is found only through its title |
| `Posts.NoMatchFiltersAll` | src/components/Posts.jsx:28-33 | when no record matches a non-empty term, the filtered list is empty |
| `Posts.JsSlice` | src/components/Posts.jsx:41 | for non-negative bounds, `slice` is the clamped range of the list; a start past the end gives the empty list, never an error |
| `Posts.PageSlice` | src/components/Posts.jsx:38-41 | for a page of 1 or more, the visible data is `filtered[(page-1)*10 .. min(page*10, n)]`: at most 10 records, and empty past the end |
| `Posts.TotalPages` | src/components/Posts.jsx:200 | `ceil(count / 10)`: the least number of pages of ten that holds every record, and 0 exactly when there are no records |
| `Posts.AllPagesPrefix` | src/components/Posts.jsx:39-41 | pages 1..k concatenated are the first `min(10k, n)` filtered records |
| `Posts.PagesReassemble` | src/components/Posts.jsx:39-41 | pages 1..totalPages concatenated give back exactly the filtered list, with nothing lost or repeated |
| `Posts.PageNonEmptyIff` | src/components/Posts.jsx:200-207 | a page of 1 or more has records exactly when it is at most totalPages, which are the pages the guard accepts |
| `Posts.TwentyFiveRecords` | src/components/Posts.jsx:39-41 | 25 records make 3 pages, and page 3 holds the last 5 |
| `PostsView.HttpErrorMessage` | src/components/Posts.jsx:21 | the message is "HTTP error! status: " followed by the status in decimal digits, with no leading zero unless the numeral is "0" |
| `PostsView.HttpErrorMessageStatus` | src/components/Posts.jsx:21 | the status can be read back from the message |
| `PostsView.IsOkStatus` | src/components/Posts.jsx:20 | `response.ok`: the status lies in 200-299 |
| `PostsView.Init` | src/components/Posts.jsx:180-198 | after mounting: page 1, empty search box and debounced term, a timer armed for the box value, one fetch in flight for page 1 and '', `loading` set, no data, count 0, no error |
| `PostsView.OnEdit` | src/components/Posts.jsx:185-192 | while mounted, an edit sets the search box and, when the value changes, re-arms the timer for it; torn down or unchanged, nothing happens; nothing but the box and the timer ever changes |
| `PostsView.OnClearSearch` | src/components/Posts.jsx:273 | while mounted, the search box becomes '' and, when it was not already '', the timer is armed for ''; nothing but the box and the timer changes; when the box is already '' or the view is torn down, the click changes nothing, so a timer armed for '' stays armed |
| `PostsView.OnTimerElapsed` | src/components/Posts.jsx:186-188 | with no timer armed nothing happens; otherwise the debounced term becomes the timer's value, the page becomes 1, the timer is spent and the fetch effect is registered for (1, term), while the box, the data and the count stay |
| `PostsView.OnUnmount` | src/components/Posts.jsx:191 | the view is torn down and its timer cleared; nothing else changes |
| `PostsView.PageAccepted` | src/components/Posts.jsx:207 | `handlePageChange`'s guard: 1 <= page <= totalPages |
| `PostsView.OnPageChange` | src/components/Posts.jsx:206-212 | a page outside 1 .. totalPages, or a torn-down view, leaves the state unchanged; an accepted page becomes current and the fetch effect is registered for it, while `mounted`, the terms, the timer, the data and the count stay |
| `PostsView.OnFetchSettled` | src/components/Posts.jsx:15-47 | an index past the in-flight list changes nothing; otherwise that request leaves the list; torn down, nothing else changes; mounted, loading ends; the terms, page, timer and effect dependencies never change |
| `PostsView.RunFetchEffect` | src/components/Posts.jsx:10-13 | the effect runs only when the page or the debounced term changed; when it does, a request for them starts with `loading = true` and `error = null`, and every other field, including the old data and count, stays as it was |
| `PostsView.Settle` | src/components/Posts.jsx:20-47 | every outcome ends with `loading = false` and leaves the page, the terms and the timer untouched |
| `PostsView.StepPreservesInv` | src/components/Posts.jsx:185-212 | every event preserves the invariant: page >= 1; the armed timer carries the current search box value; while loading, no error is set and the latest request is in flight; at most 10 visible records |
| `PostsView.RunPreservesInv` | src/components/Posts.jsx:185-212 | any sequence of events preserves the invariant |
| `PostsView.ReachableInv` | src/components/Posts.jsx:180-198 | every state reachable after mounting satisfies the invariant |
| `PostsView.InitInv` | src/components/Posts.jsx:180-182 | the state after mounting satisfies the invariant |
| `PostsView.EditBurst` | src/components/Posts.jsx:185-192 | a burst of edits moves only the search box and the timer: the timer is armed for the last value typed, and nothing is emitted during the burst |
| `PostsView.TimerEmitsLatest` | src/components/Posts.jsx:186-189 | when the timer elapses, the debounced term becomes the current search box value and the page becomes 1; a fetch starts exactly when that changes the page or the term, and when it changes neither, nothing but the debounced term, the page and the timer changes and no request is added |
| `PostsView.BurstThenTimer` | src/components/Posts.jsx:185-192 | typing a burst that ends on a new value and then letting the timer elapse settles exactly that last value, on page 1 |
| `PostsView.NoEmissionAfterUnmount` | src/components/Posts.jsx:191 | after teardown, no sequence of events changes the debounced term or the page |
| `PostsView.NoEmissionWhileUnmounted` | src/components/Posts.jsx:191 | while torn down, no sequence of events changes the debounced term or the page |
| `PostsView.PageChangeGuard` | src/components/Posts.jsx:206-212 | a page change is taken exactly when 1 <= page <= totalPages and otherwise leaves the state unchanged; re-taking the current page starts no fetch and changes nothing; taking a new page changes exactly the page and the effect dependencies, adds one request for that page and term, sets `loading` and clears `error` |
| `PostsView.NoPagesWhenEmpty` | src/components/Posts.jsx:200-208 | with no records, every page change is refused |
| `PostsView.SettleOutcome` | src/components/Posts.jsx:20-47 | settling ends loading; a success sets the count and at most 10 records of the request's own page and term and leaves the error alone; a non-ok status sets "HTTP error! status: N"; an exception sets its message; a failure leaves the old data and count |
| `PostsView.LatestSuccessIsShown` | src/components/Posts.jsx:36-41 | when only the current request is in flight and it succeeds, the view shows the current page of the current term's filtered list, with its count |
| `PostsView.NoMatchShowsNoResults` | src/components/Posts.jsx:267 | a non-empty term that matches nothing yields no data, a count of 0 and the "no results" view |
| `PostsView.StaleResponseWins` | src/components/Posts.jsx:10-51 | without an ordering guard, an older fetch that settles last overwrites the newer term's results |
| `PostsView.ShowSpinner` | src/components/Posts.jsx:263 | the spinner renders while `loading` |
| `PostsView.ShowErrorPanel` | src/components/Posts.jsx:265 | the error panel renders while `error` is truthy |
| `PostsView.ShowSummary` | src/components/Posts.jsx:245-260 | the results summary renders when not loading and no truthy error |
| `PostsView.ShowNoResults` | src/components/Posts.jsx:267-279 | "no articles found" renders when not loading, no error, no records on the page and a non-empty debounced term |
| `PostsView.ShowPostList` | src/components/Posts.jsx:281-288 | the post grid renders when not loading, no error and at least one record on the page |
| `PostsView.ShowPagination` | src/components/Posts.jsx:290-291 | pagination renders with the post grid when there is more than one page |
| `PostsView.Mode` | src/components/Posts.jsx:263-281 | the spinner, error panel, "no results" and list conditions each hold in exactly one render mode, so at most one content block renders; "no results" needs a non-empty debounced term and is distinct from an empty feed |
| `PostsView.HttpFailureShowsError` | src/components/Posts.jsx:265 | a non-ok response always renders the error panel |
| `PostsView.ApiIntegration.constructor` | src/components/Posts.jsx:180-198 | after mounting: empty search, page 1, a timer armed for '', and a fetch of page 1 in flight with `loading = true` |
| `PostsView.ApiIntegration.FetchEffect` | src/components/Posts.jsx:10-13 | the fields change exactly as `RunFetchEffect` says |
| `PostsView.ApiIntegration.Edit` | src/components/Posts.jsx:185-192 | an edit updates the search box and re-arms the timer exactly as `OnEdit` says, keeping the invariant |
| `PostsView.ApiIntegration.ClearSearch` | src/components/Posts.jsx:273 | the state changes exactly as `OnClearSearch` says |
| `PostsView.ApiIntegration.TimerElapsed` | src/components/Posts.jsx:186-189 | the state changes exactly as `OnTimerElapsed` says, keeping the invariant |
| `PostsView.ApiIntegration.Teardown` | src/components/Posts.jsx:191 | the timer is cleared and the view is marked torn down |
| `PostsView.ApiIntegration.ChangePage` | src/components/Posts.jsx:206-212 | the state changes exactly as `OnPageChange` says, keeping the invariant |
| `PostsView.ApiIntegration.FetchSettled` | src/components/Posts.jsx:15-47 | the state changes exactly as `OnFetchSettled` says, keeping the invariant |
| `PostsView.ApiIntegration.SettleRequest` | src/components/Posts.jsx:20-47 | the fields change exactly as `Settle` says |
| `Tasks.Toggle` | src/components/TaskManager.jsx:35-41 | length and order are kept; exactly the tasks with the given id have `completed` flipped, and every other task is unchanged |
| `Tasks.ToggleTwice` | src/components/TaskManager.jsx:35-41 | toggling the same id twice restores the list |
| `Tasks.ToggleMissing` | src/components/TaskManager.jsx:38 | toggling an id no task carries changes nothing |
| `Tasks.ToggleKeepsIdsAndTexts` | src/components/TaskManager.jsx:38 | toggling never changes any task's id or text |
| `Tasks.Delete` | src/components/TaskManager.jsx:43-45 | keeps, in order and without duplication, exactly the tasks whose id differs from the given one |
| `Tasks.DeleteIdempotent` | src/components/TaskManager.jsx:43-45 | deleting twice equals deleting once |
| `Tasks.DeleteMissing` | src/components/TaskManager.jsx:43-45 | deleting an id no task carries leaves the list unchanged |
| `Tasks.FilteredTasks` | src/components/TaskManager.jsx:47-56 | 'active' gives exactly the incomplete tasks, 'completed' exactly the completed ones, each with all its occurrences; any other value gives the whole list; each result is an order-preserving subsequence |
| `Tasks.Stats` | src/components/TaskManager.jsx:59-63 | total is the number of tasks; active is the number of positions holding an incomplete task, completed the number holding a completed one; active + completed = total |
| `Tasks.FilterSizesMatchStats` | src/components/TaskManager.jsx:47-63 | the 'active' view has as many tasks as the active counter, the 'completed' view as many as the completed counter, 'all' as many as the total |
| `Tasks.AddCountsAsActive` | src/components/TaskManager.jsx:22-33 | appending a new incomplete task adds one to the total and one to the active count |
| `Tasks.TaskManager.Visible` | src/components/TaskManager.jsx:58 | the shown list is the selected filter's view of the tasks: exactly the incomplete or completed ones (with every occurrence, in order) for 'active' or 'completed', the whole list otherwise; its length is that filter's counter |
| `Tasks.TaskManager.constructor` | src/components/TaskManager.jsx:10-12 | starts with the stored tasks, an empty input and the 'all' filter |
| `Tasks.TaskManager.SetNewTask` | src/components/TaskManager.jsx:111 | only the input text changes |
| `Tasks.TaskManager.SetFilter` | src/components/TaskManager.jsx:128 | only the selected filter changes |
| `Tasks.TaskManager.AddTask` | src/components/TaskManager.jsx:22-33 | a blank input (after trimming) changes nothing; otherwise exactly one task with the trimmed text and `completed = false` is appended after the unchanged earlier tasks, and the input becomes '' |
| `Tasks.TaskManager.ToggleTask` | src/components/TaskManager.jsx:35-41 | the tasks become `Toggle` of the old tasks; the input and the filter are unchanged |
| `Tasks.TaskManager.DeleteTask` | src/components/TaskManager.jsx:43-45 | the tasks become `Delete` of the old tasks; the input and the filter are unchanged |

## Left out

- Network I/O: `fetch`, `response.json()` and the artificial 500 ms delay (src/components/Posts.jsx:17-24) are not modelled. A fetch's outcome is an input: a status with a body, or an exception with a message. A malformed body throws at run time; that is the "exception" outcome. With a non-empty term, a record without a string title also makes the filter throw, which is again the exception outcome. With the empty term the source skips the filter and shows such records, but the model's `Post` cannot represent them.
- Record format: `tags` is taken to be a list of strings, as the search expects. A string-valued `tags` field would make `tags.some` throw. That case is also just the exception outcome; it is not modelled as a separate case.
- Real time: the 300 ms debounce and the 500 ms delay. Timers are discrete events.
- Unicode case mapping: `Strings.Lower` maps only A-Z. Full `toLowerCase` is not modelled.
- `PostsView.Mode`: the invariant is required so that the spinner and the error panel are exclusive. No claim is made for states that no sequence of events can reach.
- Concurrency beyond ordering: every event is atomic. React's batching of the state updates inside one handler or one `try`/`catch`/`finally` is taken as given.
- Retry: `handleRetry` reloads the browser page (src/components/Posts.jsx:202-204), and `window.scrollTo` (line 210) is a browser side effect. Neither is modelled.
- The first render before the effects run, when `loading` is still its initial `false`, is not modelled. The model starts from the state after mounting.
- `PostsView.OnTimerElapsed`, `PostsView.OnPageChange`: each runs the fetch effect in the same step as the state update that triggers it. In the source, the new debounced term or page is first committed and rendered with the old `loading = false`, `data`, `totalCount` and `error`; only then does the effect set `loading = true`. That intermediate render is not modelled. For example, with an empty page and a new non-empty term it briefly shows "No articles found matching" where the model goes straight to the spinner. In it, the invariant's `effectDeps == Request(currentPage, debouncedSearchTerm)` does not hold, so `PostsView.Mode` makes no claim about it.
- Task ids and timestamps: `Date.now()` and `createdAt` (src/components/TaskManager.jsx:25, 28) are not modelled. The id is a parameter of `AddTask`, and nothing makes ids unique.
- Persistence: `useLocalStorage`, the theme context and `console.log` (src/components/TaskManager.jsx:9-20) are not modelled. The task list comes in through the constructor.
- Presentation: the JSX markup, `Pagination`, `PostCard`, `LoadingSpinner`, `ErrorMessage`, routing, the navigation bar, the pages, and the styled components are not modelled.
- `Math.ceil` on floating point: `TotalPages` is exact integer arithmetic. It agrees with the source for every count that a JavaScript array length can take.
