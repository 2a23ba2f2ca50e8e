# Documentation-site search, modelled in Dafny

This project models the client-side search of the driver's documentation
site (`js/app.js`): the query executors behind the Angular `search` service,
the `search` controller that turns a query into a version-scoped, navigable
result list, and the two string helpers of the page script (the
`String.prototype.trim` polyfill and the table-of-contents button label).

- `common.dfy` (`Common`): `Option`, `Result` and the runtime errors the code can raise.
- `text.dfy` (`Text`): the trim polyfill as `LeadingSpaces`/`TrailingSpaces`/`Trim`, and the section label.
- `pages.dfy` (`Pages`): the page registry, `Matching` (the version filter as a function) and `CollectPages` (the `forEach`/`push` loop proved equal to it).
- `executors.dfy` (`Executors`): the in-page executor `LocalSearch` and the worker-backed executor `WorkerSearch`, each a class whose fields are the state the factory closure keeps.
- `session.dfy` (`Session`): the controller `SearchController`, a class over `q`, `hasResults`, `results` and `current`.
- `scenarios.dfy` (`Scenarios`): concrete runs (version scoping, short query, submit, clamping, late answers, the worker protocol), each proved.

Asynchrony is modelled by splitting each asynchronous operation into the
call that starts it and a separate method for the event that completes it:
`SearchController.Search` issues a query, returned as a `Request` that
carries the version the completion filters by, and
`SearchController.OnResults` applies an answer to that request;
`LocalSearch.OnFetched` is the index fetch resolving; `WorkerSearch.Receive`
is one message from the worker. Navigation is the string `Submit` returns.

Three behaviours of the code that the model keeps as written:

- An id that is not in the registry makes `page.version` throw (js/app.js:125-127). The model returns `Failure(UnknownPage(id))` naming the first such id and leaves the controller state untouched; it does not filter the id out.
- Every answer overwrites the controller state, so the answer that arrives last wins, even when it belongs to an older query (`Scenarios.StaleAnswerWins`). There is no generation counter.
- The worker's `query-ready` reply resolves whatever deferred `results` names at that moment, the one created by the most recent query (`Scenarios.WorkerReplyGoesToLatest`); an earlier, overwritten deferred is never resolved.

## Model

| member | source | states |
|---|---|---|
| Text.LeadingSpaces | js/app.js:4-6 | the count is the length of the longest prefix made only of whitespace, BOM and no-break space |
| Text.TrailingSpaces | js/app.js:4-6 | the count is the length of the longest all-space suffix |
| Text.Trim | js/app.js:4-6 | the result has no space at either end, is a contiguous piece of the input, and everything before and after that piece is space |
| Text.TrimUnique | js/app.js:4-6 | splitting a string into all-space prefix, trimmed middle and all-space suffix always gives the trim result as the middle |
| Text.TrimIdempotent | js/app.js:4-6 | trimming a trimmed string changes nothing |
| Text.TrimIgnoresPadding | js/app.js:4-6 | adding spaces around a string does not change its trimmed form |
| Text.Shorten | js/app.js:216-218 | a title of at most 30 characters is kept; a longer one becomes its first 30 characters followed by "..." |
| Text.SectionLabel | js/app.js:211-219 | the label is "Jump to..." exactly when no link is active or the trimmed text is "Page Top"; otherwise it is "Viewing: " followed by the shortened trimmed text |
| Text.LabelIgnoresPadding | js/app.js:211-219 | whitespace around the link text never changes the label |
| Pages.Matching | js/app.js:122-130 | the kept pages number at most the ids and every one has the requested version |
| Pages.MatchingAppend | js/app.js:124-130 | filtering two id lists one after the other gives the two filtered lists in the same order |
| Pages.MatchingMembers | js/app.js:124-130 | a page is kept if and only if it has the requested version and some returned id maps to it |
| Pages.MatchingKeepsAll | js/app.js:124-130 | when every returned page has the requested version, the result is the looked-up pages one for one |
| Pages.CollectPages | js/app.js:122-130 | the lookup loop yields exactly the version filter of the ids, or fails naming the first id the registry lacks |
| Executors.RefsOf | js/app.js:44-48 | one id per hit, equal to that hit's ref, in hit order |
| Executors.LocalSearch.constructor | js/app.js:29-31 | the in-page executor starts not ready, with no index and nothing waiting |
| Executors.LocalSearch.Query | js/app.js:42-50 | with the index loaded the answer is the refs of the index's hits; before that the query waits on the fetch |
| Executors.LocalSearch.OnFetched | js/app.js:31-36 | loading the index raises the ready flag and answers every waiting query, in order, from the loaded index |
| Executors.WorkerSearch.constructor | js/app.js:54-59 | the worker executor starts not ready, with no deferred, nothing gated and nothing posted |
| Executors.WorkerSearch.Query | js/app.js:83-91 | after the index is ready a query creates a new latest pending slot and posts exactly one search message; before that it is gated |
| Executors.WorkerSearch.Dispatch | js/app.js:88-90 | a dispatched query overwrites `results` with a fresh pending deferred and posts `{e:'search', q}` |
| Executors.WorkerSearch.Receive | js/app.js:64-79 | `ready` posts exactly a load message with the base path; `index-ready` sets the flag and releases the gated queries; `query-ready` resolves only the latest slot, if still pending, or fails when none exists; other tags change nothing |
| Executors.WorkerSearch.ReleaseGated | js/app.js:86-91 | the gated queries are dispatched in the order they were made, one pending slot and one search message each |
| Session.SearchController.constructor | js/app.js:109-111 | the controller starts with no results, no selection and no query |
| Session.SearchController.Clear | js/app.js:113-117 | afterwards there are no results and no selection, and the invariant holds |
| Session.SearchController.Search | js/app.js:119-143 | a query of two or more characters is issued unchanged, together with the requested version, and the state is untouched; a shorter one clears the results whatever they were; a missing query fails |
| Session.SearchController.OnResults | js/app.js:121-139 | the results become the filter of the returned ids by the request's version, with the first one selected, or are cleared when it is empty; an unknown id fails naming the first unknown id and changes nothing; the invariant holds afterwards |
| Session.SearchController.Reset | js/app.js:147-150 | the query and all result state are cleared |
| Session.SearchController.Submit | js/app.js:152-160 | the target is the base path followed by the selected result's path; a null result list fails; no state changes |
| Session.SearchController.MoveDown | js/app.js:166-171 | the selection moves down by one exactly when there are results and it is not on the last; otherwise nothing changes |
| Session.SearchController.MoveUp | js/app.js:173-178 | the selection moves up by one exactly when there are results and it is not on the first; otherwise nothing changes |
| Scenarios.VersionScopedSearch | js/app.js:119-139 | both versions of the features page come back and only the `v1.0.0` one is kept and selected |
| Scenarios.ShortQueryClears | js/app.js:119-143 | a one-character query after a successful search leaves no results and no selection |
| Scenarios.SubmitNavigates | js/app.js:152-160 | the `/api/` result under base path `/docs` navigates to `/docs/api/` |
| Scenarios.SelectionClamps | js/app.js:166-178 | with one result neither key moves the selection |
| Scenarios.StaleAnswerWins | js/app.js:121-139 | an older query's answer arriving last replaces the newer query's results |
| Scenarios.UnknownIdFails | js/app.js:124-127 | an answer with an id missing from the registry fails and leaves the shown results as they were |
| Scenarios.WorkerReplyGoesToLatest | js/app.js:64-91 | with two queries in flight, the first reply resolves the second query's slot and the first stays pending |
| Scenarios.WorkerGateReleasesInOrder | js/app.js:73-91 | queries made before the index is ready are posted after the load message, in the order they were made |

## Left out

- The indexing library (`lunr.Index.load`, `index.search`) is not part of this model: an `Index` carries its search function as a value.
- The HTTP fetch of the index, the `Worker` object and its message transport, `$rootScope.$apply`, `$q` scheduling and `$timeout` are I/O and scheduling; completions are separate method calls and navigation is a returned string.
- A failed index load has no path in the model. In the in-page code a failed fetch or index load rejects `fetch` (js/app.js:31-36), so every query chained on it rejects too; the controller's `then` has no rejection handler, so its state stays as it was. In the worker code a missing `index-ready` leaves the queries held at the gate (js/app.js:69-73, 86).
- The gated callbacks and the promise callbacks run at once in the model; the code runs them on a later tick, in the same order.
- `basePath()` (js/app.js:12-21) reads the DOM; the base path is a constructor parameter.
- The concrete page table (js/app.js:25) is a `Registry` parameter; the scenarios use three entries shaped like it.
- `summary` (`$sce.trustAsHtml`), the hotkeys directive, the `#content` height sync, the jQuery lookups around the label and all clipboard and tooltip code are presentation and DOM glue.
- The `window.Worker` switch (js/app.js:97) only picks one executor; both are modelled side by side.
- Text.IsSpace: follows current ECMAScript whitespace, so U+180E, which some older engines treat as space, is not included.
- Session.SearchController.Search: lengths are counted in Unicode characters, not UTF-16 code units, so a query of one astral character counts as 1 where the browser counts 2; the same holds for the 30-character cut in Text.Shorten.
- Text.ButtonHtml: the markup written into the button is built but nothing is proved about it beyond the label.
- Session.SearchController.SetQuery: stands for the search box's `ng-model` binding, which lives in the page template rather than in js/app.js; it only writes `q`.
