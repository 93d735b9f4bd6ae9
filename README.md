# EduZap requests page — a Dafny model of its logic

The requests page of EduZap (`src/Pages/Landing.jsx`) is a React component
that lists "requests" (name, phone, title, optional image, timestamp) from a
REST backend, creates new ones through a dialog and deletes them after a
confirmation. Around the rendering and the `fetch` calls it holds a small
amount of genuine logic, which this project models and proves properties
of:

- the create-form validator (`validateForm`): `trim`-based "required"
  checks for name and title, and the phone checks that stop at the first
  failure (required, digits only, exactly ten characters); the form is
  submittable exactly when the error object has no keys;
- the duplicate-title summary computed from each loaded page: a count of
  every title, then the titles counted more than once;
- the "recent" badge (`isRecent`);
- the view state and its handlers: the sort-order toggle, the page change,
  opening and closing the create dialog, submitting it, the delete
  confirmation and the confirmed delete;
- the rule that decides what the phone field shows under it.

Files:

- `js_text.dfy` — `Wrappers.Option`; `JsText`: the ECMAScript whitespace set,
  `String.prototype.trim` (ECMAScript section 22.1.3.32) as `TrimStart` /
  `TrimEnd` / `Trim`, and the regular expression `/^\d+$/`.
- `form_validation.dfy` — `FormValidation`: the validator's error object as
  a specification function, the imperative validator body proved against
  it, and the phone helper-text rule.
- `request_list.dfy` — `RequestList`: the request record, the two counting
  loops proved against the counting and summary functions, and `isRecent`.
- `prototype_counting.dfy` — `PrototypeCounting`: the count exactly as the
  page computes it with a plain `{}` object (see "## Findings").
- `landing_view.dfy` — `LandingView`: three classes for the page state as
  the handlers use it — `ListState` (loaded page, sort order, pagination,
  duplicate summary), `CreateDialog` (open flag, draft, validation errors,
  backend message) and `DeleteDialog` (modal flag, target id).

Network calls are not modelled; where a handler depends on what the backend
answered, that answer is a parameter (`CreateDialog.HandleSubmit`'s
`outcome`, `ListState.ReceivePage`'s page, `DeleteDialog.DeleteRequest`'s
`reached`). Timestamps are integer milliseconds.

Three behaviours of the code worth knowing:

- a failed delete call (the promise rejects) skips everything after the
  `await`, so the confirmation dialog stays open and the list is not
  refreshed;
- a backend message is attached to the phone field only when it is exactly
  "Phone number already exists";
- the duplicate summary the page stores is not a true dictionary for every
  title (see "## Findings"); `ListState` keeps the intended summary, and
  `PrototypeCounting` relates it to the page's own value.

## Model

| member | source | states |
|---|---|---|
| JsText.TrimStart | src/Pages/Landing.jsx:160 | the result is a suffix of the input, everything removed is whitespace, and the result does not start with whitespace |
| JsText.TrimEnd | src/Pages/Landing.jsx:160 | the result is a prefix of the input, everything removed is whitespace, and the result does not end with whitespace |
| JsText.Trim | src/Pages/Landing.jsx:160-161 | `s.trim()` is the slice of `s` between whitespace-only ends; it is empty exactly when `s` is all whitespace, and a non-empty result neither starts nor ends with whitespace |
| JsText.MatchesDigitsOnly | src/Pages/Landing.jsx:162 | `/^\d+$/` matches one or more ASCII digits and nothing else, and a match is never blank |
| JsText.TrimIsEmpty | src/Pages/Landing.jsx:160-161 | `!s.trim()` holds exactly when every character of `s` is whitespace |
| FormValidation.PhoneError | src/Pages/Landing.jsx:161-165 | the phone message is "required" iff the phone is all whitespace, "digits only" iff it is not blank and not all ASCII digits, "10 digits" iff it is non-empty, all digits and not of length 10, and absent iff it is exactly ten ASCII digits; at most one message results |
| FormValidation.FormErrors | src/Pages/Landing.jsx:158-169 | the name (title) key is present iff the name (title) is blank, with its message; the phone key is present iff the phone is not ten ASCII digits, holding the phone message; the object is empty iff the draft is submittable |
| FormValidation.NoKeysIffEmpty | src/Pages/Landing.jsx:168 | `Object.keys(temp).length === 0` holds exactly when none of name, phone and title is a key |
| FormValidation.BuildErrors | src/Pages/Landing.jsx:158-168 | the field-by-field filling of `temp` yields exactly the specified error object, and the returned flag is true iff the draft is submittable |
| FormValidation.AnyErrorCombination | src/Pages/Landing.jsx:160-166 | the three checks are independent: every set of error keys is produced by some draft |
| FormValidation.PhoneHelper | src/Pages/Landing.jsx:722-729 | the phone field is flagged iff its helper text is non-empty; a local phone error's text wins; otherwise only the exact "Phone number already exists" backend message is shown |
| FormValidation.PhoneHelperAfterValidation | src/Pages/Landing.jsx:722-729 | after validation an invalid phone always shows the validator's message whatever the backend said, and a valid phone is flagged iff the backend message is "Phone number already exists" |
| RequestList.TitleCounts | src/Pages/Landing.jsx:234-237 | the count holds exactly the titles of the page, each with its number of occurrences |
| RequestList.TitleCountsSnoc | src/Pages/Landing.jsx:236 | counting one more item raises that title's count by one, starting from zero |
| RequestList.Duplicates | src/Pages/Landing.jsx:239-242 | the summary's keys are exactly the titles occurring more than once, each with its occurrence count (at least 2) |
| RequestList.CountsSumToPageLength | src/Pages/Landing.jsx:234-237 | the counts add up to the number of items on the page |
| RequestList.DuplicatesIgnoreOrder | src/Pages/Landing.jsx:239-244 | two pages holding the same titles equally often, in any order, give the same summary |
| RequestList.ExampleOccurrences | src/Pages/Landing.jsx:234-237 | in the page A, B, A, C, B, B, A occurs twice, B three times, C once and any other title never |
| RequestList.DuplicatesExample | src/Pages/Landing.jsx:234-244 | for distinct titles A, B, C the page A, B, A, C, B, B gives the summary {A: 2, B: 3} |
| RequestList.CountTitles | src/Pages/Landing.jsx:234-237 | the counting loop yields the specified title count |
| RequestList.KeepRepeated | src/Pages/Landing.jsx:239-242 | the filtering loop keeps exactly the entries whose count exceeds one, with their counts |
| RequestList.SummarizeDuplicates | src/Pages/Landing.jsx:234-244 | the two loops together yield the duplicate summary of the page's titles |
| RequestList.IsRecent | src/Pages/Landing.jsx:210-214 | recent iff the elapsed minutes (exact quotient) are at most 60; every future timestamp is recent |
| RequestList.RecentBoundary | src/Pages/Landing.jsx:210-214 | 30 minutes and exactly 60 minutes ago are recent; 60 minutes and 1 ms, and 90 minutes, are not |
| PrototypeCounting.Get | src/Pages/Landing.jsx:236 | reading a title from the plain object yields `undefined` exactly when it is neither an own property nor inherited from `Object.prototype` |
| PrototypeCounting.Bumped | src/Pages/Landing.jsx:236 | the bumped entry, undefined read as 0 plus one, is a number exactly when the lookup was undefined (giving 1) or a number (giving one more); an inherited member or a concatenated string gives a string |
| PrototypeCounting.Put | src/Pages/Landing.jsx:236 | the assignment stores the value under the title and changes no other key, except that assigning "__proto__" changes nothing |
| PrototypeCounting.CountAsWritten | src/Pages/Landing.jsx:234-237 | the object as written holds only titles of the page, never "__proto__" |
| PrototypeCounting.SummaryAsWritten | src/Pages/Landing.jsx:239-242 | every title in the summary as written occurs more than once, with its occurrence count, and is not an `Object.prototype` name |
| PrototypeCounting.CountAsWrittenShape | src/Pages/Landing.jsx:234-237 | the object as written holds every title except "__proto__"; inherited names hold a concatenated string, every other title its occurrence count |
| PrototypeCounting.SummaryAsWrittenDropsInheritedNames | src/Pages/Landing.jsx:239-242 | the summary as written is the true summary without the names inherited from `Object.prototype` |
| PrototypeCounting.ToStringIsNeverReported | src/Pages/Landing.jsx:234-244 | two requests titled "toString" form a duplicate, yet the summary as written is empty |
| LandingView.NextSortOrder | src/Pages/Landing.jsx:489 | the toggle yields "desc" exactly for "asc" and "asc" for every other order, so it always yields one of the two and changes both of them |
| LandingView.ToggleTwice | src/Pages/Landing.jsx:489 | toggling twice from "asc" or "desc" gives back the same order |
| LandingView.RejectionMessage | src/Pages/Landing.jsx:195 | the banner after a rejection is never empty: the backend's non-empty message verbatim, otherwise "Something went wrong" |
| LandingView.ListState.constructor | src/Pages/Landing.jsx:132-143 | no requests, order "asc", page 1 of 1 with 5 per page, empty summary |
| LandingView.ListState.ToggleSort | src/Pages/Landing.jsx:489 | the order becomes the toggled one and differs from the old one; the state stays valid |
| LandingView.ListState.HandlePageChange | src/Pages/Landing.jsx:269-270 | the current page becomes the chosen value; total pages, total items and items per page are unchanged |
| LandingView.ListState.ReceivePage | src/Pages/Landing.jsx:231-244 | a loaded page replaces the list and the pagination, and the summary becomes the (intended) duplicate summary of that page |
| LandingView.CreateDialog.constructor | src/Pages/Landing.jsx:118-130 | closed dialog, empty draft, no errors, no backend message |
| LandingView.CreateDialog.HandleOpen | src/Pages/Landing.jsx:151-155 | opening clears the errors and the backend message and opens the dialog |
| LandingView.CreateDialog.HandleClose | src/Pages/Landing.jsx:156 | closing closes the dialog and changes nothing else |
| LandingView.CreateDialog.EditForm | src/Pages/Landing.jsx:712-714 | an edit replaces the draft |
| LandingView.CreateDialog.ValidateForm | src/Pages/Landing.jsx:158-169 | the stored errors become the draft's error object and the result is true iff the draft is submittable |
| LandingView.CreateDialog.HandleSubmit | src/Pages/Landing.jsx:171-208 | an invalid draft is not sent and leaves draft, dialog and banner alone; a valid one is sent, and success clears the draft and closes the dialog, a rejection keeps the draft and shows the message, a failure shows "Server Error"; a "Phone number already exists" rejection flags the phone field |
| LandingView.DeleteDialog.constructor | src/Pages/Landing.jsx:119-120 | no confirmation open, no target |
| LandingView.DeleteDialog.ConfirmDelete | src/Pages/Landing.jsx:256-259 | the target id is recorded and the confirmation opens |
| LandingView.DeleteDialog.CancelDelete | src/Pages/Landing.jsx:826 | the confirmation closes |
| LandingView.DeleteDialog.DeleteRequest | src/Pages/Landing.jsx:261-267 | the delete is issued for the recorded target; the confirmation closes once the backend answers and stays as it was when the call fails |

## Left out

- The `fetch` calls, JSON decoding, `FormData` construction and URL / query-string building: network I/O against a backend that is not shown; what a call returns is a parameter of the handler that consumes it.
- The list refreshes (`fetchRequests` after a create or a delete, and the `useEffect` trigger on search, page and sort order): they only start another network call, whose answer `ListState.ReceivePage` models.
- A list fetch whose `fetch` or `res.json()` fails: it is logged and changes nothing, so it is the absence of a `ReceivePage` call.
- A list response that is JSON but has no `data` array (an error body, since `res.ok` is not checked): the page first sets the list and the pagination to `undefined`, then `json.data.forEach` throws and the next render fails on them; `ListState.ReceivePage` takes a well-formed page only.
- The `loading` and `submitLoading` flags and the ordering of overlapping asynchronous fetches (a stale page may overwrite a newer one): event-loop behaviour, not sequential logic.
- The search box: its state only feeds the query string.
- The theme, the components, the animations and all rendering, including the display of the summary and of the other fields' helper texts.
- `Date` parsing and locale formatting: timestamps are integer milliseconds, and an unparseable timestamp (NaN) is not modelled.
- RequestList.IsRecent: compares with the exact quotient of the elapsed time, not the double-precision division of the source; the two agree for every elapsed time of less than 2^53 milliseconds, where the division is exact enough to keep the comparison with 60.
- JsText.IsJsWhitespace: a fixed set of code points (the ECMAScript WhiteSpace and LineTerminator sets of current Unicode); strings are sequences of code points, so UTF-16 surrogate pairs and lone surrogates are not modelled.
- The key order of the summary object (`Object.keys` order): the model uses a map, which has none.
- A non-string `error` field in the backend's rejection body: the message is a string or absent.
- The chosen image `File`: an opaque handle in the draft.
- LandingView.ListState.ReceivePage: stores the corrected summary `Duplicates(Titles(data))`, not the value the page computes, which is `PrototypeCounting.SummaryAsWritten(Titles(data))`; the two differ exactly by the titles named like `Object.prototype` members (`PrototypeCounting.SummaryAsWrittenDropsInheritedNames`).
- LandingView.ListState.HandlePageChange: the chosen page is not checked against the page count, as in the source.

## Findings

| source | as written | input that shows it | evidently intended | confidence | as-written member | corrected member |
|---|---|---|---|---|---|---|
| src/Pages/Landing.jsx:234-242 | the count is kept in a plain `{}` object, so a title named like a property of `Object.prototype` reads the inherited function, `+ 1` concatenates, and the entry is never greater than 1; "__proto__" is never stored at all | a page with two requests titled "toString" gives the summary {} | the summary {toString: 2}, as for any other title | medium, not executed | PrototypeCounting.ToStringIsNeverReported | RequestList.Duplicates |
