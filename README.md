# CryptoDash view state in Dafny

CryptoDash is a browser dashboard that loads one list of cryptocurrency
market records, shows it in a table ten rows at a time, filters it from a
search box and opens a detail view when a row is clicked. This project
models the dashboard's view-state controller in `index.js`: the three
pieces of state (`allCoinsData`, `filteredCoinsData`, `currentPage`), the
search filter, the page projection done on every render, the Prev/Next
handlers, the load that fills the state and the row-click lookup by
identifier.

Layout, one module per concern:

- `text.dfy` (`Text`): `toLowerCase` as a per-character map (`Lower`,
  `LowerStr`) and `includes` as a substring search (`Includes`), specified
  against the position predicate `OccursAt`.
- `coins.dfy` (`Coins`): the record (`Coin`: identifier, name, symbol), an
  `Option` type and the row-click lookup `FindById` (`Array.find` by id).
- `search.dfy` (`Search`, `SearchExamples`): the filter predicate
  `Matches`, the filter itself (`FilterCoins`), the order-preserving
  selection predicate `IsSubsequence`, and the lemmas about them; a worked
  example with Bitcoin and Ethereum.
- `pagination.dfy` (`Pagination`): the slice, the row ranks, the page
  count, the button flags and the whole render result (`Render`, a
  `PageView`).
- `dashboard.dfy` (`Dashboard`): the class `ViewState` holding the three
  state variables, with `Load`, `Filter`, `Prev`, `Next` and `ClickRow`,
  and the invariant `Valid()`: the page lies in `1 .. max(1, totalPages)`
  and the filtered list is an order-preserving selection from the loaded
  list.

Three behaviours of the code are worth stating plainly:

- An empty list has 0 pages. index.js:81 computes `Math.ceil(length / 10)`
  without rounding up to 1, so an empty table reads "Page 1 of 0".
  `TotalPages(0) == 0` here, and `RenderBoundaries` states that view.
- Next is disabled when `currentPage === totalPages || length === 0`
  (index.js:84). `ButtonsMatchHandlers` shows that on every reachable page
  this holds exactly when the Next handler would not move, and that Prev
  is disabled exactly when the Prev handler would not move.
- The load (index.js:34-35) replaces both lists but does not reset
  `currentPage`. `Load` keeps the page. Its contract says the state stays
  valid exactly when the old page still exists in the new list. That always
  holds for the one load the page performs, which runs while the page is 1.

## Model

| member | source | states |
|---|---|---|
| Text.Lower | index.js:102-106 | the lower-cased character is never an upper-case letter; non-letters are unchanged; A-Z move to a-z |
| Text.LowerStr | index.js:102-106 | the per-character model of `toLowerCase`: the result has one character per input character, each lowered by `Lower` |
| Text.LowerStrIdempotent | index.js:102-106 | a property of the per-character `Lower` used to model `toLowerCase`: lowering an already lowered string changes nothing |
| Text.Includes | index.js:105-106 | `includes` is true exactly when the term occurs at some position of the string, so the empty term is in every string |
| Coins.FindById | index.js:89-93 | the lookup finds nothing exactly when no loaded record has the identifier, and otherwise returns the first record that has it |
| Coins.FindByIdMember | index.js:89-93 | a record that is in the list is always found by its identifier, and with unique identifiers the lookup returns that very record |
| Search.MatchesOccurs | index.js:104-106 | the filter predicate `Matches` holds exactly when the search term occurs at some position of the record's lower-cased name or of its lower-cased symbol |
| Search.FilterCoins | index.js:103-107 | every kept record matches the term, every matching record is kept, and the result is no longer than the source |
| Search.FilterIsSubsequence | index.js:103-107 | the filtered list keeps the relative order of the loaded records |
| Search.FilterAppend | index.js:103-107 | filtering a concatenation is the concatenation of the filtered parts, so each record is judged on its own |
| Search.FilterSingle | index.js:103-107 | a single record is kept exactly when its lower-cased name or symbol contains the term |
| Search.FilterKeepsAll | index.js:103-107 | the filter leaves the list unchanged exactly when every record matches |
| Search.EmptyTermKeepsAll | index.js:102-107 | an empty search box keeps every loaded record, in order |
| Search.FilterIdempotent | index.js:103-107 | filtering the filtered list again with the same term changes nothing |
| Search.SubsequenceRefl | index.js:35 | the copy of all records made at load is an order-preserving selection of them |
| Search.SubsequenceMembers | index.js:90 | every record of the filtered list is a loaded record, so a shown row can be looked up in `allCoinsData` |
| SearchExamples.BitcoinAndEthereum | index.js:102-107 | "bit" keeps Bitcoin and drops Ethereum; "ETH" keeps only Ethereum, whatever the case of the query |
| Pagination.TotalPages | index.js:81 | the page count is the fewest pages of ten that hold all records: all fit, no page is empty, and it is 0 exactly for an empty list |
| Pagination.PageSlice | index.js:50-52 | the slice has at most ten records, starts at `(page - 1) * 10`, ends at the page end or the list end, and is empty past the end |
| Pagination.PageRows | index.js:50-56 | the row at index `i` has rank `start + i + 1`, and that rank is the shown record's position in the filtered list plus one |
| Pagination.PrevDisabled | index.js:83 | the flag `currentPage === 1`; its link to the Prev handler (disabled exactly when the handler would not move) is proved in `ButtonsMatchHandlers` |
| Pagination.NextDisabled | index.js:84 | on a page from 1 to the last page (page 1 when empty), Next is disabled exactly when there is no later page |
| Pagination.Render | index.js:50-84 | one render shows at most ten rows, each the filtered record at its rank's position; the page count holds every record; Prev is disabled exactly on page 1 and, on a reachable page, Next exactly when it is not below the page count |
| Pagination.RecordOnItsPage | index.js:50-56 | every filtered record is shown on exactly one page (`k / 10 + 1`, within the page count) and in exactly one row, with rank `k + 1` |
| Pagination.ButtonsMatchHandlers | index.js:83-84 | on every reachable page, Prev is disabled exactly when its handler would not move, and likewise for Next |
| Pagination.RenderBoundaries | index.js:81-84 | page 1 always disables Prev, the last page always disables Next, and an empty list renders no rows, "Page 1 of 0" and both buttons disabled |
| Pagination.FirstPageOfHundred | index.js:50-84 | with 100 records, page 1 shows ranks 1 to 10 over the first ten records, "Page 1 of 10", Prev disabled and Next enabled |
| Dashboard.ViewState.Valid | index.js:15-17 | the controller invariant kept by the load, the filter (index.js:108) and the handlers (index.js:161-174): the page lies in `1 .. max(1, totalPages)` and the filtered list is an order-preserving selection from the loaded list; under it, a non-empty filtered list never shows an empty page |
| Dashboard.ViewState.constructor | index.js:15-17 | the initial state has no records, page 1, and satisfies the invariant |
| Dashboard.ViewState.Load | index.js:34-35 | both lists become the loaded data, the page is kept, and the invariant holds exactly when the kept page exists in the new data |
| Dashboard.ViewState.Filter | index.js:101-110 | the filtered list becomes the filter of all records by the lower-cased query, the page becomes 1, the loaded records are unchanged and the invariant holds |
| Dashboard.ViewState.Prev | index.js:161-166 | the page drops by exactly one when above 1 and is otherwise unchanged; both lists are unchanged and the invariant is kept |
| Dashboard.ViewState.Next | index.js:168-174 | the page rises by exactly one when below the page count and is otherwise unchanged; both lists are unchanged and the invariant is kept |
| Dashboard.ViewState.ClickRow | index.js:87-93 | a click on a shown row returns exactly `FindById(all, id)` for the row's identifier: the first loaded record (not only filtered) with that identifier; one is always found, and with unique identifiers it is the row's own record |

## Left out

- The network request, the response-status check, JSON parsing and the
  status messages (index.js:25-43): I/O and asynchronous code. `Load` takes
  the parsed list. A failure up to the parse at index.js:34 changes none
  of the three state variables.
- A failure after index.js:34 is not modelled: `[...allCoinsData]` at
  index.js:35 can throw on a response that is not iterable, and the render
  at index.js:37 can throw on a missing price, market cap or 24-hour
  change. The catch at index.js:38-42 then shows the error and hides the
  table, but the lists already hold the new data.
- A render that throws after the filter (index.js:109), Prev
  (index.js:164) or Next (index.js:172) is not modelled. A missing price,
  market cap or 24-hour change on a row of the new page makes index.js:72-74
  throw inside `.map`, after the handler has already changed
  `filteredCoinsData` or `currentPage`; the rows, the page text and the
  button flags then stay those of the previous render. `View()` and
  `ButtonsMatchHandlers` describe a completed render of the current state,
  and `ClickRow` models clicks on the rows of a completed render only.
- HTML templating, `innerHTML`, `classList` changes and showing or hiding
  the detail modal (index.js:54-78, 116-154, 176-185): presentation only.
  `ClickRow` returns the record the detail view would show.
- Dashboard.ViewState.ClickRow: assumes a row's identifier comes back
  unchanged from its `data-coin-id` attribute (written at index.js:61, read
  at index.js:89). The attribute is not escaped, so an identifier holding
  `"` or an HTML entity would be looked up in altered form.
- `toLocaleString`, `toFixed` and the colour class chosen by the sign of
  the 24-hour change (index.js:57-58, 72-74): floating-point and
  locale-dependent formatting. The `Coin` record therefore holds only the
  identifier, name and symbol.
- The event-listener wiring (index.js:87-88, 157-159, 188): browser
  plumbing. Each handler's body is a method of `ViewState`.
- Text.Lower: maps only the ASCII letters A-Z, because the full Unicode
  case mapping of `toLowerCase` is library behaviour outside this model.
- Pagination.PageSlice: requires `page >= 1`. JavaScript's `slice` also
  accepts negative starts, but the controller's page is never below 1
  (the invariant of `ViewState`).
