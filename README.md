# Expense tracker ledger — a Dafny model

This project models the core of a small expense tracker. The core is an
Express/Mongoose backend with two handlers and a React client that calls them:

- `POST /expenses` validates a request in a fixed order: missing fields, then
  the amount, then the date string. It then inserts the expense into a
  collection keyed by the client-chosen `id`. A second request with the same
  `id` is answered with the record already stored ("first write wins").
- `GET /expenses` turns `category`, `specific_date`, `year`, `month` and
  `sort` into a predicate and an ordering. The predicate is a category
  equality AND a date window (one day, one month, one year, or none).
- The client's axios interceptor retries a failed request on a network error
  or a 5xx. It keeps a per-request counter and a `2^n * 1000` ms backoff.
- The client's list builds its query parameters, sorts the fetched array in
  place by date and sums the integer cent amounts.

Modules, one per component:

- `wrappers.dfy`: Option and Result.
- `calendar.dfy`: days and month lengths. It also models how the JavaScript
  `Date` constructor normalises `(year, monthIndex, day)`: the two-digit-year
  rule, month overflow into other years, and day 0 meaning the last day of the
  previous month.
- `expense.dfy`: the record schema and the store invariant.
- `validation.dfy`: the create-path validation chain and the `YYYY-MM-DD`
  pattern.
- `query.dfy`: the window, category and sort resolution of the list path.
- `sorting.dfy`: the orderings and one in-place insertion sort.
- `store.dfy`: the create step as a function, runs of create calls, and the
  `ExpenseStore` class. The class keeps a `map<string, Expense>` and the
  insertion order, and has the `Create` and `List` methods.
- `retry.dfy`: the interceptor as a method on a config object, and the retry
  loop.
- `expense_list.dfy`: the client's params, in-place sort and total.

Three behaviours of the code that a reader might not expect:

- One might expect an `amount` of `0` to be rejected as an invalid amount.
  But `0` is falsy, so the first check in backend/server.js:39 reports it as
  a missing field (`Validation.ZeroAmountIsMissing`).
- One might expect `2024-02-30` to be rejected as an invalid date. The date
  check accepts any day 1..31 in any month 1..12, which is how V8's parser
  treats date-only ISO strings; the model assumes that engine. The stored
  Date then carries the impossible day into the next month, so `2024-02-30`
  is stored as 1 March 2024 (`Validation.ImpossibleDayCarriesOver`).
- The comment at frontend/src/api.js:33 says the waits are 1 s, 2 s, 4 s.
  The counter is raised before the wait is computed, so the waits are
  actually 2000, 4000 and 8000 ms (`Retry.BackoffDoubles`).

## Model

| member | source | states |
|---|---|---|
| `Calendar.DaysInMonth` | backend/server.js:117 | month lengths are 28..31; February has 29 days exactly in leap years; other months have at least 30 |
| `Calendar.CarryOver` | backend/server.js:30-31 | the day an accepted `YYYY-MM-DD` string denotes is a real calendar day; it is the written day when that day exists, and never earlier |
| `Calendar.FirstOfMonth` | backend/server.js:116 | `new Date(y, m0, 1)` is a calendar day and the first of its month; for a month index 0..11 it is that month of the (full) year |
| `Calendar.PreviousDay` | backend/server.js:117 | the day before a calendar day is a calendar day, earlier, with no calendar day strictly between them |
| `Calendar.LastOfYear` | backend/server.js:121 | `new Date(y, 11, 31)` is a calendar day |
| `Calendar.DayZeroOfNextMonthIsLastDay` | backend/server.js:116-117 | day 0 of the next month index is the last day of the month, whatever its length and across a year end |
| `ExpenseModel.NoSharedIds` | backend/models/Expense.js:4-8 | with records keyed by their id (the unique index), no two stored records share an `id` |
| `ExpenseModel.SchemaDoesNotBoundAmount` | backend/models/Expense.js:9-12 | the schema accepts a record with a negative amount: positivity comes only from the server's validation |
| `Validation.DigitChar` | backend/server.js:28 | the digit written for 0..9 is an ASCII digit that reads back as the same value |
| `Validation.DateFields` | backend/server.js:28 | a string of the pattern `^\d{4}-\d{2}-\d{2}$` names a year 0..9999 and a month and day 0..99 |
| `Validation.FormatDate` | backend/server.js:28 | writing a year, month and day zero-padded gives a string of the pattern |
| `Validation.FieldsOfFormat` | backend/server.js:28 | reading back a formatted date gives its numbers (parse after format is the identity) |
| `Validation.FormatOfFields` | backend/server.js:28 | every string of the pattern is the formatting of its own numbers (format after parse is the identity) |
| `Validation.ValidDateStrings` | backend/server.js:26-32 | `isValidDate` (with V8's parser) accepts a string exactly when it is the zero-padded writing of a year 0..9999, a month 1..12 and a day 1..31 |
| `Validation.DayOf` | backend/server.js:27-32 | an accepted date string is stored as a real calendar day |
| `Validation.Validate` | backend/server.js:38-49 | a missing-fields rejection happens exactly when `id`, `amount`, `category` or `date` is falsy; an invalid-amount rejection exactly when all are present and the amount is not a positive number; an invalid-date rejection exactly when those pass and the date fails `isValidDate`; an accepted request keeps the payload's fields, with a positive amount and the day the date string denotes |
| `Validation.ZeroAmountIsMissing` | backend/server.js:39-41 | an amount of 0 is rejected as a missing field, not as a bad amount |
| `Validation.MissingWinsOverOtherChecks` | backend/server.js:39-41 | a falsy `id` or `category` is reported as missing whatever the amount and the date hold |
| `Validation.AcceptedDateRoundTrip` | backend/server.js:47-49 | when the accepted date string names a real day, the stored day formats back to that very string |
| `Validation.ImpossibleDayCarriesOver` | backend/server.js:27-32 | `2024-02-30` passes the date check and is stored as 2024-03-01 |
| `Query.ResolveSort` | backend/server.js:130-139 | `date_desc` selects date then `created_at`, both descending; `date_asc` selects both ascending; anything else, absent included, selects newest-first |
| `Query.CategoryHolds` | backend/server.js:89-93 | a record is never excluded by a filter naming its own category, and is excluded only by a present category other than its own |
| `Query.ResolveWindow` | backend/server.js:95-128 | every date range the query builds is non-empty (its start is not after its end), and the year and month ranges run between calendar days |
| `Query.Matches` | backend/server.js:87-128 | a query with no category, year or specific date keeps every record; under a specific date only that day's records match |
| `Query.MatchesSeesCategoryAndDate` | backend/server.js:87-128 | the query object holds only a `category` key and a `date` key, so two records with the same category and date match alike |
| `Query.AllCategoryIsNoFilter` | backend/server.js:91-93 | `category=All` selects exactly what a query without a category selects |
| `Query.CategoryIsExact` | backend/server.js:91-93 | any other non-empty category adds exact equality on `category` to the rest of the query |
| `Query.SpecificDateWins` | backend/server.js:96-108 | with `specific_date` present, `year` and `month` change nothing, and a record matches the window exactly when it is dated that day |
| `Query.NoDateFilter` | backend/server.js:95-128 | without `specific_date` or `year` every date matches and only the category condition applies |
| `Query.MonthWindowBounds` | backend/server.js:114-117 | the month window runs from day 1 of the (normalised) month to its last day, leap Februaries included |
| `Query.MonthWindowExact` | backend/server.js:114-117 | a calendar day is in the month window exactly when it lies in that month of that year |
| `Query.PlainMonthWindow` | backend/server.js:114-117 | for a month 1..12 and a year outside 0..99, the window holds exactly the days of month `n` of year `y` |
| `Query.YearWindowExact` | backend/server.js:118-122 | a year without a month (or with `All`) holds exactly the calendar days of that (full) year |
| `Query.LeapDayBoundaries` | backend/server.js:109-128 | a record dated 2024-02-29 matches year 2024 month 2, and matches neither year 2023 nor year 2025 month 2 |
| `Query.DecemberWindow` | backend/server.js:117 | month 12 rolls the day-0 computation into the next year and ends on 31 December |
| `Query.TwoDigitYear` | backend/server.js:111-121 | `year=24` selects 1924, by the constructor's two-digit-year rule |
| `Sorting.InOrderTotal` | backend/server.js:132-139 | every sort key compares any two records |
| `Sorting.InOrderTransitive` | backend/server.js:132-139 | every sort key's order chains (transitivity) |
| `Sorting.SameDayTieBreak` | backend/server.js:132-135 | on the same day, `date_desc` lists the later-entered record first and `date_asc` the earlier-entered one |
| `Sorting.InOrder` | backend/server.js:131-139 | every key puts a record next to itself; for the date keys, of two records on different days the earlier comes first exactly when the order is ascending (also the client comparator at frontend/src/components/ExpenseList.jsx:32-37) |
| `Sorting.SortInPlace` | backend/server.js:142 | the sorted array is ordered under the key and is a permutation of the input |
| `Store.CreateStep` | backend/server.js:35-83 | a create call never changes or removes a stored record; it changes the store exactly when it answers 201; it keeps the store invariant (unique ids, schema-valid, positive amounts, calendar dates) |
| `Store.RejectionLeavesStoreUnchanged` | backend/server.js:38-49 | a rejected request answers 400 with its reason and leaves the store as it was |
| `Store.FreshIdAddsOneRecord` | backend/server.js:51-68 | a fresh id adds exactly one record with the request's fields and `created_at` = now; the answer is 201 echoing `id`, `amount`, `category`, `description` and `date` |
| `Store.DuplicateIdAnswersStored` | backend/server.js:69-82 | a stored id leaves the store unchanged; it answers 200 with the stored record, not the new payload, or 500 when the database faults |
| `Store.InsertFaultAnswers500` | backend/server.js:80-82 | an accepted request whose insert fails with an error other than a duplicate key answers 500 and stores nothing |
| `Store.RunKeepsStored` | backend/server.js:51-79 | once stored, a record stays stored and unchanged through any later sequence of create calls |
| `Store.RunPreservesInvariant` | backend/server.js:35-83 | any sequence of create calls keeps the store invariant |
| `Store.LaterDuplicatesAnswerFirstWrite` | backend/server.js:69-74 | in any sequence of calls, every accepted fault-free request for an id stored before the sequence is answered with that stored record; `Store.CreatedThenPostedAgain` covers ids created during the sequence |
| `Store.RetriedCreateStoresOnce` | backend/server.js:51-74 | posting the same request twice stores one record; the calls answer 201 then 200, with the same fields |
| `Store.RunSplit` | backend/server.js:35-83 | the create calls are handled one after another: running a sequence of calls and then another gives the same store and answers as running the two sequences joined |
| `Store.CreatedThenPostedAgain` | backend/server.js:51-74 | first write wins within a run: when call k answered 201, a later accepted, fault-free call i for the same id is answered 200 with the record whose fields call k echoed |
| `Store.Select` | backend/server.js:142 | the records selected from a list of ids are at most as many as the ids |
| `Store.SelectMembers` | backend/server.js:89-128 | a record is selected exactly when it is stored under one of the ids and matches the query |
| `Store.SelectDistinct` | backend/server.js:142 | over distinct ids each record is selected at most once |
| `Store.ListedExactly` | backend/server.js:142-143 | any ordering of the selected records holds exactly the stored records that match, each once |
| `Store.ExpenseStore.Create` | backend/server.js:35-83 | the handler's new store and answer are those of `CreateStep`; a new id is appended to the insertion order; the invariant is kept |
| `Store.ExpenseStore.List` | backend/server.js:86-148 | the answer is sorted by the selected key and is a permutation of the matching records: it holds every stored record that matches the query, nothing else, each once |
| `Store.ExpenseStore.Find` | backend/server.js:142 | the records found are the matching records in insertion order |
| `Retry.Decide` | frontend/src/api.js:16-33 | retry exactly when a cap is set, the failure is a network error or a status of 500 or more, and the count is below the cap; the wait is `2^(count+1) * 1000` ms |
| `Retry.Retryable` | frontend/src/api.js:20-23 | a retryable reply is never a 2xx success, and a 4xx reply is never retryable |
| `Retry.BackoffDoubles` | frontend/src/api.js:33 | the first retry waits 2000 ms and each later wait is twice the previous one |
| `Retry.NoCapNoRetry` | frontend/src/api.js:16-18 | a config without a cap never retries |
| `Retry.ClientErrorNoRetry` | frontend/src/api.js:20-23 | a reply below 500 (every 4xx) is rejected whatever the count |
| `Retry.OnError` | frontend/src/api.js:11-35 | a missing config rejects; otherwise the decision is `Decide`'s and the count grows by exactly one when, and only when, the request is retried |
| `Retry.Send` | frontend/src/api.js:11-40 | every retried attempt was a retryable failure; the n-th wait is the backoff of the count; the count grows by one per retry and never passes the cap; the last reply is a success or one the interceptor rejects |
| `Retry.ClientRequest` | frontend/src/api.js:42-48 | `createExpense`/`getExpenses` retry at most 3 times, waiting 2000, 4000 and 8000 ms, and use all 3 when every reply is a retryable failure |
| `ExpenseList.BuildParams` | frontend/src/components/ExpenseList.jsx:18-21 | `params.category` is set, to the filter, exactly when the filter is not `All` |
| `ExpenseList.FilterReachesServer` | frontend/src/components/ExpenseList.jsx:18-28 | with those params the server keeps every record for `All` and exactly that category's records otherwise |
| `ExpenseList.SortFetched` | frontend/src/components/ExpenseList.jsx:29-37 | after the in-place sort the dates are non-increasing for `date_desc` and non-decreasing for any other order, and the array holds the same records |
| `ExpenseList.TotalAmount` | frontend/src/components/ExpenseList.jsx:52 | the total of an empty list is 0; with positive amounts the total is at least the number of expenses |
| `ExpenseList.TotalAppend` | frontend/src/components/ExpenseList.jsx:52 | the total of a concatenation is the sum of the totals |
| `ExpenseList.TotalWithout` | frontend/src/components/ExpenseList.jsx:52 | taking one expense out of a list lowers the total by exactly its amount |
| `ExpenseList.TotalOfPermutation` | frontend/src/components/ExpenseList.jsx:52 | the total does not depend on the order, so sorting leaves it unchanged |

## Left out

- Express, CORS, body parsing, `app.listen` and the MongoDB connection are
  I/O. The collection is the in-memory `ExpenseStore`. Database faults are a
  `Fault` parameter of `Create`.
- `backend/db.js`, `frontend/src/App.jsx`, `ExpenseForm.jsx`, and
  `formatCurrency`/`formatDate` are not part of this model. They are
  floating-point amount entry, the `uuidv4` foreign call, locale formatting
  and layout.
- Time zones are not modelled; the server is taken to run in UTC.
  `new Date("YYYY-MM-DD")` parses as UTC midnight, and `setHours` works in
  local time. Record dates and window bounds are calendar days, and an
  inclusive day range stands for `[00:00, 23:59:59.999]`.
- The parsing of `specific_date`, `year` and `month` is not modelled. They
  reach the model as the day or number the parameter denotes. A `year` or
  `month` that `parseInt` reads as NaN (an invalid Date) is not represented.
- Query parameters that are not a single string are not represented. Express
  hands a repeated parameter (`?category=Food&category=Health`) over as an
  array and `category[$ne]=Food` as an object. Both are truthy and not
  `'All'`, so backend/server.js:91-92 copies them into the database query,
  where Mongoose reads them as `$in` or as an operator rather than as
  equality. `Query.ListQuery` holds `category` and `sort` as plain strings,
  so `Query.CategoryHolds` states equality only. For `sort` such a value
  gives the default order, which the model already gives for any other
  value.
- JavaScript numbers are integers here. Fractional, NaN and infinite amounts
  are not represented, and neither is the 2^53 precision limit of the total.
- Non-string `id`, `category`, `description` and `date` values are not
  represented. This covers Mongoose's casting and `dateString.match`
  throwing on a non-string date.
- The date check follows V8's parser (month 1..12, day 1..31). Other engines
  may reject impossible days.
- Concurrent duplicate inserts are not modelled. The model is sequential;
  the database's unique index makes them atomic.
- The 500 answer of `GET /expenses` on a database error
  (backend/server.js:144-147) is not modelled. `List` covers the successful
  read only.
- `findOne` returning nothing after a duplicate key is not modelled. That
  needs a concurrent delete, and this core has no deletes.
- The 200 answer's `_id` and `__v` fields are not modelled. Mongoose adds them
  and the record does not carry them.
- `Sorting.SortInPlace`: insertion sort stands for the database's sort and
  for `Array.prototype.sort`. Neither algorithm is in the source. Its
  contract does not state stability. The JavaScript sort is stable, so on
  the client records of the same date keep the server's order; the model
  does not capture that.
- The `setTimeout` wait and the re-issued request are not modelled. `Send`
  records each wait and takes the server's replies as a function of the
  attempt number.
- `created_at` is the `now` argument. Nothing in the model requires it to grow
  from call to call.
