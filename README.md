# loopstackpanel admin and authentication core, in Dafny

This project models the request-handling core of the loopstackpanel
back end, a Next.js application that stores owners, plans and plan
purchases in MongoDB. It covers the following parts:

- **The request gatekeeper** (`middleware.ts`). For every request it decides
  whether to let it through, to let it through with the caller's identity
  attached, to deny it with 401 or 403, or to redirect it to `/signin`.
  API paths are guarded by a bearer token and the caller's type. Panel pages
  `/<username>/panel...` are guarded by a `token` cookie, whose username must
  match the page's.
- **The generic list-query processor** (`utils/queryProcessor.ts`). It clamps
  `page` and `limit`. It runs the `search` step (`key=value` or free text),
  the `date` step (a one-day range) and the `sort` step (a relative date
  range), in that order, on one MongoDB filter object that they change in
  place. It echoes the filters it applied and computes the pagination
  metadata.
- **The inline query building of the plan list and plan history handlers**.
  They use a `key:value` search with fixed per-key rules, unclamped pagination
  and a sort vocabulary that keeps its spaces. Both are instances of one
  shared model, so the lemmas state where they differ from the generic
  processor.
- **The request validators**:
  - creating, editing and changing the status of a plan;
  - onboarding an owner, with the phone pattern, the duplicate check and the
    default store;
  - signing in.

  Each is an ordered chain of guards that returns the first failing
  `(status, message)` or builds the record it stores.
- **The plan and user schemas**, as datatypes with the validity their
  validators and trim setters guarantee.

Supporting modules give the JavaScript semantics these parts rely on:

- `JsText`: `trim`, `split`, `toLowerCase` and white-space removal.
- `JsNumbers`: `parseInt`, NaN-able numbers, `Math.ceil` of a ratio.
- `JsonBody`: request-body values and their truthiness.
- `LocalCalendar` and `RelativeDates`: the `Date` constructor and setters, as
  the ECMAScript MakeDay/MakeDate arithmetic in local time.
- `QueryPredicate`: the filter object, as a map from field to clause plus an
  `$or` list. It comes with a `MongoQuery` class whose methods make the
  handlers' in-place assignments.

Code that changes state step by step is modelled as methods, each proved
equal to a function on values; the properties are lemmas about those
functions. This covers the three query steps, the inline handlers, the
edit handler's `updateData` and the status handler's document. The
database, the clock, token verification, password hashing and the host's
number and date parsers are parameters.

## Model

| member | source | states |
|---|---|---|
| Gatekeeper.UpToSlash | middleware.ts:76-82 | `[^\/]+` consumes the longest prefix without `/`, and stops only at a `/` or at the end |
| Gatekeeper.ExtractUsername | middleware.ts:81-84 | an extracted username is non-empty and contains no `/` |
| Gatekeeper.NoWildcardEntries | middleware.ts:15-52 | no excluded entry ends in `*`, so the wildcard branch is never taken |
| Gatekeeper.ExcludedPathIff | middleware.ts:43-52 | a path is excluded exactly when it is one of the entries or lies below one |
| Gatekeeper.ExcludedBySegment | middleware.ts:50 | matching is by whole segments: `/api/commonx` is not excluded, `/api/common/stores` is |
| Gatekeeper.RolePathsArePrefixes | middleware.ts:54-60 | the role checks are plain prefix tests, so `/api/administrator` is an admin path |
| Gatekeeper.UpToSlashConcat | middleware.ts:76-82 | a segment without `/` followed by `/` or by nothing is consumed exactly |
| Gatekeeper.PanelRouteShape | middleware.ts:74-78 | every panel route is `/`, a non-empty segment without `/`, `/panel`, and a tail that is empty or starts with `/` and has no line terminator |
| Gatekeeper.PanelRouteFromParts | middleware.ts:74-84 | every path of that shape is a panel route, and its segment is the username extracted from it |
| Gatekeeper.PanelRouteHasUsername | middleware.ts:211-216 | on a panel route the username extraction always succeeds, so the branch for a failed extraction is unreachable |
| Gatekeeper.ExcludedNeedsNoToken | middleware.ts:90-97 | an excluded API path passes without any header, cookie or token being read |
| Gatekeeper.HeaderChecks | middleware.ts:100-123 | a missing or empty header gives 401 "Authorization header is required"; `Bearer ` alone gives "Token is required"; a token that fails verification gives "Invalid or expired token" |
| Gatekeeper.BearerTokenCases | middleware.ts:108-110 | a `Bearer ` prefix is removed; a header without it, including a lower-case `bearer`, is taken whole as the token |
| Gatekeeper.ExpiryBoundary | middleware.ts:126-130 | expiry is strict and in whole seconds: a token expiring in the current second passes, an earlier one fails, and an `exp` of 0 or none never expires |
| Gatekeeper.ApiPassIff | middleware.ts:90-168 | a protected API request passes exactly when the header carries a token that verifies, has not expired and has the type the path needs, and it then carries that token's identity |
| Gatekeeper.AdminPathNeedsAdmin | middleware.ts:133-139 | a verified caller of any other type gets 403 "Admin access required" on every admin path |
| Gatekeeper.OwnerPathNeedsOwner | middleware.ts:143-148 | a verified, unexpired caller of any other type gets 403 "Owner access required" on every owner path |
| Gatekeeper.ExpiredTokenDenied | middleware.ts:126-129 | on every guarded API path a verified but expired token gets 401 "Token has expired", before and whatever the role checks would say |
| Gatekeeper.StrictVerifierNeverExpired | middleware.ts:118-130 | with a verifier that refuses every token whose `exp` is not after the current second, no request is ever refused with "Token has expired" |
| Gatekeeper.TrimmedHeaderNeverTokenless | middleware.ts:100-116 | with a header value that arrives trimmed, no request is ever refused with "Token is required" |
| Gatekeeper.OwnerPathNotExcluded | middleware.ts:15-22 | no excluded path lies under `/api/owner` |
| Gatekeeper.Decide | middleware.ts:86-241 | only guarded API paths are denied (with 401 or 403) or passed with a request identity, which is then the verified header token's; only panel pages are redirected or passed with a response identity, which is then the verified, unexpired cookie token's whose username is the page's |
| Gatekeeper.AdminPathNotExcluded | middleware.ts:15-22 | no excluded path lies under `/api/admin` |
| Gatekeeper.ApiPathsNeverPanel | middleware.ts:90-172 | an `/api/` path is never redirected nor treated as a panel page, not even `/api/panel` |
| Gatekeeper.PanelOutcomes | middleware.ts:172-237 | on a panel page, a missing, invalid or expired cookie token redirects to sign-in with the way back; a token for another user redirects without it; otherwise the page opens with the token's identity |
| Gatekeeper.OtherPathsContinue | middleware.ts:239-240 | paths that are neither API paths nor panel pages continue untouched |
| QueryProcessor.ProcessSearchQuery | utils/queryProcessor.ts:110-156 | updating the filter object in place gives exactly the options and filter of the search step: a key-value search sets the named searchable field to a regex or a number, otherwise `$or` gets one regex per searchable field |
| QueryProcessor.ProcessDateFilter | utils/queryProcessor.ts:161-200 | updating the filter object in place gives exactly the options and filter of the date step |
| QueryProcessor.ProcessSortFilter | utils/queryProcessor.ts:205-286 | updating the filter object in place gives the options and filter of the sort step; when the step throws, the object is unchanged and no options are returned |
| QueryProcessor.ProcessQueryParameters | utils/queryProcessor.ts:50-105 | the result of threading one filter object through the search, date and sort steps, in that order, is the processed query defined on values, including its pagination and echo |
| QueryProcessor.PaginationDefaults | utils/queryProcessor.ts:58-62 | with no `page` and no `limit` parameter, the request is page 1 of 10 items with skip 0 |
| QueryProcessor.ReadDefaults | utils/queryProcessor.ts:58-59 | the fallback texts `"1"` and `"10"` parse as 1 and 10 |
| QueryProcessor.PageClamped | utils/queryProcessor.ts:58 | an integer page parameter `n` becomes `max(1, n)` |
| QueryProcessor.LimitClamped | utils/queryProcessor.ts:59 | an integer limit parameter `n` is clamped into 1..100 |
| QueryProcessor.ClampToLimit | utils/queryProcessor.ts:59 | `max(1, min(100, n))` is `n` clamped into 1..100 |
| QueryProcessor.ParamReads | utils/queryProcessor.ts:58-59 | a parameter whose text parses as `n` is read as `n`, whatever the fallback |
| QueryProcessor.PaginationInvariant | utils/queryProcessor.ts:58-60 | for all parameters, a parsed page is at least 1, a parsed limit lies in 1..100, and the skip is defined exactly when both are and is then non-negative |
| QueryProcessor.SkipIsEarlierPages | utils/queryProcessor.ts:60 | the skip passes over the `page - 1` earlier pages of `limit` items each |
| QueryProcessor.PaginationEchoed | utils/queryProcessor.ts:91-104 | the processed query carries the pagination numbers, and its echo carries the same page and limit |
| QueryProcessor.KeyValuePieces | utils/queryProcessor.ts:116-117 | in `k=rest`, where `k` has no `=`, the key is `k` trimmed and the value is the first `=`-piece of `rest`, trimmed |
| QueryProcessor.KeyValueSearch | utils/queryProcessor.ts:116-142 | `k=v` with non-blank pieces reports the trimmed key and value, keeps `$or`, and sets the trimmed key to the key's clause only when it is a searchable field |
| QueryProcessor.KeyValueIgnoresLaterPieces | utils/queryProcessor.ts:117 | pieces after the second `=` are ignored: `k=v=w` filters like `k=v` |
| QueryProcessor.KeyValueFilter | utils/queryProcessor.ts:119-134 | the filter a key-value search leaves depends only on its key and its value |
| QueryProcessor.KeyClauseShape | utils/queryProcessor.ts:123-133 | the clause is numeric equality exactly when `Number` and `parseFloat` both accept the value, and it then holds the `parseFloat` result; otherwise it is a case-insensitive regex on the value |
| QueryProcessor.FreeTextSearch | utils/queryProcessor.ts:145-155 | a search that is not key-value sets no field and matches the raw text against every searchable field in order; with no searchable fields it adds nothing |
| QueryProcessor.NoEqualsIsFreeText | utils/queryProcessor.ts:116 | a search without `=` is never key-value |
| QueryProcessor.KeyValueTouchesOnlyKey | utils/queryProcessor.ts:119-141 | a key-value search changes at most the field it names, adds that key only when the field is searchable, and leaves `$or` alone |
| QueryProcessor.DashPieces3 | utils/queryProcessor.ts:171 | three `-`-free pieces joined by `-` split back into those pieces |
| QueryProcessor.DashPieces2 | utils/queryProcessor.ts:171 | two `-`-free pieces joined by `-` split back into those pieces |
| QueryProcessor.ReadNat | utils/queryProcessor.ts:172 | `parseInt` reads back the decimal text of a natural number, which has no `-`; a number below 100 has at most two digits |
| QueryProcessor.DayMonthYearText | utils/queryProcessor.ts:170-172 | the text `d-m-y` (with `d < 100`) names the local midnight of year `y`, month index `m - 1`, day `d` |
| QueryProcessor.DayMonthYearOf | utils/queryProcessor.ts:170-172 | pieces that parse as day, month and year, joined by `-`, the first of at most two characters, name that day |
| QueryProcessor.DateOfNumbers | utils/queryProcessor.ts:172 | three numbers give the local midnight of that day, with the month counted from 1 |
| QueryProcessor.DayMonthYearPieces | utils/queryProcessor.ts:170-171 | three `-`-free pieces, the first of at most two characters, take the DD-MM-YYYY branch with exactly those pieces |
| QueryProcessor.MissingYearIsInvalid | utils/queryProcessor.ts:171-178 | `d-m` has no year piece, so `parseInt(undefined)` is NaN and the date is ignored |
| QueryProcessor.LongFirstPieceGoesToHost | utils/queryProcessor.ts:170-176 | a string whose first `-`-piece is longer than two characters, such as `2024-05-01`, goes to the host's date parser |
| QueryProcessor.NoDashInDigits | utils/queryProcessor.ts:170 | a string of decimal digits contains no `-` |
| QueryProcessor.ShowNatShort | utils/queryProcessor.ts:170 | a number below 100 has a decimal text of at most two characters |
| QueryProcessor.DayStepSelectsDay | utils/queryProcessor.ts:178-193 | a valid date sets the field to the inclusive range from the first to the last millisecond of its day, which holds exactly the instants of that day and contains the date, and changes nothing else |
| QueryProcessor.InvalidDateIgnored | utils/queryProcessor.ts:178-199 | an invalid date leaves the filter unchanged and reports `{}` |
| QueryProcessor.SortKeyIgnoresCase | utils/queryProcessor.ts:214 | the sort keyword does not depend on the case of ASCII letters |
| QueryProcessor.ToLowerConcat | utils/queryProcessor.ts:214 | lower-casing distributes over concatenation |
| QueryProcessor.LowerKeepsSpace | utils/queryProcessor.ts:214 | lower-casing leaves white space unchanged |
| QueryProcessor.SortKeyIgnoresSpaces | utils/queryProcessor.ts:214 | white space inserted anywhere in a sort value does not change the keyword |
| QueryProcessor.RemoveAllSpace | utils/queryProcessor.ts:214 | `replace(/\s+/g, "")` erases a run of white space completely |
| QueryProcessor.UnknownSortIgnored | utils/queryProcessor.ts:262-265 | an unrecognised sort keyword leaves the filter untouched and reports only the sort text |
| QueryProcessor.LastMonthReplacesField | utils/queryProcessor.ts:227-271 | "last month" replaces the field with the closed range from the first millisecond of the previous month (December of the year before in January) to the millisecond before the current month, which spans exactly that month's days; the report carries both bounds |
| QueryProcessor.LastWeekIsSevenDays | utils/queryProcessor.ts:217-221 | "last week" on a field not yet set puts a lower bound exactly seven days before now, and reports only a start |
| QueryProcessor.DateThenLowerBound | utils/queryProcessor.ts:274-275 | a lower-bound sort after a valid date filter overwrites the day's start and keeps the day's end |
| QueryProcessor.SortThrowsOnlyOnScalar | utils/queryProcessor.ts:268-280 | the sort step throws exactly when it sets a lower bound on a field that holds a truthy number or string; otherwise `$or` and every other field stay as they were |
| QueryProcessor.SearchPhaseLeavesDateField | utils/queryProcessor.ts:119-134 | after the search step the date field is absent or an operator object, unless the search named it as a searchable key |
| QueryProcessor.DatePhaseKeepsOps | utils/queryProcessor.ts:185-188 | the date step only ever stores an operator object on the date field |
| QueryProcessor.ProcessFailsOnlyOnDateFieldSearch | utils/queryProcessor.ts:274-275 | the processor throws only when a sort is given and a key-value search named the date field itself as a searchable field |
| QueryProcessor.ProcessDefaults | utils/queryProcessor.ts:50-105 | with no parameters, the result is page 1 of 10, an empty filter, no step options and an all-null echo |
| QueryProcessor.FiltersEchoParameters | utils/queryProcessor.ts:97-100 | each echoed filter is the raw parameter when it is present and non-empty, and null otherwise |
| QueryProcessor.Process | utils/queryProcessor.ts:50-105 | a processed query has a page of at least 1, a limit in 1..100, a non-negative skip, and an echo of that page and limit; it fails only when a sort is given |
| InlineQuery.ApplyColonSearch | app/api/admin/plans/list/route.ts:31-68 | updating the filter object in place gives exactly the search step: the rule's clause on the trimmed key for a two-piece `key:value` search, otherwise the raw text against each free-text field |
| InlineQuery.ApplyHostDate | app/api/admin/plans/list/route.ts:71-89 | updating the filter object in place gives exactly the date step: a host-valid date sets the date field to that day's range |
| InlineQuery.ApplyInlineSort | app/api/admin/plans/list/route.ts:92-129 | updating the filter object in place gives exactly the sort step; a thrown TypeError leaves the object unchanged |
| InlineQuery.ListHandler | app/api/admin/plans/list/route.ts:7-169 | the handler, building one filter object through the three steps and then asking the database, gives the listing defined on values (find request, pagination metadata, echo), or the 500 when the sort step throws or the database fails |
| InlineQuery.BuildInlineFilter | app/api/admin/plans/list/route.ts:18-128 | the three steps applied in place to one filter object give the filter defined on values, or the TypeError of the sort step |
| InlineQuery.InlineList | app/api/admin/plans/list/route.ts:7-169 | a listing is given exactly when the filter builds and the database answers the request; it is sorted on the date field, newest first, with the unclamped limit and page, and its total is the database's count |
| InlineQuery.ColonPieces | app/api/admin/plans/list/route.ts:33-37 | `k:v` with no further `:` is a key-value search whose key and value are `k` and `v` trimmed |
| InlineQuery.KeyValueStep | app/api/admin/plans/list/route.ts:34-53 | a `key:value` search sets the trimmed key to the rule's clause for the trimmed value, or changes nothing when the rule has none |
| InlineQuery.ThreePiecesAreFreeText | app/api/admin/plans/list/route.ts:34-59 | a search with a second `:` is free text here, unlike in the generic processor |
| InlineQuery.ColonFreeText | app/api/admin/plans/list/route.ts:54-59 | a search that is not `key:value` sets no field and matches the raw text against each free-text field, in order |
| InlineQuery.HostDateSelectsDay | app/api/admin/plans/list/route.ts:71-89 | a host-valid date sets the date field to exactly that day's instants; an invalid one changes nothing |
| InlineQuery.InlineSortIsGenericSort | app/api/admin/plans/list/route.ts:96-117 | every sort value these handlers recognise is recognised by the generic processor with the same range |
| InlineQuery.InlineRangesAreGeneric | app/api/admin/plans/list/route.ts:96-117 | each keyword here gives the same range as the generic keyword spelt without spaces |
| InlineQuery.GenericMonthKeywords | utils/queryProcessor.ts:223-241 | the generic processor's ranges for `thismonth`, `lastmonth` and `last6months` |
| InlineQuery.GenericYearKeywords | utils/queryProcessor.ts:243-254 | the generic processor's ranges for `lastoneyear`, `last1year` and `last2years` |
| InlineQuery.InlineKeywords | app/api/admin/plans/list/route.ts:96-117 | the ranges these handlers give their six keywords |
| InlineQuery.TwoWords | utils/queryProcessor.ts:214 | two space-free words joined by one space lose the space |
| InlineQuery.ThreeWords | utils/queryProcessor.ts:214 | three space-free words joined by single spaces lose both spaces |
| InlineQuery.RemoveOneSpace | utils/queryProcessor.ts:214 | a space after a space-free word is removed and the rest is processed on its own |
| InlineQuery.SpacelessSortIgnored | app/api/admin/plans/list/route.ts:96-120 | a sort value without a space, such as `lastmonth`, changes nothing here, since every keyword here has a space |
| InlineQuery.LastMonthOverridesDate | app/api/admin/plans/list/route.ts:100-104 | "last month" replaces whatever the date step put on the field with the closed previous-month range |
| InlineQuery.LowerBoundAfterDate | app/api/admin/plans/list/route.ts:122-127 | a lower-bound sort after a valid date overwrites the day's start and keeps its end |
| InlineQuery.InlineFailsOnlyInDatabase | app/api/admin/plans/list/route.ts:122-167 | when the key rule never sets the date field, building the filter never throws, so the handler answers 500 exactly when the database fails on the request, and otherwise lists that request with the metadata for the database's count |
| InlineQuery.InlinePagination | app/api/admin/plans/list/route.ts:14-16 | page `n` and limit `l` are used as written, and the skip is `(n - 1) * l`, negative for a page below 1 |
| InlineQuery.UnclampedVersusClamped | app/api/admin/plans/list/route.ts:14-15 | where the generic processor clamps page and limit, these handlers do not |
| InlineQuery.InlineEcho | app/api/admin/plans/list/route.ts:156-160 | each echoed filter is the raw parameter when present and non-empty, and null otherwise |
| PlanListRoute.ListPlans | app/api/admin/plans/list/route.ts:7-169 | the plan listing handler gives the listing defined on values, with the plan rules, `plan_name`/`status` free-text fields and `createdAt` |
| PlanListRoute.PlanList | app/api/admin/plans/list/route.ts:7-169 | a plan listing is sorted on `createdAt` newest first, with the unclamped page window, and its total is the database's count for that request |
| PlanListRoute.PlanSearchByKey | app/api/admin/plans/list/route.ts:33-53 | `key:value` sets a name pattern, an exact status, or a parsed price or day count, on the trimmed key; an unknown key or an unparsable number leaves the filter as it was |
| PlanListRoute.PlanClauseCases | app/api/admin/plans/list/route.ts:39-53 | the clause for each known key, and none for an unknown key or an unparsable number |
| PlanListRoute.ValidityDaysSearch | app/api/admin/plans/list/route.ts:48-52 | a validity written as a whole number is searched as that number |
| PlanListRoute.PlanFreeText | app/api/admin/plans/list/route.ts:54-59 | free text matches the plan name or the status, ignoring case |
| PlanListRoute.PlanListFailsOnlyInDatabase | app/api/admin/plans/list/route.ts:92-167 | the request is always built, sorted on `createdAt` newest first with the unclamped page window; the answer is 500 exactly when the database fails on it, and otherwise the listing with the metadata for the count |
| PlanHistoryRoute.ListHistory | app/api/admin/plans/history/route.ts:7-162 | the purchase listing handler gives the listing defined on values, with the purchase rules, owner/status free-text fields and `buyed_date` |
| PlanHistoryRoute.HistoryList | app/api/admin/plans/history/route.ts:7-162 | a purchase listing is sorted on `buyed_date` newest first, with the unclamped page window, and its total is the database's count for that request |
| PlanHistoryRoute.HistorySearchByKey | app/api/admin/plans/history/route.ts:33-45 | `key:value` sets an owner-name pattern, or an exact status or plan id, on the trimmed key; an unknown key leaves the filter as it was |
| PlanHistoryRoute.HistoryFreeText | app/api/admin/plans/history/route.ts:46-52 | free text matches the owner's user name or the status, ignoring case |
| PlanHistoryRoute.HistoryListFailsOnlyInDatabase | app/api/admin/plans/history/route.ts:84-160 | the request is always built, sorted on `buyed_date` newest first with the unclamped page window; the answer is 500 exactly when the database fails on it (a `plan_id` that is not an ObjectId, say), and otherwise the listing with the metadata for the count |
| Pagination.GeneratePaginationMeta | utils/queryProcessor.ts:291-308 | the metadata echoes total, page and limit; there is a previous page exactly when the page is above 1; with a positive limit the page count is the least number of pages that hold the total |
| Pagination.HasNextIffMoreItems | utils/queryProcessor.ts:296-297 | with a numeric page and a positive limit there is a next page exactly when the items up to the end of this page are fewer than the total |
| Pagination.HasPrevIffAfterFirst | utils/queryProcessor.ts:298 | a numeric page has a previous page exactly when it is 2 or more |
| Pagination.TwentyFiveByTen | utils/queryProcessor.ts:291-308 | 25 items at 10 per page make 3 pages; page 1 has only a next page, pages 3 and 4 only a previous one |
| Pagination.ZeroLimit | app/api/admin/plans/list/route.ts:141-142 | an unclamped limit of 0 makes the page count Infinity, so every numeric page has a next page, or NaN when there are no items, so none has |
| Pagination.NaNInputs | app/api/admin/plans/list/route.ts:141-143 | a NaN page has neither a next nor a previous page, and a NaN limit makes the page count NaN |
| JsNumbers.DigitRun | utils/queryProcessor.ts:58-59 | the run `parseInt` reads is the longest prefix of digits of the radix |
| JsNumbers.ParseUnsigned | utils/queryProcessor.ts:58-59 | the unsigned part of `parseInt` is NaN exactly when no digit follows the optional `0x` prefix |
| JsNumbers.ParseIntEmpty | utils/queryProcessor.ts:58-59 | `parseInt("")` is NaN |
| JsNumbers.ShowNat | utils/queryProcessor.ts:172 | the decimal text of a number is non-empty, all digits, and has no leading zero |
| JsNumbers.DigitsValueShowNat | utils/queryProcessor.ts:58-59 | the digits of a number's decimal text have that number as their value |
| JsNumbers.DigitRunAll | utils/queryProcessor.ts:58-59 | a string made only of digits is read to its end |
| JsNumbers.ParseUnsignedShowNat | utils/queryProcessor.ts:58-59 | the unsigned reader reads back the decimal text of every natural number |
| JsNumbers.ParseIntShowInt | utils/queryProcessor.ts:58-59 | `parseInt(String(n)) == n` for every integer `n` |
| JsNumbers.ParseInt | utils/queryProcessor.ts:58-59 | blank text is NaN, and a negative result needs a leading `-` once white space is skipped |
| JsNumbers.ParseIntStopsAtNonDigit | app/api/admin/plans/list/route.ts:49 | `parseInt` stops at the first non-digit: `12abc` reads as 12 |
| JsNumbers.ParseIntNoDigits | app/api/admin/plans/list/route.ts:49-50 | text with no leading digit, and the empty text, read as NaN |
| JsNumbers.ParseIntHex | app/api/admin/plans/list/route.ts:49 | a `0x` prefix reads the rest in base 16 |
| JsNumbers.Max | utils/queryProcessor.ts:58 | `Math.max` is NaN when either operand is, and otherwise the larger operand |
| JsNumbers.Min | utils/queryProcessor.ts:59 | `Math.min` is NaN when either operand is, and otherwise the smaller operand |
| JsNumbers.CeilDiv | utils/queryProcessor.ts:296 | the ceiling of `a / b` is the integer just at or above the exact quotient |
| JsNumbers.CeilRatio | utils/queryProcessor.ts:296 | `Math.ceil(total / limit)` is NaN for a NaN limit or 0/0, Infinity for a positive total over 0, and otherwise the least page count holding the total |
| JsNumbers.SkipCount | utils/queryProcessor.ts:60 | `(page - 1) * limit` is NaN exactly when an operand is, and is non-negative for a page of at least 1 and a non-negative limit |
| JsText.TrimStartShape | utils/queryProcessor.ts:117 | `trimStart` returns a suffix of its argument, drops only white space, and what it keeps does not start with white space |
| JsText.TrimEndShape | utils/queryProcessor.ts:117 | `trimEnd` returns a prefix of its argument, drops only white space, and what it keeps does not end with white space |
| JsText.TrimShape | utils/queryProcessor.ts:117 | `trim` returns a slice of its argument with only white space on either side of it, and the slice neither starts nor ends with white space |
| JsText.Trim | utils/queryProcessor.ts:117 | the trimmed text is never longer than its argument and neither starts nor ends with white space |
| JsText.TrimEndKeepsHead | app/api/admin/plans/list/route.ts:36-37 | a non-empty result of `trimEnd` starts with the first character of its argument |
| JsText.TrimEmptyIffAllSpace | utils/queryProcessor.ts:117-119 | a trimmed string is empty exactly when the original is all white space (the falsy-key check after `trim`) |
| JsText.TrimEndKeepsFirst | app/api/admin/plans/list/route.ts:36-37 | a string starting with a non-space character does not trim to nothing at its end |
| JsText.TrimNoSpace | app/api/admin/plans/list/route.ts:36-37 | text without white space is its own trim |
| JsText.TrimKeepsTrimmed | app/api/admin/plans/list/route.ts:36-37 | text that neither starts nor ends with white space is its own trim |
| JsText.TrimIdempotent | app/api/admin/plans/list/route.ts:36-37 | trimming twice is trimming once |
| JsText.TrimmedIff | app/api/admin/plans/list/route.ts:36-37 | a string is its own trim exactly when it neither starts nor ends with white space, and every trim result is such a string |
| JsText.Split | app/api/admin/plans/list/route.ts:33 | `split` on a character gives at least one piece, no piece holds the separator, and joining the pieces with it gives the input back |
| JsText.SplitJoin | app/api/admin/plans/list/route.ts:33-34 | splitting the join of separator-free pieces gives back exactly those pieces (the inverse of `Split`'s join property) |
| JsText.SplitNoSeparator | app/api/admin/plans/list/route.ts:33-34 | a string without the separator splits into itself alone |
| JsText.SplitConcat | app/api/admin/plans/list/route.ts:33-34 | a separator-free head followed by the separator splits into the head followed by the pieces of the rest |
| JsText.SplitCountsSeparator | app/api/admin/plans/list/route.ts:33-34 | a split has two or more pieces exactly when the separator occurs |
| JsText.SplitFirstPiece | utils/queryProcessor.ts:170-171 | the first piece of a split is the text before the first separator |
| JsText.ToLower | utils/queryProcessor.ts:214 | lowercasing keeps the length and maps each character to its lower-case form |
| JsText.RemoveSpacesShape | utils/queryProcessor.ts:214 | removing the white-space runs leaves no white space, never lengthens, and keeps text with none as it is |
| JsText.RemoveSpacesConcat | utils/queryProcessor.ts:214 | removing white space distributes over concatenation |
| LocalCalendar.DaysInYear | utils/queryProcessor.ts:243-259 | a year has 365 or 366 days |
| LocalCalendar.DaysInMonth | utils/queryProcessor.ts:227-230 | a month has 28 to 31 days |
| LocalCalendar.DaysBeforeMonth | utils/queryProcessor.ts:223-230 | January starts the year, each month ends within the year, and December ends it exactly |
| LocalCalendar.DayRange | utils/queryProcessor.ts:179-183 | `setHours(0,0,0,0)` and `setHours(23,59,59,999)` bound the instant, lie one day less a millisecond apart, and an instant lies between them exactly when it falls on the same day |
| LocalCalendar.TimeOfValid | utils/queryProcessor.ts:172-180 | a valid broken-down date lies on the day `MakeDay` gives, so its start of day is that day at midnight |
| LocalCalendar.DayOfMakeDate | utils/queryProcessor.ts:179-183 | a time of day within one day does not change the day number |
| LocalCalendar.YearLength | utils/queryProcessor.ts:243-259 | year `y` starts `DaysInYear(y)` days before year `y + 1` |
| LocalCalendar.FormulaYearLength | utils/queryProcessor.ts:243-259 | the closed-form day count of ECMAScript grows by the length of each year |
| LocalCalendar.DayFromYearMatchesFormula | utils/queryProcessor.ts:243-259 | the recursive count of days to the start of a year agrees with the ECMAScript closed form, for every year |
| LocalCalendar.MonthLength | utils/queryProcessor.ts:233-241 | the first of the next month is the length of the month after the first of this month, across a year end too |
| LocalCalendar.MakeDayInYear | utils/queryProcessor.ts:224 | within a year, a date's day number is the start of the year plus the days before its month plus its day less one |
| LocalCalendar.DaysBeforeNextMonth | utils/queryProcessor.ts:233-241 | the days before the next month are the days before this one plus its length |
| LocalCalendar.DayZeroIsPreviousMonthEnd | utils/queryProcessor.ts:230 | day 0 of a month is the last day of the month before |
| LocalCalendar.DayZeroOfJanuary | utils/queryProcessor.ts:230 | day 0 of January is the 31st of December of the year before |
| LocalCalendar.PreviousMonth | utils/queryProcessor.ts:229 | the month before is a month index in 0..11 |
| LocalCalendar.PreviousMonthSpan | utils/queryProcessor.ts:229-230 | from day 1 of month `m - 1` to day 0 of month `m` are exactly the days of the previous month, December of the year before in January |
| LocalCalendar.JanuaryWraps | utils/queryProcessor.ts:229 | month index -1 is December of the year before |
| RelativeDates.DaysBeforeIsExact | utils/queryProcessor.ts:219-220 | going back `k` days with `setDate` is exactly `k` whole days earlier |
| RelativeDates.MonthStep | utils/queryProcessor.ts:233-241 | the first of month `m + 1` is 28 to 31 days after the first of month `m`, for any month index |
| RelativeDates.MonthsSpan | utils/queryProcessor.ts:233-241 | `k` month starts back lie 28k to 31k days back |
| RelativeDates.MonthsBeforeBounds | utils/queryProcessor.ts:233-241 | "last 3 months" and "last 6 months" start between 28k and 31k days before now |
| RelativeDates.YearsSpan | utils/queryProcessor.ts:243-259 | `k` years span between 365k and 366k days |
| RelativeDates.YearsBeforeBounds | utils/queryProcessor.ts:243-259 | going back `k` years with `setFullYear` lands between 365k - 1 and 366k + 1 days earlier |
| RelativeDates.PreviousMonthStartIsFirstDay | utils/queryProcessor.ts:229 | "last month" starts at midnight on day 1 of the previous month, December of the year before in January |
| RelativeDates.PreviousMonthEndTouchesMonthStart | utils/queryProcessor.ts:224-230 | "last month" ends one millisecond before "this month" starts |
| RelativeDates.PreviousMonthIsWholeMonth | utils/queryProcessor.ts:229-230 | "last month" covers exactly the days of the previous month |
| RelativeDates.MonthStartNotAfterNow | utils/queryProcessor.ts:223-224 | "this month" starts no later than now and less than 31 days before it |
| JsonBody.StringCast | app/model/plan/plan.model.ts:15-20 | a string path stores text exactly for strings, numbers and booleans, and that text is `String(v)` |
| JsonBody.FalsyValues | app/api/admin/plans/create/route.ts:15 | the falsy values are exactly `undefined`, `null`, `false`, `0` and `""` |
| QueryPredicate.Alternatives | utils/queryProcessor.ts:146-150 | the `$or` list has one case-insensitive pattern per field, in the fields' order |
| QueryPredicate.WithLowerBound | utils/queryProcessor.ts:268-279 | setting a lower bound throws exactly on a truthy number or string; otherwise only that field changes, and it gets `$gte` while an existing operator object keeps its other operators |
| QueryPredicate.MongoQuery.constructor | utils/queryProcessor.ts:65 | a new filter object is empty |
| QueryPredicate.MongoQuery.Set | utils/queryProcessor.ts:124 | assigning a field changes that field only |
| QueryPredicate.MongoQuery.SetAnyOf | utils/queryProcessor.ts:147 | assigning `$or` changes only the alternatives |
| QueryPredicate.MongoQuery.SetLowerBound | utils/queryProcessor.ts:274-278 | the in-place update throws exactly when `WithLowerBound` has none, leaves the object unchanged then, and otherwise leaves the object `WithLowerBound` gives |
| QueryPredicate.LowerBoundKeepsEnd | utils/queryProcessor.ts:268-279 | a lower bound set on a day range replaces its start and keeps its end |
| PlanModel.StatusOf | app/model/plan/plan.model.ts:31-36 | a status value is accepted exactly when it is one of the two strings the enum allows, and then it is that status's text |
| PlanModel.NewPlan | app/model/plan/plan.model.ts:13-41 | a new plan fails exactly when its name trims to nothing; otherwise it satisfies the schema and holds the trimmed name, the validity, the price, status "active" and both timestamps at the save time |
| PlanModel.StatusTextRoundTrip | app/model/plan/plan.model.ts:31-36 | each status is read back from its own text |
| PlanCreateRoute.CreatedIsValid | app/api/admin/plans/create/route.ts:57-70 | every created plan satisfies the schema, is active, has the new id, and both timestamps at the save time |
| PlanCreateRoute.Create | app/api/admin/plans/create/route.ts:7-78 | a created plan has a free name, satisfies the schema, is active, has the new id, both timestamps at the save time and exactly the requested validity and price; a refusal is a 400, or a 409 only for a taken name |
| PlanCreateRoute.CreatedCarriesInput | app/api/admin/plans/create/route.ts:12-70 | a free, non-blank string name, a validity of at least 1 and a non-negative price create exactly the plan with the trimmed name, that validity and that price |
| PlanCreateRoute.RequiredCheckTruthiness | app/api/admin/plans/create/route.ts:15-43 | a validity of 0 counts as missing, a `null` price fails the number check, and a price of 0 passes |
| PlanCreateRoute.DuplicateCheckedLast | app/api/admin/plans/create/route.ts:15-55 | a rejected field is reported with status 400 whether or not the name is taken |
| PlanCreateRoute.TakenNameConflicts | app/api/admin/plans/create/route.ts:45-55 | valid fields with a taken name give the 409 conflict |
| PlanCreateRoute.BlankNameIsServerError | app/api/admin/plans/create/route.ts:58-76 | a name of spaces only passes the handler's checks, but the schema trims it to nothing and the save fails with a server error |
| PlanEditRoute.SuppliedAmong | app/api/admin/plans/edit/route.ts:49-116 | the update holds exactly the fields among those checked that the body supplies (not `undefined`), each with the body's value |
| PlanEditRoute.SuppliedStep | app/api/admin/plans/edit/route.ts:51-116 | checking one more field adds it to the update exactly when the body supplies it |
| PlanEditRoute.EditPlan | app/api/admin/plans/edit/route.ts:8-137 | the handler, with its early returns, answers exactly as the edit defined on values: identifier checks, then the first failing field check, otherwise the update and the updated plan |
| PlanEditRoute.CheckFields | app/api/admin/plans/edit/route.ts:48-116 | filling the update field by field returns the first failing check in the order name, validity, price, status, and when none fails the update is exactly the supplied editable fields |
| PlanEditRoute.IdChecksFirst | app/api/admin/plans/edit/route.ts:16-46 | a missing id is a 400, then a malformed id a 400, then an unknown plan a 404, whatever the other fields hold |
| PlanEditRoute.EditTouchesOnlySupplied | app/api/admin/plans/edit/route.ts:49-123 | an accepted edit changes exactly the supplied fields, to the supplied values (the name trimmed by the schema), and keeps the id and the creation time |
| PlanEditRoute.Edit | app/api/admin/plans/edit/route.ts:8-137 | an update needs a plan found by the id and keeps its id and creation time, with the update time moved to the save time; a 404 means no plan was found |
| PlanEditRoute.EmptyEditKeepsPlan | app/api/admin/plans/edit/route.ts:118-123 | a body with no editable field succeeds with an empty update, and only the update time moves |
| PlanEditRoute.EditKeepsValid | app/api/admin/plans/edit/route.ts:48-123 | an accepted edit of a valid plan leaves a plan the schema accepts |
| PlanEditRoute.UpdateKeepsValid | app/api/admin/plans/edit/route.ts:119-123 | an update whose name, validity and price the schema accepts keeps a plan valid |
| PlanEditRoute.NameCheckedFirst | app/api/admin/plans/edit/route.ts:51-60 | a blank name is reported before any error in the validity, the price or the status |
| PlanStatusRoute.PlanDocument.constructor | app/api/admin/plans/status/route.ts:30 | a fetched document holds the stored plan and is unmodified |
| PlanStatusRoute.PlanDocument.SetStatus | app/api/admin/plans/status/route.ts:40 | assigning the status changes only the status, and marks the document modified exactly when the value changes |
| PlanStatusRoute.PlanDocument.Save | app/api/admin/plans/status/route.ts:41 | saving moves the update time to the save time exactly when the document was modified, and clears the mark |
| PlanStatusRoute.PatchStatus | app/api/admin/plans/status/route.ts:7-60 | assigning and saving on the fetched document answers exactly as the `PATCH` defined on values; the document then holds the saved plan, or is untouched when the request is refused |
| PlanStatusRoute.PatchValidatesFirst | app/api/admin/plans/status/route.ts:15-30 | a missing id or a status other than "active"/"inactive" is a 400 whatever the lookup would give |
| PlanStatusRoute.PatchChangesOnlyStatus | app/api/admin/plans/status/route.ts:40-51 | a successful `PATCH` changes only the status, to the requested one, moves the update time exactly when the status changes, and names the new status in its message |
| PlanStatusRoute.Patch | app/api/admin/plans/status/route.ts:7-60 | a successful `PATCH` saves the plan found with only its status and update time changed, the status being the one requested and named in the message; a 500 comes only from a body that is not JSON or a lookup that throws |
| PlanStatusRoute.PatchKeepsValid | app/api/admin/plans/status/route.ts:40-41 | a valid plan stays valid under a status change |
| PlanStatusRoute.ViewIgnoresTerms | app/api/admin/plans/status/route.ts:78-95 | `GET` reports the id, the name and the status of the plan, and nothing of its validity or price |
| PlanStatusRoute.GetStatus | app/api/admin/plans/status/route.ts:62-104 | the 500 is given exactly when a non-empty id is given and the lookup throws; a view shows the found plan's id, name and status text |
| UserSchema.TypeOf | app/model/users/user.schema.ts:40-45 | a type value is accepted exactly when it is "owner" or "admin", and then it is that type's text |
| UserSchema.NewUser | app/model/users/user.schema.ts:16-50 | a new user fails exactly when the username or the phone number trims to nothing or the password is empty; otherwise it satisfies the schema and holds the trimmed names, the password, status "active", the type and both timestamps at the save time |
| UserSchema.Claims | utils/jwt.ts:20-26 | the signed claims carry the user's id, username and store id, and a type that reads back as the user's type |
| UserSchema.PasswordNotExposed | app/api/auth/signin/route.ts:62-72 | neither the public view nor the signed claims depend on the password, and the view carries the user's names and type |
| UserSchema.NewUserKeepsTrimmed | app/model/users/user.schema.ts:18-29 | a user built from names that are already trimmed keeps them exactly |
| OnboardRoute.StoreEmail | app/api/auth/onboard/route.ts:182 | the store's e-mail is the supplied non-empty one, or the username followed by "@yourstore.com" when none is supplied |
| OnboardRoute.PhonePatternIff | app/api/auth/onboard/route.ts:136-137 | the phone pattern accepts exactly an optional `+` then a non-zero digit and at most 15 more digits, so 1 to 17 characters |
| OnboardRoute.PhoneIsTrimmed | app/api/auth/onboard/route.ts:136-170 | a phone number the pattern accepts is its own trim |
| OnboardRoute.GuardPassed | app/api/auth/onboard/route.ts:103-162 | a request that passes the guards has the three required fields, an allowed or falsy type, a password of at least 6, a phone number matching the pattern, and no existing user |
| OnboardRoute.RequiredCheckedFirst | app/api/auth/onboard/route.ts:103-111 | a falsy username, phone number or password is a 400 whatever else the body holds |
| OnboardRoute.PersistFacts | app/api/auth/onboard/route.ts:164-190 | a successful save stores the user built from the trimmed names, the hash and the type, and the default store with its e-mail, neither colliding on a unique index, and signs a token with the store id |
| OnboardRoute.OpenExceptSunday | app/api/auth/onboard/route.ts:32-49 | the default business hours list seven days, open exactly except on Sunday |
| OnboardRoute.RegisteredUserIsValid | app/api/auth/onboard/route.ts:168-177 | a registered user satisfies the schema, is active, has the trimmed username, the phone number exactly, the hashed password and the requested type |
| OnboardRoute.UserOfPattern | app/api/auth/onboard/route.ts:168-177 | a user saved from a phone number matching the pattern keeps it exactly |
| OnboardRoute.RegisteredStore | app/api/auth/onboard/route.ts:180-190 | the default store is named after the raw username, owned by the new user, has the supplied or made-up e-mail, is closed on Sunday only, and the token carries its id |
| OnboardRoute.NullTypeFailsValidation | app/api/auth/onboard/route.ts:228-239 | an explicit `null` type skips the type check but fails the schema's required validator, a 400 "Validation error" |
| OnboardRoute.ExistingUserConflict | app/api/auth/onboard/route.ts:147-162 | once the fields pass, an existing user is a 409 named after the username when it is equal, and after the phone number otherwise |
| OnboardRoute.PaddedUsernameNamesPhone | app/api/auth/onboard/route.ts:147-161 | a username padded in front (with white space, which the trimming lookup ignores) fails the strict comparison with the stored user found, so the 409 names the phone number |
| OnboardRoute.ReplyHidesPassword | app/api/auth/onboard/route.ts:192-201 | users differing only in their password give the same reply |
| OnboardRoute.Guard | app/api/auth/onboard/route.ts:102-162 | the guards refuse with 400, or with 409 only when a user with the name or phone number exists; passing them needs no such user, a password and a phone number matching the pattern |
| OnboardRoute.Persist | app/api/auth/onboard/route.ts:164-260 | a save registers a valid active user with the given id and a store with the given id owned by it, neither colliding on a unique index; a refusal is a 400 or a 409 |
| OnboardRoute.Onboard | app/api/auth/onboard/route.ts:93-262 | a registration needs a JSON body and no existing user, and gives a valid user and a store it owns; a refusal is a 400 or a 409 |
| OnboardRoute.UniqueKeyConflict | app/api/auth/onboard/route.ts:176-190 | a request that registers conflicts instead exactly when the new user, or else its default store, collides on a unique index, with a 409 named after the key (`username`, `phoneNumber`, `displayName`, `email`); otherwise it registers the same user and store |
| OnboardRoute.AbsentTypeRegistersOwner | app/api/auth/onboard/route.ts:100 | a body with no `type` field that registers registers an owner |
| SigninRoute.FirstMatch | app/api/auth/signin/route.ts:34-36 | the lookup finds the first stored user whose username or phone number is the identifier, and finds none exactly when no user has it |
| SigninRoute.RequiredCheckedFirst | app/api/auth/signin/route.ts:20-28 | a missing identifier or password is a 400 whatever the stored users |
| SigninRoute.UniformCredentialFailure | app/api/auth/signin/route.ts:38-59 | for a string identifier and a password, the 401 "Invalid credentials" is given exactly when no user is named or the first one named has another password |
| SigninRoute.SignedInIsFirstMatch | app/api/auth/signin/route.ts:31-85 | a successful sign-in is for the first user the trimmed identifier names whose password matches, and replies with its public view and a token signed with its claims |
| SigninRoute.LookupSignedIn | app/api/auth/signin/route.ts:34-62 | a successful lookup has found a user whose password matches, and replies with that user's view and token |
| SigninRoute.ReplyHidesStoredPassword | app/api/auth/signin/route.ts:49-72 | changing a stored password without changing the comparison's verdict does not change the reply |
| SigninRoute.LookupHidesPassword | app/api/auth/signin/route.ts:34-72 | the lookup's answer does not depend on a stored password beyond the comparison |
| SigninRoute.FirstMatchSameIdentities | app/api/auth/signin/route.ts:34-36 | two user lists that agree on who the identifier names give the same lookup |
| SigninRoute.IdentifierTrimmed | app/api/auth/signin/route.ts:31 | for an identifier that is not blank, white space around it never changes the answer |
| SigninRoute.StringLookup | app/api/auth/signin/route.ts:20-36 | a non-empty string identifier is looked up trimmed when a password is given, and is a 400 otherwise |
| SigninRoute.Signin | app/api/auth/signin/route.ts:10-110 | a sign-in succeeds only for a string identifier whose trimmed form names a first user whose password matches, replying with that user's public view and a token of its claims; a refusal is a 400 or a 401 |

Notes on how the model reads the code:

- The schemas' `trim` setters also run on the edit handler's
  `findByIdAndUpdate`, so an edited name is stored trimmed, like a created
  one. Both handlers pass the name as given.
- The user schema has no `email` path. Mongoose's strict mode therefore
  drops the e-mail the onboarding handler passes to `new UserModel(...)`,
  and the modelled user has no e-mail. The e-mail is used only for the
  default store.
- The schema's timestamps move `updatedAt` on every `findByIdAndUpdate`,
  even an empty one. So an edit with nothing to change returns the plan
  with only its update time moved (`PlanEditRoute.EmptyEditKeepsPlan`).
- The onboarding lookup of an existing user runs the schema's `trim`
  setters on its filter, so a padded username finds the stored user. The
  handler then compares the stored username with the padded one strictly,
  which fails, and names the conflict after the phone number: a 409 "Phone
  number already exists" (`OnboardRoute.PaddedUsernameNamesPhone`). The
  unique indexes are reached only by an insert that races the lookup, or by
  the default store.
- The sign-in handler calls `generateToken` without a store id, so its
  token's claims carry none. The onboarding token carries the new store's id.

## Left out

- Database access: every `find`, `findOne`, `findById`, `countDocuments`,
  `populate`, `save` and `findByIdAndUpdate`, and `executePaginatedQuery`
  (utils/queryProcessor.ts:313-348). Lookups are parameters. The listing
  handlers' database is a function from the find request to the count, or
  to a failure (a negative skip, a value the schema cannot cast, a
  malformed pattern) which they answer with 500; which requests fail is
  not modelled. `findOne` returns the first match in the order of a
  sequence of stored users. The unique indexes of the users and stores
  collections are a parameter naming the key a new document collides on.
- `app/lib/dbconfig.ts` (the connection cache) is not part of this model,
  because it is a concurrency concern.
- Token signing and verification, which `utils/jwt.ts` delegates to the `jsonwebtoken` and `jose` libraries, are
  parameters: a signer from claims to text, and a verifier returning the
  payload of a valid token.
- Password hashing and comparison, and `mongoose.Types.ObjectId.isValid`,
  are parameters.
- `new Date(string)`, `Number(s)` and `parseFloat(s)` are parameters of the
  host. The day-month-year branch of the date step is modelled with
  `parseInt` and the calendar arithmetic.
- Time zones, daylight-saving changes and the ±8.64e15 ms limit of a time
  value (TimeClip) are not modelled. All dates are local time with days of
  exactly 86 400 000 ms.
- `toLowerCase` lowers the ASCII letters only. White space is the
  ECMAScript white-space and line-terminator set as listed in `JsText`.
  Strings are sequences of characters, not UTF-16 code units, so a
  `length` check counts characters.
- Regular-expression matching by the database is not modelled. Only the
  shape of the `$regex` clauses is. The onboarding phone pattern is modelled
  as the language it accepts.
- Onboarding's mapping of the mongoose errors:
  - a ValidationError is a 400 with the message "Validation error", without
    its per-path `errors` list;
  - a duplicate-key error (code 11000) is a 409 named after the first key
    of its key pattern; a pattern of several keys is not modelled.
- A store save that fails after the user was saved leaves that user in the
  database. The model only returns the failure.
- The `timestamp` of `createErrorResponse` and the normalisation of header
  names and values by `Headers` are not modelled. Header and cookie values
  arrive as optional strings.
- Gatekeeper.HeaderChecks: the header value is unconstrained, so the model
  reaches "Token is required" on `Bearer ` alone. `Headers` trims values,
  and then that answer never comes (`Gatekeeper.TrimmedHeaderNeverTokenless`).
- Gatekeeper.ExpiryBoundary: the verifier is unconstrained, so the model
  lets any `exp` reach the gatekeeper's own expiry test. `jwtVerify`
  already refuses an `exp` that is not after the current second, `exp: 0`
  included, as "Invalid or expired token". A token expiring in the current
  second therefore does not pass, and the expiry test never fires
  (`Gatekeeper.StrictVerifierNeverExpired`).
- Gatekeeper.ExpiredTokenDenied: "Token has expired" is reached only with a
  verifier that accepts expired tokens. With `jwtVerify` it is dead code
  (`Gatekeeper.StrictVerifierNeverExpired`).
- The percent-encoding of the `redirect` query parameter of the sign-in
  redirect is not modelled. The redirect carries the raw path.
- Gatekeeper.Decide: a sign-in redirect is built from a copy of the
  request URL (middleware.ts:181-183, 193-195, 204-206), so it keeps the
  original query string beside `redirect`; the model carries only the path.
- JsNumbers.ParseInt: `parseInt` returns a double, so digit runs above
  2^53 lose precision; the model's value is exact.
- Request bodies that are JSON but not an object (an array, a number) are
  not modelled. A body is either not JSON or a map from field names to
  values. Arrays and objects inside it are single opaque values with their
  text and `length`.
- The framework's `config.matcher` of `middleware.ts` is not modelled. Every
  path reaches the gatekeeper.
- The history listing's `populate` of the plan and owner documents is not
  modelled. It changes only what each listed item shows, not the filter or
  the pagination.
- Logging with `console` and the UI pages are not modelled.
- The dashboard statistics and owner-list routes, and the store and
  plan-history schemas, are not part of this model.
