# RFP dashboard: filter and aggregates

A Dafny model of the logic in `app/page.tsx` of the demo RFP (request for
proposal) procurement dashboard.

- **`Page` filters the records** by the three header controls: a free-text search, a site dropdown and a status dropdown.
- **`Dashboard` derives every figure from the filtered list**: the active, due-this-week and overdue cards; the per-stage pipeline and the status pie; the risk pie; the counts per category; the budget total per site; the vendor participation of the six most recently active records; the alert list; and the four records due soonest.
- **Tone mappings**: `statusTone` and `riskTone` give the badge colours.

Modules, one per file:

| file | module | content |
|---|---|---|
| `types.dfy` | `RfpTypes` | the `Rfp` record, `Status`, `Risk`, `statusOrder`, the tone functions |
| `seqs.dfy` | `Seqs` | the sequence vocabulary the model is stated in: filter, per-key count and total, first-seen keys, stable sort, take |
| `text.dfy` | `Text` | `toLowerCase`, `trim`, `includes`, and the decimal rendering of a count in a template literal |
| `filtering.dfy` | `Filtering` | the `filtered` list of `Page` |
| `dashboard.dfy` | `Dashboard` | every derived figure of `Dashboard` |
| `page.dfy` | `Page` | the filtered list passed to the dashboard |

Form follows the source:

- **Imperative parts are methods.** The dictionaries that `forEach` fills (`counts`, the risk `map`, the two `agg` objects) are methods with loops. Each is proved against a function from `Seqs`, such as `Count`, `Total` or `FirstSeen`. The `alerts` array is grown by a fixed sequence of conditional `push` calls and has no loop, in the source or the model. Its method `Dashboard.PushAlerts` is proved against the function `Dashboard.AlertList`.
- **Expression chains are functions.** In the source these are written with `filter`, `slice`, `sort` and `map`. They cover the three date buckets, vendor participation, the due-soon slice and the filter predicate.

Modelling decisions:

- **Dates are day numbers.** `today` is a parameter, and `daysUntil(d)` is `d - today`. Comparing well-formed `YYYY-MM-DD` strings with `localeCompare` orders them by day, so it is modelled as integer comparison.
- **`Array.prototype.sort` is stable**, so it is modelled as a stable insertion sort `Seqs.SortBy`. A descending comparator (`b - a`) becomes an ascending sort on the negated key.
- **A JavaScript object used as a dictionary** is a `map` plus the `seq` of its keys in insertion order. `Object.entries` reads the map in that key order, and `agg[k] || 0` is `Seqs.Get(agg, k, 0)`.
- **`budgetAed?`** is an `Option<int>`. It is truthy when present and not zero.

Cases the code leaves open:

- `Status` and `Risk` are closed unions in `app/page.tsx`, so the model has no error case for a status or risk outside them.
- `dueDate` and `lastActivity` are unchecked strings. An unparsable `dueDate` makes `daysUntil` return `NaN`, and such a record falls in neither date bucket. The model has only day numbers, so it does not cover this case (see "Left out").
- The category counts come out in the order in which each category is first met, and so do the model's.

## Model

| member | source | states |
|---|---|---|
| RfpTypes.StatusOrderComplete | app/page.tsx:60-68 | the stage order has seven entries, lists every status, and lists none twice |
| RfpTypes.StageIndex | app/page.tsx:60-68 | every status has a position in the stage order, and the stage order holds that status at that position |
| RfpTypes.StatusLabel | app/page.tsx:33-40 | every status has a non-empty label, and no label is the dropdown wildcard "All" |
| RfpTypes.StatusLabelInjective | app/page.tsx:33-40 | two statuses with the same label are the same status; no label is the dropdown wildcard "All" |
| RfpTypes.StatusTone | app/page.tsx:107-111 | never "danger"; "ok" exactly for the last stage; "warn" exactly for the two stages after submissions close; "neutral" exactly for the four earlier stages |
| RfpTypes.RiskTone | app/page.tsx:113-117 | never "ok"; "danger" exactly for an overdue risk |
| RfpTypes.RiskToneInjective | app/page.tsx:113-117 | distinct risks get distinct tones |
| Text.ToLower | app/page.tsx:508 | same length; each character is lowered individually, ASCII letters only |
| Text.ToLowerIdempotent | app/page.tsx:508-509 | lowering an already lowered string changes nothing |
| Text.ToLowerConcat | app/page.tsx:509 | lowering distributes over concatenation |
| Text.Trim | app/page.tsx:508 | the result is a contiguous block of the input; only whitespace and line terminators were removed at either end; it neither starts nor ends with one |
| Text.TrimIdempotent | app/page.tsx:508 | trimming twice is trimming once |
| Text.TrimAllSpaces | app/page.tsx:508-509 | a query of blanks only trims to the empty query |
| Text.TrimUntouched | app/page.tsx:508 | a string without blanks at its ends is its own trim |
| Text.Includes | app/page.tsx:509 | the empty query occurs in every text, and a query that occurs is never longer than the text |
| Text.IncludesExtend | app/page.tsx:509 | a substring of a part of a string is a substring of the whole |
| Text.IncludesRight | app/page.tsx:509 | an occurrence survives text added on the right |
| Text.IncludesLeft | app/page.tsx:509 | an occurrence survives text added on the left |
| Text.LowerKeepsIncludes | app/page.tsx:509 | lowering keeps an occurrence: when the query occurs in the text, the lowered query occurs in the lowered text |
| Text.IncludesItself | app/page.tsx:509 | every string includes itself |
| Text.NatToString | app/page.tsx:293-296 | a count renders as at least one decimal digit, without a leading zero |
| Text.ParseNatToString | app/page.tsx:293-296 | a rendered count reads back as that count |
| Text.NatToStringInjective | app/page.tsx:293-296 | distinct counts render as distinct texts |
| Filtering.SearchText | app/page.tsx:509 | the search text contains the identifier, the title, the category and the owner |
| Filtering.MatchesSeparately | app/page.tsx:507-512 | the three controls act independently: a record matches exactly when it passes the query with both dropdowns on "All", the site with an empty query and status "All", and the status with an empty query and site "All" |
| Filtering.FilterRecords | app/page.tsx:506-513 | a record is kept exactly when it is in the input and the query, site and status predicates all hold |
| Filtering.FilterRecordsKeepsOrder | app/page.tsx:506-513 | the result consists of the matching positions of the input, in increasing order, and no matching position is missing |
| Filtering.FilterRecordsIdentity | app/page.tsx:506-513 | a blank query with both dropdowns on "All" returns the input unchanged |
| Filtering.UnfilteredShowsAll | app/page.tsx:499-513 | the initial controls (empty query, "All", "All") show every record |
| Filtering.EmptyQueryMatches | app/page.tsx:508-509 | the empty query matches every record |
| Filtering.FilterByStatus | app/page.tsx:511 | selecting a stage in the dropdown keeps exactly the records in that stage |
| Filtering.FilterByUnknownStatus | app/page.tsx:511 | a status string that is neither "All" nor a stage label keeps nothing |
| Filtering.QueryFindsField | app/page.tsx:508-509 | a query that trims and lowers to the lowered identifier, title, category or owner of a record finds that record |
| Dashboard.DaysUntil | app/page.tsx:83-89 | over day numbers: zero on the day itself, negative exactly once the day has passed, and counting that many days on from today lands on the day |
| Dashboard.Active | app/page.tsx:232 | exactly the records not yet awarded, each as often as it occurs in the input; its length is the number of positions whose record is not awarded |
| Dashboard.DueThisWeek | app/page.tsx:233-236 | exactly the records with 0 <= daysUntil <= 7, each as often as it occurs in the input; its length is the number of positions whose record passes that test |
| Dashboard.Overdue | app/page.tsx:237 | exactly the records past their due date that are not awarded, each as often as it occurs in the input; its length is the number of positions whose record passes that test |
| Dashboard.MissingApprovals | app/page.tsx:295 | exactly the records lacking at least one of the finance, legal and head approvals, each as often as it occurs in the input; its length is the number of positions whose record passes that test |
| Dashboard.ActivePlusAwarded | app/page.tsx:232 | the active count plus the number of awarded records is the number of records |
| Dashboard.OverdueIsActiveNotDue | app/page.tsx:233-237 | an overdue record is active and not due this week |
| Dashboard.OverdueAtMostActive | app/page.tsx:232-237 | the overdue count never exceeds the active count |
| Dashboard.DueAndOverdueDisjoint | app/page.tsx:233-237 | the due-this-week and overdue counts together never exceed the number of records |
| Dashboard.TallyStatuses | app/page.tsx:240-241 | every status has an entry, equal to the number of records in that status |
| Dashboard.Pipeline | app/page.tsx:239-243 | seven entries in stage order, zero counts included; each count is the number of records in that stage; the counts sum to the number of records |
| Dashboard.StatusPie | app/page.tsx:245-249 | the same seven counts as the pipeline, as named slices in stage order, summing to the number of records |
| Dashboard.AddRisk | app/page.tsx:253-257 | one callback step: "None" increments "On track", "At Risk" increments "At risk", any other risk increments "Overdue", and the map again counts each bucket over the records seen so far |
| Dashboard.RiskPie | app/page.tsx:251-259 | exactly the slices "On track", "At risk", "Overdue", in that order; each counts the records with risk None, At Risk or Overdue respectively; the values sum to the number of records |
| Dashboard.RiskBucketsPartition | app/page.tsx:253-257 | every record lands in exactly one of the three risk buckets, so the bucket counts add up to the number of records |
| Dashboard.AddCategory | app/page.tsx:263 | one callback step: the record's category count goes up by one, the category is appended to the keys when new, and the dictionary again counts every category of the records seen so far |
| Dashboard.CountCategories | app/page.tsx:262-263 | the dictionary's keys are the categories in first-seen order, and each key's value is the number of records in that category |
| Dashboard.ByCategory | app/page.tsx:261-265 | one entry per distinct category, in first-seen order, none repeated; every record's category has an entry; each count is positive and equals the records in that category; the counts sum to the number of records |
| Dashboard.SiteTotals | app/page.tsx:268-273 | each site with a truthy budget, in first-seen order, with the sum of its truthy budgets |
| Dashboard.HasBudget | app/page.tsx:270 | a budget is truthy exactly when it would add something to a total, so the records it skips contribute nothing |
| Dashboard.AppendBudgeted | app/page.tsx:270 | a record joins the budgeted records exactly when its budget is truthy |
| Dashboard.AddBudget | app/page.tsx:269-272 | one callback step: a record with a truthy budget adds it to its site's total, appending the site when new; any other record changes nothing |
| Dashboard.SumBudgetsBySite | app/page.tsx:268-273 | the dictionary's keys are the budgeted sites in first-seen order, and each value is that site's budget total |
| Dashboard.BudgetBySite | app/page.tsx:267-276 | the site totals sorted by value, largest first; the values never increase along the list; they sum to the sum of all truthy budgets |
| Dashboard.BudgetBySiteSorted | app/page.tsx:274-276 | the values never increase along the list |
| Dashboard.BudgetBySiteSum | app/page.tsx:267-276 | the values sum to the sum of all truthy budgets |
| Dashboard.BudgetBySiteDistinct | app/page.tsx:273-275 | no site appears twice |
| Dashboard.BudgetBySiteValues | app/page.tsx:269-275 | every entry is a site with a budgeted record, valued at the sum of that site's budgets |
| Dashboard.BudgetBySiteCovers | app/page.tsx:269-275 | every site of a record with a truthy budget has an entry |
| Seqs.Filter | app/page.tsx:506-513 | no longer than the input; an element is kept exactly when it is in the input and satisfies the test |
| Seqs.FilterMultiset | app/page.tsx:506-513 | filtering keeps every satisfying element exactly as often as it occurs, and nothing else |
| Seqs.FilterCount | app/page.tsx:232-237 | the length of a filter is the number of positions whose element satisfies the test |
| Seqs.FirstSeen | app/page.tsx:262-264 | the keys of a dictionary filled by `forEach`: none listed twice, the key of every element listed, each listed key the key of some element |
| Seqs.FirstSeenOrder | app/page.tsx:262-264 | those keys come in first-occurrence order: each occurs in the input, and an earlier key first occurs at an earlier position |
| Seqs.SortBy | app/page.tsx:275 | the sort returns a permutation of its input: same length, same elements with the same multiplicities |
| Seqs.SortByStable | app/page.tsx:275 | the sort is stable: the elements sharing a key keep their input order, so sites with equal totals stay in first-seen order |
| Seqs.SortBySorted | app/page.tsx:275 | the sort puts its output in non-decreasing key order |
| Seqs.SumOfSortBy | app/page.tsx:273-275 | sorting keeps the sum of the values |
| Seqs.Take | app/page.tsx:282 | `slice(0, n)`: the first min(n, length) elements |
| Seqs.TakeSorted | app/page.tsx:279-282 | sort-then-slice keeps min(m, n) elements of the input, none more often than it occurs there, in key order; no left-out element has a smaller key than a kept one |
| Dashboard.ParticipationOf | app/page.tsx:283-288 | a bar carries the record's identifier, invited and submitted counts; notSubmitted is never negative and is invited minus submitted whenever submitted <= invited |
| Dashboard.VendorParticipation | app/page.tsx:278-289 | at most six bars, one per most recently active record, in that order, each with a notSubmitted that is never negative |
| Dashboard.MostRecent | app/page.tsx:279-282 | min(6, n) records of the input, none more often than it occurs there, latest activity first; no record left out is more recent than one shown |
| Dashboard.MostRecentByDate | app/page.tsx:279-282 | in terms of dates: the shown records' activity dates never increase along the list, and no left-out record has a later activity date than a shown one |
| Dashboard.DueSoon | app/page.tsx:456-459 | min(4, n) records of the input, none more often than it occurs there, earliest due first; no record left out is due earlier than one shown |
| Dashboard.DueSoonByDate | app/page.tsx:456-459 | in terms of dates: the shown due dates never decrease along the list, and no left-out record is due earlier than a shown one |
| Dashboard.AlertList | app/page.tsx:292-297 | the alert list of three counts is never empty and has at most three entries; it is the single "ok" entry exactly when all three counts are zero, and no "ok" entry sits beside a problem alert |
| Dashboard.AlertListOrder | app/page.tsx:293-296 | with some count positive: the due-this-week warning comes first, then the overdue alert, then the missing-approvals warning, each present exactly when its count is positive |
| Dashboard.PushAlerts | app/page.tsx:292-298 | the conditional pushes for three counts produce exactly their alert list |
| Dashboard.Alerts | app/page.tsx:291-298 | the alerts are the alert list of the sizes of the due-this-week, overdue and missing-approvals lists, with between one and three entries |
| Dashboard.AlertCountReadable | app/page.tsx:293-296 | each alert's text starts with its count in decimal, which reads back as that count |
| Page.ComputeDashboard | app/page.tsx:231-299 | the result is the dashboard of its records (`Page.IsDashboardOf`): each card, chart and list equals its defining figure. This covers the stage names and counts, the risk slices with their names and counts, and each category's count. The figures agree with one another: active plus awarded is the whole list, the pipeline and status pie agree, overdue never exceeds active, and the "ok" alert stands alone exactly when all three attention lists are empty |
| Page.ShowPage | app/page.tsx:576 | the shown records are exactly the ones the controls select, and the dashboard is the dashboard of exactly those records; with the initial controls every record is shown and counted |

## Left out

- Presentation: all JSX, `KpiCard`, `SectionTitle`, `ProgressBar`, the CSS classes of `badge`, the Recharts charts, the icons and the `chartColors` palette. The badge's tone argument is modelled by `StatusTone` and `RiskTone`.
- `formatAed` is a wrapper over `Intl.NumberFormat`, which is outside the model.
- The body of `daysUntil` is replaced by `d - today` over day numbers. The model does not cover:
  - parsing the ISO string;
  - reading the clock;
  - local-time midnight and daylight-saving shifts;
  - the floating-point division and `Math.ceil`.
- React `useState`/`useMemo`: the criteria and records are plain parameters. Memoisation does not change any result.
- The `demoRfps` and `cycleTrend` arrays are sample data, not logic. The fixed "SLA Compliance" card text is left out for the same reason.
- The `sites` and `statuses` option lists only feed the dropdowns.
- `app/layout.tsx` holds only metadata and the HTML shell.
- JavaScript object key order puts integer-like keys (such as "2024") before the others in `Object.entries`. The model keeps plain insertion order for every key.
- Keys inherited from `Object.prototype` (such as "toString" or "constructor") are not modelled. As a category or site they would make `agg[k] || 0` start from a function value.
- Text.ToLower: lowers ASCII letters only; `toLowerCase` also maps non-ASCII letters.
- Budgets are `int`. `NaN`, fractional and infinite budgets, and the floating-point rounding of their sums, are not modelled.
- Unparsable date strings: `daysUntil` returns `NaN` for them, so such a record is in neither date bucket. The model takes dates as day numbers and has no such record.
- The exact order that `localeCompare` gives is modelled only for well-formed `YYYY-MM-DD` dates. Those compare as day numbers.
