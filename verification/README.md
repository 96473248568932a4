# License usage report — Dafny model

This project models the analysis core of the license usage report generator
(`license_report.py`). The generator reads the tenant's subscribed license SKUs
and its users from a directory service. It joins them into one report row per
SKU and renders two outputs: a two-sheet spreadsheet and a console summary.

The model takes the two fetched collections as plain records. A SKU has an id,
a part number, enabled units and consumed units. A user has a display name, a
principal name and an optional list of assigned license references. From these
inputs the model reproduces:

- **License namer** (`Namer`): the fixed 17-entry table of Microsoft part
  numbers. Any code outside the table passes through unchanged.
- **Analyzer** (`Analyzer`): the nested-loop join. `AnalyzeLicenses` is the
  imperative loop. It is proved equal to the recursive specification
  `Analyze`, which builds one row per SKU in input order. Each row holds:
  - the friendly name and the part number;
  - the purchased and assigned unit counts;
  - the unused units, not clamped;
  - the exact utilization percentage;
  - the display names of the holding users, in user order.
- **Spreadsheet decisions** (`ExcelReport`):
  - the red/yellow/green band of each utilization cell, with half-open
    thresholds at 50 and 80;
  - the colouring loop over the summary sheet;
  - the flattening of the user lists into the (license type, user name) rows
    of the user-assignment sheet.
- **Console summary** (`ConsoleSummary`):
  - the three totals;
  - the overall utilization, which fails with a division by zero when the
    purchased total is 0, as the program does;
  - the low-utilization rows: utilization below 70 and a positive total,
    sorted by unused units, largest first, with a stable sort.

Utilization is an exact `real`. It is 0 whenever `enabled <= 0`, because the
code tests `enabled > 0` (license_report.py:134).
Otherwise it is the number `u` with `u * enabled == consumed * 100`.
`UtilizationBelow` turns every threshold test on `u` into a test on unit
counts.

The stable sort is specified without reference to positions. The result is
sorted non-increasingly by unused units. For every key `k`, the result's rows
with `available == k` are the input's rows with that key, in input order.
`SortByAvailableDescIsTheStableSort` proves that only one sequence meets this
specification.

## Model

| member | source | states |
|---|---|---|
| `Namer.FriendlyName` | license_report.py:81-104 | total lookup: a code outside the table is returned unchanged; a known code gets its table name, which differs from the code and is not itself a table code |
| `Namer.KnownOfficeCodes` | license_report.py:84-90 | ENTERPRISEPACK, ENTERPRISEPREMIUM, STANDARDPACK and DESKLESSPACK map to Office 365 E3, E5, E1 and F3 |
| `Namer.KnownMicrosoft365Codes` | license_report.py:84-99 | SPE_E3, SPE_E5, PROJECTPROFESSIONAL, VISIOCLIENT and TEAMS_EXPLORATORY map to their fixed product names |
| `Namer.KnownExchangeSharePointCodes` | license_report.py:91-94 | the two Exchange Online and two SharePoint Online codes map to their Plan 1 / Plan 2 names |
| `Namer.KnownPowerPlatformCodes` | license_report.py:95-101 | the Power BI, Power Automate and Power Apps codes map to their fixed product names |
| `Namer.FriendlyNameIdempotent` | license_report.py:84-104 | naming an already named code changes nothing |
| `Analyzer.Utilization` | license_report.py:134 | utilization is 0 when enabled <= 0, and otherwise the exact u with u * enabled == consumed * 100 |
| `Analyzer.UtilizationBelow` | license_report.py:134 | for enabled > 0, u < t iff consumed * 100 < t * enabled |
| `Analyzer.AnyAssigned` | license_report.py:125 | true iff some assignment entry's skuId equals the SKU id |
| `Analyzer.Holders` | license_report.py:123-126 | the display names of the users that hold the SKU, appended in user order |
| `Analyzer.MissingAssignmentsHoldNothing` | license_report.py:125 | a user record without `assignedLicenses` holds no SKU |
| `Analyzer.HolderIndicesIncreasing` | license_report.py:123-126 | the selected user positions are valid, belong to holding users and strictly increase |
| `Analyzer.HolderIndicesComplete` | license_report.py:123-126 | every holding user's position is selected |
| `Analyzer.HoldersAtIndices` | license_report.py:123-126 | the k-th collected name is the display name of the user at the k-th selected position |
| `Analyzer.HoldersSelectInOrder` | license_report.py:123-126 | the user list is exactly the holding users' names, once per user even with duplicate assignments, in user order |
| `Analyzer.HolderMembership` | license_report.py:123-126 | a name is in the user list iff some user with that name holds the SKU |
| `Analyzer.AnalyzeOneRowPerSku` | license_report.py:110-136 | one row per SKU in SKU order; row i carries SKU i's part number, friendly name, enabled and consumed counts, unclamped unused count, utilization and holder list |
| `Analyzer.AnalyzedRowsBalanced` | license_report.py:118-120 | every analyzed row has available == total - assigned, negative when over-consumed |
| `Analyzer.AnalyzedUserListMembership` | license_report.py:112-136 | a name is in row i's user list iff a user with that name has an assignment naming SKU i's id |
| `Analyzer.ReportRow` | license_report.py:113-136 | the row of one SKU: friendly name, part number, enabled and consumed units, their difference, utilization and holder list |
| `Analyzer.Analyze` | license_report.py:110-136 | the rows of all SKUs, one appended per SKU in SKU order |
| `Analyzer.AnalyzeLicenses` | license_report.py:106-139 | the nested loop returns exactly the rows of the analysis specification |
| `ExcelReport.BandOf` | license_report.py:178-183 | red iff u < 50, yellow iff 50 <= u < 80, green iff u >= 80; boundary values go to the higher band |
| `ExcelReport.BandMonotone` | license_report.py:178-183 | a higher utilization never gets a lower band |
| `ExcelReport.BandOfCounts` | license_report.py:174-183 | for an analyzed SKU: red when nothing is enabled, otherwise red iff consumed * 100 < 50 * enabled and green iff consumed * 100 >= 80 * enabled |
| `ExcelReport.Flatten` | license_report.py:201-203 | the detail-sheet rows: each report row's license name paired with each of its users, row by row |
| `ExcelReport.ColourUtilization` | license_report.py:174-183 | after the loop, the utilization cell of every data row holds the band of that row |
| `ExcelReport.FlattenLength` | license_report.py:201-203 | the detail sheet has as many rows as the user lists have names in total |
| `ExcelReport.FlattenAt` | license_report.py:201-203 | user k of report row i is at position (users of rows before i) + k, paired with row i's license name |
| `ExcelReport.UserAssignmentRows` | license_report.py:201-203 | the appending loop yields exactly the flattened (license type, user name) rows |
| `ConsoleSummary.SumTotal` | license_report.py:222 | the sum of the purchased units of all rows |
| `ConsoleSummary.SumAssigned` | license_report.py:223 | the sum of the assigned units of all rows |
| `ConsoleSummary.SumAvailable` | license_report.py:224 | the sum of the unused units of all rows |
| `ConsoleSummary.AvailableTotalBalances` | license_report.py:222-224 | over balanced rows, total available == total purchased - total assigned |
| `ConsoleSummary.AnalyzedTotalsBalance` | license_report.py:222-224 | for the rows of an analysis, the summary's unused total is its purchased total minus its assigned total |
| `ConsoleSummary.OverallUtilization` | license_report.py:229 | fails with a division by zero iff the purchased total is 0; otherwise u * total == assigned * 100 |
| `ConsoleSummary.IsLowUtilization` | license_report.py:236 | a row is low when its utilization is below 70 and its purchased total is positive |
| `ConsoleSummary.LowUtilization` | license_report.py:236 | keeps each row as often as it occurs when it is below 70 percent with a positive total, drops it otherwise |
| `ConsoleSummary.LowUtilizationOfConcat` | license_report.py:236 | the low-row filter of a concatenation is the concatenation of the filters, so the filter keeps input order |
| `ConsoleSummary.LowUtilizationByCounts` | license_report.py:236 | for an analyzed SKU, low utilization iff enabled > 0 and consumed * 100 < 70 * enabled |
| `ConsoleSummary.LowUtilizationCommutes` | license_report.py:236-239 | the rows of one unused count among the low rows are the low rows among the rows of that count, in input order |
| `ConsoleSummary.InsertByAvailable` | license_report.py:239 | insertion adds exactly one copy of the row |
| `ConsoleSummary.InsertByAvailableKeys` | license_report.py:239 | insertion puts the row ahead of the rows sharing its key and changes no other key's rows |
| `ConsoleSummary.InsertByAvailableBounded` | license_report.py:239 | insertion keeps an upper bound on the unused count of every row |
| `ConsoleSummary.InsertByAvailableSorted` | license_report.py:239 | insertion into a non-increasing sequence keeps it non-increasing |
| `ConsoleSummary.SortByAvailableDesc` | license_report.py:239 | the sorted list is non-increasing by unused units, a permutation of its input, and keeps every key's rows in input order |
| `ConsoleSummary.SortedByKeysUnique` | license_report.py:239 | two non-increasing sequences that agree on every key's rows are equal |
| `ConsoleSummary.SortByAvailableDescIsTheStableSort` | license_report.py:239 | any sorted arrangement that keeps each key's rows in input order is the sort's result |
| `ConsoleSummary.Summarize` | license_report.py:216-243 | fails iff the purchased total is 0; otherwise carries the three totals, the overall utilization, and exactly the low rows, sorted largest unused first and stable on ties |
| `Scenarios.SingleSkuReport` | license_report.py:106-239 | one SPE_E3 SKU at 40 of 100 held by Alice only gives the row (Microsoft 365 E3, 100, 40, 60, 40%, [Alice]), a red band, and a summary that lists it |
| `Scenarios.ZeroEnabledNotListed` | license_report.py:134-236 | a SKU with no enabled units has utilization 0 and is not listed as low utilization |
| `Scenarios.TwoRowTotals` | license_report.py:222-229 | rows 100/40 and 50/50 total 150 purchased, 90 assigned, 60 unused, 60 percent overall |

## Left out

- Authentication through the OAuth client-credentials flow and the loading of credentials from the environment: these are an external library and configuration.
- The two HTTP requests and their error handling: this is network I/O. Their results are the input sequences of the analysis.
- The early exits of the entry point on a missing token, no SKUs or no users: the entry point only sequences the I/O calls.
- Missing `skuId`, `skuPartNumber`, `prepaidUnits.enabled`, `consumedUnits` or `displayName` fields, which raise a key error in the program: the records always carry them. Only `assignedLicenses` is optional, as in the code.
- Workbook construction: header styling, fonts, alignment, column widths, hex fill colours and the saved file. This is a foreign library. Only the band decision and the detail-row flattening are kept.
- The timestamped file name: it depends on the wall clock.
- Console text formatting, padding, rounding to one or zero decimals, and the "no low utilization" message: these are presentation only.
- Analyzer.Utilization: an exact real number, not a floating-point value, so the model does not reproduce float rounding of `consumed / enabled * 100`.
- ConsoleSummary.Summarize: when the purchased total is 0, the program prints the three totals and then raises. The model returns only the failure.
