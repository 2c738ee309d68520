# bill-mind in Dafny

A verified model of the logic inside bill-mind, a SwiftUI and SwiftData bill tracker. The model covers:

- The `Bill` and `Transaction` records: `init` defaults, `frequency`, `isOverdue`, `hasReceipt`, and the recurrence step `nextDate()`.
- The bill detail screen's status label and its "Mark Paid" toggle. Toggling a recurring bill to paid files the next bill of the series.
- The SMS importer. It tries the HNB pattern first and the card pattern second, then normalises the fields: the amount with commas stripped, the payee trimmed or capitalised, and the two date formats with their fallback to now. It records a transaction and reconciles it against the card's open bill.
- The spending predictor: monthly totals and their maximum, the overdue share, the savings potential in high-spending categories, the feature vector for the learned model, and `predict`.
- The aggregations of the home dashboard, both copies, and of the analytics screen: timeframes and the previous window, filters, trends, the daily series, and the category and payment-method breakdowns.
- The CSV export of bills and of transactions, proved against a CSV reader.
- The receipt-text heuristic `createBillFromText()`.
- Deep links:
  - the `billmind://` URL router;
  - the `sms` link handler;
  - the query-item dictionary;
  - `removingPercentEncoding`, which follows section 2.1 of RFC 3986 and section 3 of RFC 3629.

## How it is laid out

One module per source file:

| file | module | source |
|---|---|---|
| `bill.dfy` | `Bills` | `Bill` (both copies) |
| `transaction.dfy` | `Transactions` | `Transaction` |
| `store.dfy` | `Storage` | the SwiftData model context |
| `bill_detail.dfy` | `BillDetail` | `BillDetailView` |
| `sms_importer.dfy` | `SmsImport` | `SMSImporter` |
| `predictor.dfy` | `Predictor` | `AnalyticsPredictor` |
| `analytics.dfy` | `Analytics` | `AnalyticsView` |
| `dashboard.dfy` | `Dashboard` | `HomeDashboardView` (both copies) |
| `export.dfy` | `Export` | `ExportService` |
| `receipt.dfy` | `Receipt` | `ReceiptScannerView` |
| `query_items.dfy` | `QueryItems` | `URL.queryItems` |
| `percent.dfy` | `Percent` | `removingPercentEncoding` |
| `deep_link.dfy` | `DeepLinks` | `DeepLinkHandler` |
| `url_handler.dfy` | `UrlRouting` | `URLHandler` |

Shared modules:

- `calendar.dfy` (`Calendar`): the Foundation calendar arithmetic the app relies on, for civil Gregorian date-times in one fixed time zone.
- `text.dfy` (`Text`): string helpers.
- `seqs.dfy` (`Seqs`): filter, sum, sort and grouping over sequences.
- `date_groups.dfy` (`DateGroups`): grouping by date.
- `wrappers.dfy` (`Wrappers`): `Option`.

Amounts are exact `real`s. Dates carry whole seconds. Everything the app takes from its surroundings becomes a parameter:

- the current time and the locale's first weekday;
- the identifiers `UUID()` would generate;
- the results of the two regular-expression matches;
- the learned model's prediction;
- the rendering of a `Double` as text.

The SwiftData store is a class `Storage.ModelContext` with a sequence of bills and a sequence of transactions. Its methods reassign these sequences.

## Model

| member | source | states |
|---|---|---|
| Bills.MakeBill | code/billMind/Models/Bill.swift:58-80 | every argument is stored unchanged, and the frequency is stored as present (the same `init` as code/billMind/Bill.swift:43-54) |
| Bills.MakeBillDefaults | code/billMind/Models/Bill.swift:63-68 | omitted arguments give: category General, payment Cash, frequency one-off, unpaid, no paid date, no receipt, no card and no next date |
| Bills.BillFrequency | code/billMind/Models/Bill.swift:54 | `frequency` is one-off when no raw frequency is stored, and the stored one otherwise |
| Bills.OverdueCases | code/billMind/Models/Bill.swift:55 | a paid bill is never overdue; an unpaid bill is overdue exactly when its due instant is strictly before now; paying an overdue bill ends the overdue state |
| Bills.IsOverdue | code/billMind/Models/Bill.swift:55 | `isOverdue`, unpaid and due strictly before now; its cases are the contract of `Bills.OverdueCases` |
| Bills.HasReceipt | code/billMind/Models/Bill.swift:56 | `hasReceipt`, receipt data present; `Bills.MakeBillDefaults` and `SmsImport.NewCardBill` show new bills have none, and `Receipt.ReceiptBill` keeps the scanned image |
| Bills.NextDate | code/billMind/Models/Bill.swift:82-91 | nothing exactly for one-off bills; otherwise strictly later at the same time of day; daily and weekly move 1 and 7 days; monthly and yearly move one month or one year, with the day clamped to the target month's length (same as code/billMind/Bill.swift:56-65) |
| Bills.CategoryRank | code/billMind/Models/Bill.swift:6-12 | each category has a unique position in the list of all categories |
| Bills.CategoriesRanked | code/billMind/Models/Bill.swift:6-12 | the category list contains every category, once, in strictly increasing rank |
| Bills.CategoryNamesDistinct | code/billMind/Models/Bill.swift:13-21 | distinct categories have distinct raw values and distinct symbols |
| Bills.CategoryRankIsRawNameOrder | code/billMind/Views/HomeDashboardView.swift:22 | rank order is exactly the `<` order on the categories' raw values |
| Bills.CategoryNameAtRank | code/billMind/Models/Bill.swift:6-12 | the raw-name list at a category's rank holds that category's raw value |
| Bills.CategoryNamesSorted | code/billMind/Views/HomeDashboardView.swift:22 | the raw names in rank order are strictly increasing under string `<` |
| Bills.PaymentModeRank | code/billMind/Models/Bill.swift:24-30 | each payment mode has a unique position in the list of all modes |
| Bills.PaymentModesRanked | code/billMind/Models/Bill.swift:24-30 | the payment-mode list contains every mode, once, in strictly increasing rank |
| Transactions.MakeTransaction | code/billMind/Models/Transaction.swift:34-50 | date, payee, amount, card digits, channel and category are stored unchanged, and `category` reads back the stored category |
| Transactions.MakeTransactionDefaults | code/billMind/Models/Transaction.swift:39-41 | omitted arguments give no card, no channel and category Other |
| Transactions.TxnCategoryOf | code/billMind/Models/Transaction.swift:32 | `category` is the stored raw category |
| Transactions.TxnSymbols | code/billMind/Models/Transaction.swift:14-21 | every category has a non-empty symbol, distinct categories have distinct symbols, and utilities shows "bolt.fill" |
| Transactions.TxnCategoryRank | code/billMind/Models/Transaction.swift:7-13 | each transaction category has a unique position in the list of all of them |
| Transactions.TxnCategoriesRanked | code/billMind/Models/Transaction.swift:7-13 | the list contains every transaction category, once, in strictly increasing rank |
| Transactions.TxnCategoryRankIsRawNameOrder | code/billMind/Views/HomeDashboardView.swift:28 | rank order is exactly the `<` order on the raw values |
| BillDetail.StatusLabel | billMind/BillDetailView.swift:14 | "Paid" exactly when paid; "Overdue" exactly when overdue; "Unpaid" exactly when unpaid and not yet due |
| BillDetail.Toggled | billMind/BillDetailView.swift:31-32 | the paid flag flips; the paid date is present exactly when the bill is now paid, and it is `now` then; no other field changes |
| BillDetail.ToggleTwice | billMind/BillDetailView.swift:31-32 | toggling twice restores the paid flag; an unpaid bill comes back unchanged except that it has no paid date |
| BillDetail.Spawned | billMind/BillDetailView.swift:36 | the new bill is due on the next date, strictly after the old one; it has the same name, amount, category, payment mode and frequency; it is unpaid, with no paid date, no receipt and no card |
| BillDetail.SpawnedRecurs | billMind/BillDetailView.swift:35-37 | the spawned bill recurs in turn, so paying it later spawns a bill after it |
| BillDetail.ToggledNextDate | billMind/BillDetailView.swift:35 | toggling leaves `nextDate()` unchanged |
| BillDetail.TogglePaid | billMind/BillDetailView.swift:30-44 | only the toggled bill changes among the stored bills, and the transactions are untouched; one bill, the spawned one, is appended exactly when the bill becomes paid and has a next date; otherwise nothing is appended |
| SmsImport.ParseAmount | code/billMind/Utils/SMSImporter.swift:96-98 | never negative, and 0 exactly when the comma-free text is not a number. All-digit comma-free text gives the digits' value. Comma-free text of digits, one point and digits gives the whole digits plus the fraction digits over 10 to the number of fraction digits |
| SmsImport.ParseAmountIgnoresCommas | code/billMind/Utils/SMSImporter.swift:97 | a comma anywhere in the captured text does not change the amount |
| SmsImport.ParseAmountExample | code/billMind/Utils/SMSImporter.swift:96-98 | "12,345.67" reads as 12345.67 |
| SmsImport.ParseDecimalExample | code/billMind/Utils/SMSImporter.swift:97 | "12345.67" parses to 12345.67 |
| SmsImport.TwoDigits | code/billMind/Utils/SMSImporter.swift:104 | a two-digit field is read exactly when it is two decimal digits, and its value is below 100 |
| SmsImport.FourDigits | code/billMind/Utils/SMSImporter.swift:104 | a four-digit field is read exactly when it is four decimal digits, and its value is below 10000 |
| SmsImport.MonthFromAbbreviation | code/billMind/Utils/SMSImporter.swift:104 | `MMM` yields month m in 1 to 12 exactly when the text is the m-th English abbreviation, in any case |
| SmsImport.CivilDate | code/billMind/Utils/SMSImporter.swift:105 | a date is produced exactly when the fields name a real calendar instant, and it has those fields |
| SmsImport.HnbDateOf | code/billMind/Utils/SMSImporter.swift:100-106 | a date exactly when the text has the "dd-MMM-yyyy" and "HH:mm:ss" layout with every field readable and the fields name a real calendar instant. Its day, month (from the abbreviation), year, hour on the 24-hour clock, minute and second are the fields read |
| SmsImport.HnbDate | code/billMind/Utils/SMSImporter.swift:105 | the parsed date, or `now` when parsing fails |
| SmsImport.HnbAfternoonReadAsMorning | code/billMind/Utils/SMSImporter.swift:10 | the AM/PM marker is matched but never captured, so "05-Jan-2024 05:30:00" is read as 05:30 even when the message said PM |
| SmsImport.HnbDayFieldsExample | code/billMind/Utils/SMSImporter.swift:104 | the fields of "05-Jan-2024" read as day 5, month 1 and year 2024 |
| SmsImport.HnbTimeFieldsExample | code/billMind/Utils/SMSImporter.swift:104 | the fields of "05:30:00" read as 5, 30 and 0 |
| SmsImport.TwoDigitYear | code/billMind/Utils/SMSImporter.swift:118 | `yy` becomes the year in the hundred years that start 80 years before now, with the same last two digits |
| SmsImport.Hour24 | code/billMind/Utils/SMSImporter.swift:118 | a 12-hour reading with its marker gives an hour in 0 to 23; it is before noon exactly for AM; it agrees modulo 12 |
| SmsImport.CardDateOf | code/billMind/Utils/SMSImporter.swift:108-120 | a date exactly when the text has the "dd/MM/yy hh:mm a" layout with the hour from 1 to 12 and the fields name a real calendar instant. Its day and month are the fields read, the year is the two-digit year resolved by `TwoDigitYear`, the hour is `Hour24` of the reading and marker, the minute is read, and the seconds are 0. The year ends in the two digits, and the hour is in the afternoon exactly for PM |
| SmsImport.CardDate | code/billMind/Utils/SMSImporter.swift:119 | the parsed date, or `now` when parsing fails |
| SmsImport.Extract | code/billMind/Utils/SMSImporter.swift:15-45 | nothing is extracted exactly when neither pattern matched. When HNB matched: channel "VC", its card digits, the trimmed payee, its amount and its date. Only when HNB did not match and the card pattern did: channel "Card" and the capitalised payee |
| SmsImport.HnbTakesPriority | code/billMind/Utils/SMSImporter.swift:21-30 | once HNB matches, the card pattern's result makes no difference and the channel is "VC" |
| SmsImport.HnbPayeeTrimmed | code/billMind/Utils/SMSImporter.swift:23 | an HNB payee neither starts nor ends with a blank |
| SmsImport.ImportedTransaction | code/billMind/Utils/SMSImporter.swift:47-54 | the inserted transaction carries the extracted date, payee, amount, card digits and channel, with category Other |
| SmsImport.NewCardBill | code/billMind/Utils/SMSImporter.swift:65-83 | the new bill is "Credit Card <last4>", due 23:59:00 on the last day of the transaction's month, and not before the transaction unless the transaction itself falls in 23:59 of that last day. It has the transaction's amount, category utilities, payment card, frequency monthly, the card's digits, and is unpaid |
| SmsImport.Import | code/billMind/Utils/SMSImporter.swift:6-94 | without a match nothing changes. With a match exactly one transaction is appended. Then either one open (unpaid, same-card) bill, at the returned position, grows by the amount and nothing else changes, or, when no open bill of that card exists, exactly the new card bill is appended |
| SmsImport.Record | code/billMind/Utils/SMSImporter.swift:47-87 | the same effect on the store, for already extracted fields |
| SmsImport.OpenCardBill | code/billMind/Utils/SMSImporter.swift:59-61 | the fetch predicate, an unpaid bill of the card; `SmsImport.NewCardBill` proves the bill it opens satisfies it, and `SmsImport.Import` adds to a bill only when it holds |
| SmsImport.ImportEffect | code/billMind/Utils/SMSImporter.swift:6-94 | the store effect stated as the contract of `SmsImport.Import`, `SmsImport.Record` and `DeepLinks.Handle` |
| Predictor.AverageBill | code/billMind/Utils/AnalyticsPredictor.swift:69 | 0 for no bills; otherwise the average times the number of bills is the total (also `averageBillAmount`, code/billMind/Views/AnalyticsView.swift:212-214) |
| Predictor.TotalSpent | code/billMind/Utils/AnalyticsPredictor.swift:68 | 0 for no bills, and never negative when no amount is (also `totalSpent`, code/billMind/Views/AnalyticsView.swift:208-210) |
| Predictor.MonthlyTotals | code/billMind/Utils/AnalyticsPredictor.swift:81-89 | the per-month sums, as a permutation of the month groups' amounts, sorted ascending; empty exactly for no bills (also `calculateMonthlyAverages()`, code/billMind/Views/AnalyticsView.swift:286-295) |
| Predictor.MonthlyTotalsConserve | code/billMind/Utils/AnalyticsPredictor.swift:81-89 | the monthly totals add up to the total of all bills |
| Predictor.NextMonthSpending | code/billMind/Utils/AnalyticsPredictor.swift:71 | 0 for no bills, since it falls back to `totalSpent` |
| Predictor.NextMonthSpendingIsUpperBound | code/billMind/Utils/AnalyticsPredictor.swift:71 | no calendar month with a bill spends more than the forecast |
| Predictor.NextMonthSpendingIsAttained | code/billMind/Utils/AnalyticsPredictor.swift:71 | for any non-empty bills, some bill's month spends exactly the forecast, so the forecast is the largest monthly total |
| Predictor.MonthEntry | code/billMind/Utils/AnalyticsPredictor.swift:83-88 | the month of any bill has a group that holds that month's spending |
| Predictor.OverdueCount | code/billMind/Utils/AnalyticsPredictor.swift:72 | the number of overdue bills, at most the number of bills |
| Predictor.OverdueRisk | code/billMind/Utils/AnalyticsPredictor.swift:73 | in [0, 1], and 0 for no bills |
| Predictor.Share | code/billMind/Utils/AnalyticsPredictor.swift:73 | the quotient lies in [0, 1], is 0 for an empty whole, and times the whole gives the part |
| Predictor.SumTenth | code/billMind/Utils/AnalyticsPredictor.swift:77 | summing a tenth of each amount is a tenth of the sum |
| Predictor.SavingsPotentialCharacterised | code/billMind/Utils/AnalyticsPredictor.swift:74-77 | the savings are 0.1 times the total of the bills whose category sums to more than twice the average bill |
| Predictor.SavingsPotential | code/billMind/Utils/AnalyticsPredictor.swift:74-77 | a tenth of the spending in the high-spending categories; its value is the contract of `Predictor.SavingsPotentialCharacterised`, and its bounds that of `Predictor.SavingsPotentialBounds` |
| Predictor.SavingsPotentialBounds | code/billMind/Utils/AnalyticsPredictor.swift:74-77 | with non-negative amounts, 0 ≤ savings ≤ 0.1 × total spent |
| Predictor.NoHighSpendingNoSavings | code/billMind/Utils/AnalyticsPredictor.swift:74-77 | with no high-spending category the savings are 0 |
| Predictor.HeuristicPrediction | code/billMind/Utils/AnalyticsPredictor.swift:67-79 | the three outputs are the forecast, the overdue share and the savings potential characterised above |
| Predictor.TypedInput | code/billMind/Utils/AnalyticsPredictor.swift:34-65 | the features are: the total spent; the average bill (0 for no bills); the number of overdue bills (at most the bill count); the four per-category sums; pay-day impact 1 exactly for days 22 to 28; the month of today |
| Predictor.SpentIsGroupSum | code/billMind/Utils/AnalyticsPredictor.swift:39-41 | `spent(for:)` equals the total of that category's group |
| Predictor.Spent | code/billMind/Utils/AnalyticsPredictor.swift:39-41 | the total of the group of bills of that category; with no negative amount, between 0 and the total of all bills |
| Predictor.SpentByKey | code/billMind/Utils/AnalyticsPredictor.swift:40 | filtering by category is taking the category's group |
| Predictor.ModelRisk | code/billMind/Utils/AnalyticsPredictor.swift:18-21 | no learned risk when the model is not loaded |
| Predictor.Predict | code/billMind/Utils/AnalyticsPredictor.swift:16-32 | the forecast and the savings are always the heuristic ones. Without a learned prediction the output is exactly the heuristic; with one, only the overdue risk is replaced |
| Analytics.Timeframe.DisplayName | code/billMind/Views/AnalyticsView.swift:303-310 | the picker label of each timeframe: "Week", "Month", "Quarter" or "Year" |
| Analytics.DisplayNamesDistinct | code/billMind/Views/AnalyticsView.swift:303-310 | two timeframes have the same label exactly when they are the same timeframe |
| Analytics.StartDate | code/billMind/Views/AnalyticsView.swift:312-326 | midnight, not after now. Week: the first weekday, at most 6 days back. Otherwise the 1st of a month of the current year. Month: now's month. Quarter: January, April, July or October, within 3 months. Year: January |
| Analytics.PreviousStartDate | code/billMind/Views/AnalyticsView.swift:328-342 | strictly before the start, at midnight; exactly 7 days (the same weekday), 1 month, 3 months (a quarter's first month) or 1 year back |
| Analytics.WeekBack | code/billMind/Views/AnalyticsView.swift:334 | a day seven days earlier has the same weekday |
| Analytics.QuarterBack | code/billMind/Views/AnalyticsView.swift:338 | three months before a quarter's first month is a quarter's first month, strictly earlier |
| Analytics.FilteredBills | code/billMind/Views/AnalyticsView.swift:14-20 | a bill is kept exactly when it is due at or after the start and matches the category filter, or there is none |
| Analytics.FilteredBillsNarrowed | code/billMind/Views/AnalyticsView.swift:17 | choosing a category keeps a subset of the unfiltered bills, all of that category |
| Analytics.FilteredTransactions | code/billMind/Views/AnalyticsView.swift:22-26 | a transaction is kept exactly when it is dated at or after the start |
| Analytics.PreviousPeriodBills | code/billMind/Views/AnalyticsView.swift:275-284 | the bills, of every category, with previous start ≤ date < start |
| Analytics.PreviousPeriodSpending | code/billMind/Views/AnalyticsView.swift:275-279 | with no negative amount, between 0 and the total of all bills; 0 when no bill lies in the previous period |
| Analytics.PreviousPeriodBillCount | code/billMind/Views/AnalyticsView.swift:281-284 | at most the number of bills, and 0 exactly when no bill lies in the previous period |
| Analytics.PeriodsDisjoint | code/billMind/Views/AnalyticsView.swift:277 | no bill counts in both the previous period and the current timeframe |
| Analytics.Trend | code/billMind/Views/AnalyticsView.swift:216-221 | 0 when the previous value is 0. Otherwise previous × (1 + trend/100) = current. With a positive previous value, the trend is positive exactly on growth and 0 exactly on no change |
| Analytics.CountTrend | code/billMind/Views/AnalyticsView.swift:223-227 | the count trend is the same percentage change, on the counts |
| Analytics.TrendsWithoutHistory | code/billMind/Views/AnalyticsView.swift:220 | with no bills in the previous period both trends are 0 |
| Analytics.SpendingTrend | code/billMind/Views/AnalyticsView.swift:216-221 | 0 when the previous period spent nothing; otherwise positive exactly when this timeframe spends more than the previous period |
| Analytics.BillsTrend | code/billMind/Views/AnalyticsView.swift:223-227 | 0 when the previous period had no bills; otherwise positive exactly when this timeframe has more bills than the previous period |
| Analytics.SpendingData | code/billMind/Views/AnalyticsView.swift:229-241 | one point per start-of-day that has a bill, in strictly increasing date order |
| Analytics.SpendingDataSums | code/billMind/Views/AnalyticsView.swift:235-240 | each point holds its day's spending, and the points add up to the total spent |
| Analytics.Breakdown | code/billMind/Views/AnalyticsView.swift:243-261 | the amounts do not increase down the list; each entry is a key that has bills, with their sum; the list is a permutation of the group totals |
| Analytics.BreakdownKeys | code/billMind/Views/AnalyticsView.swift:244 | a key has an entry exactly when some bill has it |
| Analytics.BreakdownTotal | code/billMind/Views/AnalyticsView.swift:248 | the entries add up to the total spent |
| Analytics.RankedEntriesOnce | code/billMind/Views/AnalyticsView.swift:244 | an entry list with strictly ranked keys holds no entry twice |
| Analytics.BreakdownKeysDistinct | code/billMind/Views/AnalyticsView.swift:244 | no key has two entries |
| Analytics.CategoryDataFacts | code/billMind/Views/AnalyticsView.swift:243-251 | exactly the categories present, each once, summing to the total spent |
| Analytics.PaymentMethodDataFacts | code/billMind/Views/AnalyticsView.swift:253-261 | exactly the payment modes present, each once, summing to the total spent |
| Analytics.CategoryData | code/billMind/Views/AnalyticsView.swift:243-251 | the amounts do not increase down the list, and they add up to the total spent |
| Analytics.PaymentMethodData | code/billMind/Views/AnalyticsView.swift:253-261 | the amounts do not increase down the list, and they add up to the total spent |
| Analytics.OverdueRiskPercentage | code/billMind/Views/AnalyticsView.swift:270 | a risk in [0, 1] shows as a percentage in [0, 100], and 0 exactly for no risk |
| Analytics.HeuristicRiskPercentage | code/billMind/Views/AnalyticsView.swift:270 | without the learned model the percentage is in [0, 100], and 0 for no bills |
| Dashboard.UnpaidBills | code/billMind/Views/HomeDashboardView.swift:10 | exactly the bills that are not paid (also `unpaid`, code/billMind/HomeDashboardView.swift:9) |
| Dashboard.UnpaidTotalBounded | code/billMind/Views/HomeDashboardView.swift:11 | with non-negative amounts, 0 ≤ unpaid total ≤ total of all bills |
| Dashboard.UnpaidTotal | code/billMind/Views/HomeDashboardView.swift:11 | the unpaid total plus the total of the paid bills is the total of all bills |
| Dashboard.PaidCount | code/billMind/Views/HomeDashboardView.swift:13 | at most the number of bills, and equal to it exactly when no bill is unpaid |
| Dashboard.OverdueCount | code/billMind/Views/HomeDashboardView.swift:12 | at most the number of unpaid bills (also code/billMind/HomeDashboardView.swift:11) |
| Dashboard.OverdueCountOverAllBills | code/billMind/Views/HomeDashboardView.swift:12 | it equals the predictor's overdue count over all bills |
| Dashboard.OverdueOfUnpaid | code/billMind/Views/HomeDashboardView.swift:12 | filtering the unpaid bills first does not change the overdue ones |
| Dashboard.PaidAndUnpaidPartition | code/billMind/Views/HomeDashboardView.swift:10-13 | paid count plus unpaid count is the number of bills |
| Dashboard.BillsThisMonth | code/billMind/Views/HomeDashboardView.swift:15-17 | at most the number of bills, and exactly the size of the group of bills whose month starts where now's month starts |
| Dashboard.ThisMonthBills | code/billMind/Views/HomeDashboardView.swift:15-17 | the bills due this month, in order, are the month group of now |
| Dashboard.ThisMonthIsMonthGroup | code/billMind/Views/HomeDashboardView.swift:16 | a bill is due this month exactly when its month starts where now's month starts |
| Dashboard.BillCategoryTotals | code/billMind/Views/HomeDashboardView.swift:19-23 | each entry is a category of some unpaid bill, holding that category's spending among unpaid bills |
| Dashboard.BillCategoryTotalsFacts | code/billMind/Views/HomeDashboardView.swift:19-23 | strictly increasing by raw name, one entry exactly for each category of an unpaid bill, summing to the unpaid total (also `categoryTotals`, code/billMind/HomeDashboardView.swift:12-16) |
| Dashboard.TxnCategoryTotals | code/billMind/Views/HomeDashboardView.swift:25-29 | each entry is a category of some transaction, holding the sum of its transactions |
| Dashboard.TxnCategoryTotalsFacts | code/billMind/Views/HomeDashboardView.swift:25-29 | strictly increasing by raw name, one entry exactly for each category present, summing to all transactions |
| Export.ExportBills | code/billMind/Utils/ExportService.swift:6-23 | the loop builds the header line followed by one newline-terminated line per bill, in order |
| Export.BillLinesStep | code/billMind/Utils/ExportService.swift:10-21 | each iteration appends exactly the next bill's line |
| Export.BillsCsvEmpty | code/billMind/Utils/ExportService.swift:7 | no bills give "ID,Name,Date,Amount,Category,PaymentMode,IsPaid" and a newline |
| Export.BillsCsv | code/billMind/Utils/ExportService.swift:6-23 | the text starts with the header line and ends with a newline |
| Export.BillsCsvAppend | code/billMind/Utils/ExportService.swift:10-21 | one more bill appends exactly its row and "\n" |
| Export.BillsCsvRoundTrip | code/billMind/Utils/ExportService.swift:6-23 | when no identifier, name or amount text holds a comma or line break, a CSV reader gets back the column names, each bill's seven fields in order, and a trailing empty line |
| Export.IsPaidColumn | code/billMind/Utils/ExportService.swift:18 | the IsPaid field is "Yes" exactly for paid bills |
| Export.BillRowFieldCount | code/billMind/Utils/ExportService.swift:11-19 | a row splits into seven fields exactly when its identifier, name and amount text hold no comma |
| Export.BillFields | code/billMind/Utils/ExportService.swift:11-18 | seven fields, one per column |
| Export.BillRows | code/billMind/Utils/ExportService.swift:10 | one row of fields per bill, in order |
| Export.BillFieldsClean | code/billMind/Utils/ExportService.swift:11-18 | a clean bill has clean fields |
| Export.CategoryNameClean | code/billMind/Utils/ExportService.swift:16 | category raw values hold no comma or line break |
| Export.PaymentModeNameClean | code/billMind/Utils/ExportService.swift:17 | payment-mode raw values hold no comma or line break |
| Export.ExportTransactions | code/billMind/Utils/ExportService.swift:25-40 | the header line followed by one newline-terminated line per transaction, in order |
| Export.TxnLinesStep | code/billMind/Utils/ExportService.swift:29-38 | each iteration appends exactly the next transaction's line |
| Export.TxnsCsvEmpty | code/billMind/Utils/ExportService.swift:26 | no transactions give "ID,Payee,Date,Amount,Category" and a newline |
| Export.TxnsCsv | code/billMind/Utils/ExportService.swift:25-40 | the text starts with the header line and ends with a newline |
| Export.TxnsCsvAppend | code/billMind/Utils/ExportService.swift:29-38 | one more transaction appends exactly its row and "\n" |
| Export.TxnsCsvRoundTrip | code/billMind/Utils/ExportService.swift:25-40 | with clean identifiers, payees and amounts, a CSV reader gets back the column names and each transaction's five fields |
| Export.TxnRowFieldCount | code/billMind/Utils/ExportService.swift:30-36 | a row splits into five fields exactly when its identifier, payee and amount text hold no comma |
| Export.TxnFields | code/billMind/Utils/ExportService.swift:30-35 | five fields, one per column |
| Export.TxnRows | code/billMind/Utils/ExportService.swift:29 | one row of fields per transaction, in order |
| Export.TxnFieldsClean | code/billMind/Utils/ExportService.swift:30-35 | a clean transaction has clean fields |
| Export.TxnCategoryNameClean | code/billMind/Utils/ExportService.swift:35 | transaction category raw values hold no comma or line break |
| Export.IsoDate | code/billMind/Utils/ExportService.swift:14 | the ISO 8601 text of the date's fields, holding no comma or line break (the shift to GMT is not modelled, see Left out) |
| Export.IsoDateRoundTrip | code/billMind/Utils/ExportService.swift:14 | a date of the years 0 to 9999 is written in 20 characters and reads back unchanged |
| Export.IsoDateLayout | code/billMind/Utils/ExportService.swift:14 | the text is `yyyy-MM-ddTHH:mm:ssZ`, each field zero-padded at its place |
| Export.Padded | code/billMind/Utils/ExportService.swift:14 | exactly `width` digits, reading as the number modulo 10^width |
| Export.PaddedValue | code/billMind/Utils/ExportService.swift:14 | a number with at most `width` digits reads back from its padded form |
| Export.TwoDigitsValue | code/billMind/Utils/ExportService.swift:14 | a number below 100 reads back from its two digits |
| Export.CsvRoundTrip | code/billMind/Utils/ExportService.swift:19-20 | a header and rows without commas or line breaks, written as newline-terminated lines, read back field for field |
| Export.FieldCount | code/billMind/Utils/ExportService.swift:19 | a joined row splits into one field per field plus one per comma inside them |
| Export.JoinClean | code/billMind/Utils/ExportService.swift:19 | joining clean fields with commas adds no line break |
| Export.TerminatedSnoc | code/billMind/Utils/ExportService.swift:20 | `csv += row + "\n"` extends the text by exactly that line |
| Export.TerminatedIsJoin | code/billMind/Utils/ExportService.swift:20 | newline-terminated lines are the lines plus one empty line, joined by newlines |
| Export.RowLines | code/billMind/Utils/ExportService.swift:19 | each row joined by commas, in order |
| Export.ParseCsv | code/billMind/Utils/ExportService.swift:20 | the reader gives one record per line of the text |
| Receipt.FirstNumber | code/billMind/Views/ReceiptScannerView.swift:180-184 | no number exactly when the line has no digit; otherwise the value of the line's first maximal digit run |
| Receipt.FirstRunUnique | code/billMind/Views/ReceiptScannerView.swift:182 | the first maximal digit run of a line is unique |
| Receipt.Step | code/billMind/Views/ReceiptScannerView.swift:176-199 | an amount line with a digit sets the amount to its first number, and other lines keep it. A candidate line sets the trimmed name when the amount is then 0, and otherwise the name is kept |
| Receipt.ReceiptBill | code/billMind/Views/ReceiptScannerView.swift:202-208 | dated now, category general, payment cash, unpaid, with the scanned image |
| Receipt.CreateBillFromText | code/billMind/Views/ReceiptScannerView.swift:168-211 | the loop's bill is the scan of the text's lines, in order, from amount 0 and name "Receipt" |
| Receipt.ScanLinesSnoc | code/billMind/Views/ReceiptScannerView.swift:175 | one more line is one more loop step |
| Receipt.ScanLines | code/billMind/Views/ReceiptScannerView.swift:175-200 | the loop's state after a list of lines; what it holds is the contract of `Receipt.ScanAmountLast` and `Receipt.ScanNameLast` |
| Receipt.ScanAmountLast | code/billMind/Views/ReceiptScannerView.swift:179-184 | the amount is the first number on the last amount line that has a digit |
| Receipt.LastLineSetsAmount | code/billMind/Views/ReceiptScannerView.swift:182-183 | a last line that sets the amount decides it |
| Receipt.LastLineKeepsAmount | code/billMind/Views/ReceiptScannerView.swift:179-185 | a last line that does not set the amount keeps it |
| Receipt.ScanAmountDefault | code/billMind/Views/ReceiptScannerView.swift:171 | without an amount line holding a digit, the amount stays 0 |
| Receipt.ScanAmountWhole | code/billMind/Views/ReceiptScannerView.swift:180-181 | the amount is always a non-negative whole number, so "12.50" gives 12 |
| Receipt.ScanNameLast | code/billMind/Views/ReceiptScannerView.swift:197-199 | the name is the trimmed last candidate line read while the amount was 0 |
| Receipt.ScanNameDefault | code/billMind/Views/ReceiptScannerView.swift:172 | without such a line the name stays "Receipt" |
| Receipt.LastLineNames | code/billMind/Views/ReceiptScannerView.swift:197-198 | a last line that gives the name sets it |
| Receipt.LastLineKeepsName | code/billMind/Views/ReceiptScannerView.swift:197 | a last line that does not give the name keeps it |
| Receipt.NamesAtPrefix | code/billMind/Views/ReceiptScannerView.swift:197 | whether a line gives the name depends only on the lines up to it |
| Receipt.LowercaseKeywordNeverNames | code/billMind/Views/ReceiptScannerView.swift:197 | a line containing "total" or "amount" as written never becomes the name |
| Receipt.LowercasedKeepsPattern | code/billMind/Views/ReceiptScannerView.swift:176 | lower-casing keeps every occurrence of a pattern with no capital letter |
| Receipt.LowercasedKeepsOccurrence | code/billMind/Views/ReceiptScannerView.swift:176 | an occurrence at a position survives lower-casing at the same position |
| Receipt.KeywordLineIsAmountLine | code/billMind/Views/ReceiptScannerView.swift:179 | the amount test ignores case: a line mentioning "total" or "amount" as written is an amount line |
| Receipt.ReceiptDefaults | code/billMind/Views/ReceiptScannerView.swift:171-172 | text with no qualifying line gives "Receipt", amount 0 and category general |
| QueryItems.Assign | code/billMind/Utils/QueryItems.swift:7 | `dict[name] = value` sets the name to a present value, removes it for a missing value, and leaves every other name as it was |
| QueryItems.QueryDict | code/billMind/Utils/QueryItems.swift:3-9 | a dictionary exactly when the URL has a query |
| QueryItems.LastItemWins | code/billMind/Utils/QueryItems.swift:7 | the last item with a name decides: the name is present exactly when that item has a value, and maps to it |
| QueryItems.FoldKeysAreNames | code/billMind/Utils/QueryItems.swift:5-7 | every key is the name of some item |
| QueryItems.AbsentNameAbsent | code/billMind/Utils/QueryItems.swift:5-7 | a name no item carries is absent |
| QueryItems.OtherNamesIrrelevant | code/billMind/Utils/QueryItems.swift:7 | items with other names do not affect a name's entry |
| Percent.RemovingPercentEncoding | code/billMind/Utils/DeepLinkHandler.swift:11 | text without "%" decodes to itself; a malformed escape gives nothing; a decoded text's UTF-8 encoding is exactly the octets the text's escapes and characters stand for |
| Percent.PercentRoundTrip | code/billMind/Utils/DeepLinkHandler.swift:11 | decoding undoes percent-encoding, for every text |
| Percent.MalformedEscapeFails | code/billMind/Utils/DeepLinkHandler.swift:11 | a first "%" not followed by two hexadecimal digits makes decoding fail |
| Percent.Utf8RoundTrip | code/billMind/Utils/DeepLinkHandler.swift:11 | decoding the UTF-8 encoding of a text gives the text back |
| Percent.Utf8Decode | code/billMind/Utils/DeepLinkHandler.swift:11 | whatever it decodes encodes back to exactly the input octets, so with `Percent.Utf8RoundTrip` decoding and encoding are inverse |
| Percent.Utf8CharDecodes | code/billMind/Utils/DeepLinkHandler.swift:11 | one encoded character in front of more octets decodes to that character first |
| Percent.Utf8Char | code/billMind/Utils/DeepLinkHandler.swift:11 | a character encodes to one to four octets |
| Percent.OctetsPlain | code/billMind/Utils/DeepLinkHandler.swift:11 | text without "%" stands for its UTF-8 octets |
| Percent.Octets | code/billMind/Utils/DeepLinkHandler.swift:11 | the octets a text stands for; characterised by `Percent.OctetsPlain`, `Percent.EscapedOctets` and `Percent.MalformedEscapeFails` |
| Percent.EncodedOctets | code/billMind/Utils/DeepLinkHandler.swift:11 | the octets of the percent-encoded text are the UTF-8 octets of the text |
| Percent.EscapedOctets | code/billMind/Utils/DeepLinkHandler.swift:11 | "%XX" escapes stand for exactly the escaped octets |
| Percent.HexDigit | code/billMind/Utils/DeepLinkHandler.swift:11 | the digit written for a value below 16 is hexadecimal and reads back as that value |
| DeepLinks.SmsBody | code/billMind/Utils/DeepLinkHandler.swift:7-11 | a message only for scheme "billmind" and host "sms", and it is the decoded `body` value of the query dictionary |
| DeepLinks.SmsBodyFromLastItem | code/billMind/Utils/DeepLinkHandler.swift:11 | the last `body` item decides: no message without a value, else the decoded value |
| DeepLinks.SmsBodyOfEncodedText | code/billMind/Utils/DeepLinkHandler.swift:11 | a link whose last `body` item is a percent-encoded text carries exactly that text |
| DeepLinks.NoBodyNoMessage | code/billMind/Utils/DeepLinkHandler.swift:11 | without a query or a `body` item, no message |
| DeepLinks.Handle | code/billMind/Utils/DeepLinkHandler.swift:6-16 | without a message the store is unchanged. With one, the store changes exactly as `import(_:into:)` changes it for that message |
| UrlRouting.Route | code/billMind/Utils/URLHandler.swift:8-38 | the bills view exactly for scheme "billmind" and host "bills"; the transactions view exactly for host "transactions" |
| UrlRouting.Handle | code/billMind/Utils/URLHandler.swift:8-38 | handled exactly when the scheme is "billmind" and the host is "bills" or "transactions"; a missing host, like any other host, is not handled |
| Calendar.DaysInMonth | code/billMind/Utils/SMSImporter.swift:71 | 28 to 31 days, and 29 exactly for February of a leap year |
| Calendar.AddDays | code/billMind/Models/Bill.swift:86-87 | n days later at the same time of day, exactly n × 86400 seconds later |
| Calendar.AddMonths | code/billMind/Models/Bill.swift:88 | n months later at the same time, with the day clamped to the target month |
| Calendar.AddYears | code/billMind/Models/Bill.swift:89 | n years later in the same month at the same time, with the day clamped |
| Calendar.AddMonthsLater | code/billMind/Models/Bill.swift:88 | adding a positive number of months gives a strictly later instant |
| Calendar.AddYearsLater | code/billMind/Models/Bill.swift:89 | adding a positive number of years gives a strictly later instant |
| Calendar.AddMonthsEarlier | code/billMind/Views/AnalyticsView.swift:336 | going back months gives a strictly earlier instant |
| Calendar.AddYearsEarlier | code/billMind/Views/AnalyticsView.swift:340 | going back years gives a strictly earlier instant |
| Calendar.SecondsInjective | code/billMind/Models/Bill.swift:55 | distinct dates are distinct instants, and any two distinct dates are ordered |
| Calendar.NextDay | code/billMind/Models/Bill.swift:86 | the following day at the same time of day |
| Calendar.PrevDay | code/billMind/Views/AnalyticsView.swift:334 | the preceding day at the same time of day |
| Calendar.StartOfDay | code/billMind/Views/AnalyticsView.swift:232 | midnight of the same day, not after the date |
| Calendar.StartOfMonth | code/billMind/Utils/AnalyticsPredictor.swift:84 | midnight on the 1st of the same month, not after the date |
| Calendar.StartOfQuarter | code/billMind/Views/AnalyticsView.swift:322 | midnight on the 1st of January, April, July or October, of the quarter containing the date |
| Calendar.StartOfYear | code/billMind/Views/AnalyticsView.swift:324 | midnight on 1 January of the same year |
| Calendar.StartOfWeek | code/billMind/Views/AnalyticsView.swift:318 | midnight on the latest day, at most 6 days back, that falls on the first weekday |
| Calendar.LastDayOfMonthAt | code/billMind/Utils/SMSImporter.swift:67-72 | the last day of the same month at the given hour and minute |
| Text.Trim | code/billMind/Utils/SMSImporter.swift:23 | removes only leading and trailing dropped characters, and the result neither starts nor ends with one |
| Text.Capitalized | code/billMind/Utils/SMSImporter.swift:32 | same length; characters other than letters unchanged; the first letter upper-case; a letter right after a letter lower-case; a letter right after any other character that is not case-ignorable (a blank, a digit, a hyphen) upper-case; after case-ignorable characters, as after the character before them |
| Text.CapitalizedAfterDigit | code/billMind/Utils/SMSImporter.swift:32 | "24HR" capitalises to "24Hr": a digit ends a word |
| Text.CapitalizedIdempotent | code/billMind/Utils/SMSImporter.swift:32 | capitalising twice is capitalising once |
| Text.Remove | code/billMind/Utils/SMSImporter.swift:97 | the character no longer occurs, and the text is no longer |
| Text.RemoveKeeps | code/billMind/Utils/SMSImporter.swift:97 | exactly the occurrences of the character are dropped |
| Text.ParseDecimal | code/billMind/Utils/SMSImporter.swift:97 | never negative. It succeeds exactly for non-empty text that is all digits, or digits, one point and digits with at least one digit in all. The value is that of the digits, or the whole digits plus the fraction digits over 10 to their count |
| Text.Lowercased | code/billMind/Views/ReceiptScannerView.swift:176 | same length, each character lower-cased |
| Text.Contains | code/billMind/Views/ReceiptScannerView.swift:179 | true exactly when the pattern occurs at some position |
| Text.Lines | code/billMind/Views/ReceiptScannerView.swift:170 | at least one line, none holding a line terminator. The lines are the "\n"-components of the text with every terminator written as "\n": one more line than terminators, and joined by "\n" they give that text back |
| Text.LinesOfUnixText | code/billMind/Views/ReceiptScannerView.swift:170 | when "\n" is the only line terminator, the lines are the "\n"-components and joining them with "\n" gives the text back |
| Text.JoinSplitFrom | code/billMind/Views/ReceiptScannerView.swift:170 | joining the components of a split with the separator gives the text back |
| Text.Join | code/billMind/Utils/ExportService.swift:19 | no fields give "", and one field gives that field |
| Text.SplitJoin | code/billMind/Utils/ExportService.swift:19 | splitting fields joined by a separator they do not contain gives the fields back |
| Text.SplitCount | code/billMind/Utils/ExportService.swift:19 | a split has one more part than the separator occurrences |
| Text.JoinSeparatorCount | code/billMind/Utils/ExportService.swift:19 | the joined text holds the fields' separators plus one between each pair |
| Text.LexLessChain | code/billMind/Views/HomeDashboardView.swift:22 | a chain of neighbours in string `<` order is sorted |
| Seqs.Filter | code/billMind/Views/HomeDashboardView.swift:10 | holds exactly the input elements that satisfy the predicate, and is no longer than the input |
| Seqs.FilterAppend | code/billMind/Views/AnalyticsView.swift:14-20 | filtering a concatenation is concatenating the filtered parts, so a filter keeps the input order |
| Seqs.FilterPartitionCount | code/billMind/Views/HomeDashboardView.swift:13 | the counts of a predicate and its negation add up to the length |
| Seqs.SumFilterBounded | code/billMind/Views/HomeDashboardView.swift:11 | with non-negative values, filtering does not increase the sum |
| Seqs.SumPermutation | code/billMind/Views/AnalyticsView.swift:250 | reordering does not change a sum |
| Seqs.SortBy | code/billMind/Utils/AnalyticsPredictor.swift:88 | sorted, and a permutation of the input |
| Seqs.SortedLastIsMax | code/billMind/Utils/AnalyticsPredictor.swift:71 | the last element of a sorted list has the largest key |
| Seqs.GroupTotals | code/billMind/Views/HomeDashboardView.swift:19-23 | each entry is a listed key that has elements, holding the sum of its group |
| Seqs.GroupTotalsKeys | code/billMind/Views/HomeDashboardView.swift:20 | a key has an entry exactly when it is listed and some element has it |
| Seqs.GroupTotalsRanked | code/billMind/Views/HomeDashboardView.swift:22 | the entries keep the key list's order |
| Seqs.GroupTotalsConserve | code/billMind/Views/HomeDashboardView.swift:21 | when the keys cover every element, the group totals add up to the sum of all |
| Seqs.PickedGroupsSum | code/billMind/Utils/AnalyticsPredictor.swift:74-77 | the flattened picked groups sum to the elements whose group is picked |
| DateGroups.GroupByDate | code/billMind/Views/AnalyticsView.swift:231-233 | one entry per date key that occurs, strictly increasing |
| DateGroups.GroupByDateAmounts | code/billMind/Views/AnalyticsView.swift:238 | each date's entry holds the sum of that date's elements |
| DateGroups.GroupByDateTotal | code/billMind/Views/AnalyticsView.swift:235-240 | the entries add up to the sum of all elements |
| DateGroups.AddToAmounts | code/billMind/Views/AnalyticsView.swift:231 | adding to a date's entry changes that date's amount alone |

## Left out

- Pattern matching: the regular-expression engine is not modelled. The two `firstMatch(of:)` results are inputs: `SmsImport.Import` takes them directly, and `DeepLinks.Handle` takes them as functions of the message text. What is matched, and which captures, follow the patterns' comments in `SmsImport`.
- URL parsing: `URLComponents` is not modelled. A URL is its scheme, its host and its query items, whose names and values are already decoded.
- Percent.RemovingPercentEncoding: receives those already decoded values and decodes them once more, as the handler does. Its contract does not say which octet sequences are well-formed UTF-8; that is the definition of `Percent.Utf8Decode`, whose results re-encode to their input.
- Floating point: amounts are exact `real`s, so `Double` rounding, overflow and the rendering `String(bill.amount)` are not modelled. That rendering is a parameter `amountText` of the exporters.
- Text.ParseDecimal: reads only plain decimal forms: digits with at most one point. It does not read signs, exponents, hexadecimal, "inf" or "nan", which `Double(_:)` also accepts. The importer's patterns capture only digits, commas and a point.
- Predictor.OverdueRisk: its contract states the bounds and the empty case. The exact quotient is the contract of `Predictor.Share`, through which it is defined.
- Dates and time zones:
  - Dates are civil Gregorian date-times, with whole seconds, in one fixed time zone. Time-zone changes, daylight saving and sub-second precision are not modelled.
- Export.IsoDate: writes the date's fields in the model's one fixed time zone, followed by "Z". `ISO8601DateFormatter` writes the instant in GMT. So the model's text matches the source's only when that fixed zone is GMT. In any other zone the source's fields are shifted by the zone's offset: in Asia/Colombo (+05:30), midnight on 2024-01-05 is written "2024-01-04T18:30:00Z" by the source and "2024-01-05T00:00:00Z" by the model. The round trip is proved for the model's text, for the years 0 to 9999.
- Calendar arithmetic:
  - The week, month, quarter and year arithmetic of Foundation is modelled directly.
  - Month and year additions clamp the day to the target month's length, as Foundation does. This is an assumption of the model, not something the code shows.
  - A quarter is taken as three months.
  - The locale's first weekday is a parameter.
- Date formatter: the formatter reads month abbreviations regardless of case. Two-digit years resolve into the hundred years starting 80 years before now, and hours on the 12-hour clock run from 1 to 12. Lenient parsing beyond that is not modelled.
- SmsImport.TwoDigitYear: resolves the century by calendar year, into the hundred years starting at the year 80 years before now. The formatter's two-digit-year start is an instant, 80 years before now. So when `yy` equals the last two digits of that year and the parsed date falls earlier in its year than now does, the formatter gives now's year plus 20 while the model gives now's year minus 80.
- Raw names: the five bill categories beyond the original five take their Swift case names as raw values ("Healthcare", "Transportation", "Insurance", "Education", "Dining"). Only their symbols appear in the tests.
- Character sets:
  - Blank characters are the tab and the Unicode space separators.
  - Letters, for `lowercased()` and `capitalized`, are ASCII only. So are the case-ignorable characters that `capitalized` looks through: the apostrophe, the full stop, the colon, `^` and `` ` ``.
  - Digits, in the receipt scan and the parsers, are ASCII only.
- Order and identity:
  - Dictionary iteration order is not modelled. Grouping by category walks a fixed key list in raw-name order.
  - Ties in the amount-sorted breakdowns keep the order of that walk.
  - The savings potential sums the picked groups in that order; the sum does not depend on it.
- Transactions in `predict`: the `transactions` argument is passed to `createTypedInput`, which does not use it. The model leaves it out of the features.
- The receipt scanner's date regex matches a substring but never uses it, so it is not modelled. The bill's date is always `now`.
- SwiftData objects are values: bills are identified by their position in `ModelContext.bills`. Aliasing, identity and `save()` are not modelled. Neither is the `@Query` sort order of the screens, since the computations shown do not depend on it.
- The learned model (`SpendingPatterns`) is an oracle parameter. A load failure and a prediction that throws are both absence.
- Not modelled:
  - notifications (`NotificationManager`);
  - CloudKit sync;
  - OCR, camera and annotation;
  - the platform navigation calls inside `URLHandler` (`openWindow` and tab selection);
  - console logging;
  - all SwiftUI views beyond the computed properties modelled above.
