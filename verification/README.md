# Exchange report transformations of the scraper service

A model, in Dafny, of the pure part of the scraper service's fetch methods.
Each method downloads a report from the Taiwan Futures Exchange (TAIFEX), the
Taiwan Stock Exchange (TWSE), the Taipei Exchange (TPEX) or the US Treasury,
and turns the tokenised table (`string[][]`, or the rows of a JSON feed) into
a flat record. The model starts where the download ends. It takes the table
and the query date as inputs and covers four things:

- the sentinel checks: the header token, TWSE's `stat`, TPEX's `iTotalRecords`;
- row selection: by contract code, and the first row dated on the query;
- positional extraction of every published field;
- the arithmetic derived from those fields: the large-trader categories, and
  the retail, foreign and dealer totals.

Calendar conversion between the Republic of China (ROC) year and the Gregorian
year (offset 1911) is modelled on the strings the code writes and reads. So is
the conversion of US `MM/dd/yyyy` dates to ISO `yyyy-MM-dd`.

Modules follow the source:

- `Js`: the JavaScript semantics the code relies on. These are `undefined`
  and `NaN` (`Num`); the ways a method can end: `null`, `undefined`, a thrown
  TypeError or a value (`Outcome`); and `filter`, `flat`, `slice` and `find`.
- `Text`: `numeral`'s notion of a number-bearing cell, decimal rendering,
  unary `+`, `split` and `replace`.
- `Calendar`: luxon's date formats and the ROC calendar.
- `Sheet`: tables, cell parsing, and the flatten-and-read-by-position idiom.
- `Decompose`: the TAIFEX large-trader category arithmetic.
- `Taifex`, `Exchange` (shared by TWSE and TPEX), `Twse`, `Tpex` and `Usdt`:
  one module per scraper service.

`numeral(s).value()` is `Text.Numeral`. A string without a digit reads as
`null`, and `null` is carried as 0, which is what JavaScript's `+`, `-` and
`reduce` make of it. The reading of a number-bearing string (separators,
signs, decimals) is an abstract parameter `parse`. Unary `+s` after a falsy
reading is an abstract parameter `plus`. `numeral` of the one-element array
`row.slice(-1)` goes through JavaScript's `Number`, and is an abstract
parameter `number`.

## Model

| member | source | states |
|---|---|---|
| Taifex.InstInvestorsFuturesTrades | src/scraper/taifex-scraper.service.ts:44-48 | the result is `null` exactly when the first cell of the first row is not `日期`, whatever else the table holds; an empty download or a missing investor row throws; it is never `undefined` |
| Taifex.FiguresCells | src/scraper/taifex-scraper.service.ts:47-86 | for rows of `cut + 12` cells, destructured figure `k` of group `g` is the parsed cell `cut + k` of row `g` |
| Taifex.FuturesTradesCells | src/scraper/taifex-scraper.service.ts:47-95 | with three investor rows of 15 cells, figure `k` of dealers, SITC and FINI is the parsed cell `3 + k` of that investor's row: a copy of one cell, with no arithmetic |
| Taifex.InstInvestorsTxoTrades | src/scraper/taifex-scraper.service.ts:135-145 | `null` exactly when the header is not `日期`; six investor rows are needed, or it throws |
| Taifex.OptionsTradesCells | src/scraper/taifex-scraper.service.ts:138-234 | with six rows of 16 cells, figure `k` of calls and puts of each investor is the parsed cell `4 + k` of its row |
| Taifex.InstInvestorsMxfOi | src/scraper/taifex-scraper.service.ts:675-679 | the MXF institutional report has the same `null` and throw conditions as the TXF one |
| Taifex.MxfInstOiCells | src/scraper/taifex-scraper.service.ts:678-722 | institutional long open interest is the sum of column 9 of the dealer, SITC and FINI rows; short open interest is the sum of column 11 |
| Taifex.SumOiOfFilter | src/scraper/taifex-scraper.service.ts:659-661 | filtering the regular-session outright rows and then folding column 11 from the left gives the total of column 11 masked by the row condition |
| Taifex.MxfMarketOi | src/scraper/taifex-scraper.service.ts:656-662 | `null` exactly when the header is not `交易日期`; the market open interest is column 11 summed over the rows whose column 17 is `一般` and whose column 18 is empty |
| Taifex.RetailMxfPosition | src/scraper/taifex-scraper.service.ts:620-632 | the result throws exactly when either fetch throws, is `null` exactly when neither throws and either fetch is not a record (`null` or `undefined`), is never `undefined`, and is a record exactly when both fetches are; retail long and short are market minus institutional; retail net equals institutional short minus institutional long |
| Taifex.LargeTradersOfCells | src/scraper/taifex-scraper.service.ts:304-399 | inside a concatenation of four-element vectors, every published count of four rows is the integer their cells give; front-month market open interest is the `number` reading of the front-month row's last cell (the market cell the counts leave out); back-months market open interest is the all-months row's last cell minus it |
| Taifex.LargeTradersTxfPosition | src/scraper/taifex-scraper.service.ts:291-302 | `null` exactly when the header is not `日期`; throws exactly when fewer than six `TX` rows remain after the filter |
| Taifex.LargeTradersTxfCells | src/scraper/taifex-scraper.service.ts:304-315 | with `TX` rows 2 to 5 of ten cells, each published count is the cell arithmetic `Decompose.Reference` states; front-month market open interest is the front-month row's last cell |
| Taifex.LargeTradersTxfIgnoresOtherRows | src/scraper/taifex-scraper.service.ts:294 | inserting a row of another contract anywhere after the header leaves the result unchanged |
| Taifex.LargeTradersTxfWeekRowsIgnored | src/scraper/taifex-scraper.service.ts:294-302 | two downloads with the same header and the same `TX` rows 2 to 5 give the same result, so the week rows never reach the output |
| Taifex.LargeTradersTxoPosition | src/scraper/taifex-scraper.service.ts:413-429 | `null` exactly when the header is not `日期`; throws exactly when fewer than twelve `TXO` rows remain after the filter |
| Taifex.OptionsOfCells | src/scraper/taifex-scraper.service.ts:432-476 | the calls' counts come from `TXO` rows 2 to 5 and the puts' counts from rows 8 to 11, each cut at column 6 without the trailing market cell; each side's front-month market open interest is its front-month row's last cell (rows 2 and 8), and its back-months market open interest is its all-months last cell minus that |
| Taifex.LargeTradersTxoCells | src/scraper/taifex-scraper.service.ts:415-612 | the options report, read from the raw table, is a value whose counts are the ones `OptionsOfCells` states for the filtered `TXO` rows, and whose front-month and back-months market open interest for calls and puts come from the last cells of filtered rows 2, 4, 8 and 10 |
| Decompose.Counts | src/scraper/taifex-scraper.service.ts:304 | the counts are the row's cells from the cut up to, but not including, the last cell, each parsed |
| Decompose.Diff | src/scraper/taifex-scraper.service.ts:306-312 | the element-wise difference is as long as its left operand; an element is a number exactly when both operands hold a number at its index, and then it is their difference; it is `NaN` wherever the right operand is shorter or either operand is `NaN` |
| Decompose.BackNonSpecificAgrees | src/scraper/taifex-scraper.service.ts:310-312 | back-months non-specific (back months minus back-months specific) equals all-months non-specific minus front-month non-specific at every index, for vectors of any lengths |
| Decompose.Publish | src/scraper/taifex-scraper.service.ts:328-387 | each published category is read from its own vector of the concatenation, and every top-5 and top-10 net is long minus short, negative nets kept |
| Decompose.VectorMatchesReference | src/scraper/taifex-scraper.service.ts:304-312 | with four counts per row, front non-specific is front minus specific; back specific is all specific minus front specific; back non-specific is all non-specific minus front non-specific |
| Decompose.PublishedCountAt | src/scraper/taifex-scraper.service.ts:328-365 | count `i` of a category is element `4g + i` of the concatenation, `g` being the category's vector |
| Decompose.PublishMatchesReference | src/scraper/taifex-scraper.service.ts:317-365 | destructuring the concatenated vectors publishes, for every category and index, the integer its cells give |
| Js.FilterConcat | src/scraper/taifex-scraper.service.ts:294 | filtering keeps the order: the filter of a concatenation is the concatenation of the filters |
| Js.FilterSkip | src/scraper/taifex-scraper.service.ts:415 | a rejected element can be removed before filtering without changing the result |
| Js.FilterKeepsAll | src/scraper/tpex-scraper.service.ts:156 | a filter every element passes returns its input |
| Js.FirstIndex | src/scraper/twse-scraper.service.ts:83 | `find` returns the first element that passes, and nothing exactly when none passes |
| Sheet.FlattenFromAt | src/scraper/twse-scraper.service.ts:147-149 | when every row has `k + w` cells, cell `j` after the cut of row `g` sits at position `g * w + j` of the flattened rows |
| Text.SplitOfJoin | src/scraper/twse-scraper.service.ts:71 | `split` is the inverse of joining parts that do not contain the separator |
| Text.RemoveFirstOnlyFirst | src/scraper/twse-scraper.service.ts:107-108 | `replace` with a string pattern removes only the first `)`; any later one survives |
| Text.UnaryPlusOfIntToString | src/scraper/twse-scraper.service.ts:72 | unary `+` reads back the decimal rendering of any integer |
| Calendar.IsoStringInjective | src/scraper/twse-scraper.service.ts:83 | different dates have different ISO strings, so comparing the strings compares the dates |
| Calendar.FromCompactIff | src/scraper/twse-scraper.service.ts:73 | luxon's `yyyyMMdd` reading accepts exactly the compact renderings of calendar dates and returns the date rendered |
| Calendar.RocToDate | src/scraper/twse-scraper.service.ts:71-73 | a converted ROC date is a valid calendar date, and its compact rendering is `+year + 1911` followed by the month and day parts |
| Calendar.RocToDateOfParts | src/scraper/twse-scraper.service.ts:71-73 | with two-character month and day and a four-digit Gregorian year, the date is year `Y + 1911` with the same month and day, and nothing else |
| Calendar.RocDayQuery | src/scraper/tpex-scraper.service.ts:53-55 | the TPEX day query splits into the ROC year (Gregorian year − 1911), the two-digit month and the two-digit day |
| Calendar.RocMonthQuery | src/scraper/tpex-scraper.service.ts:17-19 | the TPEX month query splits at its one slash into the ROC year (which reads back with unary plus) and the two-digit month |
| Calendar.RocDayQueryRoundTrip | src/scraper/tpex-scraper.service.ts:35-37 | reading back a day query with `+year + 1911` gives the date it was written from, for every four-digit Gregorian year |
| Calendar.FromUsDateIff | src/scraper/usdt-scraper.service.ts:31 | luxon's `MM/dd/yyyy` reading accepts exactly the US renderings of calendar dates and keeps year, month and day |
| Exchange.TradesOf | src/scraper/twse-scraper.service.ts:69-81 | the five trade figures are the row's parsed cells 1 to 5, `undefined` where the row is short |
| Exchange.FirstRowOn | src/scraper/twse-scraper.service.ts:83 | it picks the first row whose ROC date converts to the queried ISO date, and nothing when no row does |
| Exchange.DailyTrades | src/scraper/twse-scraper.service.ts:66-83 | an empty row throws; otherwise the result is the first row dated on the query, whose date is the query; it is `null` exactly when no row is dated on the query |
| Exchange.RocRowOnIff | src/scraper/twse-scraper.service.ts:71-83 | a row dated with the ROC rendering of a day is on exactly that day's ISO date |
| Exchange.DailyTradesCells | src/scraper/tpex-scraper.service.ts:31-47 | when row `i` is dated with the ROC rendering of the queried day and no earlier row converts to it, the record holds row `i`'s five figures |
| Exchange.FlowCells | src/scraper/twse-scraper.service.ts:147-166 | for rows of a label and three amounts, flow `g` of the flattened rows is the buy, sell and net of row `g` |
| Twse.MarketTrades | src/scraper/twse-scraper.service.ts:62-84 | `null` unless `stat` is `OK`; otherwise the first row dated on the query |
| Twse.SplitCountOf | src/scraper/twse-scraper.service.ts:107-108 | a cell `a(b)` yields the count `a` and the limit count `b` |
| Twse.MarketBreadth | src/scraper/twse-scraper.service.ts:101-110 | `null` exactly when `stat` is not `OK`; throws exactly when the first two rows or their column 2 are missing |
| Twse.MarketBreadthCells | src/scraper/twse-scraper.service.ts:105-119 | on the report's layout, up and limit-up come from the first `a(b)` cell, down and limit-down from the second; unchanged is column 2 of row 2; unmatched is the sum of column 2 of rows 3 and 4 (unmatched plus not-applicable) |
| Twse.InstInvestorsTrades | src/scraper/twse-scraper.service.ts:143-188 | `null` exactly when `stat` is not `OK`; foreign totals are the excluded and foreign-dealer flows added, and dealer totals are the proprietary and hedge flows added, for buy, sell and net |
| Twse.InstInvestorsTradesCells | src/scraper/twse-scraper.service.ts:147-166 | with at least five rows of a label and three amounts (a later row, such as a total, is not read), the categories are, in row order, proprietary dealers, hedge dealers, investment trusts, foreign investors without foreign dealers, and foreign dealers |
| Twse.MarginTransactions | src/scraper/twse-scraper.service.ts:214-217 | `null` exactly when `stat` is not `OK` or the credit table is empty |
| Twse.MarginTransactionsCells | src/scraper/twse-scraper.service.ts:218-243 | with three rows of a label and five figures, each balance is the row's last figure; each change is that minus the figure before it, for margin units, short units and margin value |
| Tpex.MarketTrades | src/scraper/tpex-scraper.service.ts:27-48 | `null` unless `iTotalRecords` is positive; otherwise the first row dated on the query |
| Tpex.MarketBreadth | src/scraper/tpex-scraper.service.ts:62-79 | `null` exactly when `iTotalRecords` is not positive; each count is the number its field states, and unmatched is the no-trade count alone |
| Tpex.InstInvestorsTrades | src/scraper/tpex-scraper.service.ts:95-97 | `null` exactly when `iTotalRecords` is not positive |
| Tpex.InstInvestorsTradesCells | src/scraper/tpex-scraper.service.ts:99-134 | with at least seven rows of a label and three amounts (a later row, such as a total, is not read), each category, totals included, is the row the exchange publishes it in; nothing is computed |
| Tpex.MarginTransactionsAsWritten | src/scraper/tpex-scraper.service.ts:148-150 | `null` exactly when `iTotalRecords` is not positive |
| Tpex.MarginTransactions | src/scraper/tpex-scraper.service.ts:148-150 | the intended margin reading has the same `null` condition as the code |
| Tpex.MarginTransactionsCells | src/scraper/tpex-scraper.service.ts:157-179 | for footers with fifteen figures, the balances are figures 4, 9 and 14; the changes subtract figures 0, 5 and 10, zeros included |
| Tpex.FalsyAreLabels | src/scraper/tpex-scraper.service.ts:151-156 | when no number-bearing cell reads as 0, dropping the falsy readings after parsing is the same as dropping the cells without a digit before parsing |
| Tpex.MarginTransactionsAgree | src/scraper/tpex-scraper.service.ts:151-179 | on every footer none of whose figures is zero, the code as written and the intended reading give the same result |
| Tpex.MarginTransactionsIgnoresLabels | src/scraper/tpex-scraper.service.ts:151-156 | a label cell (no digit) anywhere in the footer does not change the result |
| Tpex.MarginZeroShiftsFigures | src/scraper/tpex-scraper.service.ts:151-173 | as written, a zero cash redemption shifts the margin balance to the short row's previous balance and the margin value to `undefined` (its change to `NaN`); the intended reading returns the stated balances |
| Usdt.YieldsOf | src/scraper/usdt-scraper.service.ts:33-49 | tenor `k` (1 month to 30 years) is the row's parsed cell `k + 1`, `undefined` where the row is short |
| Usdt.FirstRowOn | src/scraper/usdt-scraper.service.ts:50 | it picks the first row whose US date converts to the queried ISO date, and nothing when no row does |
| Usdt.UsTreasuryYields | src/scraper/usdt-scraper.service.ts:27-52 | `null` exactly when the header is not `Date`; `undefined` (not `null`) exactly when no row is dated on the query; otherwise the first such row, dated on the query |
| Usdt.IsUsRowOnIff | src/scraper/usdt-scraper.service.ts:31 | a row is on the queried day exactly when its date cell is the US rendering of a day whose ISO rendering is the query |
| Usdt.UsTreasuryYieldsCells | src/scraper/usdt-scraper.service.ts:30-50 | on the report's layout, the row with the query's US date gives the yields it states, and no other day's row is returned |

## Left out

- HTTP, RxJS, Nest dependency injection, Big5 decoding and CSV tokenisation. Tables enter the model already tokenised.
- The `date` field that records copy from the query. It is not carried. This covers the TWSE and TPEX breadth, flow and margin records. It also covers the TAIFEX records: futures and options trades, large traders (futures and options), MXF market open interest, MXF institutional open interest, and the retail position. The US Treasury record is different: it carries the row's own date, and `Usdt.UsTreasuryYields` states that its ISO rendering is the query.
- `fetchTxoPutCallRatio` and `fetchExchangeRates` in the TAIFEX service, `fetchListedStocks` (HTML scraping with cheerio), and the Yahoo Finance service. They are outside the transformations modelled here.
- `Taifex.RetailMxfPosition`: does not compute the long/short ratio. It uses floating-point division and `Math.round`.
- Decimal values (prices, yields, exchange rates) are read through the same abstract integer `parse`. Only their positions are verified.
- `numeral`'s exact reading of number-bearing strings is the parameter `parse`. `numeral` of a one-element array is the parameter `number`. Unary `+` after a falsy reading is the parameter `plus`. `Text.UnaryPlus` models `+s` only for the empty string and for an optional minus followed by decimal digits, which is all the ROC year needs; other strings are not modelled (JavaScript reads some of them, such as `+7` or `7.5`, as numbers, where the model gives `None`).
- A `numeral` `null` is carried as 0, so a record cannot tell a `null` field from a 0 field. This is what the code's arithmetic does with it.
- luxon's format parsing accepts ASCII digits only, with exact field widths. Time zones and the luxon `DateTime` object are not modelled. Dates are year, month and day.
- Short or missing rows throw (`Thrown`) or read `undefined` (`Undef`), as in the code. There are no preconditions on row counts.
- Exchange.Breadth: the field the code calls `unchanged` is `unchangedIssues`, because `unchanged` is a Dafny keyword.

## Findings

| source | as written | input that shows it | evidently intended | confidence | as-written member | corrected member |
|---|---|---|---|---|---|---|
| src/scraper/tpex-scraper.service.ts:151-156 | the footer figures are parsed and then every falsy value is dropped (`filter(data => data)`), which removes genuine zero figures along with the label cells | a footer of fifteen figures whose margin cash redemption (figure 3) is `0` and whose other figures are non-zero: the margin balance is read from the short row's previous balance, and the margin value reads past the end, so it is `undefined` and its change is `NaN` | drop only the cells without a number (labels), so every figure, zero included, keeps its position | high that the shift occurs when a zero is present; not executed | Tpex.MarginZeroShiftsFigures | Tpex.MarginTransactions |
