# BagHolder trade-journal core, modelled in Dafny

BagHolder is a self-hosted trading journal. Users import broker exports from
thinkorswim, Charles Schwab, generic CSV files and BagHolder's own export.
The journal keeps the trades per account, matches them into positions and
reports realised profit and loss per day, per week and per trade. This
project models that core in Dafny and proves properties of the model. There
is one module per source file, plus a few shared modules.

Profit and loss engines:

- `TradeMatching` (`app/services/trade_matching.py`) is the lot-matching
  position engine. A BUY covers open short lots first and opens a long lot
  with the rest; a SELL does the mirror image. Lots are drawn down FIFO or
  LIFO, and a fee is split between the closed and the opened part of a trade.
- `Pnl` (`app/services/pnl.py`) aggregates trade records into daily rows:
  realised profit, trade value, total and a running cumulative total.
- `Calculations` (`app/services/calculations.py`) is the older
  averaged-cost ledger. It keeps one average cost per symbol and books
  realised profit per day.
- `LongOnlyPnl` is the long-only daily engine that the thinkorswim importer
  and the statement extractor script both carry. Sales never open a short,
  and open positions are marked at the day's last price.

Importers:

- `ImportThinkorswim` (`app/services/import_thinkorswim.py`): action labels,
  header mappings, the "Account Trade History" section, deduplication and
  the order in which the parsers are tried.
- `TosExtract` (`testings/tos_as_csv_extract.py`): the statement extractor
  script's trade and equities sections and its daily P&L.
- `ImportTradesCsv` (`app/services/import_trades_csv.py`): the generic trade
  CSV.
- `ImportCharlesSchwab` (`app/services/import_charles_schwab.py`): Schwab's
  transaction history, split into trades and dividend rows.
- `ImportBagholder` (`app/services/import_bagholder.py`): BagHolder's own
  daily-summary export read back.
- `SimulationRunner` (`app/services/simulation_runner.py`): simulated trade
  records turned into trade rows.
- `ImportText` holds the header, symbol, date and row-dictionary helpers
  that several importers repeat.

Summaries and pages:

- `TradeSummaries` (`app/services/trade_summaries.py`): stored trades to
  daily realised figures, and the upsert into the `daily_summary` table.
- `Summaries` (`app/services/summaries.py`): daily figures added up per ISO
  week.
- `RoutesImport` (`app/api/routes_import.py`): trade insertion that skips
  rows already stored and fails at the commit on a row repeated within one
  file, reconciliation of recomputed days with stored ones, the CSV
  upsert and the conflict form.
- `RoutesCalendar` (`app/api/routes_calendar.py`): which month the home page
  opens, the month grid with its totals, and the manual overwrite of a day.
- `Store` models the `daily_summary`, `trades` and `meta` tables as one
  in-memory database.

Application services:

- `Accounts` (`app/services/accounts.py`): account slugs and ids, the
  repair of the accounts section and of its entries (`prepare_accounts`),
  renaming, switching, adding and listing.
- `Config` (`app/core/config.py`): the recursive merge of settings with the
  defaults, and the `AppConfig` object.
- `Utils` (`app/core/utils.py`): flags read from settings, "YYYY-MM-DD"
  printing and month bounds.
- `Identity` (`app/services/identity.py`): the password policy, sign-in,
  first-user registration and password change.
- `Authentication` (`app/core/authentication.py`): the session user and the
  decision `require_user` makes.
- `Lifecycle` (`app/core/lifecycle.py`): the colour and money template
  filters.
- `Icon` (`app/scripts/create_bagholder_icon.py`): a PNG wrapped in a
  one-image ICO container.

Shared modules:

- `Common`: Option/Result and sums of reals.
- `Text`: Python-style string helpers with ASCII case mapping.
- `Numbers`: the subset of Python's `float()` and `int()` the importers rely
  on.
- `Dates`: the Gregorian calendar, ISO weeks, a subset of `strptime` and
  `strftime`.
- `Sums`: sums of real weights over finite sets, for totals over dicts.

Python floats are modelled as exact reals. Integers are unbounded, which is
what Python's `int` is. File contents arrive already decoded and, for CSV
files, already split into rows of cells.

## Model

| member | source | states |
|---|---|---|
| TradeMatching.ValidateMethod | app/services/trade_matching.py:29-31 | a missing method means FIFO |
| TradeMatching.ValidateMethodLifo | app/services/trade_matching.py:29-31 | LIFO is chosen exactly when the stripped, lower-cased name is "lifo" |
| TradeMatching.CreatePosition | app/services/trade_matching.py:12-26 | a fresh position has no lots, zero shares and cost, and no last price |
| TradeMatching.CreatePositionWellFormed | app/services/trade_matching.py:12-26 | a fresh position satisfies the position invariant |
| TradeMatching.TotalAppend | app/services/trade_matching.py:34-35 | appending a lot adds its quantity to the total and its cost to the basis |
| TradeMatching.TotalPositive | app/services/trade_matching.py:34-35 | positive lots total a non-negative quantity, zero only when no lot is open |
| TradeMatching.ConsumeAmount | app/services/trade_matching.py:38-84 | drawing lots down consumes min(requested, open quantity) and leaves exactly that much less open |
| TradeMatching.ConsumeRealized | app/services/trade_matching.py:38-84 | the realised profit equals proceeds less basis for a SELL, or basis less cost for a BUY |
| TradeMatching.ConsumePositive | app/services/trade_matching.py:77-82 | every lot left open has a positive quantity, because emptied lots are removed |
| TradeMatching.ConsumeAll | app/services/trade_matching.py:65-82 | requesting at least the open quantity empties the list |
| TradeMatching.FifoPartialClose | app/services/trade_matching.py:65-82 | FIFO draws a partial close from the oldest lot and keeps its price |
| TradeMatching.LifoPartialClose | app/services/trade_matching.py:65-82 | LIFO draws a partial close from the newest lot and keeps its price |
| TradeMatching.FifoLeavesSuffix | app/services/trade_matching.py:65-82 | under FIFO the open lots are a suffix of the original lots, the first possibly reduced |
| TradeMatching.LifoLeavesPrefix | app/services/trade_matching.py:65-82 | under LIFO the open lots are a prefix of the original lots, the last possibly reduced |
| TradeMatching.ExampleFifoLifo | app/services/trade_matching.py:65-82 | FIFO and LIFO realise different profits on the same two lots |
| TradeMatching.FeeValue | app/services/trade_matching.py:122 | the fee is never negative and a missing fee is zero |
| TradeMatching.ApplySpec | app/services/trade_matching.py:110-173 | the last price is always the trade price; a side other than BUY or SELL changes no lot and realises nothing |
| TradeMatching.TradeConsumes | app/services/trade_matching.py:133-137 | a trade closes min(qty, open opposite quantity) |
| TradeMatching.TradeQuantities | app/services/trade_matching.py:132-168 | after a trade, opened minus closed quantity equals the trade quantity, and the opened lot holds what was not closed |
| TradeMatching.TradeRealized | app/services/trade_matching.py:138-141 | the realised profit is the closing gain less the closed share of the fee |
| TradeMatching.FeeSplit | app/services/trade_matching.py:140-148 | the fee splits into the closed share, which is charged to profit, and the open share, which goes into the new lot's basis |
| TradeMatching.SettleFee | app/services/trade_matching.py:140-168 | the fee charged on settlement is split in proportion to the quantity consumed |
| TradeMatching.OpenLotBasis | app/services/trade_matching.py:146-148 | the opened lot costs its notional plus the open fee for a long, or less it for a short |
| TradeMatching.OpeningRealizesNothing | app/services/trade_matching.py:132-168 | a trade with nothing to close realises nothing, minus no fee |
| TradeMatching.NonPositiveQuantity | app/services/trade_matching.py:140-145 | a trade of zero or negative quantity changes no lot and realises nothing |
| TradeMatching.AverageCostOfHeld | app/services/trade_matching.py:91-107 | the summary's shares is the net open quantity and its average cost is the held side's basis over its quantity |
| TradeMatching.SummarizeWellFormed | app/services/trade_matching.py:91-107 | summarising positive one-sided lots yields a well-formed position |
| TradeMatching.TradeKeepsOneSide | app/services/trade_matching.py:132-168 | a trade never leaves both long and short lots open |
| TradeMatching.ApplyWellFormed | app/services/trade_matching.py:110-173 | applying any trade preserves the position invariant |
| TradeMatching.ApplyShares | app/services/trade_matching.py:110-173 | a BUY adds its quantity to the net shares, a SELL subtracts it, and any other side changes nothing |
| TradeMatching.ExampleOpen | app/services/trade_matching.py:145-149 | a trade on an empty position opens one lot at the trade price |
| TradeMatching.ExamplePartialClose | app/services/trade_matching.py:65-82 | a partial close reduces the lot and books its gain |
| TradeMatching.ExampleFullClose | app/services/trade_matching.py:81-82 | a full close removes the lot and books its gain |
| TradeMatching.OpenFromFlat | app/services/trade_matching.py:110-173 | a BUY or SELL on a fresh position opens a long or short lot and realises nothing |
| TradeMatching.PartialSell | app/services/trade_matching.py:151-173 | selling part of a long lot realises (price - cost) x qty and keeps the rest |
| TradeMatching.PartialCover | app/services/trade_matching.py:132-149 | covering part of a short lot realises (cost - price) x qty |
| TradeMatching.FullSell | app/services/trade_matching.py:151-173 | selling a whole long lot flattens the position |
| TradeMatching.ExampleRoundTrip | app/services/trade_matching.py:151-173 | 10 bought at 100 and sold at 110 realise 100 |
| TradeMatching.ExampleSell | app/services/trade_matching.py:151-173 | 10 held at 150, 5 sold at 155: 25 realised and 5 left at 150 |
| TradeMatching.ExampleCover | app/services/trade_matching.py:132-149 | 10 short at 200, 4 covered at 180: 80 realised and 6 left short |
| TradeMatching.ApplyDependsOnValidated | app/services/trade_matching.py:121-122 | the outcome depends on the fee and method only through their validated values |
| TradeMatching.ApplyDefaults | app/services/trade_matching.py:116-122 | no fee and no method behave as fee 0 and "fifo" |
| TradeMatching.DrawDown | app/services/trade_matching.py:77-82 | one draw-down step reduces the chosen lot or removes it once empty |
| TradeMatching.Position.constructor | app/services/trade_matching.py:12-26 | a new position object holds the fresh position state |
| TradeMatching.Position.AppendLot | app/services/trade_matching.py:87-88 | the lot is appended to one list; the other list and the summary are unchanged |
| TradeMatching.Position.Consume | app/services/trade_matching.py:38-84 | the loop leaves the lots, profit and consumed quantity the draw-down function describes |
| TradeMatching.Position.UpdateSummary | app/services/trade_matching.py:91-107 | the new state is the summary of the old one |
| TradeMatching.Position.TradeOn | app/services/trade_matching.py:132-168 | one side's close-then-open step leaves the state the side outcome describes |
| TradeMatching.Position.ApplyTrade | app/services/trade_matching.py:110-173 | the new state and the returned profit are those of the trade function |
| Pnl.MissingRequired | app/services/pnl.py:52-55 | a required field is reported exactly when no record carries it |
| Pnl.Normalize | app/services/pnl.py:58-70 | side and symbol are upper-cased; a missing sequence is 0 and a missing fee 0.0 |
| Pnl.SortRows | app/services/pnl.py:72-74 | sorting keeps every row |
| Pnl.SortRowsSorted | app/services/pnl.py:72-74 | the rows come out ordered by (date, sequence, datetime, symbol) and are a permutation of the input |
| Pnl.DatedAscending | app/services/pnl.py:72-79 | the dated rows of a sorted sequence have ascending dates |
| Pnl.GroupByDate | app/services/pnl.py:79 | no rows give no groups, and the first group has the first row's date |
| Pnl.GroupByDateSpec | app/services/pnl.py:79 | the groups, read in order, give back the rows; each group has one date; the dates strictly increase |
| Pnl.FlattenDates | app/services/pnl.py:79 | every row's date names a group and every group's date comes from a row |
| Pnl.SkippedRowsIgnored | app/services/pnl.py:88-92 | rows with a non-positive quantity or another side change nothing, and so, in this model, do rows missing a quantity or a price |
| Pnl.MissingSymbolsShareAPosition | app/services/pnl.py:84-99 | rows without a symbol share the one missing-value position, so a buy and a partial sell among them realise a gain |
| Pnl.DayTradeValue | app/services/pnl.py:99 | a day's trade value is the sum of qty x price over its applied rows |
| Pnl.RunTradesConcat | app/services/pnl.py:83-99 | processing two runs of trades in turn equals processing them joined |
| Pnl.RunTradesWellFormed | app/services/pnl.py:94-98 | every position the loop keeps stays well-formed |
| Pnl.CarryOver | app/services/pnl.py:76-99 | positions carry across days: the day-by-day run ends where one run over all trades ends |
| Pnl.RunDays | app/services/pnl.py:79-110 | one row per day, carrying the day's date, with total equal to realised |
| Pnl.CumulativeIsRunningTotal | app/services/pnl.py:112-113 | each cumulative value is the sum of the totals up to that row |
| Pnl.DatedPlace | app/services/pnl.py:58-79 | every dated record has its row among the sorted dated rows |
| Pnl.DatedSource | app/services/pnl.py:58-79 | every sorted dated row comes from a dated record |
| Pnl.RowsOfGood | app/services/pnl.py:76-113 | the rows ascend by date, each date is a record's date, each record's date has a row, and the last cumulative is the sum of all totals |
| Pnl.DailyPnlRows | app/services/pnl.py:42-113 | a successful aggregation yields such rows |
| Pnl.NoDailyRowsIff | app/services/pnl.py:79-113 | with the columns present, aggregation fails for want of daily rows exactly when no record has a date |
| Pnl.NoDateColumn | app/services/pnl.py:49-50 | without a date column no record has a date |
| Pnl.PlainPair | app/services/pnl.py:45-60 | two complete records pass the column checks and normalise field by field |
| Pnl.LongThenReduce | app/services/pnl.py:79-113 | a BUY then a smaller SELL on one day realise (p2 - p1) x q2, with trade value q1 p1 + q2 p2 |
| Pnl.LongThenClose | app/services/pnl.py:79-113 | a BUY closed by a SELL on a later day gives two rows and the profit on the second |
| Pnl.ShortThenCover | app/services/pnl.py:79-113 | a short reduced by a later BUY books (p1 - p2) x q2 on the second day |
| Pnl.ExampleLongFlow | app/services/pnl.py:79-113 | 10 AAPL bought at 150 and 5 sold at 155 on one day give 25 realised and 2275 traded |
| Pnl.ExampleRoundTripFlow | app/services/pnl.py:79-113 | 10 AAPL bought at 100 then sold at 110 the next day give 0 then 100 |
| Pnl.ExampleShortFlow | app/services/pnl.py:79-113 | 10 TSLA shorted at 200 and 4 covered at 180 a day later give 0 then 80 |
| Pnl.LookUp | app/services/pnl.py:94 | the symbol's position object is fetched, or a fresh one is created and added |
| Pnl.ApplyRow | app/services/pnl.py:94-98 | the symbol's object takes the trade's outcome; no other position changes |
| Pnl.ProcessTrade | app/services/pnl.py:84-99 | one loop pass performs one step of the trade function |
| Pnl.ProcessDay | app/services/pnl.py:80-110 | one pass over a day's trades yields that day's step |
| Pnl.ProcessDays | app/services/pnl.py:76-110 | the daily rows are those of the day-by-day run from no positions |
| Pnl.ComputeDailyPnlRecords | app/services/pnl.py:11-114 | the method returns what the aggregation function describes, errors included |
| Calculations.Traded | app/services/calculations.py:6-56 | the last price is the trade price; a BUY adds and a SELL subtracts the quantity; trading away from a short or long realises nothing; any other side changes only the last price |
| Calculations.ApplyTradeToPosition | app/services/calculations.py:6-56 | the method's holding and profit are those of the trade function |
| Calculations.ApplyBuy | app/services/calculations.py:15-30 | the BUY branch's loop-free update matches the BUY function |
| Calculations.ApplySell | app/services/calculations.py:32-50 | the SELL branch's update matches the SELL function |
| Calculations.BuyAgainstShort | app/services/calculations.py:15-30 | a BUY against a short realises (cost - price) x covered; it keeps the short's cost, flattens it, or flips long at the trade price |
| Calculations.SellAgainstLong | app/services/calculations.py:32-50 | a SELL against a long realises (price - cost) x sold; it keeps the long's cost, flattens it, or flips short at the trade price |
| Calculations.AddToSide | app/services/calculations.py:26-30 | adding to a side realises nothing and averages the cost by quantity |
| Calculations.FlipExample | app/services/calculations.py:32-50 | selling 15 out of a long of 10 leaves 5 short at the sale price |
| Calculations.TradedValid | app/services/calculations.py:6-56 | a holding is flat with zero cost or holds shares at a positive cost, and every trade keeps it so |
| Calculations.FirstTruthy | app/services/calculations.py:91-94 | the chosen cell is truthy, or 0 when neither is |
| Calculations.Accept | app/services/calculations.py:90-102 | a row is booked exactly when it has a quantity, a price, a symbol and a BUY or SELL side, and then with positive quantity and price |
| Calculations.SortTrades | app/services/calculations.py:73-79 | sorting keeps every row |
| Calculations.SortTradesSorted | app/services/calculations.py:73-79 | the rows come out ordered by (date, datetime) and are a permutation |
| Calculations.SortTradesStable | app/services/calculations.py:73-79 | rows with equal keys keep their input order |
| Calculations.SortedUnchanged | app/services/calculations.py:73-79 | an already ordered list is left as it is |
| Calculations.Step | app/services/calculations.py:81-107 | a skipped row changes nothing; a booked row updates its symbol and only a non-zero profit adds its day |
| Calculations.ApplySpec | app/services/calculations.py:66-109 | no trades leave the book as it is; keys of mixed kinds are an error |
| Calculations.RunValid | app/services/calculations.py:81-107 | every holding in the book stays valid across any run |
| Calculations.RunPerSymbol | app/services/calculations.py:81-107 | each symbol's holding depends only on that symbol's accepted trades |
| Calculations.NetShares | app/services/calculations.py:81-107 | a symbol's shares change by its bought minus sold quantity |
| Calculations.RunDays | app/services/calculations.py:104-107 | a day appears in the realised map only if some accepted trade fell on it |
| Calculations.Ledger.constructor | app/services/calculations.py:59-64 | a new ledger has no positions and no realised days |
| Calculations.Ledger.Apply | app/services/calculations.py:66-109 | no trades return the map at once; unorderable keys fail with nothing changed; otherwise the state is the run over the sorted trades |
| Calculations.Ledger.ProcessTrade | app/services/calculations.py:81-107 | one loop pass performs one step of the book function |
| Calculations.BuyThenSell | app/services/calculations.py:66-109 | a BUY then a SELL from empty leave the rest of the long and book (p2 - p1) x q2 on the sale's day |
| Calculations.ExampleProfit | tests/services/test_calculations.py:13-22 | 100 bought at 1.0 and 50 sold at 1.2 book 10.0 on the sale's day |
| Calculations.ExampleLoss | tests/services/test_calculations.py:25-34 | 100 bought at 1.0 and 1 sold at 0.99 book -0.01 on the sale's day |
| Calculations.TestRowsAccepted | tests/services/test_calculations.py:13-34 | the test rows are accepted with their literal fields and are already in key order |
| TradeSummaries.CoerceNumber | app/services/trade_summaries.py:14-25 | a number passes through; `None` and text `float` refuses give 0.0; readable text gives its value |
| TradeSummaries.CoerceNatText | app/services/trade_summaries.py:14-25 | the digits of a whole number coerce to that number |
| TradeSummaries.CoerceWordIsZero | app/services/trade_summaries.py:14-25 | a word such as "inf", "nan" or "abc" coerces to 0.0 |
| TradeSummaries.NormalizeDate | app/services/trade_summaries.py:28-42 | a date or datetime prints as its ISO day; blank text and non-strings give None, other text never does |
| TradeSummaries.NormalizeDateIdempotent | app/services/trade_summaries.py:28-42 | normalising an already normalised value changes nothing |
| TradeSummaries.NormalizeDateText | app/services/trade_summaries.py:34-41 | text that reads as "%Y-%m-%d" is reprinted as that date |
| TradeSummaries.TimeOf | app/services/trade_summaries.py:73-82 | a blank or missing time gives no time of day |
| TradeSummaries.TradeToRecord | app/services/trade_summaries.py:45-93 | an accepted record always carries a valid calendar date |
| TradeSummaries.TradeAcceptedIff | app/services/trade_summaries.py:45-71 | a trade converts exactly when it exists, its action is BUY or SELL, its symbol is not blank, qty and price read as positive numbers and the date parses |
| TradeSummaries.AcceptedRecordFields | app/services/trade_summaries.py:51-93 | the record holds the parsed date, upper-cased action and symbol, the read qty and price, fee defaulted to 0.0, sequence to 0, and a datetime exactly when the time reads |
| TradeSummaries.StoredTradeDefaults | app/services/trade_summaries.py:73-93 | a stored trades row, which has no time, fee or sequence, converts with no timestamp, zero fee and sequence 0 |
| TradeSummaries.AcceptedRecordCapitals | app/services/trade_summaries.py:55-57 | the kept symbol is already upper case |
| TradeSummaries.TimeWithSeconds | app/services/trade_summaries.py:73-82 | "HH:MM:SS" reads as that time of day |
| TradeSummaries.TimeWithoutSeconds | app/services/trade_summaries.py:73-82 | "HH:MM" fails the first layout and reads through the second with zero seconds |
| TradeSummaries.Records | app/services/trade_summaries.py:112-116 | never more records than trades |
| TradeSummaries.CollectRecords | app/services/trade_summaries.py:112-116 | the loop keeps, in order, the records of the trades that convert |
| TradeSummaries.FillMap | app/services/trade_summaries.py:121-131 | the loop fills one entry per row under its normalised date |
| TradeSummaries.CalculateDailyTradeMap | app/services/trade_summaries.py:96-131 | the method returns the dictionary the specification function describes, and never the engine's error |
| TradeSummaries.RecordSource | app/services/trade_summaries.py:112-116 | every collected record is the conversion of some trade |
| TradeSummaries.RecordPlace | app/services/trade_summaries.py:112-116 | every trade that converts has its record collected |
| TradeSummaries.RecordsComplete | app/services/trade_summaries.py:84-93 | every collected record has a valid date, a side, a symbol, a quantity and a price |
| TradeSummaries.RecordsNeverFail | app/services/trade_summaries.py:118-121 | the profit engine never raises on collected records and returns its daily rows |
| TradeSummaries.DailyTradeMapOk | app/services/trade_summaries.py:96-131 | computing the daily map never fails |
| TradeSummaries.DailyTradeMapKeys | app/services/trade_summaries.py:112-131 | the keys are exactly the ISO dates of the trades that convert |
| TradeSummaries.DailyTradeMapEmpty | app/services/trade_summaries.py:118-119 | the map is empty exactly when no trade converts |
| TradeSummaries.DailyTradeMapValues | app/services/trade_summaries.py:121-131 | each day's entry holds the realised profit and traded value of the engine's row for that day |
| TradeSummaries.KeyHasRow | app/services/trade_summaries.py:121-131 | every key is the printed date of some row |
| TradeSummaries.RowHasKey | app/services/trade_summaries.py:121-131 | every row's printed date is a key |
| TradeSummaries.MapOfRowsValues | app/services/trade_summaries.py:121-131 | with strictly ascending dates no later row overwrites an earlier one |
| TradeSummaries.StampOrNow | app/services/trade_summaries.py:142-143 | a missing or empty timestamp becomes the current time; any other is kept |
| TradeSummaries.UpsertDailySummaries | app/services/trade_summaries.py:134-169 | the new table is the upsert function of the old one; trades and meta are unchanged |
| TradeSummaries.PutTwice | app/services/trade_summaries.py:152-169 | writing a day twice equals writing it once with the later values |
| TradeSummaries.UpsertedAt | app/services/trade_summaries.py:145-169 | each named day gets its values over its stored row, other rows stay, no row appears from nowhere |
| TradeSummaries.UpsertWritesDays | app/services/trade_summaries.py:152-169 | a written day has the coerced realised and invested figures and the timestamp; it keeps its unrealised figure, or gets 0.0 when new |
| TradeSummaries.UpsertKeepsOthers | app/services/trade_summaries.py:145-169 | no stored row disappears and days outside the map are unchanged |
| TradeSummaries.UpsertOrderFree | app/services/trade_summaries.py:152-169 | the iteration order of the map does not change the result |
| TradeSummaries.UpsertIdempotent | app/services/trade_summaries.py:134-169 | upserting the same map twice with one timestamp is upserting it once |
| TradeSummaries.TradeMapLands | app/services/trade_summaries.py:121-169 | a day of the computed map lands in the table with its realised and invested figures |
| Calculations.Bought | app/services/calculations.py:15-30 | a BUY records the price as the last price, adds a positive quantity to the shares, and realises nothing from a flat or long position |
| Calculations.Sold | app/services/calculations.py:32-50 | a SELL records the price as the last price, subtracts a positive quantity from the shares, and realises nothing from a flat or short position |
| Calculations.MeanOfNothing | app/services/calculations.py:26-30 | opening from no shares prices the position at the trade price, whatever cost was carried |
| Calculations.MeanTotal | app/services/calculations.py:26-30 | the new average cost times the new share count is the old cost basis plus the new units' cost |
| Calculations.MeanPositive | app/services/calculations.py:26-30 | averaging a non-negative cost with a positive price gives a positive cost |
| Calculations.ToFloat | app/services/calculations.py:93-96 | a number converts as it is, and a null does not convert |
| Calculations.OfSymbol | app/services/calculations.py:90-105 | the accepted trades of one symbol all have that symbol and a positive quantity |
| Calculations.RunHoldingShares | app/services/calculations.py:104-105 | a symbol's net shares move by exactly the signed quantities of its trades |
| Calculations.InsertSorted | app/services/calculations.py:73-79 | inserting a row into rows ordered by (date, datetime) keeps them ordered |
| Calculations.OpenFromFlat | app/services/calculations.py:15-50 | a trade from a flat position holds the quantity, long for a BUY and short for a SELL, at the trade price, and realises nothing |
| Calculations.BuyIntoEmpty | app/services/calculations.py:81-107 | an accepted BUY into an empty ledger opens a long at its price and books nothing |
| Calculations.SellDown | app/services/calculations.py:32-50 | selling part or all of a long leaves the rest at the same cost, or flat at zero cost, and realises (price - cost) x sold |
| Calculations.SellFromLong | app/services/calculations.py:81-107 | a SELL against a lone long leaves the rest of the long and books its non-zero profit on the sale's day |
| Calculations.TestDatesOrdered | tests/services/test_calculations.py:13-34 | the tests' dates are in order as text |
| Calculations.TestNumbers | tests/services/test_calculations.py:13-34 | the tests' figures: 50 of 100 sold at 1.2 after buying at 1.0 gain 10.0, and 1 sold at 0.99 loses 0.01 |
| TradeMatching.PickIndex | app/services/trade_matching.py:65-76 | the lot drawn is the oldest under FIFO and the newest under LIFO |
| TradeMatching.Summarize | app/services/trade_matching.py:91-107 | recomputing the summary leaves both lot lists and the last price unchanged |
| TradeMatching.SummarizeOne | app/services/trade_matching.py:91-107 | a single open long lot gives its quantity at its price; a single open short lot gives minus its quantity at its price |
| TradeMatching.PlainTrade | app/services/trade_matching.py:110-173 | a trade without fee or method is a FIFO trade without fee: a BUY covers shorts then opens long, a SELL closes longs then opens short |
| TradeMatching.DrawLots | app/services/trade_matching.py:65-84 | the draw-down loop leaves the lots, profit and consumed quantity the draw-down function describes |
| Pnl.NormalizeAll | app/services/pnl.py:58-70 | every record is normalised, in order |
| Pnl.GroupByDateFlatten | app/services/pnl.py:79 | reading the groups in order gives back the rows |
| Pnl.GroupByDateUniform | app/services/pnl.py:79 | each group is a non-empty run of rows of its own date |
| Pnl.GroupByDateAscending | app/services/pnl.py:79 | on rows in date order the group dates strictly increase |
| Pnl.RowsAscending | app/services/pnl.py:72-110 | the output rows' dates strictly increase |
| Pnl.RowsFromRecords | app/services/pnl.py:58-110 | every output row's date is some record's date |
| Pnl.RecordsInRows | app/services/pnl.py:58-110 | every dated record's date has an output row |
| Pnl.RowsFinalTotal | app/services/pnl.py:76-113 | the last cumulative value is the profit realised over the whole run of sorted trades |
| Pnl.OpenStep | app/services/pnl.py:94-99 | a fee-free trade on a symbol not yet seen opens a position, realises nothing and adds its notional to the day's trade value |
| Pnl.BuyFromFlat | app/services/pnl.py:94-99 | a fee-free BUY on no positions opens a long lot and realises nothing |
| Pnl.SellFromFlat | app/services/pnl.py:94-99 | a fee-free SELL on no positions opens a short lot and realises nothing |
| Pnl.CloseDays | app/services/pnl.py:76-110 | a day with a BUY and a later day that sells all of it give a row of zero profit and then a row of (p2 - p1) x q |
| Pnl.CoverDays | app/services/pnl.py:76-110 | a day with a short SELL and a later day with a smaller BUY give a row of zero profit and then a row of (p1 - p2) x q2 |
| Pnl.TradeStepApplied | app/services/pnl.py:94-99 | an applied trade gives its symbol the trade's new position and grows the day's profit and trade value by its gain and notional |
| Pnl.ApplyToSymbol | app/services/pnl.py:94-98 | the symbol's position object takes the trade's outcome and the profit returned is the trade's gain; the other objects keep their states |
| TradeSummaries.RowKeyOfValid | app/services/trade_summaries.py:121-131 | a valid date prints as a non-blank key |
| TradeSummaries.RowsTraceBack | app/services/trade_summaries.py:112-121 | every row of the engine carries the date of some converted record |
| TradeSummaries.RowsShowRecords | app/services/trade_summaries.py:112-121 | every converted record's date has a row |
| TradeSummaries.EngineRows | app/services/trade_summaries.py:112-131 | on records that exist the engine succeeds, and the dictionary is built from its rows |
| RoutesCalendar.Leading | app/api/routes_calendar.py:42-44 | the grid starts with exactly the leading days of the previous month |
| RoutesCalendar.Trailing | app/api/routes_calendar.py:42-44 | the grid ends with exactly the trailing days of the next month |
| RoutesCalendar.AddKey | app/api/routes_calendar.py:63-64 | one more day taken in keeps both running sums equal to the sums over the days done |
| RoutesImport.ReconcileReachesStored | app/api/routes_import.py:85-105 | when the loop reaches a day of a map of distinct days, that day's row is still the stored one |
| RoutesImport.ResolveStaysFailed | app/api/routes_import.py:221-255 | once a submitted figure fails to parse, the outcome is that failure whatever the later dates hold |
| Lifecycle.NoBlend | app/core/lifecycle.py:81-83 | blending by zero leaves a channel unchanged |
| Lifecycle.FullBlend | app/core/lifecycle.py:81-83 | blending by one turns a channel white |
| Summaries.DigitsParse | app/services/summaries.py:9-10 | `int` of a non-empty run of digits is the number they spell |
| Summaries.CanonicalParts | app/services/summaries.py:9-10 | a printed date splits on dashes into year, month and day, each reading back as its number |
| Utils.TrueText | app/core/utils.py:11-17 | the text "true" is true whatever the default |
| SimulationRunner.UpperStripIdempotent | app/services/simulation_runner.py:53-80 | cleaning a cleaned field changes nothing |
| Common.SumRealsConcat | app/services/pnl.py:113 | the sum of two sequences laid end to end is the sum of their sums |
| Common.CumSum | app/services/pnl.py:113 | the running total has one entry per day and each entry is the sum of the days up to it |
| Common.FirstFailingSpec | app/services/import_charles_schwab.py:106-120 | no element is reported exactly when every element passes; a reported element is the first one that fails |
| Common.AllOkMeaning | app/services/simulation_runner.py:50-81 | collecting results succeeds exactly when every result does, with the values in order; a failure is the first failing element's error |
| Common.UnknownNoRepeats | app/api/routes_import.py:30-47 | the elements a lookup in the committed table does not find hold no repeat exactly when every element listed twice is found |
| Common.Mapped | app/services/simulation_runner.py:52 | mapping keeps the length and applies the function to each element in place |
| Common.CollectOks | app/services/simulation_runner.py:50-81 | the loop that stops at the first error computes the all-or-first-error collection of the mapped results |
| Numbers.ParseNumber | app/services/import_trades_csv.py:108-120 | `None` and blank text are missing; numbers pass through unchanged |
| Numbers.ParseNumberText | app/services/import_trades_csv.py:111-120 | non-blank text is stripped, loses its "," and "$", has "(x)" turned into "-x", and is then read by `float` |
| Numbers.ParseNumberParenthesised | app/services/import_trades_csv.py:115-116 | an unsigned amount in parentheses reads as its negation |
| Numbers.ParseNumberIgnoresCurrency | app/services/import_trades_csv.py:114 | an amount printed with "$" and digit grouping reads back as its value |
| Numbers.ParseNumberIgnoresCurrencyNegative | app/services/import_trades_csv.py:114 | the same holds for a negative amount printed with a leading "-" |
| Numbers.ParseFloatTos | app/services/import_thinkorswim.py:133-145 | `None` and the placeholders "~", "-" and "--" are missing |
| Numbers.ParseFloatTosAgrees | app/services/import_thinkorswim.py:133-145 | thinkorswim's reader and the other importers' reader agree on every value, because `float` rejects the placeholders anyway |
| Numbers.ParseDecimalOfNat | app/services/import_trades_csv.py:118 | `float` of a printed natural number is that number |
| Numbers.UnsignedSplit | app/services/import_trades_csv.py:118 | the numeral "i.f" reads as i plus f over 10 to the number of fraction digits |
| Dates.DaysInMonth | app/core/utils.py:33 | a month has 28 to 31 days |
| Dates.Weekday | app/services/summaries.py:10 | the weekday lies in 0..6, Monday 0 |
| Dates.DaysBeforeYearClosedForm | app/services/summaries.py:10 | the year-by-year count of days agrees with the closed form of the proleptic Gregorian calendar |
| Dates.OrdinalNext | app/api/routes_calendar.py:41-50 | the day after a date, within the month, across a month end and across a year end, has the next ordinal |
| Dates.Week1MondayGap | app/services/summaries.py:10 | consecutive ISO years are 52 or 53 weeks long |
| Dates.IsoCalendarSpec | app/services/summaries.py:10 | `isocalendar()` names the ISO 8601 week and weekday of the date |
| Dates.IsoKeyUnique | app/services/summaries.py:11 | an ISO (year, week) pair names one Monday |
| Dates.IsoWeekKeyIffSameMonday | app/services/summaries.py:10-11 | two dates share an ISO (year, week) key exactly when they share a Monday |
| Dates.ParseDateWith | app/services/trade_summaries.py:38 | a parsed date always exists in the calendar |
| Dates.ParseDateFirst | app/services/import_charles_schwab.py:94-103 | the first format that parses gives the date; none parsing means no format parses |
| Dates.ParseTimeWith | app/services/trade_summaries.py:78 | a parsed time has hour 0..23, minute 0..59 and second 0..59 |
| Dates.ParseFormatDate | app/services/trade_summaries.py:38-41 | a date printed as "%Y-%m-%d" parses back as itself |
| Dates.FormatDateStripped | app/services/trade_summaries.py:35-41 | a printed date has no surrounding whitespace |
| Dates.FormatDateInjective | app/services/trade_summaries.py:41 | distinct dates print differently |
| Dates.FormatDateOrder | app/services/trade_summaries.py:30-41 | printed dates compare as text exactly as the dates compare |
| Text.Upper | app/services/import_trades_csv.py:128 | upper-casing keeps the length and maps each character |
| Text.Lower | app/core/utils.py:12 | lower-casing keeps the length and maps each character |
| Text.Title | app/services/accounts.py:82 | title-casing keeps the length and every letter up to case; a letter right after a letter is not upper-case, any other letter is not lower-case |
| Text.TitleIdempotent | app/services/accounts.py:82 | title-casing twice is title-casing once |
| Text.StripShape | app/core/utils.py:12 | stripping gives a slice with no whitespace at either end |
| Text.StripIdempotent | app/core/utils.py:12 | stripping twice is stripping once |
| Text.StripUpper | app/services/import_trades_csv.py:128 | stripping and upper-casing commute |
| Text.LowerUpper | app/services/identity.py:258 | lower-casing an upper-cased string is lower-casing it |
| Text.StripCharShape | app/services/accounts.py:30 | stripping a character gives a slice that neither starts nor ends with it |
| Text.SubRunsSeparated | app/services/accounts.py:29 | replacing each run of unwanted characters by one separator never leaves two separators together |
| Text.RemoveWhere | app/services/import_trades_csv.py:114 | removal keeps no character it removes and never lengthens the text |
| Text.SplitOn | app/services/summaries.py:9 | splitting gives at least one field and no field holds the separator |
| Text.JoinSplitOn | app/services/summaries.py:9 | joining the fields of a split with the separator gives the text back |
| Text.SplitOnJoin | app/services/summaries.py:9 | splitting joined fields that hold no separator gives the fields back |
| Text.NatToString | app/core/lifecycle.py:67 | a printed natural number is a non-empty string of digits |
| Text.DigitsValueOfNatToString | app/core/lifecycle.py:67 | a printed natural number is worth the number |
| Text.NatToStringInjective | app/core/lifecycle.py:67 | distinct numbers print differently |
| Text.ParseInt | app/services/summaries.py:9 | `int()` reads nothing from blank text |
| Text.ParseIntOfNat | app/core/authentication.py:45 | `int()` of a printed natural number is that number |
| Text.DigitsLexLess | app/services/trade_summaries.py:30-41 | digit strings of one length compare as text exactly as their values compare |
| Text.Hex2 | app/core/lifecycle.py:84 | two hex digits print a channel below 256 and read back as it |
| Store.NextTradeId | app/api/routes_import.py:30-60 | the next autoincrement id is positive and above every id in use |
| Sums.SumSetPick | app/services/summaries.py:8-14 | any member of a set can be summed first |
| Sums.SumSetCongruent | app/services/summaries.py:8-14 | a sum over a set depends only on the weights of its members |
| ImportText.Underscored | app/services/import_trades_csv.py:87-88 | replacing runs of other characters by "_" and stripping "_" gives a header key: lower-case letters, digits and single inner "_" |
| ImportText.UnderscoredNoop | app/services/import_trades_csv.py:87-88 | a header key passes through unchanged |
| ImportText.NormalizeHeader | app/services/import_trades_csv.py:84-88 | a normalised header is a header key |
| ImportText.NormalizeHeaderPlain | app/services/import_bagholder.py:46-49 | the BagHolder importer's normalised header is a header key |
| ImportText.HeaderWords | app/services/import_bagholder.py:46-49 | two words separated by a space normalise to their lower-case forms joined by "_" |
| ImportText.NormalizeHeaderIdempotent | app/services/import_trades_csv.py:84-88 | normalising a normalised header changes nothing |
| ImportText.NormalizeHeaderPlainIdempotent | app/services/import_bagholder.py:46-49 | normalising a normalised header changes nothing |
| ImportText.NormalizeHeaderWithoutHash | app/services/import_trades_csv.py:86 | the two normalisers differ only on labels holding "#" |
| ImportText.SanitizeSymbol | app/services/import_trades_csv.py:142-147 | a sanitised symbol holds only A-Z, 0-9 and "." |
| ImportText.SanitizeSymbolIdempotent | app/services/import_trades_csv.py:142-147 | sanitising a sanitised symbol changes nothing |
| ImportText.SanitizeSymbolIgnoresCase | app/services/import_trades_csv.py:145 | case does not matter to the sanitised symbol |
| ImportText.ParseImportDate | app/services/import_trades_csv.py:96-105 | an accepted date is printed as "%Y-%m-%d"; missing or empty text is missing |
| ImportText.ParseImportDateAccepts | app/services/import_trades_csv.py:48-105 | text is accepted exactly when one of the three layouts reads the stripped text |
| ImportText.ParseImportDateIso | app/services/import_trades_csv.py:48-105 | "%Y-%m-%d" is tried first, so such a date is printed as it reads |
| ImportText.NoSeparatorNoDate | app/services/import_trades_csv.py:96-105 | text holding neither "-" nor "/" is never a date |
| ImportText.ParseImportDateIdempotent | app/services/import_trades_csv.py:96-105 | an emitted date reads back unchanged |
| ImportText.RowValues | app/services/import_trades_csv.py:174-177 | the row's dictionary has exactly the headers as keys |
| ImportText.RowValuesLastWins | app/services/import_trades_csv.py:174-177 | a header holds the stripped cell under its last occurrence, and "" when the row is too short to reach it |
| ImportText.ConcatMember | app/services/import_trades_csv.py:170-221 | every emitted row comes from some input row |
| ImportText.ConcatOrigin | app/services/import_trades_csv.py:170-221 | when each input row emits at most one output, every output has a strictly increasing origin, comes from that row, and every emitting row is covered |
| LongOnlyPnl.Find | app/services/import_thinkorswim.py:793 | the index found holds the symbol's entry, and no index is found exactly when no entry has that symbol |
| LongOnlyPnl.FindKeyed | app/services/import_thinkorswim.py:782-793 | in a positions dictionary with one entry per symbol, the entry found for a symbol is the one that has it |
| LongOnlyPnl.PutPlaces | app/services/import_thinkorswim.py:793 | `setdefault` and the updates keep every existing symbol in its place, append a new symbol at the end and leave every other symbol's position alone |
| LongOnlyPnl.PutKeyed | app/services/import_thinkorswim.py:793 | after setting a position no symbol has two entries |
| LongOnlyPnl.PutReads | app/services/import_thinkorswim.py:793 | reading back a symbol gives the position just set for it and the old position for any other symbol |
| LongOnlyPnl.BoughtKeepsCost | app/services/import_thinkorswim.py:795-799 | a buy adds the quantity to the shares, and shares times average cost grows by exactly price times quantity |
| LongOnlyPnl.BoughtAveragesBetween | app/services/import_thinkorswim.py:795-799 | buying a positive quantity into a flat or long position gives an average cost between the old average and the price |
| LongOnlyPnl.SoldClosesAtMostHeld | app/services/import_thinkorswim.py:800-808 | a sale from a long position leaves the shares less the quantity, floored at zero, keeps the average cost and realises price minus average on exactly the shares that left |
| LongOnlyPnl.SoldWhenFlat | app/services/import_thinkorswim.py:801-802 | a sale against a flat or short position changes nothing and realises nothing |
| LongOnlyPnl.RoundTrip | app/services/import_thinkorswim.py:795-808 | buying from flat and then selling every share realises the price difference times the shares and leaves the position flat |
| LongOnlyPnl.OtherSideIgnored | app/services/import_thinkorswim.py:795-800 | a side that is neither BUY nor SELL leaves the position and the realised total as they were |
| LongOnlyPnl.ApplyLongOnly | app/services/import_thinkorswim.py:795-808 | with a non-negative quantity a position never goes short |
| LongOnlyPnl.TradeStepKeeps | app/services/import_thinkorswim.py:788-808 | one trade keeps the positions keyed by symbol and long-only |
| LongOnlyPnl.RunTradesKeeps | app/services/import_thinkorswim.py:788-808 | with non-negative quantities a day's run of trades keeps the positions keyed and long-only |
| LongOnlyPnl.NoSaleNoRealised | app/services/import_thinkorswim.py:786-808 | a day without a SELL realises nothing |
| LongOnlyPnl.RunTradesEntries | app/services/import_thinkorswim.py:793 | after a day's trades every traded symbol has a position, and the positions held before keep their places |
| LongOnlyPnl.ProcessTrades | app/services/import_thinkorswim.py:786-808 | the loop over a day's trades ends with the positions and realised total of the specification run |
| LongOnlyPnl.LastPriceSpec | app/services/import_thinkorswim.py:813-817 | the day's last price of a symbol is absent exactly when it did not trade, and otherwise is the price of a trade after which the symbol does not trade again |
| LongOnlyPnl.UntradedMarksNothing | app/services/import_thinkorswim.py:813-818 | a position whose symbol did not trade that day is marked at its own average cost and adds nothing |
| LongOnlyPnl.QuietDayMarksNothing | app/services/import_thinkorswim.py:810-818 | a day on which no held symbol trades has no unrealised profit |
| LongOnlyPnl.MarkToMarket | app/services/import_thinkorswim.py:810-818 | the loop over the positions sums the marks of the specification |
| LongOnlyPnl.InsertDateSpec | app/services/import_thinkorswim.py:785 | inserting a date into an ascending list of dates keeps it ascending and adds exactly that date |
| LongOnlyPnl.TradingDaysSpec | app/services/import_thinkorswim.py:785 | the groups are visited in strictly ascending date order, and the dates visited are exactly the trades' dates |
| LongOnlyPnl.DayTradesSpec | app/services/import_thinkorswim.py:785 | a day's group holds exactly the trades of that date |
| LongOnlyPnl.RunDaysRows | app/services/import_thinkorswim.py:785-828 | each day gets one row, in order, and its total is its realised plus unrealised profit |
| LongOnlyPnl.RunDaysLongOnly | app/services/import_thinkorswim.py:782-828 | with non-negative quantities the positions carried from day to day stay keyed and long-only |
| LongOnlyPnl.WithCumulativeCopies | app/services/import_thinkorswim.py:830-831 | adding the cumulative column keeps the row count and copies the date, realised, unrealised and total columns |
| LongOnlyPnl.WithCumulativeRunning | app/services/import_thinkorswim.py:831 | each cumulative value is the sum of the totals up to and including its row |
| LongOnlyPnl.DailyPnlAscending | app/services/import_thinkorswim.py:785 | the table's dates are strictly ascending, so no date has two rows |
| LongOnlyPnl.DailyPnlCoversDates | app/services/import_thinkorswim.py:785 | every row's date is some trade's date, and every trade's date has a row |
| LongOnlyPnl.DailyPnlEmpty | app/services/import_thinkorswim.py:752-773 | the table is empty exactly when there are no trades |
| LongOnlyPnl.DailyPnlDates | app/services/import_thinkorswim.py:785-828 | row `i` belongs to the `i`-th trading day |
| LongOnlyPnl.DailyPnlTotals | app/services/import_thinkorswim.py:820-831 | each row's total is realised plus unrealised, and the cumulative column is the running sum of the totals |
| LongOnlyPnl.ComputeDailyPnl | testings/tos_as_csv_extract.py:134-180 | the script's daily P&L is the specification table |
| LongOnlyPnl.CloseDays | testings/tos_as_csv_extract.py:138-176 | the loop over the day groups produces the specification's rows and final positions |
| LongOnlyPnl.Cumulate | testings/tos_as_csv_extract.py:178-179 | the running-total loop produces the table with its cumulative column |
| ImportThinkorswim.TradeAction | app/services/import_thinkorswim.py:13-30 | the action table maps a label only to BUY or SELL |
| ImportThinkorswim.NormalizeActionLabel | app/services/import_thinkorswim.py:109-116 | a normalised label is upper-case letters, digits and single inner underscores, with no underscore at either end |
| ImportThinkorswim.ActionLabelNoop | app/services/import_thinkorswim.py:109-116 | normalising a label that is already normal leaves it unchanged |
| ImportThinkorswim.NormalizeActionLabelIdempotent | app/services/import_thinkorswim.py:109-116 | normalising twice is the same as normalising once |
| ImportThinkorswim.NormalizeActionLabelIgnoresCase | app/services/import_thinkorswim.py:109-116 | upper-casing the text first does not change the label |
| ImportThinkorswim.ResolveAction | app/services/import_thinkorswim.py:119-130 | a resolved action is BUY or SELL, and text whose label is empty resolves to nothing |
| ImportThinkorswim.ResolveActionTableFirst | app/services/import_thinkorswim.py:122-124 | a label the table knows resolves to the table's action |
| ImportThinkorswim.ResolveActionByWords | app/services/import_thinkorswim.py:125-130 | a label the table does not know resolves to BUY exactly when it contains BUY, and to SELL exactly when it does not contain BUY but contains SELL or SLD |
| ImportThinkorswim.ResolveActionIgnoresCase | app/services/import_thinkorswim.py:119-130 | the action does not depend on the text's letter case |
| ImportThinkorswim.SidesAreLabels | app/services/import_thinkorswim.py:109-130 | BUY and SELL are already normal labels |
| ImportThinkorswim.ResolveActionIdempotent | app/services/import_thinkorswim.py:119-130 | resolving a resolved action gives the same action |
| ImportThinkorswim.ColumnAlias | app/services/import_thinkorswim.py:33-77 | every alias names one of the eight canonical columns |
| ImportThinkorswim.CanonicalColumnsFixed | app/services/import_thinkorswim.py:33-77 | a canonical column name maps to itself |
| ImportThinkorswim.HeaderMapping | app/services/import_thinkorswim.py:311-317 | a header cell's normalised key is lower-case letters, digits and inner underscores |
| ImportThinkorswim.HeaderMappings | app/services/import_thinkorswim.py:311-317 | there is one mapping per header cell, in order |
| ImportThinkorswim.HeaderMappingStable | app/services/import_thinkorswim.py:311-317 | a canonical column maps to itself under the alias table |
| ImportThinkorswim.MapRowValues | app/services/import_thinkorswim.py:320-333 | a key has a value exactly when some mapped non-blank cell offers it, and its value is the stripped text of the first cell that offers it |
| ImportThinkorswim.DeduplicatedKeys | app/services/import_thinkorswim.py:628-648 | deduplication keeps every key that occurs |
| ImportThinkorswim.DeduplicatedOrigin | app/services/import_thinkorswim.py:628-648 | each kept trade is the first trade with its key, kept in input order |
| ImportThinkorswim.DeduplicatedDistinct | app/services/import_thinkorswim.py:628-648 | no two kept trades share a key |
| ImportThinkorswim.DeduplicatedEmpty | app/services/import_thinkorswim.py:629-630 | the result is empty exactly when the input is |
| ImportThinkorswim.DeduplicateTrades | app/services/import_thinkorswim.py:628-648 | the loop with its seen-set computes the deduplicated list |
| ImportThinkorswim.FirstMatch | app/services/import_thinkorswim.py:653-658 | the index found is the first line from the start that satisfies the test, and none is found exactly when no line does |
| ImportThinkorswim.SectionSpec | app/services/import_thinkorswim.py:664-667 | the section is the stripped lines from the start up to the first stopping line, and it stops only at one |
| ImportThinkorswim.FindFirst | app/services/import_thinkorswim.py:653-658 | the search loop finds the first matching line |
| ImportThinkorswim.CollectSection | app/services/import_thinkorswim.py:663-667 | the collecting loop produces the section |
| ImportThinkorswim.ExtractTradeSection | app/services/import_thinkorswim.py:651-667 | the method computes the trade-history section |
| ImportThinkorswim.NoMarkerNoSection | app/services/import_thinkorswim.py:659-660 | without an "Account Trade History" line there is no section |
| ImportThinkorswim.SectionAfterMarker | app/services/import_thinkorswim.py:655-667 | the section starts two lines after the first marker line |
| ImportThinkorswim.SectionTrade | app/services/import_thinkorswim.py:674-691 | a row becomes a trade only with at least twelve cells, a non-empty upper-cased symbol and a side of BUY or SELL, with a magnitude for the quantity; a sale's amount is the notional and a buy's its negative |
| ImportThinkorswim.SectionTradeDate | app/services/import_thinkorswim.py:678 | a parsed trade's date is an ISO date |
| ImportThinkorswim.SignedSides | app/services/import_thinkorswim.py:720-721 | the signed amount is the notional for a sale and its negative for a buy |
| ImportThinkorswim.SectionParts | app/services/import_thinkorswim.py:672-691 | each row contributes its trade or nothing |
| ImportThinkorswim.StatementTradesOrigin | app/services/import_thinkorswim.py:702-731 | the statement's trades are exactly the rows that parse, in row order |
| ImportThinkorswim.ChosenSource | app/services/import_thinkorswim.py:734-748 | the trades come from one of the four parsers |
| ImportThinkorswim.ParseThinkorswimSpec | app/services/import_thinkorswim.py:734-748 | the result is empty exactly when every parser finds nothing, has the keys of the chosen parser's trades, and no two of its trades share a key |
| ImportThinkorswim.SectionFirst | app/services/import_thinkorswim.py:735-738 | once the trade-history section yields trades, the other parsers do not matter |
| ImportThinkorswim.ComputeDailyPnlRecords | app/services/import_thinkorswim.py:751-832 | the table is the long-only daily P&L of the upper-cased records, and is empty exactly when there are no records |
| ImportThinkorswim.PnlRecordsIgnoreCase | app/services/import_thinkorswim.py:779-789 | the table does not depend on the letter case of sides or symbols |
| TosExtract.ParseTradeRow | testings/tos_as_csv_extract.py:70-87 | a row is read only when it has at least twelve cells, and its quantity is a magnitude |
| TosExtract.ExtractorKeepsImported | testings/tos_as_csv_extract.py:70-87 | every row the importer's section parser turns into a trade, the script turns into the same day, symbol, quantity and price, with a side that upper-cases to the importer's action |
| TosExtract.ExtractorKeepsMore | testings/tos_as_csv_extract.py:70-87 | a row the script reads but the importer drops has an empty symbol or a side that is neither BUY nor SELL in any case |
| TosExtract.TradeParts | testings/tos_as_csv_extract.py:70-87 | each row contributes its trade, or nothing |
| TosExtract.ParseTrades | testings/tos_as_csv_extract.py:66-89 | the loop computes the trades of the rows that parse |
| TosExtract.TradesOfOrigin | testings/tos_as_csv_extract.py:66-89 | every parsed trade comes from a row that parses, in row order, and every such row is kept |
| TosExtract.ExtractEquitiesSection | testings/tos_as_csv_extract.py:91-107 | the loops compute the equities section |
| TosExtract.NoHeadingNoEquities | testings/tos_as_csv_extract.py:94-101 | without a heading line there is no section |
| TosExtract.EquitiesAfterHeading | testings/tos_as_csv_extract.py:94-107 | the section starts on the line after the first heading and holds the stripped lines up to the first blank or "OVERALL TOTALS" line |
| TosExtract.ParseEquityRow | testings/tos_as_csv_extract.py:113-127 | a row is read only when it has at least five cells, and its unrealised figure is (mark - price) times quantity |
| TosExtract.PlusSignIgnored | testings/tos_as_csv_extract.py:116 | a leading "+" on the quantity makes no difference |
| TosExtract.HoldingGainAgrees | testings/tos_as_csv_extract.py:124-169 | a long holding's unrealised figure is what the daily engine marks for the same position at the statement's mark |
| TosExtract.EquityParts | testings/tos_as_csv_extract.py:113-127 | each row contributes its holding, or nothing |
| TosExtract.ParseEquities | testings/tos_as_csv_extract.py:109-128 | the loop computes the holdings of the rows that parse |
| TosExtract.HoldingsOfOrigin | testings/tos_as_csv_extract.py:109-128 | every holding comes from a row that parses, in row order, and every such row is kept |
| TosExtract.TruncSpec | testings/tos_as_csv_extract.py:142 | `int()` moves a quantity toward zero by less than one |
| TosExtract.TruncWhole | testings/tos_as_csv_extract.py:142 | whole quantities are kept |
| TosExtract.ComputeDailyPnl | testings/tos_as_csv_extract.py:134-180 | the script's daily figures are the long-only engine's over the whole-share fills |
| TosExtract.ExtractorStaysLong | testings/tos_as_csv_extract.py:76-158 | with magnitudes for quantities the engine's book never goes short |
| TosExtract.LowerCaseSideIgnored | testings/tos_as_csv_extract.py:145-158 | a side not written in capitals leaves the position unchanged and realises nothing |
| ImportTradesCsv.HeaderAlias | app/services/import_trades_csv.py:19-46 | every header alias names one of the trade columns |
| ImportTradesCsv.TradeColumnsCanonical | app/services/import_trades_csv.py:84-93 | a trade column name is already a normal header and maps to itself |
| ImportTradesCsv.TradeColumnsAliased | app/services/import_trades_csv.py:19-46 | every trade column except `date` is listed as an alias of itself |
| ImportTradesCsv.CanonicalHeader | app/services/import_trades_csv.py:91-93 | a canonical header is a normal header key, and is either a trade column or the header's own normal form |
| ImportTradesCsv.CanonicalHeaderIdempotent | app/services/import_trades_csv.py:91-93 | canonicalising a canonical header changes nothing |
| ImportTradesCsv.CanonicalHeaders | app/services/import_trades_csv.py:166-168 | there is one canonical header per header |
| ImportTradesCsv.CanonicalizeHeaders | app/services/import_trades_csv.py:166-168 | the loop builds the canonical headers |
| ImportTradesCsv.ActionAlias | app/services/import_trades_csv.py:54-70 | the action table maps a label only to BUY or SELL |
| ImportTradesCsv.ActionLabel | app/services/import_trades_csv.py:128-130 | a cleaned action label is upper-case letters, digits and single inner underscores, with none at either end |
| ImportTradesCsv.ParseAction | app/services/import_trades_csv.py:125-139 | a parsed action is BUY or SELL |
| ImportTradesCsv.ActionLabelNoop | app/services/import_trades_csv.py:128-130 | cleaning a label that is already clean leaves it unchanged |
| ImportTradesCsv.ActionAliasesRecognised | app/services/import_trades_csv.py:133-134 | every label in the table parses to the table's action |
| ImportTradesCsv.ParseActionIgnoresCase | app/services/import_trades_csv.py:125-139 | the action does not depend on the text's letter case |
| ImportTradesCsv.ActionLabelIgnoresCase | app/services/import_trades_csv.py:128-130 | the cleaned label does not depend on the text's letter case |
| ImportTradesCsv.ParseActionFallback | app/services/import_trades_csv.py:135-139 | a label the table does not know parses to BUY exactly when it contains BUY, and to SELL exactly when it does not contain BUY but contains SELL or SLD |
| ImportTradesCsv.ParseRow | app/services/import_trades_csv.py:179-193 | a parsed date is an ISO date, the symbol holds only upper-case letters, digits and dots, and an action is BUY or SELL |
| ImportTradesCsv.AssembleSkipped | app/services/import_trades_csv.py:180-208 | a row is skipped exactly when it lacks a date, symbol or action, its quantity is missing or zero, or it has neither a price nor an amount |
| ImportTradesCsv.AssembleWellFormed | app/services/import_trades_csv.py:198-219 | an accepted row is a well-formed trade |
| ImportTradesCsv.AssembleDerived | app/services/import_trades_csv.py:198-205 | the quantity is the magnitude, a given price or amount is kept, a missing price is the amount's magnitude per share, and a missing amount is quantity times price, negative for a buy |
| ImportTradesCsv.AcceptRow | app/services/import_trades_csv.py:179-219 | the per-row code computes the row's trade or skips it |
| ImportTradesCsv.ParsedRows | app/services/import_trades_csv.py:171-193 | one parse per data row, each with clean fields |
| ImportTradesCsv.CollectOrigin | app/services/import_trades_csv.py:170-221 | the output trades are exactly the accepted rows, in row order |
| ImportTradesCsv.CollectIsConcat | app/services/import_trades_csv.py:170-221 | collecting is the concatenation of each row's contribution |
| ImportTradesCsv.CollectWellFormed | app/services/import_trades_csv.py:170-221 | every collected trade is well formed |
| ImportTradesCsv.TradeCsvRowsWellFormed | app/services/import_trades_csv.py:150-221 | every trade the parser returns is well formed |
| ImportTradesCsv.ParseTradeCsv | app/services/import_trades_csv.py:150-221 | the parsing loop returns the specification's trades |
| ImportCharlesSchwab.SchwabHeaders | app/services/import_charles_schwab.py:188-190 | there is one canonical header per header |
| ImportCharlesSchwab.UnreachableAliases | app/services/import_charles_schwab.py:29-41 | the alias keys `symbol___description`, `fees___comm` and `fees_&_comm` are never a normalised header, so those entries never apply |
| ImportCharlesSchwab.NormalizeActionKey | app/services/import_charles_schwab.py:123-130 | a key is upper-case words of letters and digits separated by single spaces, and a missing or blank value has no key |
| ImportCharlesSchwab.NormalizeActionKeyNoop | app/services/import_charles_schwab.py:123-130 | normalising a key that is already normal leaves it unchanged |
| ImportCharlesSchwab.NormalizeActionKeyIgnoresCase | app/services/import_charles_schwab.py:123-130 | the key does not depend on the text's letter case |
| ImportCharlesSchwab.TradeAction | app/services/import_charles_schwab.py:52-56 | the trade table maps a key only to BUY or SELL |
| ImportCharlesSchwab.FormatWord | app/services/import_charles_schwab.py:136-140 | a word of at most three characters is upper-cased; a longer word has its first character upper-cased and the rest lower-cased |
| ImportCharlesSchwab.FormatWords | app/services/import_charles_schwab.py:136-140 | each word is formatted in place |
| ImportCharlesSchwab.FormatActionLabelWords | app/services/import_charles_schwab.py:133-141 | the label's words are the key's non-empty words, each formatted |
| ImportCharlesSchwab.FormatActionLabelUpper | app/services/import_charles_schwab.py:133-141 | upper-casing a formatted label gives back the key |
| ImportCharlesSchwab.CashDividendLabel | app/services/import_charles_schwab.py:133-141 | the key CASH DIVIDEND is labelled "Cash Dividend" |
| ImportCharlesSchwab.TwoWordLabel | app/services/import_charles_schwab.py:133-141 | a two-word key is labelled with its two formatted words joined by a space |
| ImportCharlesSchwab.NormalizeDescription | app/services/import_charles_schwab.py:151-155 | a description is words separated by single spaces |
| ImportCharlesSchwab.NormalizeDescriptionNoop | app/services/import_charles_schwab.py:151-155 | normalising a description that is already normal leaves it unchanged |
| ImportCharlesSchwab.SplitSymbolDescription | app/services/import_charles_schwab.py:158-169 | the symbol split off holds only upper-case letters, digits and dots |
| ImportCharlesSchwab.SplitSymbolDescriptionWords | app/services/import_charles_schwab.py:158-169 | for normal text the symbol is the sanitised first word and the description is the remaining words joined by spaces |
| ImportCharlesSchwab.SymbolAndDescription | app/services/import_charles_schwab.py:216-227 | a symbol cell that sanitises to something wins, and otherwise the combined cell supplies the symbol; a description cell that is not blank wins, and otherwise the combined cell supplies the description |
| ImportCharlesSchwab.ParseSchwabRow | app/services/import_charles_schwab.py:206-232 | a parsed date is an ISO date and a parsed action key is normal |
| ImportCharlesSchwab.ClassifySkipped | app/services/import_charles_schwab.py:206-212 | a row without a date or action key, or with the ignored MONEYLINK TRANSFER key, is skipped |
| ImportCharlesSchwab.ClassifyTradeSkipped | app/services/import_charles_schwab.py:234-246 | a trade row is skipped exactly when its quantity is zero, or its price is zero and its amount is missing or zero |
| ImportCharlesSchwab.ClassifyTrade | app/services/import_charles_schwab.py:234-258 | a trade keeps the row's date and symbol, maps REINVEST SHARES to BUY, has a positive quantity magnitude, a fee magnitude, a non-zero price, the given price or amount where present, a price derived from the amount when the price is zero, and an amount derived from the price, negative for a buy, when the amount is missing |
| ImportCharlesSchwab.ClassifyDividend | app/services/import_charles_schwab.py:261-293 | a dividend-table or unknown action becomes a dividend exactly when the row has an amount, with the formatted label and the row's other fields |
| ImportCharlesSchwab.ClassifyRow | app/services/import_charles_schwab.py:205-293 | the per-row code computes the row's classification |
| ImportCharlesSchwab.RowDicts | app/services/import_charles_schwab.py:192-200 | blank rows are dropped, so there are at most as many row dictionaries as rows |
| ImportCharlesSchwab.Classified | app/services/import_charles_schwab.py:205-293 | every row dictionary is classified |
| ImportCharlesSchwab.EntriesSplit | app/services/import_charles_schwab.py:202-293 | no row yields both a trade and a dividend |
| ImportCharlesSchwab.TradesWellFormed | app/services/import_charles_schwab.py:234-258 | every trade produced is well formed |
| ImportCharlesSchwab.SchwabCsvWellFormed | app/services/import_charles_schwab.py:172-295 | the trades and dividends together number at most the data rows, and every trade is well formed |
| ImportCharlesSchwab.EntriesStep | app/services/import_charles_schwab.py:205-293 | each row appends its trade to the trades or its dividend to the dividends |
| ImportCharlesSchwab.SampleExport | app/services/import_charles_schwab.py:205-293 | a buy, a sale and a share reinvestment become trades, a cash dividend becomes a dividend and a money transfer is skipped |
| ImportCharlesSchwab.SampleDividend | app/services/import_charles_schwab.py:261-276 | a cash dividend of 43.41 on GDXY is recorded as "Cash Dividend" |
| ImportCharlesSchwab.CanonicalizeSchwabHeaders | app/services/import_charles_schwab.py:188-190 | the loop builds the canonical headers |
| ImportCharlesSchwab.CollectRowDicts | app/services/import_charles_schwab.py:192-200 | the loop builds the row dictionaries |
| ImportCharlesSchwab.ClassifyRows | app/services/import_charles_schwab.py:202-293 | the loop collects the trades and the dividends of the classified rows, in row order |
| ImportCharlesSchwab.ParseSchwabCsv | app/services/import_charles_schwab.py:172-295 | the parser returns the specification's trades and dividends |
| ImportBagholder.BagholderAlias | app/services/import_bagholder.py:17-26 | an alias always lands on "realized", "unrealized" or "total_invested" |
| ImportBagholder.BagholderHeaders | app/services/import_bagholder.py:101-103 | one canonical header per header |
| ImportBagholder.BagholderHeaderIdempotent | app/services/import_bagholder.py:46-54 | a canonical header is a header key, and canonicalising it again changes nothing |
| ImportBagholder.CanonicalKeys | app/services/import_bagholder.py:17-54 | the three target names are header keys that no alias rewrites |
| ImportBagholder.SampleAliases | app/services/import_bagholder.py:17-26 | the aliased sample headers land on "date", "realized", "unrealized", "total_invested" and "updated_at" |
| ImportBagholder.OneWordHeader | app/services/import_bagholder.py:46-54 | a one-word header lands on the alias of its lower-case form, or on that form |
| ImportBagholder.TwoWordHeader | app/services/import_bagholder.py:46-54 | a two-word header lands on the alias of its lower-case words joined by "_", or on that key |
| ImportBagholder.BagholderRowOf | app/services/import_bagholder.py:114-138 | a row is read exactly when its date cell parses, and then carries an ISO date |
| ImportBagholder.BagholderRowDefaults | app/services/import_bagholder.py:118-129 | each figure is the cell's number when it has one; realised and unrealised default to 0 and invested to the unrealised figure; the timestamp is the stripped cell or "" |
| ImportBagholder.SkipsInvalidDates | app/services/import_bagholder.py:114-116 | a row whose date is empty or "invalid" gives nothing, whatever its figures |
| ImportBagholder.UpsertKeepsRow | app/services/import_bagholder.py:130-138 | a returned row handed to the daily-summary upsert keeps its three figures, and its timestamp unless that is empty |
| ImportBagholder.Kept | app/services/import_bagholder.py:106-138 | one raw row contributes at most one row |
| ImportBagholder.Contributions | app/services/import_bagholder.py:106-138 | each raw row's contribution, in table order |
| ImportBagholder.BagholderCsv | app/services/import_bagholder.py:92-99 | no header row, or an empty one, gives no rows |
| ImportBagholder.BagholderRowsOrigin | app/services/import_bagholder.py:106-140 | every returned row is the reading of one raw row, in increasing order, and every raw row that is neither blank nor dateless is among them |
| ImportBagholder.BagholderRowsWellFormed | app/services/import_bagholder.py:114-137 | every returned row has an ISO date and a stripped timestamp |
| ImportBagholder.ParseBagholderCsv | app/services/import_bagholder.py:86-140 | the header pass and the row loop compute the rows of the table |
| SimulationRunner.UsDate | app/services/simulation_runner.py:55 | a converted date is an ISO date |
| SimulationRunner.RecordDate | app/services/simulation_runner.py:53-57 | an accepted raw date converts to an ISO date |
| SimulationRunner.RecordFields | app/services/simulation_runner.py:59-80 | an accepted record gives a well-formed row with the converted date |
| SimulationRunner.PrepareRecordPrepared | app/services/simulation_runner.py:53-80 | a prepared row has an ISO date, a non-blank upper-case symbol, BUY or SELL, and positive quantity and price |
| SimulationRunner.PrepareRecordAccepts | app/services/simulation_runner.py:53-69 | a record is accepted exactly when the `str()` text of its date reads as MM/DD/YYYY, its numbers parse, the `str()` text of its symbol is not blank, that of its action is BUY or SELL, and quantity and price are positive; a numeric symbol is read through its printed text |
| SimulationRunner.PrepareRecordFields | app/services/simulation_runner.py:53-80 | an accepted record's row holds the ISO date, the stripped upper-case words and the three numbers |
| SimulationRunner.PrepareRecordDateFirst | app/services/simulation_runner.py:53-57 | a date cell whose `str()` text does not read as MM/DD/YYYY is reported with that stripped text before anything else, a numeric cell included |
| SimulationRunner.SameReadingSamePrepared | app/services/simulation_runner.py:53-69 | the outcome depends on a record only through the `str()` text of its date, symbol and action and the `float()` of its three numbers |
| SimulationRunner.NumberReadAsText | app/services/simulation_runner.py:53-59 | a number in the date, symbol or action column fares exactly as the text `str()` prints for it |
| SimulationRunner.IsoDateRefused | app/services/simulation_runner.py:55-57 | a date without "/", such as an ISO date, is refused |
| SimulationRunner.PrepareAllMeaning | app/services/simulation_runner.py:50-81 | success exactly when every record is accepted, with one row per record in order; a failure is the first failing record's error |
| SimulationRunner.PrepareAllPrepared | app/services/simulation_runner.py:50-81 | every row of a successful preparation is well formed |
| SimulationRunner.PrepareTradeRecords | app/services/simulation_runner.py:50-81 | the loop computes the preparation of all records, stopping at the first error |
| SimulationRunner.TradeDaysBounds | app/services/simulation_runner.py:135 | there is at least one trade day when there are trades, and never more days than trades |
| SimulationRunner.SameDayTrades | app/services/simulation_runner.py:135 | trades all on one day count as one day |
| SimulationRunner.ImportSimulatedTrades | app/services/simulation_runner.py:84-151 | generate-only defaults the status and imports nothing; an empty table is an error; a bad record's error is passed on; otherwise the prepared rows are imported and the metadata records the status, the number of trades and the number of days |
| RoutesImport.IsCloseFacts | app/api/routes_import.py:19-20 | two values are close exactly when they differ by at most the tolerance; closeness is symmetric and reflexive for a non-negative tolerance |
| RoutesImport.Persisted | app/api/routes_import.py:28-48 | the committed table is the stored trades followed by the added rows, in order, each under a fresh id |
| RoutesImport.PersistCommits | app/api/routes_import.py:30-47 | the session does not autoflush, so a row listed twice that is not stored yet is added twice; the commit goes through exactly when every row listed twice is already stored |
| RoutesImport.TwinNewRowsFail | app/api/routes_import.py:30-47 | two identical rows that are not stored yet make the commit fail on `uix_trade_dedup` |
| RoutesImport.PersistTradeRows | app/api/routes_import.py:28-48 | when the added rows hold no repeat, the trades table becomes the committed table and the count returned is the number of rows added; otherwise the commit raises `IntegrityError` and the table is unchanged; the daily summaries and metadata are unchanged either way |
| RoutesImport.PersistedStoresAll | app/api/routes_import.py:30-47 | once the commit goes through, every row is stored on all six columns |
| RoutesImport.PersistedDeduplicated | app/api/routes_import.py:30-47 | on a table without duplicates, the committed table has none exactly when the added rows hold no repeat, which is the condition the commit checks |
| RoutesImport.PersistIdempotent | app/api/routes_import.py:28-48 | importing the same rows a second time adds no row, so its commit goes through and changes nothing |
| RoutesImport.PersistNothingNew | app/api/routes_import.py:43-44 | rows that are all stored already add nothing |
| RoutesImport.FinalizeTradeImport | app/api/routes_import.py:51-134 | the summaries become the reconciled summaries; the conflicts page is shown exactly when some stored day disagrees, with the conflicts and the inserted count; otherwise a 303 redirect to "/"; trades and metadata are unchanged |
| RoutesImport.QueryOrdered | app/api/routes_import.py:52 | the query returns exactly the stored trades, as a multiset |
| RoutesImport.QueryOrderedSorted | app/api/routes_import.py:52 | the query's trades are in ascending (date text, id) order and are a permutation of the table |
| RoutesImport.QueryInsertOrdered | app/api/routes_import.py:52 | inserting a trade into a list in (date, id) order keeps it in that order |
| RoutesImport.TradeRecord | app/api/routes_import.py:54-67 | a trade whose date parses as `%Y-%m-%d` gives a record whose date exists in the calendar |
| RoutesImport.TradeRecordsValid | app/api/routes_import.py:53-67 | every record handed to the engine carries a valid calendar date |
| RoutesImport.TradeRecordsKeep | app/api/routes_import.py:53-67 | no trade whose date parses is skipped: its record is among the records |
| RoutesImport.BuildTradeRecords | app/api/routes_import.py:53-67 | the loop builds exactly the records of the trades whose date parses, in query order |
| RoutesImport.BuildDailyMap | app/api/routes_import.py:70-81 | the loop maps each row of the engine's table to its `%Y-%m-%d` day key with its realised and unrealised profit |
| RoutesImport.EngineRowsValid | app/api/routes_import.py:69-81 | every date in the engine's table is a valid calendar date, so it can be formatted as a day key |
| RoutesImport.AscendingFiguresDistinct | app/api/routes_import.py:70-81 | rows with strictly ascending dates give distinct day keys, so no row of the table is lost to an overwritten dictionary key |
| RoutesImport.StoreDailyFigures | app/api/routes_import.py:51-81 | the daily map derived from the stored trades has no repeated day |
| RoutesImport.StoreDaysCoverTrades | app/api/routes_import.py:51-81 | every stored trade whose date parses has its day in the daily map |
| RoutesImport.FinalizeFromStore | app/api/routes_import.py:51-134 | the summaries become the stored summaries reconciled with the figures the long-only engine computes from all stored trades; every day of the map is written or kept as the reconciliation rule says; the conflicts page lists exactly the disagreeing stored days, with the inserted count; otherwise a 303 redirect to "/"; trades and metadata are unchanged |
| RoutesImport.ImportTradeRows | app/api/routes_import.py:183-219 | with no parsed rows the route redirects with status 303 to the settings page with its own error key and changes nothing; a failed commit raises `IntegrityError` and changes nothing; otherwise the trades become the committed trades and the summaries are reconciled with the figures of the whole new trade table |
| RoutesImport.ReconcileKeepsOthers | app/api/routes_import.py:51-122 | reconciling writes only the days of the daily map, and afterwards each of them has a row |
| RoutesImport.ReconcileDays | app/api/routes_import.py:85-105 | each day is written when new or when both figures are within 0.01 of the stored ones, and kept as stored otherwise |
| RoutesImport.ReconcileConflicts | app/api/routes_import.py:101-120 | the conflicts are the stored days whose figures disagree, in the order of the daily map |
| RoutesImport.SummaryOf | app/api/routes_import.py:155-158 | unrealised defaults to 0, invested defaults to unrealised, and an empty or missing timestamp becomes now |
| RoutesImport.ImportDailySummaries | app/api/routes_import.py:137-180 | no rows redirects to the "no summaries" page and changes nothing; a new date added twice makes the commit fail on the primary key and changes nothing; otherwise the summaries become the upserted summaries and the response redirects to "/" |
| RoutesImport.NewDatesUnknown | app/api/routes_import.py:153-171 | the dates added as new rows are the file's dates without a stored row, each time they occur |
| RoutesImport.SummariesCommit | app/api/routes_import.py:153-178 | the commit goes through exactly when every date listed twice already has a stored row |
| RoutesImport.UpsertedMeaning | app/api/routes_import.py:153-176 | the table a committed import leaves: a day has a row exactly when it was stored or is in the file; a day in the file holds its last row's figures (a new day has only one row then); other stored days are unchanged |
| RoutesImport.ResolveConflicts | app/api/routes_import.py:221-255 | a number that does not parse is an error and nothing changes; otherwise a new date added twice makes the commit fail and nothing changes; otherwise the summaries become the resolved summaries and the response redirects to "/" |
| RoutesImport.NewChosenUnknown | app/api/routes_import.py:230-252 | the dates added as new rows are the submitted dates chosen as "new" without a stored row, each time they occur |
| RoutesImport.ResolveCommits | app/api/routes_import.py:230-254 | the commit goes through exactly when every date submitted twice as "new" already has a stored row |
| RoutesImport.ResolveWritesOnlyChosen | app/api/routes_import.py:230-233 | a day not chosen as "new" is left as it was |
| RoutesImport.ResolveWritesChosen | app/api/routes_import.py:235-252 | a day chosen as "new" holds the submitted figures, with invested following unrealised, and the timestamp now |
| Summaries.AddDay | app/services/summaries.py:12-14 | each of the three totals grows by the day's value of that field |
| Summaries.ParseDayKey | app/services/summaries.py:9-10 | a parsed day key names a real date |
| Summaries.CanonicalKeysParse | app/services/summaries.py:9-10 | a day key printed as "%Y-%m-%d" parses back as its date |
| Summaries.Keyed | app/services/summaries.py:8-11 | each input day is paired with its ISO week key, in order |
| Summaries.WeeksMembers | app/services/summaries.py:8-11 | the buckets are exactly the weeks of the input days |
| Summaries.WeekSumOutside | app/services/summaries.py:7 | a week without input days sums to zero |
| Summaries.GroupByWeek | app/services/summaries.py:5-15 | a key that is not a date raises, exactly, naming the first such key; otherwise there is one bucket per ISO week holding the sum of each field over that week's days |
| Summaries.BucketsConserveTotals | app/services/summaries.py:5-15 | each field summed over all buckets equals that field summed over all days |
| Summaries.SameBucketIffSameWeek | app/services/summaries.py:10-11 | two days share a bucket exactly when they fall in the same Monday-to-Sunday week |
| RoutesCalendar.DefaultView | app/api/routes_calendar.py:16 | a missing view section gives "latest"; a view section that is not a dict raises, exactly |
| RoutesCalendar.Home | app/api/routes_calendar.py:12-23 | a view section that is not a dict raises; the current month is shown when the default view is "latest" or nothing (or empty text) is remembered; otherwise the redirect goes to the remembered "Y-M" month, and a remembered text that does not read as "Y-M" raises |
| RoutesCalendar.MonthTextRoundTrip | app/api/routes_calendar.py:22-31 | a remembered month with non-negative year and month reads back as itself |
| RoutesCalendar.NegativeMonthUnreadable | app/api/routes_calendar.py:22-31 | a remembered negative month does not read back |
| RoutesCalendar.Lead | app/api/routes_calendar.py:42-44 | fewer than seven days of the previous month lead the grid |
| RoutesCalendar.Trail | app/api/routes_calendar.py:42-44 | fewer than seven days of the next month trail it, and they complete the last week |
| RoutesCalendar.MonthDays | app/api/routes_calendar.py:44 | the month's days 1 to k, in order |
| RoutesCalendar.MonthGrid | app/api/routes_calendar.py:44 | the grid is whole weeks |
| RoutesCalendar.InRange | app/api/routes_calendar.py:38-39 | the query keeps exactly the stored days whose key lies between the bounds as text, with their rows |
| RoutesCalendar.Cell | app/api/routes_calendar.py:50-56 | a cell carries its date and is in the month exactly when its month is the shown one |
| RoutesCalendar.Cells | app/api/routes_calendar.py:49-56 | one cell per day of the week, in order |
| RoutesCalendar.BuildWeek | app/api/routes_calendar.py:46-60 | the inner loop computes the week's row: its cells and the sums of both figures over its in-month days with a summary |
| RoutesCalendar.BuildWeeks | app/api/routes_calendar.py:43-60 | the outer loop computes one row per seven days of the grid |
| RoutesCalendar.MonthTotals | app/api/routes_calendar.py:63-64 | the month totals are both figures summed over the queried summaries |
| RoutesCalendar.CalendarView | app/api/routes_calendar.py:26-74 | the month is remembered as "Y-M" whatever follows; the summaries and trades are unchanged; the result is the month's page or the error `month_bounds` raises |
| RoutesCalendar.RenderMonth | app/api/routes_calendar.py:36-74 | everything after remembering the month computes the month's page |
| RoutesCalendar.GridOrdinals | app/api/routes_calendar.py:44 | the grid runs day by day from the Monday on or before the 1st |
| RoutesCalendar.GridWeeksStartMonday | app/api/routes_calendar.py:42-44 | consecutive cells are consecutive days and every row of seven starts on a Monday |
| RoutesCalendar.GridCoversMonth | app/api/routes_calendar.py:44-53 | the in-month cells are exactly the month's days 1 to n, in order |
| RoutesCalendar.MonthKeys | app/api/routes_calendar.py:36-39 | with canonical keys, the query returns exactly the summaries of the month's days |
| RoutesCalendar.WeeksAddUpToMonth | app/api/routes_calendar.py:57-64 | the week totals add up to the month totals, for both figures |
| RoutesCalendar.GridSum | app/api/routes_calendar.py:45-60 | the week rows of the grid add up to the sum over the month's own days |
| RoutesCalendar.RememberedBadMonthBreaksHome | app/api/routes_calendar.py:27-36 | as written, after a visit to month 13 a home page whose default view is not "latest" redirects to that month, whose page always fails |
| RoutesCalendar.CalendarViewChecked | app/api/routes_calendar.py:26-74 | the corrected view returns the month's page and remembers the month only when the page renders |
| RoutesCalendar.CheckedViewKeepsHomeValid | app/api/routes_calendar.py:12-36 | a month the corrected view remembers is one the home page redirects to and whose page renders |
| RoutesCalendar.OverwriteDaily | app/api/routes_calendar.py:76-89 | the day's summary is created or replaced with both figures, the unrealised one as invested, stamped now; nothing else changes |
| RoutesCalendar.OverwriteShows | app/api/routes_calendar.py:38-89 | an overwritten day shows exactly the submitted figures in its month's grid |
| Accounts.Slug | app/services/accounts.py:27-31 | the slug is non-empty, made of lower-case letters, digits and "-", and neither starts nor ends with "-" ("account" when nothing is left) |
| Accounts.SlugOfSlug | app/services/accounts.py:27-31 | a string that already has slug shape is its own slug |
| Accounts.SlugIdempotent | app/services/accounts.py:27-31 | slugging twice is slugging once |
| Accounts.CandidateInjective | app/services/accounts.py:36-41 | the candidates slug, slug-2, slug-3, ... are pairwise distinct |
| Accounts.GenerateUniqueId | app/services/accounts.py:34-42 | the id is neither taken nor "primary"; it is the first free candidate in the order slug, slug-2, slug-3, ...; it is the slug itself when that is free |
| Accounts.EnsuredSection | app/services/accounts.py:45-61 | the repaired section has a non-empty entries dict, the default "primary" entry exactly when entries were empty, an `active` that defaults to "primary", and keeps every other key |
| Accounts.EnsuredRaw | app/services/accounts.py:45-61 | the repaired configuration holds a dict `accounts` section repaired as above and keeps every other top-level key |
| Accounts.EnsuredRawIdempotent | app/services/accounts.py:45-61 | repairing the sections twice is repairing them once |
| Accounts.EnsureAccountSections | app/services/accounts.py:45-61 | the configuration becomes its repaired form and the returned section and entries are its parts, entries non-empty |
| Accounts.PreparedEntryShape | app/services/accounts.py:74-108 | a repaired entry is a dict with a string name and a string storage, and keeps every other field of the entry |
| Accounts.PreparedEntryKeepsGood | app/services/accounts.py:85-108 | an entry that is a dict whose name is stripped and not blank and whose storage is stripped, not blank and relative is left as it is |
| Accounts.PreparedNameDefault | app/services/accounts.py:80-84 | a missing, non-string or blank name becomes "Primary account" for "primary" and the title-cased id, itself a fixed point of title-casing, for any other id |
| Accounts.NonDictEntryRepaired | app/services/accounts.py:74-98 | an entry that is not a dict becomes the default entry: "Primary account" with storage "." for "primary", the title-cased id with storage `accounts/<id>` for any other id |
| Accounts.PreparedEntries | app/services/accounts.py:74-108 | the repair keeps the ids and makes every entry a dict |
| Accounts.PreparedSection | app/services/accounts.py:70-145 | every entry is repaired; an `active` that names an entry stays; any other `active` is replaced by the id of the first entry |
| Accounts.PreparedSectionKeeps | app/services/accounts.py:67-145 | the repair touches only `entries` and `active`; when `first` is an entry id, the repaired `active` names an entry |
| Accounts.PreparedIsEnsured | app/services/accounts.py:184-185 | a configuration `prepare_accounts` has repaired is left as it is by `_ensure_account_sections` |
| Accounts.EnsuredSectionStable | app/services/accounts.py:45-61 | a section holding a non-empty dict of entries and an `active` is left as it is |
| Accounts.RepairEntries | app/services/accounts.py:74-121 | the loop leaves every entry repaired and finds the `active` id exactly when it is a string naming an entry |
| Accounts.RepairSection | app/services/accounts.py:70-145 | the section becomes its repair, and the returned id is the `active` it ends with |
| Accounts.PrepareAccounts | app/services/accounts.py:64-150 | the configuration becomes its repair (sections ensured, every entry repaired, a stale `active` reset to the first entry), and the returned id is the active one |
| Accounts.RenameEntry | app/services/accounts.py:185-195 | an unknown or `None` entry is refused, exactly; then a blank name, exactly; then an entry that is not a dict; otherwise the stripped name is stored in that entry; a refusal leaves the ensured configuration |
| Accounts.RenameAccount | app/services/accounts.py:181-195 | after the repair: an unknown id is refused, exactly, and a `None` or other non-dict entry is renamed like any other; a blank name is refused, exactly; otherwise the stripped name is stored in that entry; a refusal leaves the repaired configuration |
| Accounts.RenameKeepsOthers | app/services/accounts.py:190-195 | renaming keeps the ids, every other entry and every other field of the renamed entry |
| Accounts.Activate | app/services/accounts.py:202-211 | an unknown id is refused, exactly; False exactly when the id is already active, with nothing changed; otherwise the id becomes active and nothing else changes |
| Accounts.SetActiveAccount | app/services/accounts.py:198-211 | after the repair (a stale `active` reset to the first entry): an unknown id is refused, exactly; False exactly when the id is the repaired `active`, with nothing changed; otherwise the id becomes active and nothing else changes |
| Accounts.NewAccountName | app/services/accounts.py:159-161 | the name is never blank and is the stripped requested name when that is not blank ("Account N" otherwise) |
| Accounts.AddedRaw | app/services/accounts.py:166-170 | the entries gain the new entry, `active` is the new id, other top-level keys stay |
| Accounts.AddAccount | app/services/accounts.py:157-171 | the new id is fresh and not "primary", the name follows the default rule, storage is "accounts/<id>", and the entry is added to the ensured configuration and made active |
| Accounts.CreateAccount | app/services/accounts.py:153-171 | after the repair: the new id is fresh and not "primary", the name follows the default rule, storage is "accounts/<id>", and the entry is added and made active |
| Accounts.SerializeAccounts | app/services/accounts.py:214-223 | one view per account in order, carrying its id, name and storage, active exactly when its id is the active id |
| Accounts.SerializeOneActive | app/services/accounts.py:214-223 | with distinct ids at most one view is active, and one is exactly when the active account is listed |
| Authentication.CoerceUserId | app/core/authentication.py:39-47 | an int id is taken as it is; `None`, lists and dicts give no id; a string gives what `int()` reads from it |
| Authentication.SessionUser | app/core/authentication.py:49-50 | a resolved user is a stored user whose id the session's `user_id` coerces to |
| Authentication.CleanSession | app/core/authentication.py:49-54 | cleaning only removes keys and keeps every value; it removes `user_id` exactly when that names no stored user and is not `None` |
| Authentication.CleanSessionLeavesNoStaleId | app/core/authentication.py:49-54 | after cleaning, a usable `user_id` always names an existing user |
| Authentication.CleanSessionIdempotent | app/core/authentication.py:32-61 | cleaning twice is cleaning once and resolves the same user |
| Authentication.RequestSession.constructor | app/core/authentication.py:24-29 | a session starts with the given entries |
| Authentication.GetAuthContext | app/core/authentication.py:32-61 | the context's user is the session's user, setup is needed exactly when no user exists, and the session is cleaned of a stale id |
| Authentication.RedirectStatus | app/core/authentication.py:90-100 | 302 exactly for a GET, 303 otherwise |
| Authentication.RequireUser | app/core/authentication.py:64-106 | success exactly when the context has a user, returning it; a redirect goes to "/setup" or "/login" with the GET-dependent status and never to the requested path; a 401 carries "Authentication required." |
| Authentication.SetupComesFirst | app/core/authentication.py:89-91 | an anonymous request is redirected to "/setup" exactly when setup is pending and the path is not "/setup" |
| Authentication.ApiRequestsGetUnauthorized | app/core/authentication.py:93-106 | after setup an anonymous request gets 401 exactly when it is API-like or on a login page |
| Authentication.LoginPagesDoNotLoop | app/core/authentication.py:99-101 | a login page is never redirected to "/login" |
| Authentication.ApiPathIsApiLike | app/core/authentication.py:109-114 | a path under "/api" is API-like |
| Authentication.BrowserGetRedirectsToLogin | app/core/authentication.py:99-101 | a browser GET of an ordinary page, signed out after setup, is redirected to "/login" with 302 |
| Authentication.BrowserGetNotApiLike | app/core/authentication.py:109-121 | a GET asking for "text/html" outside "/api" is not API-like |
| Config.Merge | app/core/config.py:91-102 | the merged keys are the default keys plus the user's; a user value stays unless a dict default sits under its key; a missing plain default is filled in; a dict default is merged recursively with the user's dict, or with `{}` |
| Config.MergeCovers | app/core/config.py:91-102 | after merging, every default key is present at every nesting level |
| Config.MergeNothing | app/core/config.py:92-99 | merging with anything that is not a dict gives exactly the defaults |
| Config.MergeReplacesNonDict | app/core/config.py:94-99 | a dict default under which the user stored a non-dict comes back as the defaults |
| Config.MergeIdempotent | app/core/config.py:81-105 | merging an already merged mapping again changes nothing |
| Config.MergeInto | app/core/config.py:91-102 | the loop over the default keys, writing one key per visit, computes the merge |
| Config.SameEntries | app/core/config.py:92 | the merge depends on its second argument only through that argument's entries |
| Config.MergeWithDefaults | app/core/config.py:81-105 | the result covers every default key, and a non-dict override gives exactly the defaults |
| Config.AppConfig.constructor | app/core/config.py:77 | a fresh configuration is a copy of the defaults |
| Config.AppConfig.FromLoaded | app/core/config.py:115-120 | a loaded document (`or {}`) is merged with the defaults, so every default key is present |
| Config.AppConfig.UpdateFromDict | app/core/config.py:126-141 | a non-mapping is refused and nothing changes; a mapping replaces `raw` by its merge with the defaults, which covers every default key |
| Config.GetPathFound | app/core/config.py:148-152 | along a path of present keys through nested dicts, `get` returns the stored value whatever the default |
| Config.GetPathMissing | app/core/config.py:148-152 | a missing key yields the default, or `{}` when the default is `None` |
| Config.CoveredPaths | app/core/config.py:81-105 | a mapping that covers the defaults has every default path, with a dict wherever the default has one |
| Config.GetDefaultsNeverRaise | app/core/config.py:148-152 | on a merged configuration, `get` along a path of default keys never raises |
| Utils.Truncate | app/core/utils.py:21 | `int()` of a float drops the fraction toward zero: the result is within one of the value and not larger in magnitude |
| Utils.CoerceBool | app/core/utils.py:6-23 | a bool stays itself; `None` gives the default; an int is true exactly when non-zero; a list or dict gives its truthiness |
| Utils.CoerceBoolText | app/core/utils.py:11-17 | text is true exactly for "true", "1", "yes", "on" (after strip and lower) or for an unknown word when the default is true; the false words give False |
| Utils.CoerceBoolCaseInsensitive | app/core/utils.py:12 | upper-casing the text does not change the answer |
| Utils.CoerceBoolFloat | app/core/utils.py:20-21 | a float is true exactly when its magnitude is at least 1, because `int()` truncates it first |
| Utils.CoerceBoolIdempotent | app/core/utils.py:6-23 | a coerced flag coerces to itself again, as a bool or as the text "true"/"false", whatever the default |
| Utils.Ymd | app/core/utils.py:25-30 | a date or the day of a datetime prints as "%Y-%m-%d"; text stays as it is; `None` prints "None" |
| Utils.YmdParses | app/core/utils.py:25-29 | the printed day of a date or datetime reads back as that day |
| Utils.MonthBoundsOf | app/core/utils.py:32-36 | a month outside 1..12 is an error, exactly; otherwise the day count is the length of that month |
| Utils.MonthBoundsLeapRule | app/core/utils.py:33 | February has 29 days exactly in leap years and 28 otherwise; the other months have 30 or 31 days as the calendar says |
| Utils.MonthBoundsDates | app/core/utils.py:32-36 | for years 1..9999 the bounds print the first and last days of the month, which read back as those days, and the day after the last is not a date |
| Utils.MonthBoundsRange | app/core/utils.py:32-36 | a printed date lies between the bounds as text exactly when it is a day of that month |
| Identity.PasswordPolicy.Validate | app/services/identity.py:41-56 | valid exactly for a present password of at least the minimum length; "missing_fields" exactly for a missing or empty one; "too_short" exactly for a shorter one |
| Identity.NormalizeIdempotent | app/services/identity.py:254-258 | a normalised name normalises to itself |
| Identity.FindByName | app/services/identity.py:72-73 | no user is found exactly when no stored user has the name; a found user is stored and has it |
| Identity.FindById | app/services/identity.py:75-76 | no position is found exactly when no stored user has the id; a found position holds a user with it |
| Identity.ReplaceKeepsDistinct | app/services/identity.py:234-236 | replacing a user's salt and hash keeps ids and names unique |
| Identity.RegisterCheck | app/services/identity.py:131-167 | any stored user disables registration; a blank name after that gives "username_required"; passing every check needs no users, a name, a valid password and a matching confirmation |
| Identity.ChangeCheck | app/services/identity.py:197-232 | a blank field gives "missing_fields"; passing every check needs a stored user, a valid new password, a matching confirmation and the right current password |
| Identity.IdentityService.constructor | app/services/identity.py:91-94 | the service starts over the given users, policy and password digest |
| Identity.IdentityService.AllowSelfRegistration | app/services/identity.py:99-102 | registration is allowed exactly when no user exists |
| Identity.IdentityService.Authenticate | app/services/identity.py:104-128 | "missing_credentials" exactly for a blank name or password; success exactly when the normalised name is stored and the password matches, returning that user; every other failure is the same "invalid_credentials" |
| Identity.IdentityService.Register | app/services/identity.py:130-187 | the first failing check is reported and nothing changes; a failed commit gives "unknown" and nothing changes; otherwise exactly one admin user with the normalised name and the salted digest is added, and it is the only user |
| Identity.IdentityService.ChangePassword | app/services/identity.py:189-248 | the first failing check is reported and nothing changes; when every check passes, a failed commit gives "unknown" and nothing changes; otherwise only that user's salt and hash are replaced |
| Identity.RegisteredCanSignIn | app/services/identity.py:104-175 | a registered user is found under any spelling of its name and its stored hash is the digest of its password |
| Lifecycle.HexPair | app/core/lifecycle.py:34 | two hex digits read as a channel below 256 |
| Lifecycle.ParseHexColor | app/core/lifecycle.py:28-34 | a colour parses exactly when the stripped text is "#" and six hex digits, and its channels are below 256 |
| Lifecycle.HexText | app/core/lifecycle.py:84 | a printed colour is "#" and six hex digits |
| Lifecycle.ParseHexText | app/core/lifecycle.py:28-84 | a printed colour parses back as itself |
| Lifecycle.ParseHexStrips | app/core/lifecycle.py:31 | surrounding whitespace does not change the parsed colour |
| Lifecycle.HexToRgbFields | app/core/lifecycle.py:63-67 | `hex_to_rgb` prints three comma-separated fields that `int()` reads back as the channels |
| Lifecycle.Clamp01 | app/core/lifecycle.py:71-78 | the clamp lies in [0, 1], keeps a value already there and sends values outside to the nearer end |
| Lifecycle.RoundHalfEven | app/core/lifecycle.py:81-83 | Python's `round` gives an integer within one half of the value |
| Lifecycle.HexToRgbaClamps | app/core/lifecycle.py:69-74 | the rgba text is the rgb fields and the clamped alpha; only the clamped alpha matters |
| Lifecycle.Blend | app/core/lifecycle.py:81-83 | a blended channel is at least the channel and below 256 |
| Lifecycle.MixWithWhite | app/core/lifecycle.py:76-84 | the mixed colour is always "#" and six hex digits |
| Lifecycle.MixLightens | app/core/lifecycle.py:76-84 | mixing a parseable colour with white never darkens a channel |
| Lifecycle.MixExtremes | app/core/lifecycle.py:78-84 | a blend of 0 or less reprints the colour, a blend of 1 or more gives "#ffffff" |
| Lifecycle.PickContrast | app/core/lifecycle.py:86-93 | the text colour is "#000000" or "#ffffff" |
| Lifecycle.PickContrastMonotone | app/core/lifecycle.py:90-93 | a colour at least as bright in every channel as one that takes black text also takes black text |
| Lifecycle.RoundHalfUp | app/core/lifecycle.py:57 | rounding to cents is to the nearest cent, with ties away from zero |
| Lifecycle.Grouped | app/core/lifecycle.py:59 | the grouped dollars begin and end with a digit |
| Lifecycle.CentsText | app/core/lifecycle.py:58-59 | the printed amount starts with "-" exactly when the cents are negative |
| Lifecycle.DollarsText | app/core/lifecycle.py:59 | the unsigned part starts with "$" |
| Lifecycle.FormatMoney | app/core/lifecycle.py:51-59 | `None` and text that `Decimal` cannot read print "$0.00"; an infinity or NaN raises; a finite number or readable text prints as money text of its value unless its cents overflow 28 digits, which raises |
| Lifecycle.QuantizedMoneyLimit | app/core/lifecycle.py:57-59 | a finite amount prints exactly when it lies strictly between minus and plus 10^26 - 0.005 dollars, and then as the money text of its value |
| Lifecycle.ReadDecimalAgrees | app/core/lifecycle.py:53 | on every text Python's `float` syntax reads, `Decimal` reads the same value |
| Lifecycle.PlainNumeral | app/core/lifecycle.py:53 | a plain numeral is neither an infinity nor a NaN, and has no exponent |
| Lifecycle.ScientificBody | app/core/lifecycle.py:53 | a numeral followed by "e" or "E" and a whole exponent reads as the numeral times 10 to the exponent |
| Lifecycle.MoneyExponent | app/core/lifecycle.py:51-59 | "1e2" prints as "$100.00" |
| Lifecycle.SpecialNames | app/core/lifecycle.py:53 | "Infinity", "Inf", "NaN" and "sNaN", in any letter case, read as special values |
| Lifecycle.SpecialsRaise | app/core/lifecycle.py:53-58 | a special value raises in `format_money`, with or without a sign |
| Lifecycle.MoneySign | app/core/lifecycle.py:57-59 | a "-" sign appears exactly when the amount rounds below zero cents; otherwise the text starts with "$" |
| Lifecycle.MoneyNegativeZero | app/core/lifecycle.py:57-59 | an amount that rounds to zero cents from below prints "$0.00" without a sign |
| Lifecycle.GroupedDigits | app/core/lifecycle.py:59 | removing the commas from the grouped dollars leaves digits worth the dollars |
| Lifecycle.MoneyRoundTrip | app/core/lifecycle.py:51-59 | the importers' number reader reads printed money back as the amount rounded to cents |
| Lifecycle.CentsRoundTrip | app/core/lifecycle.py:58-59 | the importers' number reader reads printed cents back as their value |
| Icon.ReadU32BE | app/scripts/create_bagholder_icon.py:12 | a big-endian 32-bit read puts the first byte highest and stays below 2^32 |
| Icon.U16RoundTrip | app/scripts/create_bagholder_icon.py:16 | a packed little-endian 16-bit value reads back as itself |
| Icon.U32RoundTrip | app/scripts/create_bagholder_icon.py:17-27 | a packed little-endian 32-bit value reads back as itself |
| Icon.DimensionByte | app/scripts/create_bagholder_icon.py:13-14 | a size in 1..255 is stored as itself, any other size as 0 |
| Icon.PngToIco | app/scripts/create_bagholder_icon.py:7-29 | data without the PNG signature is refused, exactly; with a signature and an IHDR the icon is a 22-byte header and entry followed by the unchanged image |
| Icon.IcoLayout | app/scripts/create_bagholder_icon.py:12-29 | reading the icon back gives reserved 0, type 1, one image, the width and height bytes, no palette, 1 plane, 32 bits per pixel, the image size, offset 22 and the image |
| Icon.EntryFields | app/scripts/create_bagholder_icon.py:17-27 | the directory entry holds its eight fields in order |
| Icon.IcoDependsOnIhdr | app/scripts/create_bagholder_icon.py:12-27 | two images of one length with the same IHDR size bytes get the same header and entry |

## Left out

- Python floats are modelled as exact reals, with no rounding, NaN or infinity.
- `round(x, 2)` on the daily figures is not modelled; the model keeps the exact values.
- The `lot["qty"] <= 1e-9` removal threshold becomes "quantity reaches zero", which is what the threshold stands for on exact reals.
- String case mapping covers ASCII only.
- pandas, CSV reading, file and database I/O are inputs or left out; a DataFrame is modelled as a sequence of records with optional fields.
- A NaN cell is modelled as an absent field.
- pandas' `sort_values` is modelled as a stable sort.
- TradeMatching.ApplySpec: the lots are sequences that the class methods reassign. Two callers sharing one position dictionary is not modelled beyond the map of distinct position objects in `Pnl`.
- Calculations.ApplyTradeToPosition returns a new holding instead of writing into a shared dictionary.
- Calculations: the one Python function is split into two methods, ApplyBuy and ApplySell, with a dispatcher.
- Calculations.ApplySpec: a `sorted()` that would raise `TypeError` is modelled as the error `UnorderableKeys`. It is raised when the dates are not all of one kind, or when equal dates carry datetimes of different kinds.
- Calculations.Accept: cell values other than numbers, text, null and dates are left out.
- Calculations.ExampleProfit: the example takes abstract rows; TestRowsAccepted shows the test's literal rows meet its requirements.
- TradeSummaries.TradeToRecord: text "nan" or "inf" for a quantity or price is rejected, while Python's `float` reads it and a NaN passes the `<= 0` test.
- TradeSummaries.UpsertDailySummaries: the dictionary is passed as its items in iteration order; the ORM session, `db.add` and the commit are modelled as assignments to the table.
- `recompute_daily_summaries` is not part of this model: it only queries the trades in (date, id) order and chains the two modelled functions.
- TradeSummaries.NormalizeDate: values other than `None`, text, dates and datetimes are all modelled as `NoStamp`, which gives None as they do.
- `app/services/trade_simulator.py` is not part of this model: it downloads market data, runs a thread pool, draws random numbers and writes CSV files. Its output reaches `SimulationRunner` as parameters.
- pandas `groupby` is modelled as grouping by exact date, in ascending date order, with the trades of a day kept in input order.
- LongOnlyPnl.DailyPnl: `round(x, 2)` on realised, unrealised and total profit is not applied, so the cumulative column sums exact values where Python sums rounded ones.
- ImportThinkorswim.KeyOf: quantity, price and amount are compared exactly. Python first rounds them to 8 decimals, so values that differ only beyond the eighth decimal are duplicates there and distinct here.
- ImportThinkorswim.ComputeDailyPnlRecords: the `ValueError` for records without "date" or "side" cannot arise, because a `PnlRecord` always has every field.
- ImportThinkorswim.ParseThinkorswim: the plain-text statement parser, the statement-row reader and the data-frame parser (`_parse_plaintext_statement`, `_parse_datetime_guess`, `_parse_datetime_from_row`, `_looks_like_trade_header`, `_extract_symbol`, `_iter_trade_blocks`, `_read_statement_rows`, `_parse_dataframe`, `_canonicalize_columns`) are inputs. Lines 380-532 of that file do not parse as Python, and the others rest on regular expressions and pandas.
- Decoding the uploaded bytes (`_decode_content`, `_decode_text_content`) and splitting CSV text into cells are not part of this model. Every parser receives rows of cells.
- Python's `int()` and `float()` are modelled on ASCII signs, digits and one decimal point. Underscores, exponents, "inf" and "nan" are not read.
- TosExtract.ComputeDailyPnl: with no trades the script fails, because `sort_values("date")` on a frame without columns raises `KeyError`. The model returns an empty table instead.
- The extractor script's `read_text`, `latest_statement` and `main` read files and print, and are not part of this model.
- `strftime("%Y")` is modelled with four-digit zero padding. glibc leaves years below 1000 unpadded.
- Schwab trades and dividends carry an empty `time`, as the importer writes it. Nothing else of the time of day is modelled.
- `build_default_simulation_options` builds filesystem paths and is not part of this model.
- `reload_application_state` and the Jinja template setup in `app/core/lifecycle.py` are not part of this model. Only the filters are.
- Accounts.CreateAccount: the directory and the seed database of the new account are not modelled.
- Accounts.PrepareAccounts: it returns the active id only. The list of `AccountRecord`s and their absolute paths are not built, and the directories it creates and `cfg.save()` are not modelled.
- Accounts.PreparedSection: the configuration maps keep no insertion order. The id of the first entry, which a stale `active` is reset to, is therefore the parameter `first`. Rename, switch and create take it too. A `first` that names no entry is made active all the same.
- Accounts.PreparedStorage: `os.path.relpath(path, base_dir)` is the parameter `relative`. `os.path.isabs` and `os.path.join` are modelled for POSIX paths.
- Text.Title: only ASCII letters change case; Python's `str.title` also cases other letters.
- Config.AppConfig.FromLoaded stands for `load` once the YAML file is parsed. Reading that file, `save` and `as_dict`, a deep copy that on values is `raw` itself, are not modelled.
- Identity: password hashing is the `digest` function the service is given. The random salt and the outcome of the commit are parameters.
- Identity.MaxId stands for the database's autoincrement id: a new user's id is one more than the largest id.
- Database sessions, queries and commits are modelled as reads and assignments of the `Database` fields. The session does not autoflush (`app/core/database.py:13`), so a lookup sees only the committed table. A commit that breaks a uniqueness constraint (`uix_trade_dedup`, a primary key) is the error `IntegrityError` and leaves the tables as they were. SQL ordering is `RoutesImport.QueryOrdered`.
- SimulationRunner.ImportSimulatedTrades: the rows it returns as imported go to a fresh session after `clear_all_data`. That session and its flush are not modelled, so two identical prepared trades, whose flush fails on `uix_trade_dedup`, are returned as imported here.
- RoutesImport.ImportTradeRows takes the rows the upload parsed to; reading the upload is not modelled. `import_page` renders a template and is not part of this model.
- TradeMatching.Position.Consume draws the lots with `DrawLots` on a copy of the lot list, then assigns the field, instead of popping the list in place.
- Icon.PngToIco is the byte transformation. Reading the PNG and writing the ICO file in `main` are not modelled.
- Pnl.Applies: a row with no quantity or no price is skipped. In Python `float()` turns the missing cell into NaN, `nan <= 0` is false, and the NaN flows into the position and the day's figures; the model has no NaN. Rows without a symbol are booked, under one shared missing-value key.
- Pnl.SkippedRowsIgnored and Pnl.DayTradeValue count a row with no quantity or no price among the skipped rows, for the reason given for Pnl.Applies.
- SimulationRunner.FieldText: the text `str()` prints for a numeric cell is the parameter `shown`, since CPython's shortest round-trip printing of floats is not part of this model. The members that read cells (PrepareRecord, PrepareRecordAccepts, PrepareRecordDateFirst, ImportSimulatedTrades) take it too.
- Lifecycle.FormatMoney: underscores between digits, which `Decimal` accepts as grouping, are not read, so "1_000" prints "$0.00" here where Python prints "$1,000.00". Unicode digits other than ASCII are not read either.
- Lifecycle.MixWithWhite and Lifecycle.PickContrast compute on exact reals. Python's float products may round a blended channel, or decide a luminance at the 0.55 threshold, differently.

## Findings

| source | as written | input that shows it | evidently intended | confidence | as-written member | corrected member |
|---|---|---|---|---|---|---|
| app/api/routes_calendar.py:27-36 | `calendar_view` stores the month as the last-viewed month before `month_bounds` rejects a month outside 1..12 | a visit to `/calendar/2024/13`, then the home page with a default view other than "latest": home redirects to month 13, whose page always fails | remember the month only once its page renders | medium, not executed | RoutesCalendar.RememberedBadMonthBreaksHome | RoutesCalendar.CalendarViewChecked |
