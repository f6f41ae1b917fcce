# Personal finance chat-bot: ledger and reports

A Dafny model of the pure logic of a Discord bot (`index.js`) that records
income and expense transactions in an SQLite table and reports on them. The
model covers:

- **Commands**: which command a message selects (the bot guard and the
  `startsWith` chain), how `!addexpense`/`!addincome` split their arguments,
  the argument checks of `!datetotal`, and what every command does to the
  ledger and what it answers.
- **Store**: the `transactions` table as an append-only sequence of rows with
  AUTOINCREMENT ids, `WHERE` filters, and `SUM(amount)` over groups.
- **Chart**: the on-demand report's bucketing of `(date, type, amount)` rows
  into date labels and per-type arrays. This includes JavaScript's
  `labels.includes`/`indexOf`, sparse-array holes and `|| 0`.
- **Report**: the report query (`BETWEEN`, `ORDER BY date`) and the bounds
  `!generateReport` passes to it.
- **DayTotals**: `getDateTotals`, the `GROUP BY type` result folded into
  `{income, expense}`.
- **Weekly**: the weekly job's `GROUP BY type, category` fold into per-type
  objects, its totals, its net profit and its chart datasets.
- **Color**: `getRandomColor`.

Text is `seq<char>`. JavaScript's `split(' ')`/`join(' ')` are modelled
exactly, including empty tokens. SQLite compares TEXT in code-point order
(`Text.TextLeq`), which for Dafny characters is the same as UTF-8 byte
order. Amounts are integers in minor units. SQL `GROUP BY` may return its
groups in any order, so the folds are proved for every grouping that meets
the `IsKindGrouping`/`IsCategoryGrouping` predicates.

The surroundings are supplied as parameters (`Commands.Env`):

- the current time as an ISO string;
- SQLite's conversion of the amount token;
- whether `new Date(date + 'T00:00:00Z')` is valid;
- the local-day bounds that `setHours` produces.

The six `Math.random` draws of a colour are a parameter of
`Color.RandomColor`; no command uses a colour.

Two behaviours of the code are worth stating up front:

- **Recording**: nothing rejects a non-numeric or missing amount token. It
  is stored as given (`Env.amountOf` stands for SQLite's conversion).
- **`!generateReport`**: `generateChart()` is called without bounds, so the
  query compares every date with NULL and returns no rows. `Commands.Handle`
  models this; `Commands.HandleCorrected` charts the announced week (see
  Findings).

## Model

| member | source | states |
|---|---|---|
| Seqs.IndexOf | index.js:100 | `labels.indexOf(d)` is the position of the first occurrence of `d`: `d` is there and at no earlier position |
| Seqs.CollectIsFirstOccurrences | index.js:94-96 | pushing each value when `includes` fails gives the starting list followed by every new value exactly once, in order of first occurrence, and nothing else |
| Seqs.CollectDistinct | index.js:94-96 | pushing the values of a repeat-free list onto an empty one rebuilds the list |
| Seqs.DistinctSnoc | index.js:94-96 | an append keeps a list repeat-free exactly when the appended value is new |
| Text.Split | index.js:156 | `split(' ')` always yields at least one token, and no token contains a space |
| Text.JoinSplit | index.js:156-157 | joining the tokens of `split(' ')` with single spaces gives the text back |
| Text.SplitJoin | index.js:156-157 | splitting space-free tokens joined with single spaces gives the tokens back |
| Text.TextLeqTotal | index.js:73 | any two TEXT values are ordered one way or the other |
| Text.TextLeqAntisymmetric | index.js:73 | TEXT values ordered both ways are equal |
| Text.TextLeqTransitive | index.js:73 | the TEXT ordering is transitive |
| Store.EmptyLedger | index.js:26-33 | the new table has no rows, and AUTOINCREMENT starts at 1 |
| Store.Insert | index.js:161-162 | an INSERT appends exactly one row with the given user, type, amount, category and date; it keeps every earlier row and gives the new row an id no earlier row has |
| Store.Where | index.js:175 | a WHERE clause returns exactly the rows that meet its condition, each as many times as the table holds it, and no other row |
| Store.WhereKeepsOrder | index.js:175 | a WHERE clause keeps table order: the selected rows sit at strictly increasing table positions, and those positions are exactly the ones whose row meets the condition |
| Store.WhereNone | index.js:203 | a condition no row meets selects nothing |
| Store.InsertThenList | index.js:161-175 | after an INSERT, the author's list for that type holds the new row exactly once, at the end; every other (user, type) list is unchanged |
| Store.InsertTwiceKeepsBoth | index.js:161-162 | the same command recorded twice stores two distinct rows, and both show in the author's list |
| Store.Column | index.js:94 | a column holds each row's field, row by row |
| Store.ColumnHas | index.js:94 | every row's field value occurs in the column |
| Store.TotalPartition | index.js:201-204 | GROUP BY partitions the rows: the sums of distinct groups that cover every row in scope add up to the sum over the scope |
| Store.TotalWhereKind | index.js:201-204 | grouping all rows by type gives, for each type, the sum of that type's amounts |
| Store.TotalAbsent | index.js:210 | a type no row has sums to 0 |
| Chart.Write | index.js:101 | assigning one array index sets that cell and leaves every other cell as it reads, holes included; the array grows past its end only as far as the index |
| Chart.BucketLabels | index.js:93-96 | the chart labels are the row dates, each exactly once, in order of first occurrence |
| Chart.BucketKeys | index.js:81-91 | the dataset keys are the nine preset names in declaration order, then each row type not among them, once, in order of first occurrence |
| Chart.BucketCells | index.js:97-101 | each cell holds the sum of the amounts of the rows with that type and that label's date; every read past the last label is 0 |
| Chart.BucketTotal | index.js:93-102 | all cells of all datasets add up to the sum of all row amounts; bucketing loses and invents nothing |
| Chart.PresetsUntouched | index.js:81-91 | when no row's type is a preset name, every preset dataset stays an empty array |
| Chart.SeriesTotal | index.js:97-101 | one dataset's cells add up to the sum of its type's amounts |
| Report.InsertByDate | index.js:74 | inserting a row into a date-ordered list keeps it ordered and adds exactly that row |
| Report.SortByDate | index.js:74 | `ORDER BY date` returns the same rows, as a multiset, in ascending date order |
| Report.ReportAlwaysEmpty | index.js:240-242 | as written, `!generateReport` charts no labels and only the nine empty preset datasets, whatever the table holds |
| Report.ChartQueryWindow | index.js:70-74 | with bounds, the report query returns each row dated in the window as often as the table holds it, and no other row, in ascending date order |
| Report.WeekReportLabelsAscending | index.js:70-96 | the report's date labels come out strictly ascending |
| DayTotals.FoldTotals | index.js:210-217 | a type with no group leaves its field at 0 |
| DayTotals.FoldTotalsLast | index.js:211-216 | each field ends up with the total of the last group of its type |
| DayTotals.GroupByKind | index.js:201-204 | a first-occurrence grouping is a valid GROUP BY type result: distinct types, every row's type present, each group holding its type's sum |
| DayTotals.FoldTotalsIsSums | index.js:201-218 | whatever order the groups come in, the fold gives the sum of the income amounts and the sum of the expense amounts |
| DayTotals.DateTotals | index.js:191-218 | `getDateTotals` gives the sums of the income and the expense amounts dated inside the closed window |
| DayTotals.EmptyWindowIsZero | index.js:210 | a window with no rows reports income 0 and expense 0 |
| Weekly.Put | index.js:287-289 | writing an object key adds a new key last, overwrites an existing one in place and leaves the other entries unchanged |
| Weekly.ValuesOfMembers | index.js:293 | `Object.values` holds the value of every entry of the object, and no value that is not some entry's |
| Weekly.PutNewValues | index.js:287-293 | writing a new key appends its value to `Object.values` and leaves the earlier values in place |
| Weekly.FoldCategories | index.js:285-291 | both category objects stay well formed: repeat-free keys that match their entries |
| Weekly.Summarize | index.js:293-312 | when no category repeats within a type, each total is the sum of that type's group totals; the labels are the expense categories, each once in order of first occurrence, then the income categories likewise; the net profit is income minus expense |
| Weekly.FoldSideKeys | index.js:285-291 | each object's keys are the categories of its type, each once, in order of first occurrence |
| Weekly.FoldSideValues | index.js:285-293 | when no category repeats within a type, the object's values are that type's group totals in order |
| Weekly.WeeklyTotals | index.js:293-312 | the totals are the sums of the group totals per type; the labels are the expense categories followed by the income categories |
| Weekly.CategoriesDistinct | index.js:277 | distinct (type, category) groups give distinct categories within a type, and exactly the categories present |
| Weekly.TotalsAreGroupSums | index.js:277-294 | the per-type group totals add up to the sum of that type's category group sums |
| Weekly.KindSum | index.js:277-294 | for a valid GROUP BY type, category result, a type's group totals add up to the sum of all that type's amounts |
| Weekly.WeeklyFromLedger | index.js:277-295 | whatever order the groups come in, total income and total expense are the sums of all income and all expense amounts, and the net profit is their difference |
| Weekly.IncomeBarsMisplaced | index.js:312-322 | as written, once both types have a category, the first income total is drawn at label 0, which is an expense category |
| Weekly.IncomeBarsMisplacedExample | index.js:312-322 | one expense of 30 on "Dining" and one income of 100 from "Salary": the 100 bar stands on "Dining", and "Salary" gets no bar |
| Weekly.WeeklyChartOf | index.js:312-322 | corrected chart: expense labels then income labels; each position carries a bar of its own type with its category's total, and no bar of the other type |
| Color.RandomColor | index.js:55-62 | the colour is `#` followed by six hexadecimal digits, the i-th being the digit the i-th draw selects |
| Color.DigitValue | index.js:56 | every digit of `0123456789ABCDEF` has the value that selects it |
| Color.ColorRoundTrip | index.js:55-62 | the draws can be read back from the colour, so different draws give different colours |
| Color.EveryColorReachable | index.js:55-62 | every upper-case `#RRGGBB` colour is produced by some draws |
| Commands.PrefixesExclusive | index.js:232-249 | no text starts with two of the command prefixes |
| Commands.RouteSelects | index.js:230-249 | a message selects a command exactly when a human wrote it and it starts with that command's prefix; the order of the tests does not matter |
| Commands.RouteNone | index.js:230-249 | a message selects nothing exactly when a bot wrote it or it starts with none of the prefixes |
| Commands.ParseArgumentsRebuilds | index.js:156-157 | command, amount and category joined with single spaces give the message back; with one token the amount is missing, and with fewer than three tokens the category is empty |
| Commands.ParseArgumentsOf | index.js:156-157 | a space-free command and amount followed by any category text are read back exactly |
| Commands.ParseArgumentsOfPair | index.js:156-157 | a space-free command and amount alone give an empty category |
| Commands.DateArgumentAccepts | index.js:250-260 | `!datetotal` accepts exactly texts of the form "word date", with both space-free and the date parseable, and reads that date |
| Commands.Handle | index.js:229-271 | one message either leaves the ledger unchanged or appends exactly one row, keeping every earlier row and the id invariant |
| Commands.HandleRuns | index.js:230-249 | a human message starting with a command's prefix runs that command |
| Commands.HandleIgnores | index.js:230-249 | bot messages, and messages starting with no command, get no reply and change nothing |
| Commands.HandleReadOnly | index.js:236-269 | every message except the two add commands leaves the ledger unchanged |
| Commands.HandleAdds | index.js:155-170 | an add command appends one row: the author, the type, the converted amount token, the joined category words and the current time; the reply echoes the amount token and the category |
| Commands.HandleShows | index.js:172-189 | `!expense`/`!income` list the author's rows of that type, or say there are none, and change nothing |
| Commands.AddThenShow | index.js:155-189 | after an author records a transaction, listing that type shows it exactly once, after the earlier ones |
| Commands.HandleDayTotal | index.js:249-269 | `!datetotal <date>` replies with the income and expense totals of the rows inside the window `Env.dayBounds(<date>)` and their difference (income minus expense), and changes nothing |
| Commands.HandleDayTotalArity | index.js:250-253 | `!datetotal` without exactly one argument asks for a date, whatever the ledger holds |
| Commands.HandleReportAsWritten | index.js:240-242 | `!generateReport` as written sends a chart with no date labels and only empty preset datasets, whatever the ledger holds, and changes nothing |
| Commands.HandleCorrected | index.js:229-271 | the corrected handler, like the original, either leaves the ledger unchanged or appends exactly one row, keeping the id invariant |
| Commands.HandleCorrectedAgrees | index.js:229-271 | the corrected handler answers every message that does not start with `!generateReport` exactly as the original does |
| Commands.HandleReport | index.js:240-242 | corrected `!generateReport`: it charts exactly the rows dated inside the reported week, in date order, and changes nothing |

## Left out

- Discord I/O: login, message events, channel fetching and sending, attachments. Replies are values (`Commands.Reply`); their Chinese wording and `toFixed(2)` formatting are not modelled.
- Database errors (the `err` branches at index.js:75-77, 163-166, 176-179, 207-209, 263-266 and 278-280): the modelled store cannot fail, so the error replies are not modelled.
- Floating point: `amount REAL` and `SUM` over floats are modelled as exact integer minor units. Converting the amount token (SQLite type affinity, a missing token stored as NULL) is the supplied `Env.amountOf`.
- JavaScript `Date`: `new Date().toISOString()`, the validity test of `new Date(date + 'T00:00:00Z')`, and `setHours` in the server's time zone are supplied as `Env.now`, `Env.dateValid` and `Env.dayBounds`. The window is not constrained, so the model does not show that it is shifted. index.js:256 reads `<date>` as UTC midnight, and index.js:193-196 take the server-local day containing that instant. West of UTC that is the day before: at UTC-5, `!datetotal 2024-01-02` sums the rows from 2024-01-01T05:00:00.000Z to 2024-01-02T04:59:59.999Z.
- `Math.random()`: the six draws are a parameter of `Color.RandomColor`. Assigning colours to datasets and the fixed colour table of the weekly job only affect rendering.
- Chart rendering, the image files and the ChartJS configuration (index.js:107-152, 297-310 and 326-345). Each on-demand dataset's label and data (index.js:104-106) are the modelled `Chart.Buckets` keys and arrays. The weekly chart's labels and datasets (index.js:311-325) are modelled; their colours are not.
- The cron schedule (`0 0 * * 0`) and the weekly job's channel; the job is modelled as a function of the grouped rows.
- `parseDate` (index.js:38-52): it is never called.
- The `express` app: it is never used.
- Asynchronous store calls: the model applies each message's INSERT before the next message is handled, which `Commands.AddThenShow` and `Store.InsertThenList` rely on. The code does not order a later query after an earlier `db.run`: `handleTransaction` returns at once (index.js:161-168), and `db.serialize()` is never called.
- Row order of queries without `ORDER BY`: the `!expense`/`!income` listing and the GROUP BY results are unspecified in SQL. Listings are modelled in table order; groupings may come in any order.
- JavaScript object keys: every key is an ordinary string. Integer-like keys, which JavaScript orders first, and inherited names such as `constructor`, which make `!data[type]` false, are not modelled.
- Commands.HandleDayTotal: amounts are integers, so the model cannot show two cases. A missing amount token is stored as NULL. When every income (or expense) row of a day has a NULL amount, `SUM(amount)` is NULL, `toFixed` at index.js:267 throws and no reply is sent. The model instead replies with `Env.amountOf(None)` counted in. A non-numeric token is stored as TEXT, and the listing echoes it verbatim. The reply itself is stated through `DayTotals.DateTotals`, whose own contract says the two totals are the income and expense sums of the day's rows.
- Report.SortByDate: fixes one order, stable insertion, for rows with the same date. SQLite's `ORDER BY date` leaves that order unspecified, and the key order of the report's datasets depends on it. Only the multiset of rows and the ascending dates are promised for every order.

## Findings

| source | as written | input that shows it | evidently intended | confidence | as-written member | corrected member |
|---|---|---|---|---|---|---|
| index.js:242 | `generateChart()` is called without dates, so `date BETWEEN ? AND ?` compares with two NULLs and is never true | any table, e.g. one expense recorded today, then `!generateReport` | chart the rows of the current week, as the reply "this week's income and expense chart" says | high; not executed | Commands.HandleReportAsWritten | Commands.HandleReport |
| index.js:312-322 | the income dataset's values start at label position 0, but the income categories' labels come after all expense labels | one expense of 30 on "Dining" and one income of 100 from "Salary" | each income total drawn at its own category's label | high; not executed | Weekly.IncomeBarsMisplacedExample | Weekly.WeeklyChartOf |
