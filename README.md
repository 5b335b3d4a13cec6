# Zijin dashboard data fetcher — verified model of its core

`fetch_data.py` collects a daily market snapshot for the Zijin Mining dashboard
and keeps a rolling price history in `history.json`. This project models the
three parts of it that compute something, and proves what they promise:

- **The quote normaliser** (`fetch_quote`, module `Quotes`). It turns the last one
  or two trading sessions of an instrument into price, change, percentage change
  and volume. Python's `round` is modelled exactly as round-half-to-even on
  decimals (module `Rounding`).
- **The COMEX silver inventory parser** (`fetch_comex_silver`, module `Inventory`).
  It finds the header row among the first six rows of the worksheet and maps the
  five category columns by keyword. It then walks the data rows: blank labels are
  skipped, depository rows are summed, and the first row labelled `TOTAL` replaces
  the sums. Four of the five figures are reported in millions of ounces.
- **The history merge** (`append_history`, modules `Records` and `History`). It
  drops any record already dated today and appends today's entry. The list is then
  sorted by date with Python's stable sort and cut to the last `MAX_HISTORY`
  records.

Parts that loop and update state in the source are methods: `FindHeader`,
`SumRows` and `BuildEntry` are loops with invariants, and `ParseReport` and
`AppendHistory` are methods built from them and from `WithoutDate` and
`SortByDate`. Each one is proved equal to a specification function, and the
properties are proved as lemmas about that function. Python's `str()` and
`float()` are passed in as the `Builtins` parameter. Reading the worksheet and
the history file is left to the caller, which passes the cells and the loaded
list in.

The three cores do not mutate shared objects. Every list and dictionary is
created inside the function that fills it, so the model keeps them as local
`seq` and `map` values, not as classes.

## Model

| member | source | states |
|---|---|---|
| Quotes.Normalize | fetch_data.py:59-67 | an empty history gives no quote. Otherwise the previous close is the second-to-last close, or the last close itself for a single session. The price is the last close rounded half-to-even to 4 decimals, so within 0.00005 of it. The change is exactly `round(last close - previous close, 4)`, which is 0 for a single session. The percentage is 0 when the previous close is 0, and otherwise exactly `round(change / previous close * 100, 2)`, within 0.005 of that quotient. The volume is absent exactly when the last volume is 0 |
| Rounding.RoundHalfEven | fetch_data.py:63-66 | the integer chosen is within one half of its argument, is the argument itself when that is integral, and is even on a tie |
| Rounding.RoundToError | fetch_data.py:63-66 | `round(x, n)` moves `x` by at most half a unit in the n-th decimal |
| Rounding.RoundToExact | fetch_data.py:63-66 | a value that already has at most n decimals is unchanged by `round(x, n)` |
| Text.StripStartRemovesLeadingSpace | fetch_data.py:93 | the stripped text is a suffix of the original that does not start with whitespace, and only whitespace was removed |
| Text.StripEndRemovesTrailingSpace | fetch_data.py:93 | the stripped text is a prefix of the original that does not end with whitespace, and only whitespace was removed |
| Text.LexLeTotal | fetch_data.py:202 | any two date strings are comparable under Python's string order |
| Text.LexLeAntisymmetric | fetch_data.py:202 | two strings each at most the other are equal |
| Text.LexLeTransitive | fetch_data.py:202 | the string order is transitive |
| Inventory.WidthIsLongestRow | fetch_data.py:93 | `ncols` is the length of the longest row: no row is longer and, in a non-empty sheet, one row has that length |
| Inventory.HeaderRowIsFirst | fetch_data.py:91-98 | the header row is the first row among the first six whose stripped, lower-cased cells include one containing "registered"; there is none exactly when no such row exists |
| Inventory.FindHeader | fetch_data.py:91-96 | the scanning loop stops at exactly the header row that `HeaderRow` defines |
| Inventory.ColumnOfIsFirst | fetch_data.py:101-104 | a category's column is the leftmost header cell containing its keyword; it is absent exactly when no header cell contains it |
| Inventory.UnreadableCellAddsNothing | fetch_data.py:114-125 | inserting a row whose cell in a column is empty, the empty string, or text `float` rejects leaves that column's depository sum unchanged |
| Inventory.MissingColumnIsZero | fetch_data.py:106-117 | a category with no column adds nothing to its total |
| Inventory.SumRows | fetch_data.py:108-125 | the row loop yields the scan's totals, and reports a total row exactly when one exists below the header |
| Inventory.ScanWithoutTotalIsSum | fetch_data.py:110-125 | with no TOTAL row, each total is the starting amount plus the sum of its column over the non-blank rows |
| Inventory.FirstTotalRowWins | fetch_data.py:118-122 | the first TOTAL row's amounts are the result, whatever rows came before or follow it |
| Inventory.BlankRowIgnored | fetch_data.py:111-113 | inserting a row whose label strips to nothing changes no total |
| Inventory.DepositoryRowsCommute | fetch_data.py:123-125 | two adjacent depository rows can be swapped without changing the totals |
| Inventory.MillionsError | fetch_data.py:127 | each reported figure is within 0.0005 of the ounces divided by one million |
| Inventory.MillionsExamples | fetch_data.py:127 | 84,200,000 oz is reported as 84.2, 312,500,000 oz as 312.5, and 0 oz as 0 |
| Inventory.ReportSumsDepositories | fetch_data.py:110-133 | with no TOTAL row, the report holds the rounded millions of each category's column sum over the depository rows; the total column is not reported |
| Inventory.ParseFailsIffNoHeader | fetch_data.py:97-98 | parsing gives nothing exactly when none of the first six rows is a header row |
| ColumnOrder.HeaderRowPermuted | fetch_data.py:91-96 | reordering the columns other than the first does not move the header row |
| ColumnOrder.ColumnOrderIrrelevant | fetch_data.py:91-133 | on a rectangular sheet whose header names each reported category in at most one cell, reordering the columns other than the first leaves the parsed report unchanged |
| Inventory.ParseReport | fetch_data.py:91-133 | the parser's result equals the specification `Parse`, and it is `None` exactly when no header row exists |
| Records.FilterMembers | fetch_data.py:187 | a record survives a comprehension filter exactly when it was in the list and passes the test |
| Records.SortSorted | fetch_data.py:202 | the sorted list is in date-key order, with a missing date sorting as "" |
| Records.SortPermutes | fetch_data.py:202 | sorting neither adds, drops nor duplicates a record |
| Records.SortStable | fetch_data.py:202 | records sharing a date key keep their relative order |
| Records.SortKeepsDated | fetch_data.py:202 | for every date, the records of that date keep their order |
| Records.SortOfSorted | fetch_data.py:202 | a list already in date order is left unchanged |
| History.NewEntryPrices | fetch_data.py:189-192 | today's entry is dated today and has every `HISTORY_FIELDS` key. The value is that instrument's price when it has a quote, and null otherwise |
| History.NewEntryInventory | fetch_data.py:194-197 | the entry's keys are the ten price fields, plus the three `cs_*` keys exactly when an inventory report exists; they carry its registered, eligible and withdrawn figures |
| History.BuildEntry | fetch_data.py:189-197 | the entry-building loop and updates produce exactly `NewEntry` |
| History.NewEntryWellFormed | fetch_data.py:189-197 | the `"date"` key of today's entry is its date field and never one of its other fields |
| History.WithoutDateDropsToday | fetch_data.py:187 | the filter keeps exactly the loaded records not dated today |
| History.MergeSorted | fetch_data.py:202-204 | the saved history is in date order |
| History.MergeLength | fetch_data.py:199-204 | the saved length is the kept records plus one, capped at `MAX_HISTORY` |
| History.MergeAddsOnlyEntry | fetch_data.py:187-199 | every saved record is today's entry or a loaded record of another day |
| History.MergeDropsOnlyOldest | fetch_data.py:187-204 | a loaded record of another day is saved unless the history is full and the record sorts no later than every saved one |
| History.MergeTodayOnce | fetch_data.py:186-199 | at most one saved record is dated today, and it is the entry; exactly one whenever the entry is saved, in particular whenever fewer than `MAX_HISTORY` other records were kept |
| History.MergeOtherDays | fetch_data.py:187-204 | for another day, the saved records of that day are a tail of the loaded ones, and all of them while the history is not full |
| History.MergeKeepsWellFormed | fetch_data.py:187-204 | when the loaded records and the entry keep `"date"` out of their other fields, so does every saved record |
| History.MergeKeepsDatesUnique | fetch_data.py:186-204 | a history with no repeated date is saved with no repeated date |
| History.MergeEntryLast | fetch_data.py:199-204 | when no loaded record is dated after today, today's entry is the last saved record |
| History.MergeIdempotent | fetch_data.py:182-204 | merging the same entry again into the saved history changes nothing |
| History.AppendHistory | fetch_data.py:182-204 | the procedure computes `Merge` of the loaded list and today's entry. The result is sorted, non-empty and at most `MAX_HISTORY` long, with at most one record dated today, which is the entry |

## Left out

- Network and file access are not modelled. This covers the Yahoo Finance download in `fetch_quote`, the HTTP download, `xlrd` import and `pip` fallback in `fetch_comex_silver`, `load_history`, `save_history` and `main`. Their results are parameters: the session list, the worksheet cells and the loaded record list, which may be empty.
- Volumes are taken to be whole numbers (`Session.volume` is an `int`). A fractional volume such as 0.5, which Python finds truthy and `int()` truncates to a reported volume of 0, is not modelled.
- Exceptions caught by the `except Exception` wrappers are not modelled. One source is a NaN volume, which `int()` rejects.
- Console output is not modelled.
- `TICKERS` and the snapshot assembly in `main` are not modelled, since only `main` uses them.
- Floating point is modelled as exact reals. `round` is exact half-to-even on decimals, so IEEE representation error plays no part.
- Python's `str()` of a number and `float()` of a string are modelled as opaque parameters (`Builtins`).
- Case mapping covers ASCII letters only. Whitespace for `strip` is the ASCII whitespace set plus the Unicode separators Python strips.
- Worksheet cells are empty, number or text. Boolean, date and error cells (which `xlrd` returns as numbers) are not distinguished.
- `found_total_row` is set but never read in the source, so `ParseReport` discards it.
- History dates are absent or strings. A record whose `"date"` is null or not a string is not modelled; the Python sort would raise on it.
- JSON objects are maps, so the key order of `json.dump` is not modelled.
- The JSON value types are limited to null, number and string, which are the only ones the merge writes.
- `change_pct` is taken of the already rounded change (fetch_data.py:63-64), not of the exact difference. The model does the same.
- History.MergeTodayOnce: a record dated today is not always saved. If the loaded history already holds `MAX_HISTORY` records dated after today, the sort places the new entry before them and the cut evicts it, so the saved list has no record for today. The lemma states "at most one, and exactly one whenever the entry is saved", and exactly one whenever fewer than `MAX_HISTORY` other records are kept.
- ColumnOrder.ColumnOrderIrrelevant: the lemma assumes a rectangular sheet, keeps the first column (the depository label) in place, and asks that each reported keyword occur in at most one header cell. When a keyword matches two cells, the source takes the leftmost, so reordering can change the result.
