# Holding snapshot diff, modelled in Dafny

Four scripts each fetch an actively managed ETF's portfolio, compare it with
the snapshot saved by the previous run and report what changed: positions
opened, added to, trimmed and closed. This project models the comparison core
of each script and proves what its output means.

The modules are:

- `Wrappers`: `Option` and `Result`.
- `Text`: Python's string operations the core relies on.
  - `str.strip` and `str.replace(',', '')`.
  - Integer coercion as done by `pd.to_numeric(..., errors='coerce').fillna(0)`.
  - `format(n, ',')`.
  - Python's string order.
  - Substring search.
- `Holdings`: the shared data model.
  - A holding row with its code, name, share count and weight.
  - The last-row-wins code index that `to_dict()` builds.
  - The five-way quantity classification.
  - The outer join on the code that `pd.merge(how='outer')` performs, with its rows in ascending code order.
- `Etf981`, `Etf985`, `Etf982`, `Etf991`: one module per script (`981a.py`, `985a.py`, `982a.py`, `991a.py`).

The four scripts classify the same way, but they differ in how they read the
previous snapshot, name gone positions, label rows and order the result:

- `981a.py` builds a list of change cards. Codes come from Python sets, and the cards are stably sorted new, up, down, exit.
- `985a.py` returns the merged table with a status column.
  - A row whose code is gone today is named 已清倉.
  - A missing previous file marks every row 首次建立.
  - A failing comparison marks every row 比對失敗.
- `982a.py` picks the greatest `*_00982a.csv` file name and merges on the code.
  - It takes the previous name for a position gone today.
  - It sorts by weight, heaviest first, with rows lacking a weight last.
- `991a.py` locates the header row of an Excel sheet and drops blank and footer rows.
  - It picks the key and quantity columns by label and merges.
  - Its status text carries the signed, comma-grouped difference.

Share counts reach the comparisons as follows:

- In `981a.py`, both sides pass through `Holdings.Normalise` before the comparison (`Etf981.CompareFetched`).
- In `991a.py`, each cell passes through `Etf991.CleanNumeric`, which is the same coercion.
- `985a.py` and `982a.py` convert their counts without this coercion, so their comparisons take integer counts as given.

Where a script's code and the general description of the system differ, the
model follows the code. On a first run without a previous snapshot, the
scripts do not classify every row as new:

- `981a.py` reports no changes.
- `985a.py` writes 首次建立 with a zero change.
- `982a.py` writes 🆕 首次抓取 with a zero change.
- `991a.py` renders today's table without any comparison.

A position gone today gets no generic placeholder name either:

- `985a.py` writes 已清倉.
- `982a.py` takes yesterday's name.
- `991a.py` leaves the name empty.

Two properties of the code stand out in the proofs:

- In `991a.py` the fallback to 證券名稱 as the key can never work. The selection `df_new[[key, '證券名稱', qty]]` then holds two 證券名稱 columns. The merge key is then not unique, so `pd.merge` raises (`Etf991.NameKeyFails`).
- The guard on a `證券名稱_x` column can never be true, since the merge suffixes are `_新` and `_舊` (`Etf991.NoXSuffixedName`).

In `981a.py`, a code held yesterday with 0 shares and missing today is still reported as a sale (`Etf981.ZeroHoldingStillExits`). The other scripts classify that case as unchanged.

## Model

| member | source | states |
|---|---|---|
| Text.Strip | 985a.py:81 | the result is the input without leading and trailing Python whitespace (`str.isspace` characters): a slice of it starting after the leading spaces, with nothing but spaces after it, and starting and ending with a non-space |
| Text.StripIdempotent | 982a.py:64 | stripping a stripped code changes nothing, so the second strip of the previous codes is harmless |
| Text.StripKeepsTrimmed | 985a.py:96 | a code that already starts and ends with a non-space is left unchanged |
| Text.RemoveCommas | 991a.py:73 | no comma is left and the result is no longer than the input |
| Text.RemoveCommasCounts | 991a.py:73 | every character other than a comma keeps its count, and the length drops by exactly the number of commas |
| Text.RemoveCommasAppend | 981a.py:155 | removing commas works piece by piece over a concatenation |
| Text.RemoveCommasNoop | 981a.py:162 | text without commas is left unchanged |
| Text.NumberOrZero | 981a.py:155 | surrounding ASCII whitespace is skipped; then a non-numeral becomes 0, and a numeral's sign decides the sign of its value |
| Text.TrimAscii | 981a.py:155 | the result neither starts nor ends with ASCII whitespace and is no longer than the input |
| Text.TrimAsciiPadded | 981a.py:155 | trimming a core padded with ASCII whitespace on both sides gives exactly that core, which fixes the result on every text |
| Text.NumeralTrimmed | 991a.py:73 | a numeral has no whitespace to trim |
| Text.NaturalTextValue | 981a.py:170 | reading the decimal digits written for `n` gives back `n` |
| Text.GroupedDigits | 991a.py:121-122 | `format(n, ',')` without its commas is a non-empty digit string whose value is `n` |
| Text.BelowTotal | 982a.py:40 | Python's string order compares any two distinct strings |
| Text.BelowTransitive | 982a.py:40 | Python's string order is transitive |
| Text.BelowIrreflexive | 982a.py:40 | no string sorts before itself |
| Text.BelowAsymmetric | 982a.py:40 | two strings never sort before each other |
| Text.ContainsTail | 991a.py:59 | a text containing a pattern contains every suffix of the pattern |
| Holdings.CodeList | 985a.py:101-107 | the join keys of one side, one per row, in row order |
| Holdings.CoerceQuantity | 981a.py:155 | a share count text, commas removed and surrounding ASCII whitespace skipped, is its integer value when it is an optionally signed numeral, and 0 otherwise |
| Holdings.CoerceIgnoresCommas | 981a.py:162 | coercing text whose commas were already removed gives the same quantity |
| Holdings.CoerceGrouped | 981a.py:155 | a comma-grouped count such as "1,234,567" reads back as its number |
| Holdings.CoercePadded | 981a.py:155 | a comma-grouped count with ASCII whitespace around it, such as " 1,234 ", reads back as its number |
| Holdings.CoerceIntText | 981a.py:162 | a quantity saved by `to_csv` as its decimal text reads back as itself on the next run |
| Holdings.Normalise | 981a.py:153-156 | every fetched row keeps its code, name and weight, and its share count is the coerced text |
| Holdings.Saved | 981a.py:170 | the saved file has one row per row of the table |
| Holdings.SavedReadsBack | 981a.py:162-170 | rows saved with their counts as integer text and coerced again on the next run are the same rows |
| Holdings.StripCodes | 985a.py:81 | every row keeps everything but its code, which is stripped |
| Holdings.StripCodesIdempotent | 985a.py:96 | stripping the codes of already stripped rows changes nothing |
| Holdings.Index | 981a.py:114 | `set_index(...).to_dict()` has exactly the codes of the rows as keys, each mapped to a row carrying that code |
| Holdings.IndexLastWins | 981a.py:114 | the row a code maps to is the last row with that code |
| Holdings.Lookup | 985a.py:101-107 | a code has a matching row on a side exactly when that side has the code, and that row is the one the side's index maps the code to |
| Holdings.Classify | 985a.py:117-124 | new exactly when from 0 to a positive count; exited exactly when from positive to 0; new or increased exactly when the count grew; exited or decreased exactly when it shrank; unchanged exactly when equal |
| Holdings.InsertCode | 985a.py:101-107 | inserting a key into an ascending key list keeps it ascending and adds exactly that key |
| Holdings.AscendingDistinct | 985a.py:101-107 | the merge keys are ascending and are exactly the given keys |
| Holdings.AscendingCardinality | 985a.py:101-107 | an ascending key list has no repeated key |
| Holdings.JoinKeys | 985a.py:101-107 | the keys of an outer merge are the union of both sides' codes, ascending, each once |
| Holdings.JoinAt | 985a.py:101-107 | a merged row carries its code and at least one side |
| Holdings.OuterJoin | 985a.py:101-107 | one row per code of either side, ascending by code; each row holds each side's row for its code, or nothing when that side lacks the code |
| Holdings.JoinCovers | 985a.py:101-107 | a code has a row in the outer join exactly when either side has the code |
| Etf981.FirstNameAt | 981a.py:120 | the name `values[0]` finds is the name of the first row with the code |
| Etf981.ChangeForMeaning | 981a.py:119-129 | a change exists for a code exactly when it is new, gone, or held on both days with a different count. Its kind is new exactly when only today has the code, exit exactly when only yesterday has it, and up or down by the comparison of the counts. New, up and down changes carry today's first name, exits yesterday's first name. Messages are the bought count, "sold all", and the difference |
| Etf981.ChangeOf | 981a.py:119-129 | the card the loop bodies append for a code is exactly the change that code calls for |
| Etf981.RecordGroup | 981a.py:119-129 | after a loop over a group of codes, every card is one the codes call for, no code has two cards, and every code of the group that calls for a card has one |
| Etf981.CompareHoldings | 981a.py:112-132 | with no previous snapshot there are no cards; otherwise every card is the change its code calls for, every code that calls for one has one, no code has two, and the cards run new, up, down, exit |
| Etf981.CompareFetched | 981a.py:155-163 | the list compares today's coerced rows with the saved snapshot's coerced rows: empty without a readable snapshot, otherwise every card is the change its code calls for, every code that calls for one has one, no code has two, and the cards run new, up, down, exit |
| Etf981.SortByRankOrders | 981a.py:130-131 | the sorted cards run new, up, down, exit |
| Etf981.SortByRankPermutes | 981a.py:131 | sorting keeps exactly the same cards |
| Etf981.SortByRankStable | 981a.py:131 | the sort is stable: cards of one kind keep their order |
| Etf981.PermutationKeepsChanges | 981a.py:131 | a reordering keeps the same cards and codes, one card per code |
| Etf981.OfKindAppend | 981a.py:131 | the cards of a kind in two lists in sequence are those of the first list followed by those of the second |
| Etf981.OfKindOfKind | 981a.py:131 | selecting a kind among cards of one kind keeps all of them or none |
| Etf981.OfKindCount | 981a.py:131 | each card occurs among those of its kind as often as in the whole list, and never among other kinds |
| Etf981.SplitByKind | 981a.py:131 | the cards are exactly the union of the cards of each of the four kinds |
| Etf981.SortedJoin | 981a.py:131 | two rank-ordered lists, all of the first ranked no later than all of the second, concatenate to a rank-ordered list |
| Etf981.SoundSnoc | 981a.py:121 | appending the card a fresh code calls for keeps every card correct and one card per code |
| Etf981.ChangeCodesSnoc | 981a.py:121 | appending a card with a fresh code adds exactly that code |
| Etf981.CodeInTail | 981a.py:120 | a code not in the first row is in the rest |
| Etf981.SelfComparisonIsQuiet | 981a.py:125-129 | comparing a snapshot with itself yields no card for any code |
| Etf981.PresenceAgreesWithQuantities | 981a.py:119-129 | when every count is positive, the kind of card a code gets is the quantity classification of its two counts, a missing side counting as 0 |
| Etf981.RerunIsQuiet | 981a.py:155-170 | fetching the same rows again on the next run yields no card for any code, since the saved file reads back as today's coerced rows |
| Etf981.ZeroHoldingStillExits | 981a.py:122-124 | a code held yesterday with 0 shares and gone today gets an exit card, although its counts classify as unchanged |
| Etf985.LabelsDistinct | 985a.py:120-124 | distinct statuses are written as distinct texts |
| Etf985.GetStatus | 985a.py:117-124 | the status is the quantity classification of the two counts, never first-run or failure |
| Etf985.Marked | 985a.py:144-149 | today's rows unchanged, each with the given status and a zero change |
| Etf985.ComparedSize | 985a.py:101-107 | the table has one row per code of either snapshot |
| Etf985.ComparedAscending | 985a.py:101-107 | the rows come in ascending code order |
| Etf985.ComparedCodes | 985a.py:101-107 | a code has a row exactly when either snapshot has it |
| Etf985.ComparedRowMeaning | 985a.py:110-129 | missing counts are 0, the change is today minus before, the status classifies the two counts, and the name is today's, or 已清倉 for a code only the previous snapshot has |
| Etf985.SelfComparisonIsFlat | 985a.py:114-124 | comparing a snapshot with itself leaves every row flat with a zero change |
| Etf985.ApplyStatus | 985a.py:110-129 | the loop fills, subtracts, labels and names every merged row |
| Etf985.ProcessComparison | 985a.py:78-149 | without a previous file, today's stripped rows are marked 首次建立; when the comparison raises, they are marked 比對失敗; otherwise the table compares today's stripped rows with the previous stripped rows |
| Etf985.RerunIsFlat | 985a.py:81-129 | re-running against a snapshot of the same rows gives one row per code, all flat with zero change |
| Etf982.LabelsDistinct | 982a.py:89-97 | distinct statuses are written as distinct texts |
| Etf982.DetermineStatus | 982a.py:87-97 | the status is the quantity classification of the two counts, never first-fetch or skipped |
| Etf982.GetPreviousCsv | 982a.py:28-46 | no file exactly when no directory entry matches `*_00982a.csv`; otherwise a matching entry that no other matching entry follows in string order |
| Etf982.Marked | 982a.py:52-56 | today's rows unchanged, each with the given status and change column |
| Etf982.ComparedSize | 982a.py:76 | the merged table has one row per code of either snapshot |
| Etf982.ComparedCodes | 982a.py:76 | a code has a row exactly when either snapshot has it |
| Etf982.ComparedRowIsMerged | 982a.py:76 | each row of the table comes from the merged row for its code, holding each snapshot's row for that code |
| Etf982.MergedRowQuantities | 982a.py:82-99 | a merged row's count is today's or 0, its change is that minus yesterday's or 0, and its status classifies the two |
| Etf982.ComparedRowQuantities | 982a.py:82-99 | each row's count is today's count for its code or 0; its change is that minus yesterday's count or 0; its status classifies the two |
| Etf982.ComparedRowName | 982a.py:79 | the name and weight are today's; a code gone today takes yesterday's name and has no weight |
| Etf982.SelfComparisonIsFlat | 982a.py:84-97 | comparing a snapshot with itself leaves every row flat with a zero change |
| Etf982.UnweighedLast | 982a.py:105 | in a weight order, rows without a weight come after every weighed row |
| Etf982.HeadFirst | 982a.py:105 | in a weight order, the first row may precede every later row |
| Etf982.InsertPermutes | 982a.py:105 | inserting a row adds exactly that row |
| Etf982.InsertOrdered | 982a.py:105 | inserting a row into a weight order keeps a weight order |
| Etf982.SortByWeightCorrect | 982a.py:105 | the sort yields a weight order of exactly the same rows, heaviest first and unweighed last |
| Etf982.ApplyStatus | 982a.py:79-99 | the loop names, fills, subtracts and labels every merged row |
| Etf982.AnalyzeChanges | 982a.py:48-107 | without a previous file, today's rows are marked 🆕 首次抓取 with a zero change; when reading it fails, they are marked "-" with no change column; otherwise the result holds exactly the compared rows, ordered by weight |
| Etf982.SameRows | 982a.py:105 | two tables holding the same rows have the same length and members |
| Etf982.StripCodesKeepsStripped | 982a.py:64 | rows whose codes are already stripped are left alone |
| Etf982.RerunIsFlat | 982a.py:64-105 | re-running against a file of the same rows gives one row per code, all flat with zero change, in some weight order |
| Etf991.FindHeaderRow | 991a.py:47-54 | the first row holding a 證券名稱 cell, or the error when no row holds one |
| Etf991.FooterIsTotalOrNote | 991a.py:59 | the footer pattern 合計, 備註 or 註 matches exactly the first cells containing 合計 or 註 |
| Etf991.DataRows | 991a.py:57-59 | a row that is entirely blank or whose first cell is a footer is dropped; every other row is kept as many times as it occurs |
| Etf991.DataRowsAppend | 991a.py:57-59 | the filter works row by row: filtering two parts of a sheet in sequence keeps the rows of the first part before those of the second |
| Etf991.Labels | 991a.py:56 | one label per header cell: a filled cell's text, and `Unnamed: k` for an empty cell in column `k` |
| Etf991.NameColumnFound | 991a.py:49-56 | the table read at the header row has a 證券名稱 column |
| Etf991.LoadToday | 991a.py:46-59 | the error exactly when no row holds 證券名稱; otherwise the table read at the first such row, with a 證券名稱 column |
| Etf991.NanAndZeroReadAsZero | 991a.py:73 | both "nan" and "0" coerce to 0 |
| Etf991.CleanNumeric | 991a.py:71-73 | cleaning a cell is the quantity coercion of its text, so the "nan" replacement changes nothing; an empty cell gives 0 |
| Etf991.ChooseColumns | 991a.py:91-92 | the key is 證券代號 exactly when present, else 證券名稱; the quantity column is 持股股數 when present, else the third column; it fails exactly when there is neither 持股股數 nor a third column |
| Etf991.MergeFailure | 991a.py:95-125 | the comparison raises nothing exactly when today's table has the key, 證券名稱 and the quantity column, the backup has the key and the quantity column, and these three labels are distinct |
| Etf991.NameKeyFails | 991a.py:91-103 | with 證券名稱 as the key, the selection and merge always raise |
| Etf991.NoXSuffixedName | 991a.py:110-111 | whenever the merge succeeds, no 證券名稱_x column exists, so the name repair never runs |
| Etf991.ColumnOf | 991a.py:100-101 | the first column carrying a label |
| Etf991.Side | 991a.py:95-101 | one holding per row of today's table, with the row's key text as code, its 證券名稱 text as name, and the coerced text of its quantity cell as count |
| Etf991.BackupSide | 991a.py:96-101 | one holding per row of the backup table, with the row's key text as code and the coerced text of its quantity cell as count |
| Etf991.DetectChange | 991a.py:113-123 | the change is the quantity classification of the two counts; an increase or decrease carries the difference new minus old, with its sign |
| Etf991.SignedTextReadsBack | 991a.py:121-122 | the signed, comma-grouped difference in the status text reads back as the difference |
| Etf991.StatusText | 991a.py:117-123 | each kind of change opens its status text with its own symbol: 🆕, 🚫, 🔺, 🔻 or ━ |
| Etf991.StatusTextCarriesDiff | 991a.py:121-122 | an increase or decrease text holds the signed difference between its parentheses, and that text reads back as the difference |
| Etf991.StatusTextDistinct | 991a.py:117-123 | two changes with the same status text are the same change, difference included |
| Etf991.ComparedSize | 991a.py:99-103 | one report row per code of either table |
| Etf991.ComparedCodes | 991a.py:99-103 | a code has a row exactly when either table has it |
| Etf991.ComparedRowMeaning | 991a.py:105-125 | missing counts are 0; the change is `detect_change` of the two counts and classifies them; a row has a name exactly when today has its code, and then it is today's name for the code |
| Etf991.SelfComparisonIsUnchanged | 991a.py:113-123 | comparing a table with itself leaves every row unchanged |
| Etf991.ApplyChange | 991a.py:105-125 | the loop fills and classifies every merged row |
| Etf991.CompareHoldings | 991a.py:75-129 | no report exactly when there is no backup; failure exactly when the columns cannot be chosen or the selection or merge raises, in particular whenever today lacks 證券代號; otherwise the rows compare the two tables through the chosen columns |
| Etf991.RunDailyUpdate | 991a.py:40-69 | a sheet without 證券名稱 fails; no comparison exactly when there is no backup and the header exists; with a header and a backup, the run fails exactly when the columns cannot be chosen or the comparison raises, and otherwise compares the table at the first header row with the backup |
| Etf991.FirstHeaderUnique | 991a.py:47-51 | a sheet has at most one first row holding 證券名稱 |

## Left out

- Fetching over HTTP, parsing JSON, HTML and Excel files, writing CSV and HTML, backups, archive folders, `print`, clocks and `glob` are left out. The directory listing and the previous snapshot are parameters.
- 991a.py picks the backup with the latest creation time (`os.path.getctime`). That choice is outside the model: the chosen backup table is a parameter.
- Share counts are integers. A count written as "1234.0", a decimal or an exponent, and floating-point NaN are not modelled; such text reads as 0 here. Surrounding ASCII whitespace is skipped, as pandas' number parser does.
- The weight column is modelled as an optional real. 981a.py's and 991a.py's float conversion of weights and counts is not modelled.
- `read_csv` type inference is not modelled. Among other things, it turns a code such as "0050" into 50 when no `dtype` is given (985a.py:91, 991a.py:87-88). Codes are always text here.
- Duplicate codes: pandas' merge emits one row per matching pair, while the model keeps one row per code, the last one as `to_dict()` does.
- Etf981.CompareHoldings: the order of cards within one kind comes from Python's set iteration order. The model leaves it open and promises only the kind order, correctness and completeness.
- Etf981.ChangeForMeaning: the card messages are kept as numbers; the `,.0f` text formatting is left out.
- 981a.py can fail to read the previous CSV after it exists. When `read_csv` itself raises, the bare `except: pass` then compares with no snapshot, and the model covers that case as the absent snapshot.
- 981a.py also has an abort path that is not modelled. If `read_csv` succeeds but the file has no 股數 column, line 162 raises after `df_old` is set. `compare_holdings` then raises KeyError at 981a.py:116, and the outer handler at 981a.py:185 ends the run without a report or a saved file.
- Holdings.Saved writes counts as integer text. 981a.py writes floats as "1234.0" whenever the coercion produced a NaN, and such text is not modelled.
- Etf985.ProcessComparison: the table keeps only the code, name and count of today's rows. 985a.py also keeps every other column it fetched, such as 權重, 股價 and 市值 (985a.py:50-53).
- Etf985.ProcessComparison: in 985a.py, an exception after `df_final = merged` (the backup move) leaves the merged table and then overwrites its status and change columns. The model treats every failure as one before the merge.
- Etf982.AnalyzeChanges: `sort_values` is not stable, so the order among rows of equal weight is unspecified. The contract states only that the result holds the compared rows in some weight order. `SortByWeight` is one such order.
- Etf982.GetPreviousCsv: modelled as a scan for the greatest matching name, which is the last element after `sort()`. Hidden-file matching follows `glob`'s rule that `*` does not match a leading dot. Other glob subtleties are not modelled.
- NaN codes and names, and pandas' mangling of duplicate header labels, are not modelled. A blank header cell becomes "Unnamed: k".
- A quantity column whose label equals the key makes `pd.merge` raise, because the merge key is then not unique. A quantity column labelled 證券名稱 lets the merge succeed. `detect_change` then raises, because it reads two values under one label and Python cannot take their truth value. The model records both cases as one failure of the comparison.
- Etf991.CompareHoldings: the HTML status text is modelled by `StatusText`, but the CSS decoration and rendering are left out.
