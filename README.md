# Expense tracker: the store and its two reports

The tracker (`expense_tracker.py`) keeps one CSV file of expenses: a header row
`Date,Category,Amount`, then one row per recorded expense. At start-up `main`
initialises the file (expense_tracker.py:100); from the menu the user can then
add an expense, list the rows, print the total, or draw a bar chart of the
total per category. This project models the core under that menu:

- the file as an object (`Store.ExpenseFile`) whose state is whether the file
  exists and the sequence of its rows, already split into date, category and
  amount text;
- `initialize_file` (header written once), `add_expense` (the amount check,
  then an append of exactly one row) and `view_expenses` as methods on it;
- `show_total`'s running sum and `show_chart`'s dictionary accumulation as
  loops, proved against the specification functions `Ledger.SumAll`,
  `Ledger.SumFor` and `Ledger.Categories` (first-seen category order);
- lemmas about those functions: additivity of the total, group totals adding
  up to the total, keys that are exactly the categories present, distinct and
  in first-seen order, and failure on any non-numeric amount;
- a run of the program (`Session`): start-up initialisation followed by a
  series of additions, with the listing and the total that follow.

Python's `float()` is replaced by `Amounts.ParseAmount`, an exact decimal
parser (optional sign, digits, at most one decimal point), with exact `real`
results. It reads the numeral left to right, one character at a time
(`Amounts.Scan`).

A Python dictionary keeps its keys in insertion order. The model represents
`category_data` as a `Store.Grouping`: a `map<string, real>` plus the
`seq<string>` of its keys in insertion order.

Only `initialize_file` writes the header. `add_expense` opens the file in
append mode (expense_tracker.py:32), so on a missing file it creates one
without a header, and `Store.ExpenseFile.AddExpense` does the same. `main`
calls `initialize_file` first (expense_tracker.py:100).

## Model

| member | source | states |
|---|---|---|
| `Store.ExpenseFile.Initialize` | expense_tracker.py:12-16 | A missing file becomes a file holding only the header row. An existing file is left exactly as it is, so a second call changes nothing. |
| `Store.ExpenseFile.AddExpense` | expense_tracker.py:22-36 | Returns true exactly when the amount text is a number. If it is not, existence and rows are unchanged. If it is, the file exists and its rows are the old rows plus one row `[date, category, amount]` at the end, with the category verbatim and an amount that reads back as the entered value. |
| `Store.ExpenseFile.ViewExpenses` | expense_tracker.py:42-48 | Fails exactly when the file is missing. Otherwise it yields every row, the header included, in file order. |
| `Store.ExpenseFile.ShowTotal` | expense_tracker.py:54-61 | Succeeds exactly when the file exists and every data row's amount is a number. The result is then `SumAll` of the data rows (header excluded), which is 0 when there are none. A missing file gives `NoFile`. Otherwise the failure names the first non-numeric data row, and no partial sum is returned. |
| `Store.ExpenseFile.ByCategory` | expense_tracker.py:67-80 | Succeeds under the same condition as the total. On success, the key order is `Categories` of the data rows. The keys are exactly the categories that occur and exactly the elements of the key order. Each value is `SumFor` of its category. The dictionary is empty exactly when there are no data rows. Failures are as in `ShowTotal`. |
| `Store.ExpenseFile.ShowChart` | expense_tracker.py:67-93 | Reports "no data" exactly when there are no data rows, so plotting is not reached then. Otherwise it draws one bar per category in first-seen order, each as high as that category's total, and the heights add up to the overall total. Failures are as in `ShowTotal`. |
| `Store.AccumulateStep` | expense_tracker.py:77-80 | One pass of the dictionary update (add to an existing key, or insert a new one) keeps the keys equal to the first-seen categories, and keeps every value equal to its category's total over the rows read so far. |
| `Amounts.ParseAmount` | expense_tracker.py:27 | The number an amount text denotes, or none when `float()` would raise `ValueError`. The empty text is never a number, and only a leading minus sign gives a negative amount. The same conversion is applied to every stored amount (expense_tracker.py:59 and 75). |
| `Ledger.DataRows` | expense_tracker.py:57-58 | The reader takes the file's first row as the field names and yields every later row, in file order. An empty file yields no rows. |
| `Store.TotalStep` | expense_tracker.py:58-59 | One pass of the summing loop adds exactly the amount of the row it reads to the total of the rows before it. |
| `Ledger.AllParseEach` | expense_tracker.py:59 | The "every amount is a number" condition under which both reports succeed holds exactly when each data row's amount parses. |
| `Ledger.OneBadSpoilsAll` | expense_tracker.py:75 | A single non-numeric amount anywhere makes the whole file unreadable for the reports. |
| `Ledger.SumAllAppend` | expense_tracker.py:55-59 | The total of two row sequences joined is the sum of their totals. So each appended row adds exactly its amount to the total. |
| `Ledger.Categories` | expense_tracker.py:73-80 | The first-seen category list has at most one entry per row, and it is empty exactly when there are no rows. |
| `Ledger.CategoriesDistinct` | expense_tracker.py:77-80 | No category appears twice among the dictionary's keys. |
| `Ledger.CategoriesCover` | expense_tracker.py:73-80 | A category is a key exactly when some data row has that category. |
| `Ledger.CategoriesFirstSeen` | expense_tracker.py:77-80 | Keys are ordered by first occurrence: a key listed earlier first appears in an earlier row. |
| `Ledger.SumForAbsent` | expense_tracker.py:77-80 | A category that occurs in no row has total 0. |
| `Ledger.GroupsSumToTotal` | expense_tracker.py:55-80 | In exact arithmetic, the per-category totals over all categories present add up to the overall total. |
| `Ledger.SumOfTotals` | expense_tracker.py:88 | Bars whose heights are the per-category totals add up to the sum of those totals. |
| `Amounts.ParseShowNatural` | expense_tracker.py:27 | Every whole number written in decimal parses back to itself, and also with a leading minus sign. |
| `Amounts.ParsePointed` | expense_tracker.py:27 | A numeral with a decimal point parses to its whole part plus its fraction. |
| `Amounts.ParseTenths` | expense_tracker.py:27 | A whole number, a point and one digit parse to the number plus that many tenths. |
| `Amounts.MinusNegates` | expense_tracker.py:27 | Text with a leading minus sign parses exactly when the unsigned numeral after the sign does, and then to the negated value. |
| `Amounts.RejectsNonNumbers` | expense_tracker.py:26-30 | Text such as "abc", the empty text, a lone point and a numeral with two points are rejected. |
| `Session.Record` | expense_tracker.py:99-113 | Start-up initialisation followed by any series of add requests leaves a file that exists and holds its earlier rows (or a lone header) followed by the accepted rows in request order. |
| `Session.RecordStep` | expense_tracker.py:26-34 | One add request leaves the rows of the file as started, followed by the rows accepted so far, this request's row included when its amount is a number. |
| `Session.RecordThenList` | expense_tracker.py:99-115 | From no file, the listing after the additions is the header followed by exactly the accepted rows, in order. |
| `Session.RecordThenTotal` | expense_tracker.py:99-117 | From no file, the total after the additions never fails and equals the sum of the accepted amounts. |
| `Session.AcceptedAllValid` | expense_tracker.py:26-34 | When every amount is a number, N requests append exactly N rows, each carrying its own request's fields. |
| `Session.AcceptedParse` | expense_tracker.py:26-34 | Every row the program appends holds a number, so the reports can only fail on rows the program did not write. |
| `Session.ExampleTotal` | expense_tracker.py:54-59 | Amounts 10.0, 20.5 and 5.5 total 36.0. |
| `Session.ExampleByCategory` | expense_tracker.py:67-80 | Rows (Food, 10), (Travel, 5), (Food, 2.5) give keys Food then Travel, with totals 12.5 and 5. |

## Left out

- The menu loop, the `input()` prompts and every `print` (expense_tracker.py:99-124 and the messages inside each function) are interactive I/O. `AddExpense` returns whether it added the row in place of its two messages. `ShowTotal` returns the number without the currency formatting.
- Plotting with matplotlib (expense_tracker.py:86-93) is a foreign library call. `ShowChart` returns the bars it would hand over (labels and heights in key order), and no drawing.
- The real file system is not modelled: `os.path.exists`, opening, closing, flushing and I/O errors other than a missing file. The file is a flag plus a row sequence.
- CSV quoting and escaping are not modelled. Rows are already split into three fields, so rows with more or fewer fields, and the blank lines the reader skips, cannot arise.
- `csv.DictReader` takes the file's first row as the field names and looks fields up by name (expense_tracker.py:57-59 and 71-75). The model drops the first row and reads the others by position. The two agree whenever the first row is the header that `Initialize` writes. A file that `add_expense` creates holds one expense and no header. The reader then takes that expense for the field names and yields no rows, in Python and in the model alike: the total is 0 and the chart reports no data. They differ on a headerless file with two or more rows. There `row["Amount"]` raises `KeyError` in Python, while the model takes the first expense for the header and reports on the rest.
- `datetime.now().strftime("%Y-%m-%d")` is not modelled: the date is a parameter of `AddExpense`.
- `Amounts.ParseAmount` accepts a subset of Python's `float()` grammar: no surrounding whitespace, exponents, underscores, `inf`, `infinity` or `nan`, and no decimal digits other than ASCII `0`-`9` (Python also accepts any Unicode decimal digit, such as Arabic-Indic or full-width digits). It computes exact reals, not IEEE-754 doubles. `GroupsSumToTotal` and the bar-height sum in `ShowChart` therefore hold only in exact arithmetic. In floating point, additions in a different order may round differently.
- Store.ExpenseFile.AddExpense: the row stores the validated amount text as typed. Python writes `str(float(text))`, so "10" is stored as "10.0". Both read back as the entered value, but the stored text can differ from Python's.
- Fault values (`NoFile`, `NotANumber`) stand for the `FileNotFoundError` and `ValueError` exceptions of the reports. Nothing in `main` (expense_tracker.py:99-124) catches them, so in Python they end the program; the model returns them as results. The `KeyError` of a file without a header (see above) is not modelled. The `TypeError` of a row with too few fields cannot arise, because every row has three fields.
