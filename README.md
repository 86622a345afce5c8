# Personal finance tracker: transaction ledger and summary figures

This project models the logic in `streamlit_app.py` of a small Streamlit personal-finance
tracker. A form in the sidebar adds a transaction with a description, a type and an amount.
It is added only when the form was submitted, the description is non-empty and the amount
is strictly positive. Accepted rows are appended to an in-memory table, and the whole table
is written back to `transactions.csv`. The page then shows total income, total expenses and
net saving. When the table is non-empty, it also groups the amounts by type for a pie chart
and a bar chart.

Files:

- `transactions.dfy` (module `Transactions`): a table row `Record(description, kind, amount)`.
  `kind` is the Type column. The form's closed choice is `TxType = Income | Expense`, and
  `Label()` gives the string it writes. `Accepts` is the form's guard. `NewRecord` builds the
  row the form appends.
- `reports.dfy` (module `Reports`): the summary figures as pure functions of the row
  sequence. `Select` is the row filter. `TotalOf`, `TotalIncome`, `TotalExpense` and
  `NetSaving` are the totals. `GroupByType` builds the per-type sums with a left-to-right
  scan. The module also holds the lemmas that relate these figures to each other and to an
  independent one-pass running balance (`Balance`).
- `tracker.dfy` (module `Tracker`): class `Ledger`. It holds the session's table (`rows`)
  and what the CSV file holds (`stored`). `Add` is the guarded append-and-save step, and
  `IsEmpty` is `df.empty`.

Modelling choices:

- Amounts are exact `real`s. Float rounding in the sums is not modelled.
- The Type column is a string, because rows read back from the CSV file may hold any string
  there. The form itself only writes `"Income"` or `"Expense"`. A row of any other type
  counts toward neither total. It gets its own entry in the grouping.
- The CSV file is an opaque source and sink of the row sequence. The constructor takes the
  rows the file held at start-up, and `Add` sets `stored` to the whole new table, because
  `save_data` overwrites the file. `Valid()` says the file and the table agree.
- The form's `min_value=0.0` bound on the amount is not a precondition of `Add`. The guard
  `amount > 0` already rejects zero and every negative amount, so `Add` is total.
- `Accepts` tests only that the description is non-empty, which is Python truthiness of
  `str`. A description made only of spaces is therefore accepted.

## Model

| member | source | states |
|---|---|---|
| Transactions.TxType.Label | streamlit_app.py:52 | the select box offers exactly two choices, and each writes its own distinct label, "Income" or "Expense", into the Type column |
| Transactions.NewRecord | streamlit_app.py:55-60 | the row built from the form's inputs is a well-formed form row (known label, positive amount, non-empty description) exactly when the guard accepts those inputs |
| Transactions.Accepts | streamlit_app.py:55 | the form's guard: submitted, non-empty description, amount above 0; its effect on the table is stated by Tracker.Ledger.Add |
| Reports.Select | streamlit_app.py:69-70 | the row filter `df.Type == t`: a row is in the result exactly when it is in the table and has type `t`, and the result is never longer than the table |
| Reports.SelectKeepsOccurrences | streamlit_app.py:69-70 | the filter keeps every occurrence of a row of type `t`, duplicates included, and no occurrence of any other row |
| Reports.SelectOne | streamlit_app.py:69-70 | filtering a single row keeps it exactly when its type is `t` |
| Reports.SelectConcat | streamlit_app.py:69-70 | filtering two tables placed end to end gives the two filtered tables end to end; with SelectOne this fixes the result row by row, in table order |
| Reports.TotalIncome | streamlit_app.py:69 | the "Total Income" figure; its properties are stated by TotalOfAppend, TotalOfAbsent, TotalOfPositive and GroupAgreesWithTotals |
| Reports.TotalExpense | streamlit_app.py:70 | the "Total Expenses" figure; its properties are stated by the same lemmas as TotalIncome |
| Reports.NetSaving | streamlit_app.py:71 | the "Net Saving" figure; NetIsBalance equates it with the one-pass running balance |
| Reports.GroupByType | streamlit_app.py:91 | the group-by has a key for exactly the types that occur in the table; GroupByTypeAt adds that each value is its type's total |
| Reports.TotalOfConcat | streamlit_app.py:69-70 | the sum of Amount over the rows of one type is additive over tables placed end to end |
| Reports.TotalOfAppend | streamlit_app.py:61 | appending a row raises the total of its own type by its amount and leaves every other type's total unchanged |
| Reports.TotalOfAbsent | streamlit_app.py:69-70 | a type that no row carries has total 0, so the empty table and a table without income (or expense) rows show 0 |
| Reports.TotalOfPositive | streamlit_app.py:69-70 | when all amounts are positive, each total is non-negative, and it is positive exactly when its type occurs |
| Reports.NetIsBalance | streamlit_app.py:71 | net saving (income total minus expense total) equals the one-pass running balance, where income adds, expense subtracts and other types count for nothing |
| Reports.TotalsSplitAmounts | streamlit_app.py:69-70 | when every row is Income or Expense, the two totals add up to the sum of the whole Amount column |
| Reports.AcceptedRecordEffect | streamlit_app.py:55-71 | an accepted Income row raises total income by its amount, leaves total expense unchanged and raises net saving by the amount; an Expense row does the reverse for expense and lowers net saving by the amount |
| Reports.GroupByTypeAt | streamlit_app.py:91 | the group-by has a key for a type exactly when some row has that type, and the key's value is that type's total |
| Reports.GroupByTypeMatchesTotals | streamlit_app.py:91 | the group-by's keys are exactly the types that occur, and every value is the total of its type |
| Reports.GroupAgreesWithTotals | streamlit_app.py:91 | the group-by's Income and Expense entries (0 when absent) equal total income and total expense |
| Reports.GroupEmptyIffTableEmpty | streamlit_app.py:90-91 | the group-by is empty exactly when the table is empty |
| Reports.GroupOfLabelledTable | streamlit_app.py:90-91 | for a table whose types are all Income or Expense, the group-by has no other key, and its values sum to the whole Amount column |
| Tracker.Ledger.constructor | streamlit_app.py:44-45 | a run starts with the table equal to the rows the CSV file holds, and the file and the table agree |
| Tracker.Ledger.Add | streamlit_app.py:55-62 | the row is added exactly when the form was submitted with a non-empty description and a positive amount; then the table is the old table with the new row on the end, and the file holds the new table; otherwise nothing changes; a table of form rows stays one |
| Tracker.Ledger.IsEmpty | streamlit_app.py:90 | `df.empty` is true exactly when the table has no rows, which is exactly when the group-by is empty |
| Tracker.FormTableTotals | streamlit_app.py:53-70 | a table built only through the form has non-negative totals, each positive exactly when its type was entered, and a group-by with no key besides Income and Expense |

## Left out

- CSV persistence (`init_file`, `load_data`, `save_data`, and the download button at lines 15-31 and 108-113): the file is only a sequence of rows in the model. Pandas' text encoding, a missing file and unreadable content are file I/O and are not modelled.
- `convert_currency` and the conversion widget (lines 35-40 and 79-85): the result comes from an external HTTP service, and the computation is not visible in this repository.
- The Streamlit page (titles, sidebar, form widgets, `st.write`, `st.success`, `st.dataframe`): presentation only.
- The pie chart and bar chart (lines 93-99): rendering. The grouping they draw is modelled.
- Floating-point behaviour: `%.2f` formatting, `autopct` percentages and rounding in pandas' float sums. Amounts are exact reals.
- Script reruns and session state: each Streamlit rerun re-reads the file. The model keeps one `Ledger` object whose `Valid()` says the table and the file agree.
