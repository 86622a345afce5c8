/** The session's transaction table and the "Add Transactions" step that appends to it
    and writes it back to the CSV file. */
module Tracker {
  import opened Transactions
  import opened Reports

  class Ledger {
    /** The in-memory table, oldest row first. */
    var rows: seq<Record>
    /** The rows the CSV file holds, as last written or read. */
    var stored: seq<Record>

    /** The table and the file agree: the table is read from the file and every
        change to it is written back at once. */
    ghost predicate Valid()
      reads this
    {
      stored == rows
    }

    /** Start of a run: the table is whatever the file holds (an empty table when the
        file had to be created). */
    constructor (loaded: seq<Record>)
      ensures Valid() && rows == loaded
    {
      rows := loaded;
      stored := loaded;
    }

    /** The form's submit step: when the guard accepts, the new row goes on the end
        of the table and the whole table is saved; otherwise nothing changes. */
    method Add(submitted: bool, description: string, choice: TxType, amount: real) returns (added: bool)
      requires Valid()
      modifies this
      ensures Valid()
      ensures added <==> Accepts(submitted, description, amount)
      ensures rows == if added then old(rows) + [NewRecord(description, choice, amount)] else old(rows)
      ensures AllFromForm(old(rows)) ==> AllFromForm(rows)
    {
      added := submitted && description != [] && amount > 0.0;
      if added {
        rows := rows + [Record(description, choice.Label(), amount)];
        stored := rows;
      }
    }

    /** `df.empty`: whether the table has no rows. */
    method IsEmpty() returns (empty: bool)
      ensures empty <==> rows == []
      ensures empty <==> GroupByType(rows) == map[]
    {
      GroupEmptyIffTableEmpty(rows);
      empty := |rows| == 0;
    }
  }

  /** A table built only through the form has non-negative totals, each positive
      exactly when its type has been entered, and a grouping with no key besides the
      two labels. */
  lemma FormTableTotals(rows: seq<Record>)
    requires AllFromForm(rows)
    ensures TotalIncome(rows) >= 0.0 && TotalExpense(rows) >= 0.0
    ensures TotalIncome(rows) > 0.0 <==> Occurs(rows, IncomeLabel)
    ensures TotalExpense(rows) > 0.0 <==> Occurs(rows, ExpenseLabel)
    ensures forall t :: t in GroupByType(rows) ==> t == IncomeLabel || t == ExpenseLabel
  {
    TotalOfPositive(rows, IncomeLabel);
    TotalOfPositive(rows, ExpenseLabel);
    GroupOfLabelledTable(rows);
  }
}
