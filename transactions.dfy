/** One row of the transaction table (columns Description, Type, Amount) and the
    validation rule of the "Add Transactions" form. */
module Transactions {

  /** The Type column's label for money coming in. */
  const IncomeLabel: string := "Income"

  /** The Type column's label for money going out. */
  const ExpenseLabel: string := "Expense"

  /** The closed choice offered by the form's Type select box. */
  datatype TxType = Income | Expense {
    /** The string the choice writes into the Type column. */
    function Label(): (s: string)
      ensures s == IncomeLabel <==> this == Income
      ensures s == ExpenseLabel <==> this == Expense
    {
      match this
      case Income => IncomeLabel
      case Expense => ExpenseLabel
    }
  }

  /** A row of the table. `kind` is the Type column: rows read back from the CSV file
      may hold any string there, rows added through the form hold one of the two labels. */
  datatype Record = Record(description: string, kind: string, amount: real)

  /** The form's guard: the button was pressed, the description is a non-empty string
      (Python truthiness of `str`) and the amount is strictly positive. */
  predicate Accepts(submitted: bool, description: string, amount: real) {
    submitted && description != [] && amount > 0.0
  }

  /** A row the form can produce: a known label and a strictly positive amount. */
  predicate FromForm(r: Record) {
    (r.kind == IncomeLabel || r.kind == ExpenseLabel) && r.amount > 0.0 && r.description != []
  }

  /** The row the form builds from its inputs. */
  function NewRecord(description: string, choice: TxType, amount: real): (r: Record)
    ensures Accepts(true, description, amount) <==> FromForm(r)
  {
    Record(description, choice.Label(), amount)
  }

  /** Every row of the table could have come from the form. */
  predicate AllFromForm(rows: seq<Record>) {
    forall i :: 0 <= i < |rows| ==> FromForm(rows[i])
  }
}
