/** The summary figures the page derives from the table: total income, total expense,
    net saving, and the per-Type sums that feed the charts. All are pure functions of
    the row sequence. */
module Reports {
  import opened Transactions

  /** The rows whose Type equals `t`, in table order (the row filter `df.Type == t`). */
  function Select(rows: seq<Record>, t: string): (r: seq<Record>)
    ensures |r| <= |rows|
    ensures forall x :: x in r <==> x in rows && x.kind == t
  {
    if rows == [] then []
    else
      assert rows == [rows[0]] + rows[1..];
      if rows[0].kind == t then [rows[0]] + Select(rows[1..], t)
      else Select(rows[1..], t)
  }

  /** The Amount column. */
  function Amounts(rows: seq<Record>): (r: seq<real>)
    ensures |r| == |rows|
    ensures forall i :: 0 <= i < |rows| ==> r[i] == rows[i].amount
  {
    if rows == [] then [] else [rows[0].amount] + Amounts(rows[1..])
  }

  /** The sum of a column; 0 for an empty column. */
  function Sum(xs: seq<real>): real {
    if xs == [] then 0.0 else xs[0] + Sum(xs[1..])
  }

  /** Sum of Amount over the rows whose Type is `t`. */
  function TotalOf(rows: seq<Record>, t: string): real {
    Sum(Amounts(Select(rows, t)))
  }

  /** The "Total Income" figure. */
  function TotalIncome(rows: seq<Record>): real {
    TotalOf(rows, IncomeLabel)
  }

  /** The "Total Expenses" figure. */
  function TotalExpense(rows: seq<Record>): real {
    TotalOf(rows, ExpenseLabel)
  }

  /** The "Net Saving" figure. */
  function NetSaving(rows: seq<Record>): real {
    TotalIncome(rows) - TotalExpense(rows)
  }

  /** What one row does to the balance: income adds, expense subtracts, any other
      Type leaves it alone. */
  function SignedAmount(r: Record): real {
    if r.kind == IncomeLabel then r.amount
    else if r.kind == ExpenseLabel then -r.amount
    else 0.0
  }

  /** The running balance of the table, computed in a single pass: a reference
      definition of net saving that does not go through the two totals. */
  function Balance(rows: seq<Record>): real {
    if rows == [] then 0.0 else SignedAmount(rows[0]) + Balance(rows[1..])
  }

  /** Some row of the table has Type `t`. */
  predicate Occurs(rows: seq<Record>, t: string) {
    exists i :: 0 <= i < |rows| && rows[i].kind == t
  }

  /** `df.groupby("Type")["Amount"].sum()`, built by scanning the table in order and
      adding each row's amount to the entry of its Type. */
  function GroupByType(rows: seq<Record>): (g: map<string, real>)
    ensures forall t :: t in g <==> Occurs(rows, t)
  {
    if rows == [] then map[]
    else
      var g := GroupByType(rows[..|rows| - 1]);
      var r := rows[|rows| - 1];
      g[r.kind := ValueOr(g, r.kind) + r.amount]
  }

  /** The entry of `t` in a grouping, 0 when the key is absent. */
  function ValueOr(g: map<string, real>, t: string): real {
    if t in g then g[t] else 0.0
  }

  // ---------------------------------------------------------------------------
  // Totals over concatenated tables

  /** The filter keeps every occurrence of a row of Type `t` (duplicate rows included)
      and drops every occurrence of the others. */
  lemma {:induction false} SelectKeepsOccurrences(rows: seq<Record>, t: string)
    ensures forall x :: multiset(Select(rows, t))[x] == if x.kind == t then multiset(rows)[x] else 0
  {
    if rows != [] {
      assert rows == [rows[0]] + rows[1..];
      assert multiset(rows) == multiset{rows[0]} + multiset(rows[1..]);
      SelectKeepsOccurrences(rows[1..], t);
      if rows[0].kind == t {
        assert multiset(Select(rows, t)) == multiset{rows[0]} + multiset(Select(rows[1..], t));
      }
    }
  }

  /** Filtering a single row keeps it exactly when its Type is `t`. */
  lemma SelectOne(x: Record, t: string)
    ensures Select([x], t) == if x.kind == t then [x] else []
  {
    assert [x][1..] == [];
  }

  /** Filtering two tables placed end to end gives the two filtered tables end to end.
      With `SelectOne` this fixes the result row by row, so the filter keeps the
      table's order as well as every occurrence. */
  lemma {:induction false} SelectConcat(a: seq<Record>, b: seq<Record>, t: string)
    ensures Select(a + b, t) == Select(a, t) + Select(b, t)
  {
    if a == [] {
      assert a + b == b;
    } else {
      var ab := a + b;
      assert ab[1..] == a[1..] + b;
      assert ab[0] == a[0];
      SelectConcat(a[1..], b, t);
      if a[0].kind == t {
        assert Select(ab, t) == [a[0]] + Select(a[1..] + b, t);
        assert Select(a, t) == [a[0]] + Select(a[1..], t);
      } else {
        assert Select(ab, t) == Select(a[1..] + b, t);
        assert Select(a, t) == Select(a[1..], t);
      }
    }
  }

  lemma TotalOfCons(r: Record, rows: seq<Record>, t: string)
    ensures TotalOf([r] + rows, t) == (if r.kind == t then r.amount else 0.0) + TotalOf(rows, t)
  {
    assert ([r] + rows)[1..] == rows;
  }

  /** The total of a type over two tables placed end to end is the sum of their totals. */
  lemma {:induction false} TotalOfConcat(a: seq<Record>, b: seq<Record>, t: string)
    ensures TotalOf(a + b, t) == TotalOf(a, t) + TotalOf(b, t)
  {
    if a == [] {
      assert a + b == b;
    } else {
      assert a + b == [a[0]] + (a[1..] + b);
      assert a == [a[0]] + a[1..];
      TotalOfCons(a[0], a[1..] + b, t);
      TotalOfCons(a[0], a[1..], t);
      TotalOfConcat(a[1..], b, t);
    }
  }

  /** Appending one row raises the total of its own Type by its amount and leaves
      the total of every other Type unchanged. */
  lemma TotalOfAppend(rows: seq<Record>, r: Record, t: string)
    ensures TotalOf(rows + [r], t) == TotalOf(rows, t) + (if r.kind == t then r.amount else 0.0)
  {
    TotalOfConcat(rows, [r], t);
    TotalOfCons(r, [], t);
  }

  // ---------------------------------------------------------------------------
  // Values of the totals

  /** A type that no row carries totals to 0; in particular every total of the empty
      table is 0. */
  lemma {:induction false} TotalOfAbsent(rows: seq<Record>, t: string)
    requires !Occurs(rows, t)
    ensures TotalOf(rows, t) == 0.0
  {
    if rows != [] {
      assert rows == [rows[0]] + rows[1..];
      TotalOfCons(rows[0], rows[1..], t);
      assert !Occurs(rows[1..], t) by {
        forall i | 0 <= i < |rows[1..]| ensures rows[1..][i].kind != t {
          assert rows[1..][i] == rows[i + 1];
        }
      }
      TotalOfAbsent(rows[1..], t);
    }
  }

  /** When every amount is positive, as the form guarantees, a total is never negative,
      and it is strictly positive exactly when its type occurs in the table. */
  lemma {:induction false} TotalOfPositive(rows: seq<Record>, t: string)
    requires forall i :: 0 <= i < |rows| ==> rows[i].amount > 0.0
    ensures TotalOf(rows, t) >= 0.0
    ensures TotalOf(rows, t) > 0.0 <==> Occurs(rows, t)
  {
    if rows != [] {
      assert rows == [rows[0]] + rows[1..];
      TotalOfCons(rows[0], rows[1..], t);
      TotalOfPositive(rows[1..], t);
      if Occurs(rows[1..], t) {
        var i :| 0 <= i < |rows[1..]| && rows[1..][i].kind == t;
        assert rows[i + 1].kind == t;
      }
      if rows[0].kind != t && Occurs(rows, t) {
        var i :| 0 <= i < |rows| && rows[i].kind == t;
        assert rows[1..][i - 1].kind == t;
      }
    }
  }

  /** Net saving agrees with the one-pass running balance: income minus expense,
      with rows of any other Type counting for nothing. */
  lemma {:induction false} NetIsBalance(rows: seq<Record>)
    ensures NetSaving(rows) == Balance(rows)
  {
    if rows != [] {
      assert rows == [rows[0]] + rows[1..];
      TotalOfCons(rows[0], rows[1..], IncomeLabel);
      TotalOfCons(rows[0], rows[1..], ExpenseLabel);
      NetIsBalance(rows[1..]);
    }
  }

  /** When every row is labelled Income or Expense, the two totals split the sum of
      the whole Amount column. */
  lemma {:induction false} TotalsSplitAmounts(rows: seq<Record>)
    requires forall i :: 0 <= i < |rows| ==> rows[i].kind == IncomeLabel || rows[i].kind == ExpenseLabel
    ensures TotalIncome(rows) + TotalExpense(rows) == Sum(Amounts(rows))
  {
    if rows != [] {
      assert rows == [rows[0]] + rows[1..];
      TotalOfCons(rows[0], rows[1..], IncomeLabel);
      TotalOfCons(rows[0], rows[1..], ExpenseLabel);
      assert Amounts(rows)[1..] == Amounts(rows[1..]);
      TotalsSplitAmounts(rows[1..]);
    }
  }

  /** The effect of one accepted form submission on the summary: the chosen total
      rises by the amount, the other stays, and net saving moves by plus or minus
      the amount. */
  lemma AcceptedRecordEffect(rows: seq<Record>, description: string, choice: TxType, amount: real)
    ensures var rows' := rows + [NewRecord(description, choice, amount)];
      && (choice == Income ==>
            TotalIncome(rows') == TotalIncome(rows) + amount
            && TotalExpense(rows') == TotalExpense(rows)
            && NetSaving(rows') == NetSaving(rows) + amount)
      && (choice == Expense ==>
            TotalExpense(rows') == TotalExpense(rows) + amount
            && TotalIncome(rows') == TotalIncome(rows)
            && NetSaving(rows') == NetSaving(rows) - amount)
  {
    var r := NewRecord(description, choice, amount);
    TotalOfAppend(rows, r, IncomeLabel);
    TotalOfAppend(rows, r, ExpenseLabel);
  }

  // ---------------------------------------------------------------------------
  // The per-Type grouping

  /** The grouping has a key for `t` exactly when some row has Type `t`, and that
      key's value is the total of `t`. */
  lemma {:induction false} GroupByTypeAt(rows: seq<Record>, t: string)
    ensures t in GroupByType(rows) <==> Occurs(rows, t)
    ensures t in GroupByType(rows) ==> GroupByType(rows)[t] == TotalOf(rows, t)
  {
    if rows != [] {
      var front, r := rows[..|rows| - 1], rows[|rows| - 1];
      assert rows == front + [r];
      GroupByTypeAt(front, t);
      TotalOfAppend(front, r, t);
      if t !in GroupByType(front) {
        TotalOfAbsent(front, t);
      }
    }
  }

  /** The same, for every Type at once: the grouping's keys are exactly the Types
      that occur, and each value is that Type's total. */
  lemma GroupByTypeMatchesTotals(rows: seq<Record>)
    ensures forall t :: t in GroupByType(rows) <==> Occurs(rows, t)
    ensures forall t :: t in GroupByType(rows) ==> GroupByType(rows)[t] == TotalOf(rows, t)
  {
    forall t
      ensures t in GroupByType(rows) <==> Occurs(rows, t)
      ensures t in GroupByType(rows) ==> GroupByType(rows)[t] == TotalOf(rows, t)
    {
      GroupByTypeAt(rows, t);
    }
  }

  /** The grouping's Income and Expense entries, read as 0 when the key is absent,
      are the two summary totals. */
  lemma GroupAgreesWithTotals(rows: seq<Record>)
    ensures ValueOr(GroupByType(rows), IncomeLabel) == TotalIncome(rows)
    ensures ValueOr(GroupByType(rows), ExpenseLabel) == TotalExpense(rows)
  {
    GroupByTypeAt(rows, IncomeLabel);
    GroupByTypeAt(rows, ExpenseLabel);
    if !Occurs(rows, IncomeLabel) {
      TotalOfAbsent(rows, IncomeLabel);
    }
    if !Occurs(rows, ExpenseLabel) {
      TotalOfAbsent(rows, ExpenseLabel);
    }
  }

  /** The grouping is empty exactly when the table is, which is why the charts are
      drawn only for a non-empty table. */
  lemma GroupEmptyIffTableEmpty(rows: seq<Record>)
    ensures GroupByType(rows) == map[] <==> rows == []
  {
    if rows != [] {
      GroupByTypeAt(rows, rows[0].kind);
    }
  }

  /** For a table whose Types are all one of the two labels, the grouping has no
      other key and its values add up to the whole Amount column. */
  lemma GroupOfLabelledTable(rows: seq<Record>)
    requires forall i :: 0 <= i < |rows| ==> rows[i].kind == IncomeLabel || rows[i].kind == ExpenseLabel
    ensures forall t :: t in GroupByType(rows) ==> t == IncomeLabel || t == ExpenseLabel
    ensures ValueOr(GroupByType(rows), IncomeLabel) + ValueOr(GroupByType(rows), ExpenseLabel) == Sum(Amounts(rows))
  {
    GroupAgreesWithTotals(rows);
    TotalsSplitAmounts(rows);
    forall t | t in GroupByType(rows) ensures t == IncomeLabel || t == ExpenseLabel {
      GroupByTypeAt(rows, t);
    }
  }
}
