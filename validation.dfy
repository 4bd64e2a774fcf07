/**
 * validateExpense (lib/calculations.ts:94-112): the guard an expense must pass
 * before it is stored. The thrown errors become the values of Fail, and the
 * four rules are tried in the source's order, so the first failing rule names
 * the error.
 */
module Validation {
  import opened Types
  import opened MapSum
  import opened Deltas

  datatype ValidationError =
    | NonPositiveTotal   // 'Total amount must be positive'
    | PayerSumMismatch   // 'Sum of payer amounts must match total'
    | SplitSumMismatch   // 'Sum of split amounts must match total'
    | NegativeAmount     // 'Amounts must be non-negative'

  datatype Outcome = Pass | Fail(error: ValidationError)

  /**
   * The invariant every stored expense keeps: a positive total that the payer
   * lines and the split lines each match to within a cent, and no negative line.
   */
  ghost predicate WellFormed(e: Expense)
  {
    && e.totalAmount > 0
    && Abs(Total(e.payers) - e.totalAmount) <= Epsilon
    && Abs(Total(e.splits) - e.totalAmount) <= Epsilon
    && (forall l :: l in e.payers ==> l.amount >= 0)
    && (forall l :: l in e.splits ==> l.amount >= 0)
  }

  function ValidateExpense(e: Expense): (r: Outcome)
    ensures r == Pass <==> WellFormed(e)
    ensures r == Fail(NonPositiveTotal) <==> e.totalAmount <= 0
    ensures r == Fail(PayerSumMismatch) <==>
              e.totalAmount > 0 && Abs(Total(e.payers) - e.totalAmount) > Epsilon
    ensures r == Fail(SplitSumMismatch) <==>
              && e.totalAmount > 0
              && Abs(Total(e.payers) - e.totalAmount) <= Epsilon
              && Abs(Total(e.splits) - e.totalAmount) > Epsilon
    ensures r == Fail(NegativeAmount) <==>
              && e.totalAmount > 0
              && Abs(Total(e.payers) - e.totalAmount) <= Epsilon
              && Abs(Total(e.splits) - e.totalAmount) <= Epsilon
              && exists l :: l in e.payers + e.splits && l.amount < 0
  {
    var totalPaid := Total(e.payers);
    var totalOwed := Total(e.splits);
    if e.totalAmount <= 0 then Fail(NonPositiveTotal)
    else if Abs(totalPaid - e.totalAmount) > Epsilon then Fail(PayerSumMismatch)
    else if Abs(totalOwed - e.totalAmount) > Epsilon then Fail(SplitSumMismatch)
    else if exists l :: l in e.payers + e.splits && l.amount < 0 then Fail(NegativeAmount)
    else Pass
  }

  /**
   * An accepted expense moves at most two cents of imbalance into the ledger:
   * its deltas sum to within 2 * Epsilon of zero.
   */
  lemma AcceptedExpenseNearlyBalanced(e: Expense)
    requires ValidateExpense(e) == Pass
    ensures Abs(Sum(ExpenseDeltas(e))) <= 2 * Epsilon
  {
    ExpenseDeltasSum(e);
  }
}
