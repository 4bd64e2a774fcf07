# Shared-expense balance engine, in Dafny

This project models the balance engine of a shared-expense application. Members of a
group record expenses. Each expense has payer lines (who paid what) and split lines
(who owes what). Members also record payments between each other.

The engine (`lib/calculations.ts`) does five things:

- It turns one expense into per-member deltas (paid minus owed).
- It folds a group's expenses and live payments into one net balance per member.
- It reduces those balances to a short list of suggested settlements, using a greedy
  walk over the debtors and creditors sorted by amount.
- It validates an expense before it is stored.
- It rounds amounts to the cent.

The hook `hooks/useAllGroupsBalances.ts` then aggregates, for the signed-in user, the
settlements of every group into one amount per counterparty.

Money is held as integer cents. The engine's tolerance `EPSILON = 0.01` is one cent
(`Types.Epsilon`). On whole cents every `roundCurrency` call of the engine is the
identity (`Currency.RoundCurrencyKeepsCents`), so the operations add and subtract cents
exactly.

JavaScript object iteration and `Array.prototype.sort` are modelled without fixing an
order:

- Loops over `Object.entries` / `Object.keys` pick keys with `:|`, so any order is
  covered.
- Both sorts are specified by `Sorting.SortDescending`: a non-increasing permutation.
  The properties of `simplifySettlements` are proved for every non-increasing order of
  the debtor and creditor lists (`Settlements.IsSimplification`), so ties may come out
  in any order.

Modules, one per concern:

| file | module | models |
|---|---|---|
| types.dfy | Types | the records the engine reads, `EPSILON`, `?? 0` updates |
| currency.dfy | Currency | `roundCurrency` |
| expense_deltas.dfy | Deltas | `computeExpenseDeltas` |
| validation.dfy | Validation | `validateExpense` |
| map_sum.dfy | MapSum | the sum of a balance map (for the zero-sum invariant) |
| group_balances.dfy | GroupBalances | `computeGroupNetBalances` |
| sorting.dfy | Sorting | the descending sorts |
| settlements.dfy | Settlements | `simplifySettlements` |
| all_groups_balances.dfy | AllGroupsBalances | the aggregation block of `useAllGroupsBalances` |
| scenarios.dfy | Scenarios | the worked examples of `tests/calculations.test.ts` |

### Where the written expectations and the code disagree

The model follows the code in both of these cases.

- **Settlements do not always clear every balance.** Applying the suggested settlements
  need not bring every balance within a cent of zero. The walk moves past a debtor or creditor as soon as it
  has a cent or less left, so a one-cent residue per debtor can add up to a creditor
  who is never paid.
  - Example: balances a −0.03, b −0.03, c 0.02, d 0.02, e 0.02. They sum to zero, but
    every possible result pays only two of the three creditors.
    `Scenarios.ResidualCreditor` proves this for every sort order.
  - What does hold, and is proved (`Settlements.SimplificationFacts`): every debtor, or
    else every creditor, ends within a cent (`ClearsOneSide`), and nobody pays or
    receives more than their balance (`NeverOversettles`).
- **The two-expense example of `tests/calculations.test.ts:60-86`.** The expectation at
  `tests/calculations.test.ts:83-85` is u1 70, u2 10 and u3 −80. The code computes u1 40, u2 10 and
  u3 −50: u1 paid 90 and owes 30 + 20, and u3 owes 30 + 20. `Scenarios.TwoExpensesFold`
  proves the code's values, and `Scenarios.TwoExpensesFoldIsNotSeventy` records the gap.

## Model

| member | source | states |
|---|---|---|
| Currency.RoundCurrency | lib/calculations.ts:5-8 | the result is the nearest cent to the value: within half a cent of value × 100, halves going up |
| Currency.RoundCurrencyKeepsCents | lib/calculations.ts:5-8 | rounding an amount that is already a whole number of cents gives that number back, so the engine's rounding calls never change a cent amount |
| Deltas.ComputeExpenseDeltas | lib/calculations.ts:10-23 | the payer loop then the split loop build exactly ExpenseDeltas: nothing for a deleted expense, otherwise for every uid named by a line, what it paid minus what it owes |
| Deltas.AccumulateIsNet | lib/calculations.ts:12-20 | adding every payer line and then subtracting every split line, one dictionary update at a time, gives exactly the paid-minus-owed map of the expense |
| Deltas.NetAddPayer | lib/calculations.ts:14-16 | one more payer line is one more `deltas[uid] = (deltas[uid] ?? 0) + amount` |
| Deltas.NetAddSplit | lib/calculations.ts:18-20 | one more split line is one more `deltas[uid] = (deltas[uid] ?? 0) - amount` |
| Deltas.ExpenseDeltasAt | lib/calculations.ts:10-23 | a uid has a delta exactly when the expense is live and some payer or split line names it; its delta is its payer lines' sum minus its split lines' sum, and zero otherwise |
| Deltas.NetSum | lib/calculations.ts:14-20 | the deltas of an expense sum to its paid total minus its owed total |
| Deltas.ExpenseDeltasSum | lib/calculations.ts:10-23 | a live expense moves paid total minus owed total into the ledger, and a deleted one moves nothing |
| Validation.ValidateExpense | lib/calculations.ts:94-112 | Pass exactly when the total is positive, both line sums are within a cent of it, and no line is negative; each error is returned exactly when its rule is the first to fail, in the source's order |
| Validation.AcceptedExpenseNearlyBalanced | lib/calculations.ts:94-106 | an expense that passes validation has deltas summing to within two cents of zero |
| MapSum.SumRemove | lib/calculations.ts:37-39 | the sum of a balance map does not depend on which key is visited first |
| MapSum.SumPost | lib/calculations.ts:38 | one update `balances[uid] = (balances[uid] ?? 0) + d` adds exactly d to the sum |
| GroupBalances.ComputeGroupNetBalances | lib/calculations.ts:25-49 | the seed, expense and payment loops build exactly NetBalances: the roster at zero, every expense's deltas added, every live payment applied |
| GroupBalances.MergeDeltas | lib/calculations.ts:37-39 | folding one delta map in, in any key order, gives every uid of either map the sum of its two values |
| GroupBalances.FoldExpensesAt | lib/calculations.ts:35-40 | after the expense loop, a uid has a balance exactly when it had one or a live expense names it, and the balance grew by what it paid minus what it owes |
| GroupBalances.FoldPaymentsAt | lib/calculations.ts:42-46 | after the payment loop, a uid has a balance exactly when it had one or a live payment names it, and the balance grew by what it sent minus what it received; deleted payments change nothing |
| GroupBalances.NetBalancesAt | lib/calculations.ts:25-49 | the balance map holds exactly the roster plus every uid a live expense or live payment names, and each balance is paid minus owed over live expenses plus sent minus received over live payments |
| GroupBalances.SumAddDeltas | lib/calculations.ts:37-39 | folding a delta map in adds its sum to the total |
| GroupBalances.FoldPaymentsSum | lib/calculations.ts:42-46 | payments move money between members and never change the total |
| GroupBalances.NetBalancesSum | lib/calculations.ts:25-49 | the balances sum to paid totals minus owed totals over the live expenses |
| GroupBalances.BalancedLedgerSumsToZero | lib/calculations.ts:25-49 | when every live expense's payer lines add up to its split lines, the balances sum to exactly zero |
| GroupBalances.AcceptedLedgerNearlyZeroSum | lib/calculations.ts:25-49 | when every live expense passed validateExpense, the balances sum to within two cents per expense of zero |
| Sorting.SortDescending | lib/calculations.ts:64-65 | the sorted list is a permutation of the input, ordered by non-increasing amount |
| Settlements.Partition | lib/calculations.ts:55-62 | the creditor list holds every balance above a cent once, and the debtor list every balance below minus a cent once, negated, in any key order |
| Settlements.Match | lib/calculations.ts:67-91 | the two-cursor loop emits exactly the settlements of Walk on the sorted lists |
| Settlements.WalkEmits | lib/calculations.ts:71-89 | every emitted transfer moves more than a cent from a listed debtor to a listed creditor at or after the cursors |
| Settlements.WalkLength | lib/calculations.ts:71-89 | the loop emits at most one transfer per list entry left |
| Settlements.WalkPaidBounded | lib/calculations.ts:71-89 | no debtor pays more than it owed when the walk reached it |
| Settlements.WalkReceivedBounded | lib/calculations.ts:71-89 | no creditor receives more than it was owed when the walk reached it |
| Settlements.WalkClearsOneSide | lib/calculations.ts:71-89 | the loop stops with every debtor, or else every creditor, within a cent of zero |
| Settlements.SimplificationFacts | lib/calculations.ts:51-92 | for every sort order of the two lists, the result only moves money from debtors to creditors in amounts above a cent, never over-settles anyone, clears one side to within a cent, and has at most as many transfers as there are debtors and creditors together |
| Settlements.SimplificationProperties | lib/calculations.ts:51-92 | any result simplifySettlements may return has those properties, and nobody pays themselves |
| Settlements.SimplifySettlements | lib/calculations.ts:51-92 | partition, sort and walk give a possible simplification of the balances, with the properties above |
| AllGroupsBalances.FindMember | hooks/useAllGroupsBalances.ts:86 | `members.find` returns nothing exactly when no member has the uid, and otherwise the first member that has it |
| AllGroupsBalances.FoldSettlements | hooks/useAllGroupsBalances.ts:83-103 | the per-group loop builds exactly FoldGroup of its settlements |
| AllGroupsBalances.FoldGroupAt | hooks/useAllGroupsBalances.ts:83-103 | after one group, a person has an entry exactly when it had one or is on the other side of a settlement with the user; the amount grew by what they owe the user (positive) or the user owes them (negative); a new entry takes the member's display name, or the uid when the name is missing or empty |
| AllGroupsBalances.FoldGroupIgnoresOthers | hooks/useAllGroupsBalances.ts:83-103 | settlements between other members leave the aggregate unchanged |
| AllGroupsBalances.SelfIsNoCounterparty | hooks/useAllGroupsBalances.ts:83-103 | when no settlement pays its own sender, the user never becomes their own counterparty |
| AllGroupsBalances.FoldVisitsAt | hooks/useAllGroupsBalances.ts:72-104 | across all groups, a person has an entry exactly when they are a counterparty in some group, and the entry holds their total over all groups |
| AllGroupsBalances.FoldVisitsExcludesSelf | hooks/useAllGroupsBalances.ts:72-104 | the user never gets an entry of their own |
| AllGroupsBalances.CollectBalances | hooks/useAllGroupsBalances.ts:107-118 | the result lists every entry more than a cent from zero exactly once, ordered by non-increasing amount |
| AllGroupsBalances.CollectedEntries | hooks/useAllGroupsBalances.ts:107-115 | each listed record is an entry of the aggregate, with its name and amount, more than a cent from zero |
| AllGroupsBalances.BalancesAreTotals | hooks/useAllGroupsBalances.ts:66-119 | the result lists each person whose total with the user across the groups is more than a cent from zero, once, carrying that total, and nobody else |
| AllGroupsBalances.AggregateBalances | hooks/useAllGroupsBalances.ts:66-119 | with no user, an empty uid or still loading, the result is empty; otherwise it is collected from the settlements of every group with members, each a possible simplification of that group's balances, and it never lists the user |
| Scenarios.SinglePayerEqualSplit | tests/calculations.test.ts:28-40 | 120.00 paid by u1 and split three ways gives deltas u1 80.00, u2 −40.00, u3 −40.00 |
| Scenarios.MultiPayerCustomSplit | tests/calculations.test.ts:42-56 | a 10000.00 expense paid 3000.00 by u1 and 7000.00 by u2, split 5000.00 each, gives deltas u1 −2000.00, u2 2000.00 |
| Scenarios.TwoExpensesFold | tests/calculations.test.ts:60-86 | the two even splits give balances u1 40.00, u2 10.00, u3 −50.00 |
| Scenarios.TwoExpensesFoldIsNotSeventy | tests/calculations.test.ts:83-85 | the code does not give the 70 and −80 this test expects |
| Scenarios.PercentagesBalances | tests/calculations.test.ts:88-101 | 500.00 split 100 / 200 / 200 gives balances u1 400.00, u2 −200.00, u3 −200.00 |
| Scenarios.PercentagesSettle | tests/calculations.test.ts:102-104 | in every sort order these balances simplify to two settlements, u2 and u3 each paying u1 200.00 |
| Scenarios.RoundingEdge | tests/calculations.test.ts:107-123 | a 33.34 / 33.33 / 33.33 split gives u1 66.66, u2 −33.33, u3 −33.33 exactly |
| Scenarios.PaymentImpact | tests/calculations.test.ts:125-154 | a payment of 20.00 from u3 to u1 leaves u1 at 60.00 and u3 at −20.00 |
| Scenarios.ResidualCreditor | lib/calculations.ts:71-89 | for balances −0.03, −0.03, 0.02, 0.02, 0.02, every simplification has two transfers and leaves one creditor unpaid |

## Left out

- Floating point. The engine computes in IEEE doubles and rounds with `Math.round(x * 100 + Number.EPSILON) / 100`. The model works on integer cents, where every such rounding is exact.
- Validation.ValidateExpense: accepts every line sum that is exactly one cent away from the total. The source compares the unrounded double difference `Math.abs(totalPaid - expense.totalAmount) > EPSILON` (`lib/calculations.ts:101,104`), so at a one-cent mismatch it may reject, depending on how the amounts are stored as doubles (for a total of 100 and a payer sum of 100.01 the difference is slightly above 0.01). The source accepts a subset of what the model accepts, so the bounds proved for accepted expenses still hold for the source.
- Currency.RoundCurrency: the `decimals` parameter is fixed at its default of 2. The `Number.EPSILON` nudge is not modelled, since it only matters for doubles that sit just below a half cent.
- The hook's `Math.round(data.amount * 100) / 100` is the identity on cents. Its `0.01` threshold is the same as `EPSILON`.
- Expense fields the engine does not read are not modelled: description, currency, date, creator, timestamps and notes. The same goes for member e-mail, role, status and join date.
- Settlements.SimplifySettlements: the model does not claim that the greedy walk returns the fewest possible transfers. The source does not promise this either; only the bound of one transfer per debtor and creditor is proved.
- Sorting.SortDescending: sort stability is not modelled. Every non-increasing order is allowed, and all settlement properties hold for each of them.
- AllGroupsBalances.AggregateBalances: the subscriptions that fill the per-group data, and the computation of `loading`, are React state and Firestore listeners. They are not part of this model. Both arrive as parameters.
- The persistence layer, the offline queue, the UI forms and every other file of the application are not part of this model.
