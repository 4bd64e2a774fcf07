/**
 * computeGroupNetBalances (lib/calculations.ts:25-49): every roster member is
 * seeded at zero, then the deltas of every expense and every live payment are
 * folded in, one dictionary update at a time.
 */
module GroupBalances {
  import opened Types
  import opened MapSum
  import opened Deltas
  import opened Validation

  function MemberUids(members: seq<Member>): set<Uid>
  {
    set m | m in members :: m.uid
  }

  /** `members.reduce((acc, m) => { acc[m.uid] = 0; ... })` */
  function Seed(members: seq<Member>): map<Uid, int>
  {
    map u | u in MemberUids(members) :: 0
  }

  /** The balances after every entry of `deltas` has been added in, in any order. */
  function AddDeltas(balances: map<Uid, int>, deltas: map<Uid, int>): map<Uid, int>
  {
    map u | u in balances.Keys + deltas.Keys :: Get(balances, u) + Get(deltas, u)
  }

  /** A live payment credits its payer and debits its payee; a deleted one is skipped. */
  function ApplyPayment(balances: map<Uid, int>, p: Payment): map<Uid, int>
  {
    if p.isDeleted then balances
    else Post(Post(balances, p.fromUid, p.amount), p.toUid, -p.amount)
  }

  function FoldExpenses(balances: map<Uid, int>, expenses: seq<Expense>): map<Uid, int>
  {
    if expenses == [] then balances
    else
      var n := |expenses| - 1;
      AddDeltas(FoldExpenses(balances, expenses[..n]), ExpenseDeltas(expenses[n]))
  }

  function FoldPayments(balances: map<Uid, int>, payments: seq<Payment>): map<Uid, int>
  {
    if payments == [] then balances
    else
      var n := |payments| - 1;
      ApplyPayment(FoldPayments(balances, payments[..n]), payments[n])
  }

  /** What computeGroupNetBalances returns. */
  function NetBalances(expenses: seq<Expense>, payments: seq<Payment>, members: seq<Member>): map<Uid, int>
  {
    FoldPayments(FoldExpenses(Seed(members), expenses), payments)
  }

  method ComputeGroupNetBalances(expenses: seq<Expense>, payments: seq<Payment>, members: seq<Member>)
    returns (balances: map<Uid, int>)
    ensures balances == NetBalances(expenses, payments, members)
  {
    balances := map[];
    for k := 0 to |members|
      invariant balances == Seed(members[..k])
    {
      SeedStep(members, k);
      balances := balances[members[k].uid := 0];
    }
    assert members[..|members|] == members;

    for k := 0 to |expenses|
      invariant balances == FoldExpenses(Seed(members), expenses[..k])
    {
      assert expenses[..k + 1][..k] == expenses[..k];
      var deltas := ComputeExpenseDeltas(expenses[k]);
      balances := MergeDeltas(balances, deltas);
    }
    assert expenses[..|expenses|] == expenses;
    ghost var afterExpenses := balances;

    for k := 0 to |payments|
      invariant balances == FoldPayments(afterExpenses, payments[..k])
    {
      assert payments[..k + 1][..k] == payments[..k];
      var payment := payments[k];
      if payment.isDeleted {
        continue;
      }
      balances := balances[payment.fromUid := Get(balances, payment.fromUid) + payment.amount];
      balances := balances[payment.toUid := Get(balances, payment.toUid) - payment.amount];
    }
    assert payments[..|payments|] == payments;
  }

  /** The inner `for (const [uid, delta] of Object.entries(deltas))` loop, in any key order. */
  method MergeDeltas(balances: map<Uid, int>, deltas: map<Uid, int>) returns (merged: map<Uid, int>)
    ensures merged == AddDeltas(balances, deltas)
  {
    merged := balances;
    var pending := deltas.Keys;
    while pending != {}
      invariant pending <= deltas.Keys
      invariant merged == AddDeltas(balances, deltas - pending)
      decreases pending
    {
      var uid :| uid in pending;
      AddDeltasStep(balances, deltas, pending, uid);
      merged := merged[uid := Get(merged, uid) + deltas[uid]];
      pending := pending - {uid};
    }
    assert deltas - {} == deltas;
  }

  lemma SeedStep(members: seq<Member>, k: nat)
    requires k < |members|
    ensures Seed(members[..k + 1]) == Seed(members[..k])[members[k].uid := 0]
  {
    assert members[..k + 1] == members[..k] + [members[k]];
    assert MemberUids(members[..k + 1]) == MemberUids(members[..k]) + {members[k].uid};
  }

  /** Adding one more delta entry is one more `balances[uid] += delta`. */
  lemma AddDeltasStep(balances: map<Uid, int>, deltas: map<Uid, int>, pending: set<Uid>, u: Uid)
    requires u in pending && u in deltas
    ensures AddDeltas(balances, deltas - (pending - {u}))
              == Post(AddDeltas(balances, deltas - pending), u, deltas[u])
  {
    assert deltas - (pending - {u}) == (deltas - pending)[u := deltas[u]];
  }

  /** Taking one entry of `deltas` first does not change the result. */
  lemma AddDeltasShift(balances: map<Uid, int>, deltas: map<Uid, int>, k: Uid)
    requires k in deltas
    ensures AddDeltas(balances, deltas) == AddDeltas(Post(balances, k, deltas[k]), deltas - {k})
  {
    var lhs := AddDeltas(balances, deltas);
    var rhs := AddDeltas(Post(balances, k, deltas[k]), deltas - {k});
    assert lhs.Keys == rhs.Keys;
    forall u | u in lhs ensures lhs[u] == rhs[u] {
      if u != k {
        assert Get(Post(balances, k, deltas[k]), u) == Get(balances, u);
        assert Get(deltas - {k}, u) == Get(deltas, u);
      }
    }
  }

  // ----- Reference definitions: what each uid's balance is made of -----

  /** The uids named by some line of a live expense. */
  function ExpenseUids(expenses: seq<Expense>): set<Uid>
  {
    if expenses == [] then {}
    else
      var e := expenses[|expenses| - 1];
      ExpenseUids(expenses[..|expenses| - 1])
        + (if e.isDeleted then {} else LineUids(e.payers) + LineUids(e.splits))
  }

  /** The uids on either side of a live payment. */
  function PaymentUids(payments: seq<Payment>): set<Uid>
  {
    if payments == [] then {}
    else
      var p := payments[|payments| - 1];
      PaymentUids(payments[..|payments| - 1]) + (if p.isDeleted then {} else {p.fromUid, p.toUid})
  }

  /** What `u` paid minus what `u` owes over the live expenses. */
  function ExpensesNet(expenses: seq<Expense>, u: Uid): int
  {
    if expenses == [] then 0
    else
      var e := expenses[|expenses| - 1];
      ExpensesNet(expenses[..|expenses| - 1], u)
        + (if e.isDeleted then 0 else LineSum(e.payers, u) - LineSum(e.splits, u))
  }

  /** What `u` sent minus what `u` received over the live payments. */
  function PaymentsNet(payments: seq<Payment>, u: Uid): int
  {
    if payments == [] then 0
    else
      var p := payments[|payments| - 1];
      PaymentsNet(payments[..|payments| - 1], u)
        + (if p.isDeleted then 0
           else (if p.fromUid == u then p.amount else 0) - (if p.toUid == u then p.amount else 0))
  }

  /** Paid totals minus owed totals over the live expenses. */
  function Imbalance(expenses: seq<Expense>): int
  {
    if expenses == [] then 0
    else
      var e := expenses[|expenses| - 1];
      Imbalance(expenses[..|expenses| - 1])
        + (if e.isDeleted then 0 else Total(e.payers) - Total(e.splits))
  }

  lemma {:induction false} FoldExpensesAt(balances: map<Uid, int>, expenses: seq<Expense>, u: Uid)
    ensures u in FoldExpenses(balances, expenses) <==> u in balances || u in ExpenseUids(expenses)
    ensures Get(FoldExpenses(balances, expenses), u) == Get(balances, u) + ExpensesNet(expenses, u)
  {
    if expenses != [] {
      var n := |expenses| - 1;
      FoldExpensesAt(balances, expenses[..n], u);
      ExpenseDeltasAt(expenses[n], u);
    }
  }

  lemma {:induction false} FoldPaymentsAt(balances: map<Uid, int>, payments: seq<Payment>, u: Uid)
    ensures u in FoldPayments(balances, payments) <==> u in balances || u in PaymentUids(payments)
    ensures Get(FoldPayments(balances, payments), u) == Get(balances, u) + PaymentsNet(payments, u)
  {
    if payments != [] {
      FoldPaymentsAt(balances, payments[..|payments| - 1], u);
    }
  }

  /**
   * The balance map holds exactly the roster plus every uid a live expense or
   * payment names; each balance starts at zero and is what the uid paid minus
   * what it owes over live expenses, plus what it sent minus what it received
   * over live payments. Deleted records contribute nothing.
   */
  lemma NetBalancesAt(expenses: seq<Expense>, payments: seq<Payment>, members: seq<Member>, u: Uid)
    ensures u in NetBalances(expenses, payments, members) <==>
              u in MemberUids(members) || u in ExpenseUids(expenses) || u in PaymentUids(payments)
    ensures Get(NetBalances(expenses, payments, members), u) ==
              ExpensesNet(expenses, u) + PaymentsNet(payments, u)
  {
    FoldExpensesAt(Seed(members), expenses, u);
    FoldPaymentsAt(FoldExpenses(Seed(members), expenses), payments, u);
  }

  /** Folding in one map of deltas adds their sum to the total. */
  lemma {:induction false} SumAddDeltas(balances: map<Uid, int>, deltas: map<Uid, int>)
    ensures Sum(AddDeltas(balances, deltas)) == Sum(balances) + Sum(deltas)
    decreases |deltas|
  {
    if deltas == map[] {
      assert AddDeltas(balances, deltas) == balances;
    } else {
      var k :| k in deltas;
      var rest := deltas - {k};
      AddDeltasShift(balances, deltas, k);
      SumRemove(deltas, k);
      SumPost(balances, k, deltas[k]);
      SumAddDeltas(Post(balances, k, deltas[k]), rest);
    }
  }

  lemma {:induction false} FoldExpensesSum(balances: map<Uid, int>, expenses: seq<Expense>)
    ensures Sum(FoldExpenses(balances, expenses)) == Sum(balances) + Imbalance(expenses)
  {
    if expenses != [] {
      var n := |expenses| - 1;
      FoldExpensesSum(balances, expenses[..n]);
      SumAddDeltas(FoldExpenses(balances, expenses[..n]), ExpenseDeltas(expenses[n]));
      ExpenseDeltasSum(expenses[n]);
    }
  }

  /** Payments only move money between members: they never change the total. */
  lemma {:induction false} FoldPaymentsSum(balances: map<Uid, int>, payments: seq<Payment>)
    ensures Sum(FoldPayments(balances, payments)) == Sum(balances)
  {
    if payments != [] {
      var n := |payments| - 1;
      var before := FoldPayments(balances, payments[..n]);
      FoldPaymentsSum(balances, payments[..n]);
      var p := payments[n];
      if !p.isDeleted {
        SumPost(before, p.fromUid, p.amount);
        SumPost(Post(before, p.fromUid, p.amount), p.toUid, -p.amount);
      }
    }
  }

  /** The balances sum to paid totals minus owed totals over the live expenses. */
  lemma NetBalancesSum(expenses: seq<Expense>, payments: seq<Payment>, members: seq<Member>)
    ensures Sum(NetBalances(expenses, payments, members)) == Imbalance(expenses)
  {
    SumOfZeros(Seed(members));
    FoldExpensesSum(Seed(members), expenses);
    FoldPaymentsSum(FoldExpenses(Seed(members), expenses), payments);
  }

  lemma {:induction false} ImbalanceOfBalancedExpenses(expenses: seq<Expense>)
    requires forall e :: e in expenses && !e.isDeleted ==> Total(e.payers) == Total(e.splits)
    ensures Imbalance(expenses) == 0
  {
    if expenses != [] {
      var n := |expenses| - 1;
      assert expenses[n] in expenses;
      assert forall e :: e in expenses[..n] ==> e in expenses;
      ImbalanceOfBalancedExpenses(expenses[..n]);
    }
  }

  /**
   * The zero-sum invariant: when every live expense's payer lines add up to
   * its split lines, the balances sum to exactly zero.
   */
  lemma BalancedLedgerSumsToZero(expenses: seq<Expense>, payments: seq<Payment>, members: seq<Member>)
    requires forall e :: e in expenses && !e.isDeleted ==> Total(e.payers) == Total(e.splits)
    ensures Sum(NetBalances(expenses, payments, members)) == 0
  {
    NetBalancesSum(expenses, payments, members);
    ImbalanceOfBalancedExpenses(expenses);
  }

  lemma {:induction false} ImbalanceOfAcceptedExpenses(expenses: seq<Expense>)
    requires forall e :: e in expenses && !e.isDeleted ==> ValidateExpense(e) == Pass
    ensures Abs(Imbalance(expenses)) <= 2 * Epsilon * |expenses|
  {
    if expenses != [] {
      var n := |expenses| - 1;
      assert expenses[n] in expenses;
      assert forall e :: e in expenses[..n] ==> e in expenses;
      ImbalanceOfAcceptedExpenses(expenses[..n]);
      var e := expenses[n];
      if !e.isDeleted {
        AcceptedExpenseNearlyBalanced(e);
        ExpenseDeltasSum(e);
      }
      assert Abs(Imbalance(expenses) - Imbalance(expenses[..n])) <= 2 * Epsilon;
      assert 2 * Epsilon * |expenses| == 2 * Epsilon * n + 2 * Epsilon;
    }
  }

  /**
   * When every live expense passed validateExpense, the balances sum to within
   * two cents per expense of zero (each expense may be off by a cent on either side).
   */
  lemma AcceptedLedgerNearlyZeroSum(expenses: seq<Expense>, payments: seq<Payment>, members: seq<Member>)
    requires forall e :: e in expenses && !e.isDeleted ==> ValidateExpense(e) == Pass
    ensures Abs(Sum(NetBalances(expenses, payments, members))) <= 2 * Epsilon * |expenses|
  {
    NetBalancesSum(expenses, payments, members);
    ImbalanceOfAcceptedExpenses(expenses);
  }
}
