/**
 * The worked examples of tests/calculations.test.ts, in cents, as lemmas about
 * the model, and the example showing that a simplification can leave a
 * creditor short although the balances sum to zero.
 */
module Scenarios {
  import opened Types
  import opened Sorting
  import opened Deltas
  import opened GroupBalances
  import opened Settlements

  const Roster: seq<Member> := [Member("u1", "U1"), Member("u2", "U2"), Member("u3", "U3")]

  /** An expense paid in full by one member. */
  function PaidBy1(payer: Uid, total: int, splits: seq<Line>): Expense
  {
    Expense(total, [Line(payer, total)], splits, false)
  }

  function Share(l: Line, u: Uid): int { if l.uid == u then l.amount else 0 }

  lemma LineSumOfOne(a: Line, u: Uid)
    ensures LineSum([a], u) == Share(a, u)
  {
    assert [a][..0] == [];
  }

  lemma LineSumOfTwo(a: Line, b: Line, u: Uid)
    ensures LineSum([a, b], u) == Share(a, u) + Share(b, u)
  {
    LineSumOfOne(a, u);
    LineSumAppend([a], b, u);
    assert [a] + [b] == [a, b];
  }

  lemma LineSumOfThree(a: Line, b: Line, c: Line, u: Uid)
    ensures LineSum([a, b, c], u) == Share(a, u) + Share(b, u) + Share(c, u)
  {
    LineSumOfTwo(a, b, u);
    LineSumAppend([a, b], c, u);
    assert [a, b] + [c] == [a, b, c];
  }

  lemma RosterUids()
    ensures MemberUids(Roster) == {"u1", "u2", "u3"}
  {
    assert Roster[0] in Roster && Roster[1] in Roster && Roster[2] in Roster;
  }

  /** A live expense with one payer from the roster and one split line per roster member, in roster order. */
  ghost predicate ThreeWay(e: Expense)
  {
    && !e.isDeleted && |e.payers| == 1 && |e.splits| == 3
    && e.payers[0].uid in {"u1", "u2", "u3"}
    && e.splits[0].uid == "u1" && e.splits[1].uid == "u2" && e.splits[2].uid == "u3"
  }

  /** What `u` paid minus what `u` owes in a ThreeWay expense. */
  function ThreeWayNet(e: Expense, u: Uid): int
    requires |e.payers| == 1 && |e.splits| == 3
  {
    Share(e.payers[0], u) - (Share(e.splits[0], u) + Share(e.splits[1], u) + Share(e.splits[2], u))
  }

  lemma ThreeWayAt(e: Expense, u: Uid)
    requires ThreeWay(e)
    ensures u in LineUids(e.payers) + LineUids(e.splits) <==> u in {"u1", "u2", "u3"}
    ensures LineSum(e.payers, u) - LineSum(e.splits, u) == ThreeWayNet(e, u)
  {
    var s := e.splits;
    assert e.payers == [e.payers[0]];
    assert s == [s[0], s[1], s[2]];
    assert e.payers[0] in e.payers;
    assert LineUids(s) == {"u1", "u2", "u3"} by {
      assert s[0] in s && s[1] in s && s[2] in s;
    }
    LineSumOfOne(e.payers[0], u);
    LineSumOfThree(s[0], s[1], s[2], u);
  }

  /** The balance of `u` after one ThreeWay expense and some payments between roster members. */
  lemma OneExpenseAt(e: Expense, ps: seq<Payment>, u: Uid)
    requires ThreeWay(e)
    requires PaymentUids(ps) <= {"u1", "u2", "u3"}
    ensures u in NetBalances([e], ps, Roster) <==> u in {"u1", "u2", "u3"}
    ensures Get(NetBalances([e], ps, Roster), u) == ThreeWayNet(e, u) + PaymentsNet(ps, u)
  {
    assert [e][..0] == [];
    RosterUids();
    ThreeWayAt(e, u);
    NetBalancesAt([e], ps, Roster, u);
  }

  /** The balance of `u` after two ThreeWay expenses and no payments. */
  lemma TwoExpensesAt(e1: Expense, e2: Expense, u: Uid)
    requires ThreeWay(e1) && ThreeWay(e2)
    ensures u in NetBalances([e1, e2], [], Roster) <==> u in {"u1", "u2", "u3"}
    ensures Get(NetBalances([e1, e2], [], Roster), u) == ThreeWayNet(e1, u) + ThreeWayNet(e2, u)
  {
    var es := [e1, e2];
    assert es[..1] == [e1];
    assert [e1][..0] == [];
    assert ExpenseUids([e1]) == LineUids(e1.payers) + LineUids(e1.splits);
    assert ExpenseUids(es) == LineUids(e1.payers) + LineUids(e1.splits) + LineUids(e2.payers) + LineUids(e2.splits);
    RosterUids();
    ThreeWayAt(e1, u);
    ThreeWayAt(e2, u);
    assert ExpensesNet([e1], u) == ThreeWayNet(e1, u);
    assert ExpensesNet(es, u) == ThreeWayNet(e1, u) + ThreeWayNet(e2, u);
    NetBalancesAt(es, [], Roster, u);
  }

  /** 120.00 paid by u1, split 40.00 three ways. */
  lemma SinglePayerEqualSplit()
    ensures ExpenseDeltas(PaidBy1("u1", 12000, [Line("u1", 4000), Line("u2", 4000), Line("u3", 4000)]))
              == map["u1" := 8000, "u2" := -4000, "u3" := -4000]
  {
    var e := PaidBy1("u1", 12000, [Line("u1", 4000), Line("u2", 4000), Line("u3", 4000)]);
    var d := ExpenseDeltas(e);
    var want := map["u1" := 8000, "u2" := -4000, "u3" := -4000];
    forall u ensures (u in d <==> u in want) && Get(d, u) == Get(want, u) {
      ExpenseDeltasAt(e, u);
      ThreeWayAt(e, u);
    }
  }

  /** 10000.00 paid 3000.00 by u1 and 7000.00 by u2, split 5000.00 each. */
  lemma MultiPayerCustomSplit()
    ensures ExpenseDeltas(Expense(1000000, [Line("u1", 300000), Line("u2", 700000)], [Line("u1", 500000), Line("u2", 500000)], false))
              == map["u1" := -200000, "u2" := 200000]
  {
    var e := Expense(1000000, [Line("u1", 300000), Line("u2", 700000)], [Line("u1", 500000), Line("u2", 500000)], false);
    var d := ExpenseDeltas(e);
    var want := map["u1" := -200000, "u2" := 200000];
    assert LineUids(e.payers) == {"u1", "u2"} by {
      assert e.payers[0] in e.payers && e.payers[1] in e.payers;
    }
    assert LineUids(e.splits) == {"u1", "u2"} by {
      assert e.splits[0] in e.splits && e.splits[1] in e.splits;
    }
    forall u ensures (u in d <==> u in want) && Get(d, u) == Get(want, u) {
      ExpenseDeltasAt(e, u);
      LineSumOfTwo(e.payers[0], e.payers[1], u);
      LineSumOfTwo(e.splits[0], e.splits[1], u);
    }
  }

  const EvenSplit90: Expense := PaidBy1("u1", 9000, [Line("u1", 3000), Line("u2", 3000), Line("u3", 3000)])
  const EvenSplit60: Expense := PaidBy1("u2", 6000, [Line("u1", 2000), Line("u2", 2000), Line("u3", 2000)])

  /**
   * 90.00 paid by u1 and 60.00 paid by u2, each split evenly: u1 paid 90.00 and
   * owes 50.00, u2 paid 60.00 and owes 50.00, u3 owes 50.00.
   */
  lemma TwoExpensesFold()
    ensures NetBalances([EvenSplit90, EvenSplit60], [], Roster) == map["u1" := 4000, "u2" := 1000, "u3" := -5000]
  {
    var b := NetBalances([EvenSplit90, EvenSplit60], [], Roster);
    var want := map["u1" := 4000, "u2" := 1000, "u3" := -5000];
    forall u ensures (u in b <==> u in want) && Get(b, u) == Get(want, u) {
      TwoExpensesAt(EvenSplit90, EvenSplit60, u);
    }
  }

  /** Against the 70 / 10 / -80 that the test file expects for the same two expenses. */
  lemma TwoExpensesFoldIsNotSeventy()
    ensures NetBalances([EvenSplit90, EvenSplit60], [], Roster)["u1"] != 7000
    ensures NetBalances([EvenSplit90, EvenSplit60], [], Roster)["u3"] != -8000
  {
    TwoExpensesFold();
  }

  const PercentagesNet: map<Uid, int> := map["u1" := 40000, "u2" := -20000, "u3" := -20000]

  const Percentages: Expense := PaidBy1("u1", 50000, [Line("u1", 10000), Line("u2", 20000), Line("u3", 20000)])

  lemma PercentagesBalances()
    ensures NetBalances([Percentages], [], Roster) == PercentagesNet
  {
    var b := NetBalances([Percentages], [], Roster);
    var want := PercentagesNet;
    forall u ensures (u in b <==> u in want) && Get(b, u) == Get(want, u) {
      OneExpenseAt(Percentages, [], u);
    }
  }

  /**
   * 500.00 paid by u1, split 100.00 / 200.00 / 200.00: whichever order the sort
   * leaves the two equal debtors in, there are two settlements, one of them
   * u2 paying u1 200.00.
   */
  lemma PercentagesParties()
    ensures Debtors(PercentagesNet) == {Party("u2", 20000), Party("u3", 20000)}
    ensures Creditors(PercentagesNet) == {Party("u1", 40000)}
  {
    var b := PercentagesNet;
    assert b.Keys == {"u1", "u2", "u3"};
    forall x | x in Debtors(b) ensures x == Party("u2", 20000) || x == Party("u3", 20000) {
      var u :| u in b.Keys && IsDebtor(b, u) && x == Party(u, -b[u]);
    }
    assert IsDebtor(b, "u2") && IsDebtor(b, "u3");
    forall x | x in Creditors(b) ensures x == Party("u1", 40000) {
      var u :| u in b.Keys && IsCreditor(b, u) && x == Party(u, b[u]);
    }
    assert IsCreditor(b, "u1");
  }

  /** Whatever order the sort leaves the two equal debtors in, they are u2 and u3, and u1 is the one creditor. */
  lemma PercentagesLists(ds: seq<Party>, cs: seq<Party>)
    requires IsDebtorList(PercentagesNet, ds) && IsCreditorList(PercentagesNet, cs)
    ensures |ds| == 2 && |cs| == 1
    ensures ds[0].amount == 20000 && ds[1].amount == 20000 && cs[0] == Party("u1", 40000)
    ensures {ds[0].uid, ds[1].uid} == {"u2", "u3"}
  {
    PercentagesParties();
    var p2, p3 := Party("u2", 20000), Party("u3", 20000);
    assert |ds| == 2 && |cs| == 1 by {
      assert |multiset(ds)| == |multiset{p2, p3}|;
      assert |multiset(cs)| == |multiset{Party("u1", 40000)}|;
    }
    assert ds[0] in multiset(ds) && ds[1] in multiset(ds) && cs[0] in multiset(cs);
    PermutationOfSetIsDistinct(ds, Debtors(PercentagesNet));
    assert {ds[0], ds[1]} == {p2, p3};
  }

  /** Two debtors of 200.00 against one creditor of 400.00: each debtor pays the creditor in full. */
  lemma WalkTwoIntoOne(ds: seq<Party>, cs: seq<Party>)
    requires |ds| == 2 && |cs| == 1
    requires ds[0].amount == 20000 && ds[1].amount == 20000 && cs[0].amount == 40000
    ensures Walk(ds, cs, 0, 0) == [Settlement(ds[0].uid, cs[0].uid, 20000), Settlement(ds[1].uid, cs[0].uid, 20000)]
  {
    var ds1, cs1 := Deduct(ds, 0, 20000), Deduct(cs, 0, 20000);
    assert Walk(ds, cs, 0, 0) == [Settlement(ds[0].uid, cs[0].uid, 20000)] + Walk(ds1, cs1, 1, 0);
    var ds2, cs2 := Deduct(ds1, 1, 20000), Deduct(cs1, 0, 20000);
    assert Walk(ds1, cs1, 1, 0) == [Settlement(ds[1].uid, cs[0].uid, 20000)] + Walk(ds2, cs2, 2, 1);
  }

  lemma PercentagesSettle(r: seq<Settlement>)
    requires IsSimplification(NetBalances([Percentages], [], Roster), r)
    ensures |r| == 2
    ensures Settlement("u2", "u1", 20000) in r
    ensures Settlement("u3", "u1", 20000) in r
  {
    PercentagesBalances();
    var ds: seq<Party>, cs: seq<Party> :|
      IsDebtorList(PercentagesNet, ds) && IsCreditorList(PercentagesNet, cs) && r == Walk(ds, cs, 0, 0);
    PercentagesLists(ds, cs);
    WalkTwoIntoOne(ds, cs);
    assert r[0].fromUid == ds[0].uid && r[1].fromUid == ds[1].uid;
  }

  /** 100.00 paid by u1, split 33.34 / 33.33 / 33.33: no cent is lost. */
  lemma RoundingEdge()
    ensures NetBalances([PaidBy1("u1", 10000, [Line("u1", 3334), Line("u2", 3333), Line("u3", 3333)])], [], Roster)
              == map["u1" := 6666, "u2" := -3333, "u3" := -3333]
  {
    var e := PaidBy1("u1", 10000, [Line("u1", 3334), Line("u2", 3333), Line("u3", 3333)]);
    var b := NetBalances([e], [], Roster);
    var want := map["u1" := 6666, "u2" := -3333, "u3" := -3333];
    forall u ensures (u in b <==> u in want) && Get(b, u) == Get(want, u) {
      OneExpenseAt(e, [], u);
    }
  }

  /** 120.00 paid by u1 and split three ways, then u3 pays u1 20.00. */
  lemma PaymentImpact()
    ensures NetBalances([PaidBy1("u1", 12000, [Line("u1", 4000), Line("u2", 4000), Line("u3", 4000)])],
                        [Payment("u3", "u1", 2000, false)], Roster)
              == map["u1" := 6000, "u2" := -4000, "u3" := -2000]
  {
    var e := PaidBy1("u1", 12000, [Line("u1", 4000), Line("u2", 4000), Line("u3", 4000)]);
    var ps := [Payment("u3", "u1", 2000, false)];
    var b := NetBalances([e], ps, Roster);
    var want := map["u1" := 6000, "u2" := -4000, "u3" := -2000];
    assert ps[..0] == [];
    forall u ensures (u in b <==> u in want) && Get(b, u) == Get(want, u) {
      OneExpenseAt(e, ps, u);
    }
  }

  const Residual: map<Uid, int> := map["a" := -3, "b" := -3, "c" := 2, "d" := 2, "e" := 2]

  lemma ResidualParties()
    ensures Debtors(Residual) == {Party("a", 3), Party("b", 3)}
    ensures Creditors(Residual) == {Party("c", 2), Party("d", 2), Party("e", 2)}
  {
    var b := Residual;
    assert b.Keys == {"a", "b", "c", "d", "e"};
    forall x | x in Debtors(b) ensures x == Party("a", 3) || x == Party("b", 3) {
      var u :| u in b.Keys && IsDebtor(b, u) && x == Party(u, -b[u]);
    }
    assert IsDebtor(b, "a") && IsDebtor(b, "b");
    forall x | x in Creditors(b) ensures x == Party("c", 2) || x == Party("d", 2) || x == Party("e", 2) {
      var u :| u in b.Keys && IsCreditor(b, u) && x == Party(u, b[u]);
    }
    assert IsCreditor(b, "c") && IsCreditor(b, "d") && IsCreditor(b, "e");
  }

  /** Two debtors of 3 against three creditors of 2: each debtor pays one creditor 2. */
  lemma WalkThreesAgainstTwos(ds: seq<Party>, cs: seq<Party>)
    requires |ds| == 2 && |cs| == 3
    requires ds[0].amount == 3 && ds[1].amount == 3
    requires cs[0].amount == 2 && cs[1].amount == 2 && cs[2].amount == 2
    ensures Walk(ds, cs, 0, 0) == [Settlement(ds[0].uid, cs[0].uid, 2), Settlement(ds[1].uid, cs[1].uid, 2)]
  {
    var ds1, cs1 := Deduct(ds, 0, 2), Deduct(cs, 0, 2);
    assert Walk(ds, cs, 0, 0) == [Settlement(ds[0].uid, cs[0].uid, 2)] + Walk(ds1, cs1, 1, 1);
    var ds2, cs2 := Deduct(ds1, 1, 2), Deduct(cs1, 1, 2);
    assert Walk(ds1, cs1, 1, 1) == [Settlement(ds[1].uid, cs[1].uid, 2)] + Walk(ds2, cs2, 2, 2);
  }

  /** Whatever order the sort leaves them in, the debtors all owe 3 and the creditors are three distinct uids owed 2. */
  lemma ResidualLists(ds: seq<Party>, cs: seq<Party>)
    requires IsDebtorList(Residual, ds) && IsCreditorList(Residual, cs)
    ensures |ds| == 2 && |cs| == 3
    ensures ds[0].amount == 3 && ds[1].amount == 3
    ensures cs[0].amount == 2 && cs[1].amount == 2 && cs[2].amount == 2
    ensures cs[2].uid != cs[0].uid && cs[2].uid != cs[1].uid && IsCreditor(Residual, cs[2].uid)
  {
    ResidualParties();
    assert |ds| == 2 && |cs| == 3 by {
      assert |multiset(ds)| == |multiset{Party("a", 3), Party("b", 3)}|;
      assert |multiset(cs)| == |multiset{Party("c", 2), Party("d", 2), Party("e", 2)}|;
    }
    assert ds[0] in multiset(ds) && ds[1] in multiset(ds);
    assert cs[0] in multiset(cs) && cs[1] in multiset(cs) && cs[2] in multiset(cs);
    PermutationOfSetIsDistinct(cs, Creditors(Residual));
  }

  /**
   * Two debtors of 0.03 and three creditors of 0.02: the balances sum to zero,
   * yet every simplification pays only two creditors and leaves the third
   * 0.02 short. Each debtor hands over 0.02 and is then within a cent, so the
   * walk moves on to the next debtor with one cent unpaid.
   */
  lemma ResidualCreditor(r: seq<Settlement>)
    requires IsSimplification(Residual, r)
    ensures |r| == 2
    ensures exists u :: IsCreditor(Residual, u) && ReceivedBy(r, u) == 0
  {
    var ds: seq<Party>, cs: seq<Party> :| IsDebtorList(Residual, ds) && IsCreditorList(Residual, cs) && r == Walk(ds, cs, 0, 0);
    ResidualLists(ds, cs);
    WalkThreesAgainstTwos(ds, cs);
    var u := cs[2].uid;
    ReceivedByNobody(r, u);
  }
}
