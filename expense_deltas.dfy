/**
 * computeExpenseDeltas (lib/calculations.ts:10-23): one expense becomes a map
 * from uid to (amount paid - amount owed).
 */
module Deltas {
  import opened Types
  import opened MapSum

  /** The summed amount of the lines that name `u`. */
  function LineSum(lines: seq<Line>, u: Uid): int
  {
    if lines == [] then 0
    else
      var last := lines[|lines| - 1];
      LineSum(lines[..|lines| - 1], u) + (if last.uid == u then last.amount else 0)
  }

  /** `lines.reduce((sum, l) => sum + l.amount, 0)` */
  function Total(lines: seq<Line>): int
  {
    if lines == [] then 0 else Total(lines[..|lines| - 1]) + lines[|lines| - 1].amount
  }

  function LineUids(lines: seq<Line>): set<Uid>
  {
    set l | l in lines :: l.uid
  }

  /** Paid minus owed for every uid that some payer or split line names. */
  function Net(payers: seq<Line>, splits: seq<Line>): map<Uid, int>
  {
    map u | u in LineUids(payers) + LineUids(splits) :: LineSum(payers, u) - LineSum(splits, u)
  }

  /** What computeExpenseDeltas returns: nothing for a deleted expense. */
  function ExpenseDeltas(e: Expense): map<Uid, int>
  {
    if e.isDeleted then map[] else Net(e.payers, e.splits)
  }

  method ComputeExpenseDeltas(expense: Expense) returns (deltas: map<Uid, int>)
    ensures deltas == ExpenseDeltas(expense)
  {
    if expense.isDeleted {
      return map[];
    }
    var payers, splits := expense.payers, expense.splits;
    deltas := map[];
    for k := 0 to |payers|
      invariant deltas == Accumulate(map[], payers[..k], 1)
    {
      var payer := payers[k];
      assert payers[..k + 1][..k] == payers[..k];
      deltas := deltas[payer.uid := Get(deltas, payer.uid) + payer.amount];
    }
    assert payers[..|payers|] == payers;
    ghost var paid := deltas;
    for k := 0 to |splits|
      invariant deltas == Accumulate(paid, splits[..k], -1)
    {
      var split := splits[k];
      assert splits[..k + 1][..k] == splits[..k];
      deltas := deltas[split.uid := Get(deltas, split.uid) - split.amount];
    }
    assert splits[..|splits|] == splits;
    AccumulateIsNet(payers, splits);
  }

  /** The dictionary after the updates `m[uid] = (m[uid] ?? 0) + sign * amount` for `lines` in order. */
  function Accumulate(m: map<Uid, int>, lines: seq<Line>, sign: int): map<Uid, int>
  {
    if lines == [] then m
    else
      var n := |lines| - 1;
      Post(Accumulate(m, lines[..n], sign), lines[n].uid, sign * lines[n].amount)
  }

  /** Adding the payer lines and then subtracting the split lines, one update at a time, gives Net. */
  lemma AccumulateIsNet(payers: seq<Line>, splits: seq<Line>)
    ensures Accumulate(Accumulate(map[], payers, 1), splits, -1) == Net(payers, splits)
  {
    AccumulatePayers(payers);
    AccumulateSplits(payers, splits);
  }

  lemma {:induction false} AccumulatePayers(payers: seq<Line>)
    ensures Accumulate(map[], payers, 1) == Net(payers, [])
  {
    if payers == [] {
      assert Net([], []) == map[];
    } else {
      var n := |payers| - 1;
      var init, l := payers[..n], payers[n];
      AccumulatePayers(init);
      assert Accumulate(map[], payers, 1) == Post(Net(init, []), l.uid, l.amount);
      assert payers == init + [l];
      NetAddPayer(init, [], l);
    }
  }

  lemma {:induction false} AccumulateSplits(payers: seq<Line>, splits: seq<Line>)
    ensures Accumulate(Net(payers, []), splits, -1) == Net(payers, splits)
  {
    if splits != [] {
      var n := |splits| - 1;
      var init, l := splits[..n], splits[n];
      AccumulateSplits(payers, init);
      assert Accumulate(Net(payers, []), splits, -1) == Post(Net(payers, init), l.uid, -l.amount);
      assert splits == init + [l];
      NetAddSplit(payers, init, l);
    }
  }

  /** A uid no line names has nothing paid or owed. */
  lemma {:induction false} LineSumOfAbsent(lines: seq<Line>, u: Uid)
    requires u !in LineUids(lines)
    ensures LineSum(lines, u) == 0
  {
    if lines != [] {
      var init := lines[..|lines| - 1];
      assert LineUids(init) <= LineUids(lines) by {
        forall l | l in init ensures l in lines { }
      }
      LineSumOfAbsent(init, u);
    }
  }

  lemma LineSumAppend(lines: seq<Line>, l: Line, u: Uid)
    ensures LineSum(lines + [l], u) == LineSum(lines, u) + (if l.uid == u then l.amount else 0)
  {
    assert (lines + [l])[..|lines|] == lines;
  }

  lemma LineUidsAppend(lines: seq<Line>, l: Line)
    ensures LineUids(lines + [l]) == LineUids(lines) + {l.uid}
  {
    assert l in lines + [l];
    forall x | x in lines ensures x in lines + [l] { }
  }

  /** One more payer line is one more `deltas[uid] += amount`. */
  lemma NetAddPayer(payers: seq<Line>, splits: seq<Line>, l: Line)
    ensures Net(payers + [l], splits) == Post(Net(payers, splits), l.uid, l.amount)
  {
    var before, after := Net(payers, splits), Net(payers + [l], splits);
    var want := Post(before, l.uid, l.amount);
    LineUidsAppend(payers, l);
    assert after.Keys == want.Keys;
    forall u | u in after.Keys ensures after[u] == want[u] {
      NetStep(payers, splits, l, u, true);
    }
  }

  /** One more split line is one more `deltas[uid] -= amount`. */
  lemma NetAddSplit(payers: seq<Line>, splits: seq<Line>, l: Line)
    ensures Net(payers, splits + [l]) == Post(Net(payers, splits), l.uid, -l.amount)
  {
    var before, after := Net(payers, splits), Net(payers, splits + [l]);
    var want := Post(before, l.uid, -l.amount);
    LineUidsAppend(splits, l);
    assert after.Keys == want.Keys;
    forall u | u in after.Keys ensures after[u] == want[u] {
      NetStep(payers, splits, l, u, false);
    }
  }

  /** The entry of one uid after one more payer line (`paid`) or split line. */
  lemma NetStep(payers: seq<Line>, splits: seq<Line>, l: Line, u: Uid, paid: bool)
    ensures var p, s := if paid then payers + [l] else payers, if paid then splits else splits + [l];
            LineSum(p, u) - LineSum(s, u)
              == Get(Net(payers, splits), u) + (if l.uid == u then (if paid then l.amount else -l.amount) else 0)
  {
    if paid {
      LineSumAppend(payers, l, u);
    } else {
      LineSumAppend(splits, l, u);
    }
    if u !in Net(payers, splits) {
      LineSumOfAbsent(payers, u);
      LineSumOfAbsent(splits, u);
    }
  }

  /**
   * The entry of a uid in an expense's deltas: paid minus owed, zero when the
   * expense is deleted or names the uid in no line (in which case the uid has
   * no key at all).
   */
  lemma ExpenseDeltasAt(e: Expense, u: Uid)
    ensures u in ExpenseDeltas(e) <==> !e.isDeleted && u in LineUids(e.payers) + LineUids(e.splits)
    ensures Get(ExpenseDeltas(e), u) == if e.isDeleted then 0 else LineSum(e.payers, u) - LineSum(e.splits, u)
  {
    if !e.isDeleted && u !in ExpenseDeltas(e) {
      LineSumOfAbsent(e.payers, u);
      LineSumOfAbsent(e.splits, u);
    }
  }

  /** The deltas of payer and split lines sum to paid total minus owed total. */
  lemma {:induction false} NetSum(payers: seq<Line>, splits: seq<Line>)
    ensures Sum(Net(payers, splits)) == Total(payers) - Total(splits)
  {
    AccumulateIsNet(payers, splits);
    AccumulateSum(map[], payers, 1);
    AccumulateSum(Accumulate(map[], payers, 1), splits, -1);
  }

  /** Each update adds its signed amount to the sum. */
  lemma {:induction false} AccumulateSum(m: map<Uid, int>, lines: seq<Line>, sign: int)
    requires sign == 1 || sign == -1
    ensures Sum(Accumulate(m, lines, sign)) == Sum(m) + sign * Total(lines)
  {
    if lines != [] {
      var n := |lines| - 1;
      AccumulateSum(m, lines[..n], sign);
      SumPost(Accumulate(m, lines[..n], sign), lines[n].uid, sign * lines[n].amount);
      assert sign * Total(lines) == sign * Total(lines[..n]) + sign * lines[n].amount;
    }
  }

  /** Each live expense moves exactly paid total minus owed total into the ledger. */
  lemma ExpenseDeltasSum(e: Expense)
    ensures Sum(ExpenseDeltas(e)) == if e.isDeleted then 0 else Total(e.payers) - Total(e.splits)
  {
    if !e.isDeleted {
      NetSum(e.payers, e.splits);
    }
  }
}
