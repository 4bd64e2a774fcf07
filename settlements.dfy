/**
 * simplifySettlements (lib/calculations.ts:51-92): balances above a cent make
 * creditors, balances below minus a cent make debtors (stored as positive
 * amounts owed); both lists are sorted by decreasing amount and walked with
 * two cursors, each step moving min(debt, credit) from the current debtor to
 * the current creditor.
 */
module Settlements {
  import opened Types
  import opened Sorting

  /** An entry of the creditor or debtor list: a uid and the amount it has left to settle. */
  datatype Party = Party(uid: Uid, amount: int)

  function PartyAmount(p: Party): int { p.amount }

  predicate IsCreditor(balances: map<Uid, int>, u: Uid) { u in balances && balances[u] > Epsilon }

  predicate IsDebtor(balances: map<Uid, int>, u: Uid) { u in balances && balances[u] < -Epsilon }

  /** The creditor entries for the keys in `keys`. */
  ghost function CreditorsAmong(balances: map<Uid, int>, keys: set<Uid>): set<Party>
  {
    set u | u in keys && IsCreditor(balances, u) :: Party(u, balances[u])
  }

  /** The debtor entries for the keys in `keys`, amounts negated. */
  ghost function DebtorsAmong(balances: map<Uid, int>, keys: set<Uid>): set<Party>
  {
    set u | u in keys && IsDebtor(balances, u) :: Party(u, -balances[u])
  }

  ghost function Creditors(balances: map<Uid, int>): set<Party> { CreditorsAmong(balances, balances.Keys) }

  ghost function Debtors(balances: map<Uid, int>): set<Party> { DebtorsAmong(balances, balances.Keys) }

  /** The creditor list after the sort: every creditor once, by non-increasing amount, ties in any order. */
  ghost predicate IsCreditorList(balances: map<Uid, int>, cs: seq<Party>)
  {
    multiset(cs) == multiset(Creditors(balances)) && NonIncreasing(cs, PartyAmount)
  }

  /** The debtor list after the sort: every debtor once, by non-increasing amount owed, ties in any order. */
  ghost predicate IsDebtorList(balances: map<Uid, int>, ds: seq<Party>)
  {
    multiset(ds) == multiset(Debtors(balances)) && NonIncreasing(ds, PartyAmount)
  }

  /** The first loop: one pass over the entries of `balances`, in any key order. */
  method Partition(balances: map<Uid, int>) returns (creditors: seq<Party>, debtors: seq<Party>)
    ensures multiset(creditors) == multiset(Creditors(balances))
    ensures multiset(debtors) == multiset(Debtors(balances))
  {
    creditors, debtors := [], [];
    var pending := balances.Keys;
    while pending != {}
      invariant pending <= balances.Keys
      invariant Partitioned(balances, balances.Keys - pending, creditors, debtors)
      decreases pending
    {
      var uid :| uid in pending;
      PartitionStep(balances, pending, uid, creditors, debtors);
      var rounded := balances[uid];
      if rounded > Epsilon {
        creditors := creditors + [Party(uid, rounded)];
      } else if rounded < -Epsilon {
        debtors := debtors + [Party(uid, -rounded)];
      }
      pending := pending - {uid};
    }
  }

  /** The two lists hold exactly the creditors and debtors among the keys in `done`. */
  ghost predicate Partitioned(balances: map<Uid, int>, done: set<Uid>, creditors: seq<Party>, debtors: seq<Party>)
  {
    && multiset(creditors) == multiset(CreditorsAmong(balances, done))
    && multiset(debtors) == multiset(DebtorsAmong(balances, done))
  }

  /** Visiting one more key appends it to the list its balance belongs to, if any. */
  lemma PartitionStep(balances: map<Uid, int>, pending: set<Uid>, u: Uid, creditors: seq<Party>, debtors: seq<Party>)
    requires pending <= balances.Keys && u in pending
    requires Partitioned(balances, balances.Keys - pending, creditors, debtors)
    ensures Partitioned(balances, balances.Keys - (pending - {u}),
              if balances[u] > Epsilon then creditors + [Party(u, balances[u])] else creditors,
              if balances[u] <= Epsilon && balances[u] < -Epsilon then debtors + [Party(u, -balances[u])] else debtors)
  {
    var done := balances.Keys - pending;
    assert balances.Keys - (pending - {u}) == done + {u};
    CreditorsAdd(balances, done, u);
    DebtorsAdd(balances, done, u);
  }

  lemma CreditorsAdd(balances: map<Uid, int>, done: set<Uid>, u: Uid)
    requires u in balances && u !in done
    ensures multiset(CreditorsAmong(balances, done + {u})) ==
              multiset(CreditorsAmong(balances, done))
                + (if balances[u] > Epsilon then multiset{Party(u, balances[u])} else multiset{})
  {
    var before, after := CreditorsAmong(balances, done), CreditorsAmong(balances, done + {u});
    var p := Party(u, balances[u]);
    forall x | x in before ensures x.uid in done { }
    if balances[u] > Epsilon {
      assert after == before + {p};
      assert p !in before;
    } else {
      assert after == before;
    }
  }

  lemma DebtorsAdd(balances: map<Uid, int>, done: set<Uid>, u: Uid)
    requires u in balances && u !in done
    ensures multiset(DebtorsAmong(balances, done + {u})) ==
              multiset(DebtorsAmong(balances, done))
                + (if balances[u] < -Epsilon then multiset{Party(u, -balances[u])} else multiset{})
  {
    var before, after := DebtorsAmong(balances, done), DebtorsAmong(balances, done + {u});
    var p := Party(u, -balances[u]);
    forall x | x in before ensures x.uid in done { }
    if balances[u] < -Epsilon {
      assert after == before + {p};
      assert p !in before;
    } else {
      assert after == before;
    }
  }

  // ----- The matching walk -----

  /** The list with `amount` taken off entry `k`. */
  function Deduct(ps: seq<Party>, k: nat, amount: int): seq<Party>
    requires k < |ps|
  {
    ps[k := Party(ps[k].uid, ps[k].amount - amount)]
  }

  /** The cursor after entry `k` paid or received `amount`: it moves on once a cent or less is left. */
  function Advance(ps: seq<Party>, k: nat, amount: int): nat
    requires k < |ps|
  {
    if ps[k].amount - amount <= Epsilon then k + 1 else k
  }

  /**
   * The settlements the `while` loop emits from cursors `i` and `j` on, given
   * the amounts left at that point.
   */
  function Walk(ds: seq<Party>, cs: seq<Party>, i: nat, j: nat): seq<Settlement>
    requires i <= |ds| && j <= |cs|
    decreases |ds| - i + |cs| - j
  {
    if i == |ds| || j == |cs| then []
    else
      var amount := Min(ds[i].amount, cs[j].amount);
      (if amount > Epsilon then [Settlement(ds[i].uid, cs[j].uid, amount)] else [])
        + Walk(Deduct(ds, i, amount), Deduct(cs, j, amount), Advance(ds, i, amount), Advance(cs, j, amount))
  }

  /** The `while` loop over the two cursors. */
  method Match(debtors: seq<Party>, creditors: seq<Party>) returns (settlements: seq<Settlement>)
    ensures settlements == Walk(debtors, creditors, 0, 0)
  {
    var ds, cs := debtors, creditors;
    settlements := [];
    var i, j := 0, 0;
    while i < |ds| && j < |cs|
      invariant i <= |ds| && j <= |cs|
      invariant settlements + Walk(ds, cs, i, j) == Walk(debtors, creditors, 0, 0)
      decreases |ds| - i + |cs| - j
    {
      var debtor, creditor := ds[i], cs[j];
      var amount := Min(debtor.amount, creditor.amount);
      MatchStep(settlements, ds, cs, i, j, Walk(debtors, creditors, 0, 0));
      if amount > Epsilon {
        settlements := settlements + [Settlement(debtor.uid, creditor.uid, amount)];
      }
      ds := ds[i := Party(debtor.uid, debtor.amount - amount)];
      cs := cs[j := Party(creditor.uid, creditor.amount - amount)];
      if ds[i].amount <= Epsilon {
        i := i + 1;
      }
      if cs[j].amount <= Epsilon {
        j := j + 1;
      }
    }
  }

  /** One pass of the loop keeps `settlements + Walk(ds, cs, i, j)` unchanged. */
  lemma MatchStep(done: seq<Settlement>, ds: seq<Party>, cs: seq<Party>, i: nat, j: nat, total: seq<Settlement>)
    requires i < |ds| && j < |cs| && done + Walk(ds, cs, i, j) == total
    ensures var amount := Min(ds[i].amount, cs[j].amount);
            (if amount > Epsilon then done + [Settlement(ds[i].uid, cs[j].uid, amount)] else done)
              + Walk(Deduct(ds, i, amount), Deduct(cs, j, amount), Advance(ds, i, amount), Advance(cs, j, amount))
              == total
  {
    WalkUnfold(ds, cs, i, j);
  }

  lemma WalkUnfold(ds: seq<Party>, cs: seq<Party>, i: nat, j: nat)
    requires i < |ds| && j < |cs|
    ensures var amount := Min(ds[i].amount, cs[j].amount);
            Walk(ds, cs, i, j)
              == (if amount > Epsilon then [Settlement(ds[i].uid, cs[j].uid, amount)] else [])
                   + Walk(Deduct(ds, i, amount), Deduct(cs, j, amount), Advance(ds, i, amount), Advance(cs, j, amount))
  {
  }

  /** What `u` pays over the settlements `ss`. */
  function PaidBy(ss: seq<Settlement>, u: Uid): int
  {
    if ss == [] then 0 else (if ss[0].fromUid == u then ss[0].amount else 0) + PaidBy(ss[1..], u)
  }

  /** What `u` receives over the settlements `ss`. */
  function ReceivedBy(ss: seq<Settlement>, u: Uid): int
  {
    if ss == [] then 0 else (if ss[0].toUid == u then ss[0].amount else 0) + ReceivedBy(ss[1..], u)
  }

  lemma PaidByPrepend(s: Settlement, ss: seq<Settlement>, u: Uid)
    ensures PaidBy([s] + ss, u) == (if s.fromUid == u then s.amount else 0) + PaidBy(ss, u)
    ensures ReceivedBy([s] + ss, u) == (if s.toUid == u then s.amount else 0) + ReceivedBy(ss, u)
  {
    assert ([s] + ss)[1..] == ss;
  }

  lemma {:induction false} PaidByNobody(ss: seq<Settlement>, u: Uid)
    requires forall s :: s in ss ==> s.fromUid != u
    ensures PaidBy(ss, u) == 0
  {
    if ss != [] {
      assert ss[0] in ss;
      assert forall s :: s in ss[1..] ==> s in ss;
      PaidByNobody(ss[1..], u);
    }
  }

  lemma {:induction false} ReceivedByNobody(ss: seq<Settlement>, u: Uid)
    requires forall s :: s in ss ==> s.toUid != u
    ensures ReceivedBy(ss, u) == 0
  {
    if ss != [] {
      assert ss[0] in ss;
      assert forall s :: s in ss[1..] ==> s in ss;
      ReceivedByNobody(ss[1..], u);
    }
  }

  /** The uids at positions `i` and later. */
  ghost function UidsFrom(ps: seq<Party>, i: nat): set<Uid>
  {
    set k | i <= k < |ps| :: ps[k].uid
  }

  /** Every entry from position `i` on still has more than a cent to settle. */
  ghost predicate Pending(ps: seq<Party>, i: nat)
  {
    forall k :: i <= k < |ps| ==> ps[k].amount > Epsilon
  }

  ghost predicate DistinctUids(ps: seq<Party>)
  {
    forall a, b :: 0 <= a < |ps| && 0 <= b < |ps| && a != b ==> ps[a].uid != ps[b].uid
  }

  lemma DeductKeepsUids(ps: seq<Party>, k: nat, amount: int, i: nat, i': nat)
    requires k < |ps| && i <= i'
    ensures UidsFrom(Deduct(ps, k, amount), i') <= UidsFrom(ps, i)
    ensures DistinctUids(ps) ==> DistinctUids(Deduct(ps, k, amount))
  {
    var ps' := Deduct(ps, k, amount);
    forall u | u in UidsFrom(ps', i') ensures u in UidsFrom(ps, i) {
      var m :| i' <= m < |ps'| && ps'[m].uid == u;
      assert ps[m].uid == u;
    }
  }

  /**
   * Every emitted transfer moves more than a cent from an entry of the debtor
   * list to an entry of the creditor list, at or after the cursors.
   */
  lemma {:induction false} WalkEmits(ds: seq<Party>, cs: seq<Party>, i: nat, j: nat)
    requires i <= |ds| && j <= |cs|
    ensures forall s :: s in Walk(ds, cs, i, j) ==>
              s.amount > Epsilon && s.fromUid in UidsFrom(ds, i) && s.toUid in UidsFrom(cs, j)
    decreases |ds| - i + |cs| - j
  {
    if i < |ds| && j < |cs| {
      var amount := Min(ds[i].amount, cs[j].amount);
      var i', j' := Advance(ds, i, amount), Advance(cs, j, amount);
      WalkEmits(Deduct(ds, i, amount), Deduct(cs, j, amount), i', j');
      DeductKeepsUids(ds, i, amount, i, i');
      DeductKeepsUids(cs, j, amount, j, j');
      assert ds[i].uid in UidsFrom(ds, i);
      assert cs[j].uid in UidsFrom(cs, j);
    }
  }

  /** The loop runs at most |debtors| + |creditors| times: each step moves a cursor. */
  lemma {:induction false} WalkLength(ds: seq<Party>, cs: seq<Party>, i: nat, j: nat)
    requires i <= |ds| && j <= |cs|
    ensures |Walk(ds, cs, i, j)| <= (|ds| - i) + (|cs| - j)
    decreases |ds| - i + |cs| - j
  {
    if i < |ds| && j < |cs| {
      var amount := Min(ds[i].amount, cs[j].amount);
      WalkLength(Deduct(ds, i, amount), Deduct(cs, j, amount), Advance(ds, i, amount), Advance(cs, j, amount));
    }
  }

  /**
   * While every remaining entry has more than a cent left, every step emits
   * its transfer (the `amount > EPSILON` test never fails on whole cents).
   */
  lemma WalkStep(ds: seq<Party>, cs: seq<Party>, i: nat, j: nat)
    requires i < |ds| && j < |cs| && Pending(ds, i) && Pending(cs, j)
    ensures var amount := Min(ds[i].amount, cs[j].amount);
            var ds', cs' := Deduct(ds, i, amount), Deduct(cs, j, amount);
            var i', j' := Advance(ds, i, amount), Advance(cs, j, amount);
            && Walk(ds, cs, i, j) == [Settlement(ds[i].uid, cs[j].uid, amount)] + Walk(ds', cs', i', j')
            && Pending(ds', i') && Pending(cs', j')
            && (i' == i ==> ds'[i].amount > Epsilon) && (j' == j ==> cs'[j].amount > Epsilon)
  {
  }

  /** No debtor pays more than it owed at the cursor. */
  lemma {:induction false} WalkPaidBounded(ds: seq<Party>, cs: seq<Party>, i: nat, j: nat)
    requires i <= |ds| && j <= |cs| && Pending(ds, i) && Pending(cs, j) && DistinctUids(ds)
    ensures forall k :: i <= k < |ds| ==> PaidBy(Walk(ds, cs, i, j), ds[k].uid) <= ds[k].amount
    decreases |ds| - i + |cs| - j
  {
    if i < |ds| && j < |cs| {
      var amount := Min(ds[i].amount, cs[j].amount);
      var ds', cs' := Deduct(ds, i, amount), Deduct(cs, j, amount);
      var i', j' := Advance(ds, i, amount), Advance(cs, j, amount);
      var s := Settlement(ds[i].uid, cs[j].uid, amount);
      var rest := Walk(ds', cs', i', j');
      WalkStep(ds, cs, i, j);
      DeductKeepsUids(ds, i, amount, i, i');
      WalkPaidBounded(ds', cs', i', j');
      WalkEmits(ds', cs', i', j');
      forall k | i <= k < |ds| ensures PaidBy([s] + rest, ds[k].uid) <= ds[k].amount {
        PaidByPrepend(s, rest, ds[k].uid);
        assert ds'[k].uid == ds[k].uid;
        if k == i {
          if i' == i + 1 {
            NotPendingAfter(ds, i, amount);
            PaidByNobody(rest, ds[i].uid);
          } else {
            assert ds'[i].amount == ds[i].amount - amount;
          }
        } else {
          assert ds'[k] == ds[k];
        }
      }
    }
  }

  /** No creditor receives more than it was owed at the cursor. */
  lemma {:induction false} WalkReceivedBounded(ds: seq<Party>, cs: seq<Party>, i: nat, j: nat)
    requires i <= |ds| && j <= |cs| && Pending(ds, i) && Pending(cs, j) && DistinctUids(cs)
    ensures forall k :: j <= k < |cs| ==> ReceivedBy(Walk(ds, cs, i, j), cs[k].uid) <= cs[k].amount
    decreases |ds| - i + |cs| - j
  {
    if i < |ds| && j < |cs| {
      var amount := Min(ds[i].amount, cs[j].amount);
      var ds', cs' := Deduct(ds, i, amount), Deduct(cs, j, amount);
      var i', j' := Advance(ds, i, amount), Advance(cs, j, amount);
      var s := Settlement(ds[i].uid, cs[j].uid, amount);
      var rest := Walk(ds', cs', i', j');
      WalkStep(ds, cs, i, j);
      DeductKeepsUids(cs, j, amount, j, j');
      WalkReceivedBounded(ds', cs', i', j');
      WalkEmits(ds', cs', i', j');
      forall k | j <= k < |cs| ensures ReceivedBy([s] + rest, cs[k].uid) <= cs[k].amount {
        PaidByPrepend(s, rest, cs[k].uid);
        assert cs'[k].uid == cs[k].uid;
        if k == j {
          if j' == j + 1 {
            NotPendingAfter(cs, j, amount);
            ReceivedByNobody(rest, cs[j].uid);
          } else {
            assert cs'[j].amount == cs[j].amount - amount;
          }
        } else {
          assert cs'[k] == cs[k];
        }
      }
    }
  }

  /** Once its cursor has moved past it, an entry's uid does not come up again. */
  lemma NotPendingAfter(ps: seq<Party>, k: nat, amount: int)
    requires k < |ps| && DistinctUids(ps)
    ensures ps[k].uid !in UidsFrom(Deduct(ps, k, amount), k + 1)
  {
    var ps' := Deduct(ps, k, amount);
    forall m | k + 1 <= m < |ps'| ensures ps'[m].uid != ps[k].uid {
      assert ps'[m] == ps[m];
    }
  }

  /** Every debtor from `i` on is left with a cent or less. */
  ghost predicate DebtorsCleared(ds: seq<Party>, i: nat, r: seq<Settlement>)
  {
    forall k :: i <= k < |ds| ==> ds[k].amount - PaidBy(r, ds[k].uid) <= Epsilon
  }

  /** Every creditor from `j` on is left with a cent or less. */
  ghost predicate CreditorsCleared(cs: seq<Party>, j: nat, r: seq<Settlement>)
  {
    forall k :: j <= k < |cs| ==> cs[k].amount - ReceivedBy(r, cs[k].uid) <= Epsilon
  }

  /** The loop stops only when one of the two lists is used up. */
  lemma {:induction false} WalkClearsOneSide(ds: seq<Party>, cs: seq<Party>, i: nat, j: nat)
    requires i <= |ds| && j <= |cs| && Pending(ds, i) && Pending(cs, j)
    requires DistinctUids(ds) && DistinctUids(cs)
    ensures DebtorsCleared(ds, i, Walk(ds, cs, i, j)) || CreditorsCleared(cs, j, Walk(ds, cs, i, j))
    decreases |ds| - i + |cs| - j
  {
    if i < |ds| && j < |cs| {
      var amount := Min(ds[i].amount, cs[j].amount);
      var ds', cs' := Deduct(ds, i, amount), Deduct(cs, j, amount);
      var i', j' := Advance(ds, i, amount), Advance(cs, j, amount);
      var s := Settlement(ds[i].uid, cs[j].uid, amount);
      var rest := Walk(ds', cs', i', j');
      WalkStep(ds, cs, i, j);
      DeductKeepsUids(ds, i, amount, i, i');
      DeductKeepsUids(cs, j, amount, j, j');
      WalkClearsOneSide(ds', cs', i', j');
      WalkEmits(ds', cs', i', j');
      if DebtorsCleared(ds', i', rest) {
        forall k | i <= k < |ds| ensures ds[k].amount - PaidBy([s] + rest, ds[k].uid) <= Epsilon {
          PaidByPrepend(s, rest, ds[k].uid);
          assert ds'[k].uid == ds[k].uid;
          if k == i {
            if i' == i + 1 {
              NotPendingAfter(ds, i, amount);
              PaidByNobody(rest, ds[i].uid);
            } else {
              assert ds'[i].amount == ds[i].amount - amount;
            }
          } else {
            assert ds'[k] == ds[k];
          }
        }
      } else {
        forall k | j <= k < |cs| ensures cs[k].amount - ReceivedBy([s] + rest, cs[k].uid) <= Epsilon {
          PaidByPrepend(s, rest, cs[k].uid);
          assert cs'[k].uid == cs[k].uid;
          if k == j {
            if j' == j + 1 {
              NotPendingAfter(cs, j, amount);
              ReceivedByNobody(rest, cs[j].uid);
            } else {
              assert cs'[j].amount == cs[j].amount - amount;
            }
          } else {
            assert cs'[k] == cs[k];
          }
        }
      }
    }
  }

  // ----- From the sorted lists back to the balance map -----

  /** Every transfer moves more than a cent from a debtor of `balances` to a creditor of it. */
  ghost predicate Transfers(balances: map<Uid, int>, r: seq<Settlement>)
  {
    forall s :: s in r ==> s.amount > Epsilon && IsDebtor(balances, s.fromUid) && IsCreditor(balances, s.toUid)
  }

  /** Nobody pays more than they owe, and nobody receives more than they are owed. */
  ghost predicate NeverOversettles(balances: map<Uid, int>, r: seq<Settlement>)
  {
    && (forall u :: IsDebtor(balances, u) ==> PaidBy(r, u) <= -balances[u])
    && (forall u :: IsCreditor(balances, u) ==> ReceivedBy(r, u) <= balances[u])
  }

  /** Every debtor, or else every creditor, ends within a cent of zero. */
  ghost predicate ClearsOneSide(balances: map<Uid, int>, r: seq<Settlement>)
  {
    || (forall u :: IsDebtor(balances, u) ==> -balances[u] - PaidBy(r, u) <= Epsilon)
    || (forall u :: IsCreditor(balances, u) ==> balances[u] - ReceivedBy(r, u) <= Epsilon)
  }

  /** What simplifySettlements may return: the walk over some sorting of the two lists. */
  ghost predicate IsSimplification(balances: map<Uid, int>, r: seq<Settlement>)
  {
    exists ds, cs :: IsDebtorList(balances, ds) && IsCreditorList(balances, cs) && r == Walk(ds, cs, 0, 0)
  }

  lemma DebtorListEntries(balances: map<Uid, int>, ds: seq<Party>)
    requires multiset(ds) == multiset(Debtors(balances))
    ensures forall k :: 0 <= k < |ds| ==> IsDebtor(balances, ds[k].uid) && ds[k].amount == -balances[ds[k].uid]
    ensures forall u :: IsDebtor(balances, u) ==> exists k :: 0 <= k < |ds| && ds[k].uid == u
    ensures DistinctUids(ds) && Pending(ds, 0)
  {
    forall k | 0 <= k < |ds| ensures IsDebtor(balances, ds[k].uid) && ds[k].amount == -balances[ds[k].uid] {
      assert ds[k] in multiset(ds);
    }
    forall u | IsDebtor(balances, u) ensures exists k :: 0 <= k < |ds| && ds[k].uid == u {
      var p := Party(u, -balances[u]);
      assert p in Debtors(balances);
      assert p in multiset(ds);
      var k :| 0 <= k < |ds| && ds[k] == p;
    }
    PermutationOfSetIsDistinct(ds, Debtors(balances));
  }

  lemma CreditorListEntries(balances: map<Uid, int>, cs: seq<Party>)
    requires multiset(cs) == multiset(Creditors(balances))
    ensures forall k :: 0 <= k < |cs| ==> IsCreditor(balances, cs[k].uid) && cs[k].amount == balances[cs[k].uid]
    ensures forall u :: IsCreditor(balances, u) ==> exists k :: 0 <= k < |cs| && cs[k].uid == u
    ensures DistinctUids(cs) && Pending(cs, 0)
  {
    forall k | 0 <= k < |cs| ensures IsCreditor(balances, cs[k].uid) && cs[k].amount == balances[cs[k].uid] {
      assert cs[k] in multiset(cs);
    }
    forall u | IsCreditor(balances, u) ensures exists k :: 0 <= k < |cs| && cs[k].uid == u {
      var p := Party(u, balances[u]);
      assert p in Creditors(balances);
      assert p in multiset(cs);
      var k :| 0 <= k < |cs| && cs[k] == p;
    }
    PermutationOfSetIsDistinct(cs, Creditors(balances));
  }

  /**
   * Whatever order the sort leaves equal amounts in, the walk sends only
   * debtor-to-creditor transfers above a cent, never over-settles anyone,
   * stops with every debtor or every creditor within a cent of zero, and emits
   * at most one transfer per debtor and creditor.
   */
  lemma SimplificationFacts(balances: map<Uid, int>, ds: seq<Party>, cs: seq<Party>)
    requires IsDebtorList(balances, ds) && IsCreditorList(balances, cs)
    ensures Transfers(balances, Walk(ds, cs, 0, 0))
    ensures NeverOversettles(balances, Walk(ds, cs, 0, 0))
    ensures ClearsOneSide(balances, Walk(ds, cs, 0, 0))
    ensures |Walk(ds, cs, 0, 0)| <= |Debtors(balances)| + |Creditors(balances)|
  {
    var r := Walk(ds, cs, 0, 0);
    DebtorListEntries(balances, ds);
    CreditorListEntries(balances, cs);
    WalkEmits(ds, cs, 0, 0);
    forall s | s in r ensures IsDebtor(balances, s.fromUid) && IsCreditor(balances, s.toUid) {
      var a :| 0 <= a < |ds| && ds[a].uid == s.fromUid;
      var b :| 0 <= b < |cs| && cs[b].uid == s.toUid;
    }
    WalkPaidBounded(ds, cs, 0, 0);
    WalkReceivedBounded(ds, cs, 0, 0);
    WalkClearsOneSide(ds, cs, 0, 0);
    WalkLength(ds, cs, 0, 0);
    assert |multiset(ds)| == |ds| && |multiset(cs)| == |cs|;
    if DebtorsCleared(ds, 0, r) {
      forall u | IsDebtor(balances, u) ensures -balances[u] - PaidBy(r, u) <= Epsilon {
        var k :| 0 <= k < |ds| && ds[k].uid == u;
      }
    } else {
      forall u | IsCreditor(balances, u) ensures balances[u] - ReceivedBy(r, u) <= Epsilon {
        var k :| 0 <= k < |cs| && cs[k].uid == u;
      }
    }
    forall u | IsDebtor(balances, u) ensures PaidBy(r, u) <= -balances[u] {
      var k :| 0 <= k < |ds| && ds[k].uid == u;
    }
    forall u | IsCreditor(balances, u) ensures ReceivedBy(r, u) <= balances[u] {
      var k :| 0 <= k < |cs| && cs[k].uid == u;
    }
  }

  /** The facts of SimplificationFacts, for any result simplifySettlements may return. */
  lemma SimplificationProperties(balances: map<Uid, int>, r: seq<Settlement>)
    requires IsSimplification(balances, r)
    ensures Transfers(balances, r) && NeverOversettles(balances, r) && ClearsOneSide(balances, r)
    ensures forall s :: s in r ==> s.fromUid != s.toUid
  {
    var ds, cs :| IsDebtorList(balances, ds) && IsCreditorList(balances, cs) && r == Walk(ds, cs, 0, 0);
    SimplificationFacts(balances, ds, cs);
  }

  method SimplifySettlements(balances: map<Uid, int>) returns (settlements: seq<Settlement>)
    ensures IsSimplification(balances, settlements)
    ensures Transfers(balances, settlements)
    ensures forall s :: s in settlements ==> s.fromUid != s.toUid
    ensures NeverOversettles(balances, settlements)
    ensures ClearsOneSide(balances, settlements)
    ensures |settlements| <= |Debtors(balances)| + |Creditors(balances)|
  {
    var creditors, debtors := Partition(balances);
    creditors := SortDescending(creditors, PartyAmount);
    debtors := SortDescending(debtors, PartyAmount);
    settlements := Match(debtors, creditors);
    SimplificationFacts(balances, debtors, creditors);
  }
}
