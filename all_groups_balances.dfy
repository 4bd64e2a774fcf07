/**
 * The aggregation block of useAllGroupsBalances (hooks/useAllGroupsBalances.ts:66-119):
 * for the signed-in user, the settlements of every group that involve them are
 * folded into one signed amount per counterparty (positive: the counterparty
 * owes the user; negative: the user owes the counterparty), amounts within a
 * cent of zero are dropped, and the rest are sorted by decreasing amount.
 * The group subscriptions that fill `groups` and compute `loading` are not
 * part of this model; both arrive as parameters.
 */
module AllGroupsBalances {
  import opened Types
  import opened Sorting
  import opened GroupBalances
  import opened Settlements

  datatype GroupData = GroupData(members: seq<Member>, expenses: seq<Expense>, payments: seq<Payment>)

  /** An entry of `aggregated`. */
  datatype Entry = Entry(displayName: string, amount: int)

  datatype PersonBalance = PersonBalance(uid: Uid, displayName: string, amount: int)

  function BalanceAmount(b: PersonBalance): int { b.amount }

  /** `members.find(m => m.uid === u)`: the first member with that uid. */
  function FindMember(members: seq<Member>, u: Uid): (r: Option<Member>)
    ensures r.None? <==> forall k :: 0 <= k < |members| ==> members[k].uid != u
    ensures r.Some? ==> exists k :: && 0 <= k < |members| && members[k] == r.value && r.value.uid == u
                                   && forall k' :: 0 <= k' < k ==> members[k'].uid != u
  {
    if members == [] then None
    else if members[0].uid == u then Some(members[0])
    else
      var r := FindMember(members[1..], u);
      assert r.Some? ==> exists k :: && 0 <= k < |members| && members[k] == r.value && r.value.uid == u
                                    && forall k' :: 0 <= k' < k ==> members[k'].uid != u
      by {
        if r.Some? {
          var k :| && 0 <= k < |members[1..]| && members[1..][k] == r.value && r.value.uid == u
                   && forall k' :: 0 <= k' < k ==> members[1..][k'].uid != u;
          assert members[k + 1] == r.value;
          assert forall k' :: 0 < k' < k + 1 ==> members[k'].uid == members[1..][k' - 1].uid;
        }
      }
      r
  }

  /** `otherMember?.displayName || uid`: an empty or missing name falls back to the uid. */
  function DisplayName(members: seq<Member>, u: Uid): string
  {
    match FindMember(members, u)
    case Some(m) => if m.displayName != "" then m.displayName else u
    case None => u
  }

  /** Adds `delta` to the entry of `p`, creating it at zero under `name` first if needed. */
  function Adjust(aggregated: map<Uid, Entry>, p: Uid, name: string, delta: int): map<Uid, Entry>
  {
    var e := if p in aggregated then aggregated[p] else Entry(name, 0);
    aggregated[p := Entry(e.displayName, e.amount + delta)]
  }

  /** One settlement: only one that names `uid` changes anything. */
  function Record(aggregated: map<Uid, Entry>, uid: Uid, members: seq<Member>, s: Settlement): map<Uid, Entry>
  {
    if s.fromUid == uid then Adjust(aggregated, s.toUid, DisplayName(members, s.toUid), -s.amount)
    else if s.toUid == uid then Adjust(aggregated, s.fromUid, DisplayName(members, s.fromUid), s.amount)
    else aggregated
  }

  /** One group's settlements, in order. */
  function FoldGroup(aggregated: map<Uid, Entry>, uid: Uid, members: seq<Member>, ss: seq<Settlement>): map<Uid, Entry>
  {
    if ss == [] then aggregated
    else
      var n := |ss| - 1;
      Record(FoldGroup(aggregated, uid, members, ss[..n]), uid, members, ss[n])
  }

  /** The inner `for (const settlement of settlements)` loop. */
  method FoldSettlements(aggregated: map<Uid, Entry>, uid: Uid, members: seq<Member>, settlements: seq<Settlement>)
    returns (result: map<Uid, Entry>)
    ensures result == FoldGroup(aggregated, uid, members, settlements)
  {
    result := aggregated;
    for k := 0 to |settlements|
      invariant result == FoldGroup(aggregated, uid, members, settlements[..k])
    {
      assert settlements[..k + 1][..k] == settlements[..k];
      var settlement := settlements[k];
      if settlement.fromUid == uid {
        var displayName := DisplayName(members, settlement.toUid);
        if settlement.toUid !in result {
          result := result[settlement.toUid := Entry(displayName, 0)];
        }
        var e := result[settlement.toUid];
        result := result[settlement.toUid := Entry(e.displayName, e.amount - settlement.amount)];
      } else if settlement.toUid == uid {
        var displayName := DisplayName(members, settlement.fromUid);
        if settlement.fromUid !in result {
          result := result[settlement.fromUid := Entry(displayName, 0)];
        }
        var e := result[settlement.fromUid];
        result := result[settlement.fromUid := Entry(e.displayName, e.amount + settlement.amount)];
      }
    }
    assert settlements[..|settlements|] == settlements;
  }

  // ----- Reference definitions for one group -----

  /** The uids that appear opposite `uid` in `ss`. */
  function Counterparties(ss: seq<Settlement>, uid: Uid): set<Uid>
  {
    if ss == [] then {}
    else
      var s := ss[|ss| - 1];
      Counterparties(ss[..|ss| - 1], uid)
        + (if s.fromUid == uid then {s.toUid} else if s.toUid == uid then {s.fromUid} else {})
  }

  /** What `p` owes `uid` over `ss`: what `p` pays `uid` minus what `uid` pays `p`. */
  function NetWith(ss: seq<Settlement>, uid: Uid, p: Uid): int
  {
    if ss == [] then 0
    else
      var s := ss[|ss| - 1];
      NetWith(ss[..|ss| - 1], uid, p)
        + (if s.fromUid == uid then (if s.toUid == p then -s.amount else 0)
           else if s.toUid == uid then (if s.fromUid == p then s.amount else 0)
           else 0)
  }

  /**
   * After one group, `p` has an entry exactly when it had one or is a
   * counterparty of `uid`; its amount grew by what `p` owes `uid` in the group;
   * an existing entry keeps its name, a new one takes the member's name.
   */
  lemma {:induction false} FoldGroupAt(aggregated: map<Uid, Entry>, uid: Uid, members: seq<Member>, ss: seq<Settlement>, p: Uid)
    ensures p in FoldGroup(aggregated, uid, members, ss) <==> p in aggregated || p in Counterparties(ss, uid)
    ensures p in FoldGroup(aggregated, uid, members, ss) ==>
              FoldGroup(aggregated, uid, members, ss)[p].amount
                == (if p in aggregated then aggregated[p].amount else 0) + NetWith(ss, uid, p)
    ensures p in FoldGroup(aggregated, uid, members, ss) ==>
              FoldGroup(aggregated, uid, members, ss)[p].displayName
                == (if p in aggregated then aggregated[p].displayName else DisplayName(members, p))
    ensures p !in FoldGroup(aggregated, uid, members, ss) ==> NetWith(ss, uid, p) == 0
  {
    if ss != [] {
      var n := |ss| - 1;
      FoldGroupAt(aggregated, uid, members, ss[..n], p);
      var before := FoldGroup(aggregated, uid, members, ss[..n]);
      var s := ss[n];
      assert FoldGroup(aggregated, uid, members, ss) == Record(before, uid, members, s);
      if p !in before && p in Counterparties(ss, uid) {
        assert p == (if s.fromUid == uid then s.toUid else s.fromUid);
      }
    }
  }

  /** Settlements between other members leave the aggregate as it was. */
  lemma {:induction false} FoldGroupIgnoresOthers(aggregated: map<Uid, Entry>, uid: Uid, members: seq<Member>, ss: seq<Settlement>)
    requires forall s :: s in ss ==> s.fromUid != uid && s.toUid != uid
    ensures FoldGroup(aggregated, uid, members, ss) == aggregated
  {
    if ss != [] {
      var n := |ss| - 1;
      assert ss[n] in ss;
      assert forall s :: s in ss[..n] ==> s in ss;
      FoldGroupIgnoresOthers(aggregated, uid, members, ss[..n]);
    }
  }

  /** The user is never their own counterparty when no settlement pays its own sender. */
  lemma {:induction false} SelfIsNoCounterparty(ss: seq<Settlement>, uid: Uid)
    requires forall s :: s in ss ==> s.fromUid != s.toUid
    ensures uid !in Counterparties(ss, uid)
  {
    if ss != [] {
      var n := |ss| - 1;
      assert ss[n] in ss;
      assert forall s :: s in ss[..n] ==> s in ss;
      SelfIsNoCounterparty(ss[..n], uid);
    }
  }

  // ----- Across groups -----

  /** The balances of one group, as computeGroupNetBalances gives them. */
  function BalancesOf(data: GroupData): map<Uid, int>
  {
    NetBalances(data.expenses, data.payments, data.members)
  }

  /** One pass of the outer loop over a group with members: its id, roster and settlements. */
  datatype Visit = Visit(groupId: string, members: seq<Member>, settlements: seq<Settlement>)

  function FoldVisits(uid: Uid, visits: seq<Visit>): map<Uid, Entry>
  {
    if visits == [] then map[]
    else
      var v := visits[|visits| - 1];
      FoldGroup(FoldVisits(uid, visits[..|visits| - 1]), uid, v.members, v.settlements)
  }

  /** What `p` owes `uid` over all visited groups. */
  function TotalWith(visits: seq<Visit>, uid: Uid, p: Uid): int
  {
    if visits == [] then 0
    else
      var v := visits[|visits| - 1];
      TotalWith(visits[..|visits| - 1], uid, p) + NetWith(v.settlements, uid, p)
  }

  function VisitedIds(visits: seq<Visit>): set<string>
  {
    set v | v in visits :: v.groupId
  }

  /**
   * The visits cover each group of `done` that has members exactly once, each
   * with its own roster and a result simplifySettlements may give for its balances.
   */
  ghost predicate VisitsAmong(groups: map<string, GroupData>, done: set<string>, visits: seq<Visit>)
  {
    && (forall a, b :: 0 <= a < b < |visits| ==> visits[a].groupId != visits[b].groupId)
    && VisitedIds(visits) == (set g | g in done && g in groups && groups[g].members != [])
    && (forall v :: v in visits ==>
          && v.groupId in groups
          && v.members == groups[v.groupId].members
          && IsSimplification(BalancesOf(groups[v.groupId]), v.settlements))
  }

  /** Across all groups, `p` has an entry exactly when it is a counterparty in some group, holding its total. */
  lemma {:induction false} FoldVisitsAt(uid: Uid, visits: seq<Visit>, p: Uid)
    ensures p in FoldVisits(uid, visits) <==> exists v :: v in visits && p in Counterparties(v.settlements, uid)
    ensures p in FoldVisits(uid, visits) ==> FoldVisits(uid, visits)[p].amount == TotalWith(visits, uid, p)
    ensures p !in FoldVisits(uid, visits) ==> TotalWith(visits, uid, p) == 0
  {
    if visits != [] {
      var n := |visits| - 1;
      var v := visits[n];
      FoldVisitsAt(uid, visits[..n], p);
      FoldGroupAt(FoldVisits(uid, visits[..n]), uid, v.members, v.settlements, p);
      assert v in visits;
      assert forall w :: w in visits ==> w in visits[..n] || w == v;
      assert forall w :: w in visits[..n] ==> w in visits;
    }
  }

  /** The user never gets an entry of their own. */
  lemma {:induction false} FoldVisitsExcludesSelf(uid: Uid, visits: seq<Visit>)
    requires forall v, s :: v in visits && s in v.settlements ==> s.fromUid != s.toUid
    ensures uid !in FoldVisits(uid, visits)
  {
    if visits != [] {
      var n := |visits| - 1;
      var v := visits[n];
      assert forall w :: w in visits[..n] ==> w in visits;
      FoldVisitsExcludesSelf(uid, visits[..n]);
      assert v in visits;
      SelfIsNoCounterparty(v.settlements, uid);
      FoldGroupAt(FoldVisits(uid, visits[..n]), uid, v.members, v.settlements, uid);
    }
  }

  // ----- The result list -----

  /** The entries of `keys` more than a cent from zero, as result records. */
  ghost function CollectedAmong(aggregated: map<Uid, Entry>, keys: set<Uid>): set<PersonBalance>
  {
    set p | p in keys && p in aggregated && Abs(aggregated[p].amount) > Epsilon
      :: PersonBalance(p, aggregated[p].displayName, aggregated[p].amount)
  }

  /** Every entry more than a cent from zero once, by non-increasing amount, ties in any order. */
  ghost predicate IsCollected(aggregated: map<Uid, Entry>, balances: seq<PersonBalance>)
  {
    multiset(balances) == multiset(CollectedAmong(aggregated, aggregated.Keys))
      && NonIncreasing(balances, BalanceAmount)
  }

  /** The final `for` loop over `Object.entries(aggregated)` and the sort. */
  method CollectBalances(aggregated: map<Uid, Entry>) returns (balances: seq<PersonBalance>)
    ensures IsCollected(aggregated, balances)
  {
    var list: seq<PersonBalance> := [];
    var pending := aggregated.Keys;
    while pending != {}
      invariant pending <= aggregated.Keys
      invariant multiset(list) == multiset(CollectedAmong(aggregated, aggregated.Keys - pending))
      decreases pending
    {
      var personUid :| personUid in pending;
      CollectStep(aggregated, aggregated.Keys - pending, personUid);
      assert aggregated.Keys - (pending - {personUid}) == (aggregated.Keys - pending) + {personUid};
      var data := aggregated[personUid];
      if Abs(data.amount) > Epsilon {
        list := list + [PersonBalance(personUid, data.displayName, data.amount)];
      }
      pending := pending - {personUid};
    }
    balances := SortDescending(list, BalanceAmount);
  }

  lemma CollectStep(aggregated: map<Uid, Entry>, done: set<Uid>, p: Uid)
    requires p in aggregated && p !in done
    ensures multiset(CollectedAmong(aggregated, done + {p})) ==
              multiset(CollectedAmong(aggregated, done))
                + (if Abs(aggregated[p].amount) > Epsilon
                   then multiset{PersonBalance(p, aggregated[p].displayName, aggregated[p].amount)}
                   else multiset{})
  {
    var b := PersonBalance(p, aggregated[p].displayName, aggregated[p].amount);
    if Abs(aggregated[p].amount) > Epsilon {
      assert CollectedAmong(aggregated, done + {p}) == CollectedAmong(aggregated, done) + {b};
      assert b !in CollectedAmong(aggregated, done);
    } else {
      assert CollectedAmong(aggregated, done + {p}) == CollectedAmong(aggregated, done);
    }
  }

  /** Each result record is an entry of `aggregated` more than a cent from zero. */
  lemma CollectedEntries(aggregated: map<Uid, Entry>, balances: seq<PersonBalance>)
    requires IsCollected(aggregated, balances)
    ensures forall b :: b in balances ==>
              && b.uid in aggregated && Abs(b.amount) > Epsilon
              && b.amount == aggregated[b.uid].amount && b.displayName == aggregated[b.uid].displayName
  {
    forall b | b in balances
      ensures b.uid in aggregated && Abs(b.amount) > Epsilon
      ensures b.amount == aggregated[b.uid].amount && b.displayName == aggregated[b.uid].displayName
    {
      assert b in multiset(balances);
    }
  }

  /**
   * The result lists each person whose total with `uid` across the visited
   * groups is more than a cent from zero, once, carrying that total, and no one else.
   */
  lemma BalancesAreTotals(uid: Uid, visits: seq<Visit>, balances: seq<PersonBalance>)
    requires IsCollected(FoldVisits(uid, visits), balances)
    ensures forall b :: b in balances ==> b.amount == TotalWith(visits, uid, b.uid) && Abs(b.amount) > Epsilon
    ensures forall p :: Abs(TotalWith(visits, uid, p)) > Epsilon ==> exists b :: b in balances && b.uid == p
    ensures forall i, j :: 0 <= i < j < |balances| ==> balances[i].uid != balances[j].uid
  {
    var aggregated := FoldVisits(uid, visits);
    CollectedEntries(aggregated, balances);
    forall b | b in balances ensures b.amount == TotalWith(visits, uid, b.uid) {
      FoldVisitsAt(uid, visits, b.uid);
    }
    forall p | Abs(TotalWith(visits, uid, p)) > Epsilon ensures exists b :: b in balances && b.uid == p {
      FoldVisitsAt(uid, visits, p);
      var b := PersonBalance(p, aggregated[p].displayName, aggregated[p].amount);
      assert b in CollectedAmong(aggregated, aggregated.Keys);
      assert b in multiset(balances);
    }
    PermutationOfSetIsDistinct(balances, CollectedAmong(aggregated, aggregated.Keys));
    forall i, j | 0 <= i < j < |balances| ensures balances[i].uid != balances[j].uid {
      assert balances[i] in balances && balances[j] in balances;
    }
  }

  /** `if (uid && !loading)`: an empty uid is as absent as a missing one. */
  predicate Active(uid: Option<Uid>, loading: bool)
  {
    uid.Some? && uid.value != "" && !loading
  }

  method AggregateBalances(uid: Option<Uid>, loading: bool, groups: map<string, GroupData>)
    returns (balances: seq<PersonBalance>)
    ensures !Active(uid, loading) ==> balances == []
    ensures Active(uid, loading) ==>
              exists visits :: VisitsAmong(groups, groups.Keys, visits)
                            && IsCollected(FoldVisits(uid.value, visits), balances)
    ensures forall b :: b in balances ==> uid.Some? && b.uid != uid.value && Abs(b.amount) > Epsilon
    ensures NonIncreasing(balances, BalanceAmount)
  {
    balances := [];
    if Active(uid, loading) {
      var me := uid.value;
      var aggregated: map<Uid, Entry> := map[];
      ghost var visits: seq<Visit> := [];
      var pending := groups.Keys;
      while pending != {}
        invariant pending <= groups.Keys
        invariant VisitsAmong(groups, groups.Keys - pending, visits)
        invariant aggregated == FoldVisits(me, visits)
        invariant forall v, s :: v in visits && s in v.settlements ==> s.fromUid != s.toUid
        decreases pending
      {
        var groupId :| groupId in pending;
        ghost var done := groups.Keys - pending;
        pending := pending - {groupId};
        assert groups.Keys - pending == done + {groupId};
        var data := groups[groupId];
        if |data.members| == 0 {
          continue;
        }
        var netBalances := ComputeGroupNetBalances(data.expenses, data.payments, data.members);
        var settlements := SimplifySettlements(netBalances);
        aggregated := FoldSettlements(aggregated, me, data.members, settlements);
        ghost var v := Visit(groupId, data.members, settlements);
        VisitStep(groups, done, visits, v);
        assert FoldVisits(me, visits + [v]) == aggregated by {
          assert (visits + [v])[..|visits|] == visits;
        }
        visits := visits + [v];
      }
      balances := CollectBalances(aggregated);
      FoldVisitsExcludesSelf(me, visits);
      CollectedEntries(aggregated, balances);
    }
  }

  lemma VisitStep(groups: map<string, GroupData>, done: set<string>, visits: seq<Visit>, v: Visit)
    requires VisitsAmong(groups, done, visits)
    requires v.groupId in groups && v.groupId !in done && groups[v.groupId].members != []
    requires v.members == groups[v.groupId].members
    requires IsSimplification(BalancesOf(groups[v.groupId]), v.settlements)
    ensures VisitsAmong(groups, done + {v.groupId}, visits + [v])
  {
    var vs := visits + [v];
    assert vs[..|visits|] == visits;
    forall a, b | 0 <= a < b < |vs| ensures vs[a].groupId != vs[b].groupId {
      if b == |visits| {
        assert vs[a] in visits;
        assert vs[a].groupId in VisitedIds(visits);
      }
    }
    assert VisitedIds(vs) == VisitedIds(visits) + {v.groupId} by {
      assert v in vs;
      forall w | w in visits ensures w in vs { }
      forall w | w in vs ensures w in visits || w == v { }
    }
    var before := set g | g in done && g in groups && groups[g].members != [];
    var after := set g | g in done + {v.groupId} && g in groups && groups[g].members != [];
    assert VisitedIds(visits) == before;
    assert after == before + {v.groupId};
    assert VisitedIds(vs) == after;
  }
}
