/**
 * The descending sort `xs.sort((a, b) => b.amount - a.amount)` used by the
 * engine and by the per-counterparty view. It is a library call whose order
 * among equal amounts the callers do not rely on, so every property below is
 * stated for ANY non-increasing permutation; SortDescending is one of them.
 */
module Sorting {

  ghost predicate NonIncreasing<T>(s: seq<T>, key: T -> int)
  {
    forall a, b :: 0 <= a < b < |s| ==> key(s[a]) >= key(s[b])
  }

  /** Inserts `x` after every element whose key is at least `x`'s. */
  function Insert<T>(x: T, s: seq<T>, key: T -> int): (r: seq<T>)
    requires NonIncreasing(s, key)
    ensures NonIncreasing(r, key)
    ensures multiset(r) == multiset(s) + multiset{x}
  {
    if s == [] || key(s[0]) < key(x) then
      PrependKeepsOrder(x, s, key);
      [x] + s
    else
      var rest := Insert(x, s[1..], key);
      assert s == [s[0]] + s[1..];
      BoundedByHead(s, x, rest, key);
      PrependKeepsOrder(s[0], rest, key);
      [s[0]] + rest
  }

  lemma PrependKeepsOrder<T>(x: T, s: seq<T>, key: T -> int)
    requires NonIncreasing(s, key)
    requires forall k :: 0 <= k < |s| ==> key(x) >= key(s[k])
    ensures NonIncreasing([x] + s, key)
  {
    forall a, b | 0 <= a < b < |[x] + s| ensures key(([x] + s)[a]) >= key(([x] + s)[b]) {
      if a > 0 {
        assert ([x] + s)[a] == s[a - 1];
      }
      assert ([x] + s)[b] == s[b - 1];
    }
  }

  lemma BoundedByHead<T>(s: seq<T>, x: T, rest: seq<T>, key: T -> int)
    requires s != [] && NonIncreasing(s, key) && key(s[0]) >= key(x)
    requires multiset(rest) == multiset(s[1..]) + multiset{x}
    ensures forall k :: 0 <= k < |rest| ==> key(s[0]) >= key(rest[k])
  {
    forall k | 0 <= k < |rest| ensures key(s[0]) >= key(rest[k]) {
      assert rest[k] in multiset(rest);
      if rest[k] != x {
        assert rest[k] in multiset(s[1..]);
        var m :| 0 <= m < |s[1..]| && s[1..][m] == rest[k];
        assert s[m + 1] == rest[k];
      }
    }
  }

  function SortDescending<T>(s: seq<T>, key: T -> int): (r: seq<T>)
    ensures NonIncreasing(r, key)
    ensures multiset(r) == multiset(s)
  {
    if s == [] then []
    else
      assert s == s[..|s| - 1] + [s[|s| - 1]];
      Insert(s[|s| - 1], SortDescending(s[..|s| - 1], key), key)
  }

  /**
   * A sequence that is a permutation of a set holds each member once, so its
   * positions hold pairwise different values.
   */
  lemma {:induction false} PermutationOfSetIsDistinct<T>(s: seq<T>, S: set<T>)
    requires multiset(s) == multiset(S)
    ensures forall a, b :: 0 <= a < b < |s| ==> s[a] != s[b]
  {
    forall a, b | 0 <= a < b < |s| ensures s[a] != s[b] {
      var x := s[a];
      assert s == s[..b] + s[b..];
      assert s[..b][a] == x;
      assert multiset(s)[x] == multiset(s[..b])[x] + multiset(s[b..])[x];
      assert multiset(s[b..])[x] == 0;
      assert s[b..][0] == s[b];
    }
  }
}
