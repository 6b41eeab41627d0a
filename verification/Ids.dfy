/**
  The uint32_t id sequences of component/TimerMgr.cpp and datacenter/RedisAgent.cpp: both take
  the first id at or after a counter that is not in use, and both let the counter wrap.
 */
module Ids {

  const ID_SPACE: nat := 0x1_0000_0000

  /** The id `k` steps after `start`: a uint32_t wraps to 0. */
  function IdAfter(start: nat, k: nat): (r: nat)
    ensures start < 0x1_0000_0000 && k < 0x1_0000_0000 ==> r == (start + k) % 0x1_0000_0000
  {
    if start + k < ID_SPACE then start + k else start + k - ID_SPACE
  }

  ghost predicate AllUsed(used: set<nat>, start: nat, k: nat) {
    forall j: nat :: j < k ==> IdAfter(start, j) in used
  }

  /** `r` is the first id at or after `start`, wrapping, that is not in use. */
  ghost predicate FirstFree(used: set<nat>, start: nat, r: nat) {
    && r < ID_SPACE && r !in used
    && exists k: nat :: k < ID_SPACE && r == IdAfter(start, k) && AllUsed(used, start, k)
  }

  /** The source's loop runs for ever when all 2^32 ids are in use, hence the bound. */
  method SkipUsed(used: set<nat>, start: nat) returns (id: nat)
    requires start < ID_SPACE && |used| < ID_SPACE
    ensures FirstFree(used, start, id)
    ensures start !in used ==> id == start
  {
    id := start;
    ghost var k := 0;
    ghost var seen: set<nat> := {};
    assert id == IdAfter(start, 0);
    while id in used
      invariant id < ID_SPACE && 0 <= k < ID_SPACE
      invariant id == IdAfter(start, k)
      invariant AllUsed(used, start, k)
      invariant seen <= used && |seen| == k
      invariant forall x :: x in seen ==> exists j: nat :: j < k && x == IdAfter(start, j)
      invariant start !in used ==> k == 0
      decreases |used| - k
    {
      assert id !in seen;
      seen := seen + {id};
      SubsetSize(seen, used);
      id := IdAfter(id, 1);
      k := k + 1;
    }
  }

  lemma {:induction false} BelowBound(s: set<nat>, n: nat)
    requires forall x :: x in s ==> x < n
    ensures |s| <= n
    decreases n
  {
    if n == 0 {
      assert s == {};
    } else {
      BelowBound(s - {n - 1}, n - 1);
      SubsetSize(s, s - {n - 1} + {n - 1});
    }
  }

  lemma {:induction false} SubsetSize(a: set<nat>, b: set<nat>)
    requires a <= b
    ensures |a| <= |b|
  {
    assert b == a + (b - a);
  }
}
