/** `DescriptorAllocator`: descriptor pools kept on two lists. The free list
    is used as a stack; a pool that reports exhaustion moves to the full
    list until `resetPools` recycles it. Each newly created pool raises the
    sets-per-pool baseline by a factor 1.5.

    Pool handles are fresh naturals handed out by a counter that stands for
    `vkCreateDescriptorPool`; the result of `vkAllocateDescriptorSets` is an
    input. Every device call is recorded as a `PoolEvent`. */
module DescriptorAllocation {
  import opened VkTypes

  type Pool = Handle

  /** The `VkResult` of `vkAllocateDescriptorSets`. */
  datatype AllocResult = Success | OutOfPoolMemory | FragmentedPool | OtherError(code: int)

  /** The two results on which `allocate` moves the pool to the full list and retries. */
  predicate IsExhausted(res: AllocResult) {
    res == OutOfPoolMemory || res == FragmentedPool
  }

  /** What `allocate` hands back. `Unchecked`: a first attempt failed with an
      error `allocate` does not test, so the set it returns was never written.
      `Fatal`: the retry failed and `VK_CHECK` stops the program. */
  datatype Outcome = SetFrom(pool: Pool) | Unchecked(pool: Pool, res: AllocResult) | Fatal(res: AllocResult)

  /** A device call made by the allocator. */
  datatype PoolEvent =
    | PoolCreated(pool: Pool, maxSets: u32)
    | SetsAllocated(pool: Pool, res: AllocResult)
    | PoolReset(pool: Pool)
    | PoolDestroyed(pool: Pool)

  /** `mSetsPerPool *= 1.5` on a `uint32_t`: the product is exact in `double`
      and the store truncates, which is x * 3 / 2. */
  function Grow(x: nat): (y: nat)
    ensures x <= y
    ensures y * 2 <= x * 3 < y * 2 + 2
  {
    x * 3 / 2
  }

  /** The allocator's fields: `mFreePools`, `mFullPools`, `mSetsPerPool`,
      the next fresh pool handle and the device calls made so far. */
  datatype AllocatorState = AllocatorState(
    free: seq<Pool>, full: seq<Pool>, setsPerPool: u32, nextPool: Pool, events: seq<PoolEvent>)

  /** Pools on the lists are distinct and were all handed out before `nextPool`. */
  ghost predicate Valid(s: AllocatorState) {
    DistinctBelow(s.free + s.full, s.nextPool) && 0 < s.nextPool
  }

  function CreatedBy(e: PoolEvent): seq<Pool> {
    if e.PoolCreated? then [e.pool] else []
  }

  /** The pools a run of device calls created, in creation order. */
  function CreatedPools(evs: seq<PoolEvent>): (ps: seq<Pool>)
    ensures |ps| <= |evs|
  {
    if evs == [] then []
    else CreatedPools(evs[..|evs| - 1]) + CreatedBy(evs[|evs| - 1])
  }

  lemma {:induction false} CreatedPoolsAppend(a: seq<PoolEvent>, b: seq<PoolEvent>)
    ensures CreatedPools(a + b) == CreatedPools(a) + CreatedPools(b)
  {
    if b == [] {
      assert a + b == a;
    } else {
      assert (a + b)[..|a + b| - 1] == a + b[..|b| - 1];
      CreatedPoolsAppend(a, b[..|b| - 1]);
    }
  }

  /** One `ResetPool` per pool, in list order. */
  function ResetAll(ps: seq<Pool>): (evs: seq<PoolEvent>)
    ensures |evs| == |ps|
    ensures forall k :: 0 <= k < |ps| ==> evs[k] == PoolReset(ps[k])
  {
    if ps == [] then [] else ResetAll(ps[..|ps| - 1]) + [PoolReset(ps[|ps| - 1])]
  }

  /** One `PoolDestroyed` per pool, in list order. */
  function DestroyAll(ps: seq<Pool>): (evs: seq<PoolEvent>)
    ensures |evs| == |ps|
    ensures forall k :: 0 <= k < |ps| ==> evs[k] == PoolDestroyed(ps[k])
  {
    if ps == [] then [] else DestroyAll(ps[..|ps| - 1]) + [PoolDestroyed(ps[|ps| - 1])]
  }

  /** The pools a run of device calls destroyed, in order. */
  function DestroyedPools(evs: seq<PoolEvent>): (ps: seq<Pool>)
  {
    if evs == [] then []
    else DestroyedPools(evs[..|evs| - 1]) + (if evs[|evs| - 1].PoolDestroyed? then [evs[|evs| - 1].pool] else [])
  }

  // ---------------------------------------------------------------------
  // The operations as functions of the state

  /** `createPool`: a fresh pool whose `maxSets` is the current baseline. */
  function CreatePoolStep(s: AllocatorState): (Pool, AllocatorState)
  {
    (s.nextPool, s.(nextPool := s.nextPool + 1,
                    events := s.events + [PoolCreated(s.nextPool, s.setsPerPool)]))
  }

  /** `init`: the baseline becomes `setPerPool`, one pool of that size is
      created and pushed on the free list, then the baseline grows. */
  function InitStep(s: AllocatorState, setPerPool: u32): AllocatorState
    requires Grow(setPerPool) < U32_LIMIT
  {
    var (p, s1) := CreatePoolStep(s.(setsPerPool := setPerPool));
    s1.(free := s1.free + [p], setsPerPool := Grow(setPerPool))
  }

  /** `getFreePool`: pops the last free pool, or creates one and grows the baseline. */
  function GetFreePoolStep(s: AllocatorState): (Pool, AllocatorState)
    requires s.free == [] ==> Grow(s.setsPerPool) < U32_LIMIT
  {
    if |s.free| > 0 then
      (s.free[|s.free| - 1], s.(free := s.free[..|s.free| - 1]))
    else
      var (p, s1) := CreatePoolStep(s);
      (p, s1.(setsPerPool := Grow(s.setsPerPool)))
  }

  /** `allocate` can run without the baseline leaving `uint32_t`: it grows
      once per pool it creates, and it creates one when the free list is empty
      at the first attempt or (after exhaustion) at the retry. */
  predicate AllocateFits(s: AllocatorState, first: AllocResult) {
    && (|s.free| == 0 ==> Grow(s.setsPerPool) < U32_LIMIT)
    && (IsExhausted(first) && |s.free| == 0 ==> Grow(Grow(s.setsPerPool)) < U32_LIMIT)
    && (IsExhausted(first) && |s.free| == 1 ==> Grow(s.setsPerPool) < U32_LIMIT)
  }

  /** One call to `vkAllocateDescriptorSets`, on the pool `getFreePool` hands out. */
  function AttemptStep(s: AllocatorState, res: AllocResult): (Pool, AllocatorState)
    requires s.free == [] ==> Grow(s.setsPerPool) < U32_LIMIT
  {
    var (p, s1) := GetFreePoolStep(s);
    (p, s1.(events := s1.events + [SetsAllocated(p, res)]))
  }

  /** `allocate`, given the results of the first and (if any) second call to
      `vkAllocateDescriptorSets`. */
  function AllocateStep(s: AllocatorState, first: AllocResult, second: AllocResult): (AllocatorState, Outcome)
    requires AllocateFits(s, first)
  {
    var (p1, s1) := AttemptStep(s, first);
    if IsExhausted(first) then
      var s2 := s1.(full := s1.full + [p1]);
      assert s2.free == [] ==> |s.free| <= 1;
      var (p2, s3) := AttemptStep(s2, second);
      if second == Success then (s3.(free := s3.free + [p2]), SetFrom(p2))
      else (s3, Fatal(second))
    else
      (s1.(free := s1.free + [p1]), if first == Success then SetFrom(p1) else Unchecked(p1, first))
  }

  /** `resetPools`: resets every free pool, then every full pool, moving each
      full pool to the end of the free list. */
  function ResetPoolsStep(s: AllocatorState): AllocatorState {
    s.(free := s.free + s.full, full := [], events := s.events + ResetAll(s.free) + ResetAll(s.full))
  }

  /** `destroy`: destroys every free pool, then every full pool, and empties both lists. */
  function DestroyStep(s: AllocatorState): AllocatorState {
    s.(free := [], full := [], events := s.events + DestroyAll(s.free) + DestroyAll(s.full))
  }

  // ---------------------------------------------------------------------
  // What the operations promise

  /** `init` creates exactly one pool, sized `setPerPool`, puts exactly that
      pool on the free list and leaves the baseline at floor(1.5 * setPerPool). */
  lemma InitCreatesOnePool(s: AllocatorState, setPerPool: u32)
    requires Grow(setPerPool) < U32_LIMIT
    ensures var s' := InitStep(s, setPerPool);
      && s'.events == s.events + [PoolCreated(s.nextPool, setPerPool)]
      && s'.free == s.free + [s.nextPool] && s'.full == s.full
      && s'.setsPerPool * 2 <= setPerPool * 3 < s'.setsPerPool * 2 + 2
  {
  }

  /** With free pools available, `getFreePool` pops the last one and creates nothing. */
  lemma GetFreePoolReuses(s: AllocatorState)
    requires s.free != []
    ensures var (p, s') := GetFreePoolStep(s);
      && p == s.free[|s.free| - 1] && s'.free + [p] == s.free
      && s'.events == s.events && s'.setsPerPool == s.setsPerPool && s'.full == s.full
  {
    var (p, s') := GetFreePoolStep(s);
    assert s'.free + [p] == s.free;
  }

  /** With no free pool, `getFreePool` creates a fresh pool sized by the
      current baseline and then grows the baseline. */
  lemma GetFreePoolCreates(s: AllocatorState)
    requires s.free == [] && Grow(s.setsPerPool) < U32_LIMIT
    ensures var (p, s') := GetFreePoolStep(s);
      && p == s.nextPool && s'.nextPool == s.nextPool + 1
      && s'.events == s.events + [PoolCreated(p, s.setsPerPool)]
      && s'.setsPerPool == Grow(s.setsPerPool) && s'.free == [] && s'.full == s.full
  {
  }

  /** A successful (or unchecked) first attempt returns the pool it used to
      the end of the free list and leaves the full list alone. */
  lemma AllocateFirstAttempt(s: AllocatorState, first: AllocResult, second: AllocResult)
    requires AllocateFits(s, first) && !IsExhausted(first)
    ensures var (s', out) := AllocateStep(s, first, second);
      var p := GetFreePoolStep(s).0;
      && s'.full == s.full
      && s'.free == GetFreePoolStep(s).1.free + [p]
      && s'.events[..|s'.events| - 1] == GetFreePoolStep(s).1.events
      && (first == Success ==> out == SetFrom(p))
      && (first != Success ==> out == Unchecked(p, first))
      && s'.events[|s'.events| - 1] == SetsAllocated(p, first)
  {
  }

  /** The pools on the two lists. */
  function Pools(s: AllocatorState): seq<Pool> {
    s.free + s.full
  }

  /** `s'` follows `s` by further device calls, and the pools on its lists
      together with those handed out (`held`) are the pools of `s` plus the
      ones those calls created. */
  ghost predicate Extends(s: AllocatorState, s': AllocatorState, held: seq<Pool>) {
    && |s.events| <= |s'.events| && s'.events[..|s.events|] == s.events
    && multiset(Pools(s') + held) == multiset(Pools(s)) + multiset(CreatedPools(s'.events[|s.events|..]))
  }

  /** Pools are distinct, positive and below `bound`. */
  ghost predicate DistinctBelow(ps: seq<Pool>, bound: Pool) {
    && (forall i, j :: 0 <= i < j < |ps| ==> ps[i] != ps[j])
    && (forall i :: 0 <= i < |ps| ==> 0 < ps[i] < bound)
  }

  /** Appending a fresh handle (one at or above every listed handle) keeps a
      list distinct. */
  lemma DistinctWithFresh(ps: seq<Pool>, x: Pool, bound: Pool)
    requires DistinctBelow(ps, x)
    requires 0 < x < bound
    ensures DistinctBelow(ps + [x], bound)
  {
    var r := ps + [x];
    forall i, j | 0 <= i < j < |r| ensures r[i] != r[j] {
      if j == |ps| { assert r[i] == ps[i]; } else { assert r[i] == ps[i] && r[j] == ps[j]; }
    }
    forall i | 0 <= i < |r| ensures 0 < r[i] < bound {
      if i < |ps| { assert r[i] == ps[i]; }
    }
  }

  /** An allocation attempt hands out a pool it took from the free list or
      just created: the lists plus the handed-out pool are the old pools plus
      the created ones, and they stay distinct. */
  lemma AttemptKeeps(s: AllocatorState, res: AllocResult)
    requires s.free == [] ==> Grow(s.setsPerPool) < U32_LIMIT
    requires DistinctBelow(Pools(s), s.nextPool) && 0 < s.nextPool
    ensures var (p, s') := AttemptStep(s, res);
      && s'.full == s.full && 0 < s'.nextPool
      && DistinctBelow(Pools(s') + [p], s'.nextPool)
      && Extends(s, s', [p])
  {
    if |s.free| > 0 {
      AttemptKeepsPop(s, res);
    } else {
      AttemptKeepsCreate(s, res);
    }
  }

  lemma AttemptKeepsPop(s: AllocatorState, res: AllocResult)
    requires |s.free| > 0
    requires DistinctBelow(Pools(s), s.nextPool) && 0 < s.nextPool
    ensures var (p, s') := AttemptStep(s, res);
      && s'.full == s.full && 0 < s'.nextPool
      && DistinctBelow(Pools(s') + [p], s'.nextPool)
      && Extends(s, s', [p])
  {
    var (p, s') := AttemptStep(s, res);
    var tail := s'.events[|s.events|..];
    assert tail == [SetsAllocated(p, res)];
    assert CreatedPools(tail) == [] by { assert tail[..0] == []; }
    PopKeepsPools(s.free, s.full, s.nextPool);
  }

  /** Moving the last free pool behind the full list keeps the pools. */
  lemma PopKeepsPools(free: seq<Pool>, full: seq<Pool>, bound: Pool)
    requires |free| > 0 && DistinctBelow(free + full, bound)
    ensures var rest, p := free[..|free| - 1], free[|free| - 1];
      && multiset(rest + full + [p]) == multiset(free + full)
      && DistinctBelow(rest + full + [p], bound)
  {
    var rest, p := free[..|free| - 1], free[|free| - 1];
    assert free == rest + [p];
    assert multiset(free + full) == multiset(rest) + multiset([p]) + multiset(full);
    DistinctPermutation(free + full, rest + full + [p], bound);
  }

  lemma AttemptKeepsCreate(s: AllocatorState, res: AllocResult)
    requires s.free == [] && Grow(s.setsPerPool) < U32_LIMIT
    requires DistinctBelow(Pools(s), s.nextPool) && 0 < s.nextPool
    ensures var (p, s') := AttemptStep(s, res);
      && s'.full == s.full && 0 < s'.nextPool
      && DistinctBelow(Pools(s') + [p], s'.nextPool)
      && Extends(s, s', [p])
  {
    var (p, s') := AttemptStep(s, res);
    var tail := s'.events[|s.events|..];
    assert tail == [PoolCreated(p, s.setsPerPool), SetsAllocated(p, res)];
    assert CreatedPools(tail) == [p] by {
      assert tail[..1] == [PoolCreated(p, s.setsPerPool)];
      assert tail[..1][..0] == [];
    }
    assert Pools(s') + [p] == Pools(s) + [p];
    DistinctWithFresh(Pools(s), p, s'.nextPool);
  }

  /** Extension composes. */
  lemma ExtendsTrans(a: AllocatorState, b: AllocatorState, c: AllocatorState, held: seq<Pool>)
    requires Extends(a, b, []) && Extends(b, c, held)
    ensures Extends(a, c, held)
  {
    assert Pools(b) + [] == Pools(b);
    SliceSplit(a.events, b.events, c.events);
    CreatedPoolsAppend(b.events[|a.events|..], c.events[|b.events|..]);
  }

  /** Putting the handed-out pool back on the free list keeps the pools and
      their distinctness. */
  lemma PushFreeKeeps(s: AllocatorState, p: Pool)
    requires DistinctBelow(Pools(s) + [p], s.nextPool)
    ensures var s' := s.(free := s.free + [p]);
      && multiset(Pools(s')) == multiset(Pools(s) + [p])
      && DistinctBelow(Pools(s'), s.nextPool)
  {
    var s' := s.(free := s.free + [p]);
    assert Pools(s') == s.free + [p] + s.full;
    assert multiset(Pools(s')) == multiset(Pools(s) + [p]);
    DistinctPermutation(Pools(s) + [p], Pools(s'), s.nextPool);
  }

  /** On exhaustion the pool that failed goes to the end of the full list, and
      exactly one more attempt is made, on a different pool: the calls are
      at most one pool creation, the first allocation, at most one pool
      creation and the second allocation, nothing else. A second success
      returns that pool to the free list, a second failure is fatal. With
      `n` free pools, the two attempts draw the last two of them, creating a
      pool for each attempt the free list cannot serve. */
  lemma AllocateRetriesOnce(s: AllocatorState, first: AllocResult, second: AllocResult)
    requires Valid(s) && AllocateFits(s, first) && IsExhausted(first)
    ensures var (s', out) := AllocateStep(s, first, second);
      var n, b := |s.free|, s.setsPerPool;
      var p1 := if n > 0 then s.free[n - 1] else s.nextPool;
      var p2 := if n > 1 then s.free[n - 2] else if n == 1 then s.nextPool else s.nextPool + 1;
      var created1 := if n == 0 then [PoolCreated(p1, b)] else [];
      var created2 := if n == 0 then [PoolCreated(p2, Grow(b))] else if n == 1 then [PoolCreated(p2, b)] else [];
      && p2 != p1
      && s'.events == s.events + created1 + [SetsAllocated(p1, first)] + created2 + [SetsAllocated(p2, second)]
      && s'.full == s.full + [p1]
      && s'.free == (if n > 1 then s.free[..n - 2] else []) + (if second == Success then [p2] else [])
      && s'.setsPerPool == (if n == 0 then Grow(Grow(b)) else if n == 1 then Grow(b) else b)
      && s'.nextPool == s.nextPool + (if n == 0 then 2 else if n == 1 then 1 else 0)
      && out == (if second == Success then SetFrom(p2) else Fatal(second))
  {
    RetryTakesAnotherPool(s, first, second);
    var n := |s.free|;
    if n > 1 {
      assert s.free[..n - 1][..n - 2] == s.free[..n - 2];
    }
  }

  /** The retry draws a pool other than the exhausted one. */
  lemma RetryTakesAnotherPool(s: AllocatorState, first: AllocResult, second: AllocResult)
    requires Valid(s) && AllocateFits(s, first) && IsExhausted(first)
    ensures var (p1, s1) := AttemptStep(s, first);
      var s2 := s1.(full := s1.full + [p1]);
      && (s2.free == [] ==> Grow(s2.setsPerPool) < U32_LIMIT)
      && AttemptStep(s2, second).0 != p1
  {
    var (p1, s1) := AttemptStep(s, first);
    var s2 := s1.(full := s1.full + [p1]);
    assert s2.free == [] ==> |s.free| <= 1;
    AttemptKeeps(s, first);
    assert Pools(s2) == Pools(s1) + [p1];
    AttemptAvoidsFull(s2, second, |s1.full|);
  }

  /** An attempt never draws a pool from the full list. */
  lemma AttemptAvoidsFull(s: AllocatorState, res: AllocResult, k: nat)
    requires DistinctBelow(Pools(s), s.nextPool)
    requires s.free == [] ==> Grow(s.setsPerPool) < U32_LIMIT
    requires k < |s.full|
    ensures AttemptStep(s, res).0 != s.full[k]
  {
    assert Pools(s)[|s.free| + k] == s.full[k];
    if |s.free| > 0 {
      assert Pools(s)[|s.free| - 1] == s.free[|s.free| - 1];
    }
  }

  /** No pool is ever lost: after a non-fatal `allocate`, the free and full
      lists together hold exactly the pools they held before plus the pools
      it created, and they stay distinct. */
  lemma AllocateKeepsEveryPool(s: AllocatorState, first: AllocResult, second: AllocResult)
    requires Valid(s) && AllocateFits(s, first)
    ensures var (s', out) := AllocateStep(s, first, second);
      !out.Fatal? ==>
        && multiset(s'.free + s'.full) ==
             multiset(s.free + s.full) + multiset(CreatedPools(s'.events[|s.events|..]))
        && Valid(s')
  {
    if !IsExhausted(first) {
      FirstAttemptKeepsEveryPool(s, first, second);
    } else if second == Success {
      RetryKeepsEveryPool(s, first, second);
    }
  }

  lemma FirstAttemptKeepsEveryPool(s: AllocatorState, first: AllocResult, second: AllocResult)
    requires Valid(s) && AllocateFits(s, first) && !IsExhausted(first)
    ensures var s' := AllocateStep(s, first, second).0;
      && multiset(s'.free + s'.full) ==
           multiset(s.free + s.full) + multiset(CreatedPools(s'.events[|s.events|..]))
      && Valid(s')
  {
    var (p1, s1) := AttemptStep(s, first);
    AttemptKeeps(s, first);
    PushFreeKeeps(s1, p1);
  }

  lemma RetryKeepsEveryPool(s: AllocatorState, first: AllocResult, second: AllocResult)
    requires Valid(s) && AllocateFits(s, first) && IsExhausted(first) && second == Success
    ensures var s' := AllocateStep(s, first, second).0;
      && multiset(s'.free + s'.full) ==
           multiset(s.free + s.full) + multiset(CreatedPools(s'.events[|s.events|..]))
      && Valid(s')
  {
    RetryExtends(s, first, second);
    var (p1, s1) := AttemptStep(s, first);
    var s2 := s1.(full := s1.full + [p1]);
    var (p2, s3) := AttemptStep(s2, second);
    PushFreeKeeps(s3, p2);
  }

  /** After the retry, the lists plus the pool it drew extend the old lists. */
  lemma RetryExtends(s: AllocatorState, first: AllocResult, second: AllocResult)
    requires Valid(s) && AllocateFits(s, first) && IsExhausted(first)
    ensures var (p1, s1) := AttemptStep(s, first);
      var s2 := s1.(full := s1.full + [p1]);
      && (s2.free == [] ==> Grow(s2.setsPerPool) < U32_LIMIT)
      && var (p2, s3) := AttemptStep(s2, second);
      && Extends(s, s3, [p2]) && DistinctBelow(Pools(s3) + [p2], s3.nextPool)
  {
    var (p1, s1) := AttemptStep(s, first);
    AttemptKeeps(s, first);
    var s2 := s1.(full := s1.full + [p1]);
    assert s2.free == [] ==> |s.free| <= 1;
    assert Pools(s2) == Pools(s1) + [p1];
    assert Extends(s, s2, []) by { assert Pools(s2) + [] == Pools(s1) + [p1]; }
    var (p2, s3) := AttemptStep(s2, second);
    AttemptKeeps(s2, second);
    ExtendsTrans(s, s2, s3, [p2]);
  }

  /** What a run of calls added, split at an intermediate point. */
  lemma SliceSplit<T>(a: seq<T>, b: seq<T>, c: seq<T>)
    requires |a| <= |b| <= |c| && b[..|a|] == a && c[..|b|] == b
    ensures c[|a|..] == b[|a|..] + c[|b|..]
  {
    assert c == c[..|b|] + c[|b|..];
  }

  /** A permutation of a distinct sequence is distinct. */
  lemma DistinctPermutation(a: seq<Pool>, b: seq<Pool>, bound: Pool)
    requires DistinctBelow(a, bound)
    requires multiset(a) == multiset(b)
    ensures DistinctBelow(b, bound)
  {
    forall i | 0 <= i < |b| ensures 0 < b[i] < bound {
      assert b[i] in multiset(b);
      assert b[i] in multiset(a);
      var k :| 0 <= k < |a| && a[k] == b[i];
    }
    forall i, j | 0 <= i < j < |b| ensures b[i] != b[j] {
      if b[i] == b[j] {
        assert multiset(b)[b[i]] >= 2 by {
          var rest := b[..i] + b[i + 1..];
          assert b == b[..i] + [b[i]] + b[i + 1..];
          assert b[j] in multiset(rest) by {
            assert rest[j - 1] == b[j];
          }
        }
        CountInDistinct(a, b[i]);
      }
    }
  }

  /** A value occurs at most once in a distinct sequence. */
  lemma {:induction false} CountInDistinct(a: seq<Pool>, x: Pool)
    requires forall i, j :: 0 <= i < j < |a| ==> a[i] != a[j]
    ensures multiset(a)[x] <= 1
  {
    if a != [] {
      CountInDistinct(a[1..], x);
      assert a == [a[0]] + a[1..];
      if a[0] == x {
        assert x !in a[1..] by {
          forall k | 0 <= k < |a[1..]| ensures a[1..][k] != x {
            assert a[1..][k] == a[k + 1];
          }
        }
      }
    }
  }

  /** `resetPools` destroys nothing, resets every pool once, empties the
      full list and appends the old full list to the old free list. */
  lemma ResetRecyclesEveryPool(s: AllocatorState)
    ensures var s' := ResetPoolsStep(s);
      && s'.full == [] && s'.free == s.free + s.full
      && s'.events[|s.events|..] == ResetAll(s.free + s.full)
      && DestroyedPools(s'.events[|s.events|..]) == []
      && CreatedPools(s'.events[|s.events|..]) == []
      && s'.setsPerPool == s.setsPerPool && s'.nextPool == s.nextPool
  {
    var s' := ResetPoolsStep(s);
    var tail := s'.events[|s.events|..];
    assert tail == ResetAll(s.free) + ResetAll(s.full);
    ResetAllAppend(s.free, s.full);
    NoDestroyInResets(s.free + s.full);
    NoCreateInResets(s.free + s.full);
  }

  lemma ResetAllAppend(a: seq<Pool>, b: seq<Pool>)
    ensures ResetAll(a) + ResetAll(b) == ResetAll(a + b)
  {
    var l, r := ResetAll(a) + ResetAll(b), ResetAll(a + b);
    forall k | 0 <= k < |r| ensures l[k] == r[k] {
      if k < |a| { assert l[k] == ResetAll(a)[k]; } else { assert l[k] == ResetAll(b)[k - |a|]; }
    }
  }

  lemma ResetAllStep(ps: seq<Pool>, i: nat)
    requires i < |ps|
    ensures ResetAll(ps[..i + 1]) == ResetAll(ps[..i]) + [PoolReset(ps[i])]
  {
    assert ps[..i + 1][..i] == ps[..i];
  }

  lemma PrefixStep(ps: seq<Pool>, i: nat)
    requires i < |ps|
    ensures ps[..i + 1] == ps[..i] + [ps[i]]
  {
  }

  lemma {:induction false} NoDestroyInResets(ps: seq<Pool>)
    ensures DestroyedPools(ResetAll(ps)) == []
  {
    if ps != [] {
      NoDestroyInResets(ps[..|ps| - 1]);
      assert ResetAll(ps)[..|ps| - 1] == ResetAll(ps[..|ps| - 1]);
    }
  }

  lemma {:induction false} NoCreateInResets(ps: seq<Pool>)
    ensures CreatedPools(ResetAll(ps)) == []
  {
    if ps != [] {
      NoCreateInResets(ps[..|ps| - 1]);
      assert ResetAll(ps)[..|ps| - 1] == ResetAll(ps[..|ps| - 1]);
    }
  }

  /** A second `resetPools` moves nothing: the lists and baseline stay as the
      first one left them (it only resets the same pools again). */
  lemma ResetTwiceKeepsLists(s: AllocatorState)
    ensures var once, twice := ResetPoolsStep(s), ResetPoolsStep(ResetPoolsStep(s));
      && twice.free == once.free && twice.full == once.full
      && twice.setsPerPool == once.setsPerPool && twice.nextPool == once.nextPool
  {
    assert s.free + s.full + [] == s.free + s.full;
  }

  /** `resetPools` keeps the lists distinct. */
  lemma ResetKeepsValid(s: AllocatorState)
    requires Valid(s)
    ensures Valid(ResetPoolsStep(s))
  {
    assert ResetPoolsStep(s).free + ResetPoolsStep(s).full == s.free + s.full;
  }

  /** `init` keeps the lists distinct: the pool it pushes is fresh. */
  lemma InitKeepsValid(s: AllocatorState, setPerPool: u32)
    requires Valid(s) && Grow(setPerPool) < U32_LIMIT
    ensures Valid(InitStep(s, setPerPool))
  {
    var s' := InitStep(s, setPerPool);
    DistinctWithFresh(Pools(s), s.nextPool, s'.nextPool);
    assert multiset(Pools(s) + [s.nextPool]) == multiset(Pools(s'));
    DistinctPermutation(Pools(s) + [s.nextPool], Pools(s'), s'.nextPool);
  }

  /** `getFreePool` keeps the lists distinct, and the pool it hands out is
      on neither list. */
  lemma GetFreePoolKeepsValid(s: AllocatorState)
    requires Valid(s) && (s.free == [] ==> Grow(s.setsPerPool) < U32_LIMIT)
    ensures var (p, s') := GetFreePoolStep(s);
      && Valid(s') && DistinctBelow(Pools(s') + [p], s'.nextPool)
      && p !in s'.free && p !in s'.full && 0 < p < s'.nextPool
  {
    var (p, s') := GetFreePoolStep(s);
    if |s.free| > 0 {
      PopKeepsPools(s.free, s.full, s.nextPool);
      assert Pools(s') + [p] == s.free[..|s.free| - 1] + s.full + [p];
    } else {
      DistinctWithFresh(Pools(s), p, s'.nextPool);
    }
    MemberOfDistinct(s'.free, s'.full, p, s'.nextPool);
  }

  /** The last pool of a distinct list is on neither of the lists before it. */
  lemma MemberOfDistinct(free: seq<Pool>, full: seq<Pool>, p: Pool, bound: Pool)
    requires DistinctBelow(free + full + [p], bound)
    ensures DistinctBelow(free + full, bound)
    ensures p !in free && p !in full && 0 < p < bound
  {
    var r := free + full + [p];
    DistinctDropLast(free + full, p, bound);
    assert r[|r| - 1] == p;
    forall k | 0 <= k < |free| ensures free[k] != p {
      assert r[k] == free[k];
    }
    forall k | 0 <= k < |full| ensures full[k] != p {
      assert r[|free| + k] == full[k];
    }
  }

  /** Dropping the last pool keeps a list distinct. */
  lemma DistinctDropLast(ps: seq<Pool>, x: Pool, bound: Pool)
    requires DistinctBelow(ps + [x], bound)
    ensures DistinctBelow(ps, bound)
  {
    var r := ps + [x];
    assert forall i :: 0 <= i < |ps| ==> r[i] == ps[i];
  }

  /** `allocate` keeps the lists distinct on every outcome, including the
      fatal one after which the program stops. */
  lemma AllocateKeepsValid(s: AllocatorState, first: AllocResult, second: AllocResult)
    requires Valid(s) && AllocateFits(s, first)
    ensures Valid(AllocateStep(s, first, second).0)
  {
    AllocateKeepsEveryPool(s, first, second);
    if IsExhausted(first) && second != Success {
      RetryExtends(s, first, second);
      var (p1, s1) := AttemptStep(s, first);
      var s2 := s1.(full := s1.full + [p1]);
      var (p2, s3) := AttemptStep(s2, second);
      DistinctDropLast(Pools(s3), p2, s3.nextPool);
    }
  }

  /** `destroy` leaves an allocator with no pools, which is valid. */
  lemma DestroyKeepsValid(s: AllocatorState)
    requires Valid(s)
    ensures Valid(DestroyStep(s))
  {
    assert Pools(DestroyStep(s)) == [];
  }

  /** `destroy` destroys each pool of both lists, free pools first, and
      leaves both lists empty; on a valid allocator that is each pool exactly once. */
  lemma DestroyReleasesEveryPool(s: AllocatorState)
    ensures var s' := DestroyStep(s);
      && s'.free == [] && s'.full == []
      && DestroyedPools(s'.events[|s.events|..]) == s.free + s.full
  {
    var s' := DestroyStep(s);
    assert s'.events[|s.events|..] == DestroyAll(s.free) + DestroyAll(s.full);
    DestroyAllAppend(s.free, s.full);
    DestroyedByDestroyAll(s.free + s.full);
  }

  lemma DestroyAllAppend(a: seq<Pool>, b: seq<Pool>)
    ensures DestroyAll(a) + DestroyAll(b) == DestroyAll(a + b)
  {
    var l, r := DestroyAll(a) + DestroyAll(b), DestroyAll(a + b);
    forall k | 0 <= k < |r| ensures l[k] == r[k] {
      if k < |a| { assert l[k] == DestroyAll(a)[k]; } else { assert l[k] == DestroyAll(b)[k - |a|]; }
    }
  }

  lemma DestroyAllStep(ps: seq<Pool>, i: nat)
    requires i < |ps|
    ensures DestroyAll(ps[..i + 1]) == DestroyAll(ps[..i]) + [PoolDestroyed(ps[i])]
  {
    assert ps[..i + 1][..i] == ps[..i];
  }

  lemma {:induction false} DestroyedByDestroyAll(ps: seq<Pool>)
    ensures DestroyedPools(DestroyAll(ps)) == ps
  {
    if ps != [] {
      DestroyedByDestroyAll(ps[..|ps| - 1]);
      assert DestroyAll(ps)[..|ps| - 1] == DestroyAll(ps[..|ps| - 1]);
      assert ps == ps[..|ps| - 1] + [ps[|ps| - 1]];
    }
  }

  // ---------------------------------------------------------------------
  // The allocator object

  /** `Valid(State())` is the allocator's invariant: the constructor
      establishes it and every operation keeps it. */
  class DescriptorAllocator {
    var fullPools: seq<Pool>
    var freePools: seq<Pool>
    var setsPerPool: u32
    /** Stands for the driver's supply of fresh `VkDescriptorPool` handles. */
    var nextPool: Pool
    var events: seq<PoolEvent>

    function State(): AllocatorState
      reads this
    {
      AllocatorState(freePools, fullPools, setsPerPool, nextPool, events)
    }

    /** The defaulted constructor: both lists empty. `mSetsPerPool` is left
        indeterminate by the source and is 0 here. */
    constructor ()
      ensures State() == AllocatorState([], [], 0, 1, [])
      ensures Valid(State())
    {
      fullPools, freePools, setsPerPool, nextPool, events := [], [], 0, 1, [];
    }

    method CreatePool() returns (p: Pool)
      modifies this
      ensures (p, State()) == CreatePoolStep(old(State()))
    {
      p := nextPool;
      events := events + [PoolCreated(p, setsPerPool)];
      nextPool := nextPool + 1;
    }

    method Init(setPerPool: u32)
      requires Valid(State()) && Grow(setPerPool) < U32_LIMIT
      modifies this
      ensures State() == InitStep(old(State()), setPerPool)
      ensures Valid(State())
    {
      setsPerPool := setPerPool;
      var newPool := CreatePool();
      freePools := freePools + [newPool];
      setsPerPool := Grow(setsPerPool);
      InitKeepsValid(old(State()), setPerPool);
    }

    method GetFreePool() returns (p: Pool)
      requires Valid(State()) && (freePools == [] ==> Grow(setsPerPool) < U32_LIMIT)
      modifies this
      ensures (p, State()) == GetFreePoolStep(old(State()))
      ensures Valid(State()) && p !in freePools && p !in fullPools
    {
      GetFreePoolKeepsValid(State());
      if |freePools| > 0 {
        p := freePools[|freePools| - 1];
        freePools := freePools[..|freePools| - 1];
      } else {
        p := CreatePool();
        setsPerPool := Grow(setsPerPool);
      }
    }

    /** `allocate`; `first` and `second` are what `vkAllocateDescriptorSets`
        returns on the first and the retried call. */
    method Allocate(first: AllocResult, second: AllocResult) returns (out: Outcome)
      requires Valid(State()) && AllocateFits(State(), first)
      modifies this
      ensures (State(), out) == AllocateStep(old(State()), first, second)
      ensures Valid(State())
    {
      ghost var s0 := State();
      AllocateKeepsValid(s0, first, second);
      var freePool := GetFreePool();
      events := events + [SetsAllocated(freePool, first)];
      if first == OutOfPoolMemory || first == FragmentedPool {
        GetFreePoolKeepsValid(s0);
        fullPools := fullPools + [freePool];
        assert Pools(State()) == Pools(GetFreePoolStep(s0).1) + [freePool];
        assert freePools == [] ==> |s0.free| <= 1;
        freePool := GetFreePool();
        events := events + [SetsAllocated(freePool, second)];
        if second != Success {
          return Fatal(second);
        }
        out := SetFrom(freePool);
      } else {
        out := if first == Success then SetFrom(freePool) else Unchecked(freePool, first);
      }
      freePools := freePools + [freePool];
    }

    /** `resetPools` keeps the allocator valid. */
    method ResetPools()
      requires Valid(State())
      modifies this
      ensures State() == ResetPoolsStep(old(State()))
      ensures Valid(State())
    {
      ResetEveryPool();
      ResetKeepsValid(old(State()));
    }

    /** The two loops of `resetPools`. */
    method ResetEveryPool()
      modifies this
      ensures State() == ResetPoolsStep(old(State()))
    {
      ghost var events0 := events;
      var i := 0;
      while i < |freePools|
        invariant 0 <= i <= |freePools|
        invariant freePools == old(freePools) && fullPools == old(fullPools)
        invariant setsPerPool == old(setsPerPool) && nextPool == old(nextPool)
        invariant events == events0 + ResetAll(freePools[..i])
      {
        ResetAllStep(freePools, i);
        events := events + [PoolReset(freePools[i])];
        i := i + 1;
      }
      assert freePools[..i] == freePools;
      ghost var free0 := freePools;
      ghost var events1 := events;
      var j := 0;
      while j < |fullPools|
        invariant 0 <= j <= |fullPools|
        invariant fullPools == old(fullPools)
        invariant freePools == free0 + fullPools[..j]
        invariant setsPerPool == old(setsPerPool) && nextPool == old(nextPool)
        invariant events == events1 + ResetAll(fullPools[..j])
      {
        ResetAllStep(fullPools, j);
        PrefixStep(fullPools, j);
        events := events + [PoolReset(fullPools[j])];
        freePools := freePools + [fullPools[j]];
        j := j + 1;
      }
      assert fullPools[..j] == fullPools;
      fullPools := [];
    }

    /** `destroy` leaves a valid, empty allocator. */
    method Destroy()
      requires Valid(State())
      modifies this
      ensures State() == DestroyStep(old(State()))
      ensures Valid(State())
    {
      DestroyEveryPool();
      DestroyKeepsValid(old(State()));
    }

    /** The two loops of `destroy`. */
    method DestroyEveryPool()
      modifies this
      ensures State() == DestroyStep(old(State()))
    {
      ghost var events0 := events;
      var i := 0;
      while i < |freePools|
        invariant 0 <= i <= |freePools|
        invariant freePools == old(freePools) && fullPools == old(fullPools)
        invariant setsPerPool == old(setsPerPool) && nextPool == old(nextPool)
        invariant events == events0 + DestroyAll(freePools[..i])
      {
        DestroyAllStep(freePools, i);
        events := events + [PoolDestroyed(freePools[i])];
        i := i + 1;
      }
      assert freePools[..i] == freePools;
      freePools := [];
      ghost var events1 := events;
      var j := 0;
      while j < |fullPools|
        invariant 0 <= j <= |fullPools|
        invariant fullPools == old(fullPools) && freePools == []
        invariant setsPerPool == old(setsPerPool) && nextPool == old(nextPool)
        invariant events == events1 + DestroyAll(fullPools[..j])
      {
        DestroyAllStep(fullPools, j);
        events := events + [PoolDestroyed(fullPools[j])];
        j := j + 1;
      }
      assert fullPools[..j] == fullPools;
      fullPools := [];
    }
  }
}
