/**
 * The per-environment cache of stacks that finished coroutines give back and
 * new ones take from, together with the process-wide cap on its size.
 */
module StackPool {
  import opened Types
  import opened StackStandard

  /**
   * The cap a pool may use, as `max_cached_stacks` computes it from the
   * `RUST_MAX_CACHED_STACKS` setting: the parsed value if it is a `usize`,
   * otherwise 10.
   */
  function Configured(setting: Option<nat>): (n: nat)
    ensures n <= USIZE_MAX
    ensures setting.Some? && setting.value <= USIZE_MAX ==> n == setting.value
    ensures !(setting.Some? && setting.value <= USIZE_MAX) ==> n == 10
  {
    if setting.Some? && setting.value <= USIZE_MAX then setting.value else 10
  }

  /**
   * The static `AMT` behind `max_cached_stacks`: 0 until the setting has been
   * read, afterwards the cap plus one (wrapping in a `usize`). The process
   * environment is fixed, so the parsed setting is a constant of the object.
   */
  class CachedStackLimit {
    var amt: nat
    const setting: Option<nat>

    ghost predicate Valid()
      reads this
    {
      amt == 0 || amt - 1 == Configured(setting)
    }

    constructor (setting: Option<nat>)
      ensures Valid() && amt == 0 && this.setting == setting
    {
      this.amt := 0;
      this.setting := setting;
    }

    /**
     * `max_cached_stacks`: answers from the cache when it is set, otherwise
     * reads the setting and caches it. Either way the answer is the configured
     * cap, so every call agrees with every other.
     */
    method MaxCachedStacks() returns (n: nat)
      requires Valid()
      modifies this
      ensures Valid() && n == Configured(setting)
      ensures old(amt) != 0 ==> amt == old(amt)
      ensures old(amt) == 0 ==> amt == (n + 1) % (USIZE_MAX + 1)
    {
      if amt != 0 {
        return amt - 1;
      }
      n := Configured(setting);
      amt := (n + 1) % (USIZE_MAX + 1);
    }
  }

  /**
   * The index of the first stack whose minimum size is at least `minSize`
   * (`Iterator::position` with the predicate of `take_stack`).
   */
  function FirstFit(stacks: seq<Stack>, minSize: nat): (r: Option<nat>)
    ensures r.Some? ==> r.value < |stacks| && minSize <= stacks[r.value].minSize
    ensures r.Some? ==> forall j :: 0 <= j < r.value ==> stacks[j].minSize < minSize
    ensures r.None? ==> forall j :: 0 <= j < |stacks| ==> stacks[j].minSize < minSize
  {
    if stacks == [] then None
    else if minSize <= stacks[0].minSize then Some(0)
    else match FirstFit(stacks[1..], minSize)
      case None => None
      case Some(k) => Some(k + 1)
  }

  /**
   * `Vec::swap_remove(i)`: the last element takes the place of the removed one.
   */
  function SwapRemove<T>(s: seq<T>, i: nat): (r: seq<T>)
    requires i < |s|
    ensures |r| == |s| - 1
    ensures i < |r| ==> r[i] == s[|s| - 1]
    ensures forall j :: 0 <= j < |r| && j != i ==> r[j] == s[j]
    ensures multiset(r) + multiset{s[i]} == multiset(s)
  {
    var last := |s| - 1;
    if i == last then
      assert s == s[..last] + [s[last]];
      s[..last]
    else
      assert s == s[..i] + [s[i]] + s[i + 1..last] + [s[last]];
      s[..i] + [s[last]] + s[i + 1..last]
  }

  class StackPool {
    var stacks: seq<Stack>

    constructor ()
      ensures stacks == []
    {
      stacks := [];
    }

    /**
     * `take_stack`: hands out the first cached stack that is large enough,
     * removed by swapping the last one into its place, or allocates a new one
     * at `addr` when none is. Either way the stack is at least `minSize`.
     */
    method TakeStack(minSize: nat, pageSize: nat, addr: nat) returns (s: Stack)
      requires pageSize > 0
      modifies this
      ensures s.minSize >= minSize
      ensures match FirstFit(old(stacks), minSize)
        case Some(i) => s == old(stacks)[i] && stacks == SwapRemove(old(stacks), i)
        case None => s == New(minSize, pageSize, addr) && stacks == old(stacks)
    {
      var i := 0;
      while i < |stacks| && stacks[i].minSize < minSize
        invariant 0 <= i <= |stacks|
        invariant forall j :: 0 <= j < i ==> stacks[j].minSize < minSize
      {
        i := i + 1;
      }
      if i < |stacks| {
        assert FirstFit(stacks, minSize) == Some(i) by { FirstFitIsFirst(stacks, minSize, i); }
        s := stacks[i];
        stacks := SwapRemove(stacks, i);
      } else {
        s := New(minSize, pageSize, addr);
      }
    }

    /**
     * `give_stack` as written: keeps the stack while the pool holds no more
     * than the cap, so a full pool still takes one more.
     */
    method GiveStack(stack: Stack, limit: CachedStackLimit)
      requires limit.Valid()
      modifies this, limit
      ensures limit.Valid()
      ensures stacks == if |old(stacks)| <= Configured(limit.setting)
        then old(stacks) + [stack] else old(stacks)
    {
      var max := limit.MaxCachedStacks();
      if |stacks| <= max {
        stacks := stacks + [stack];
      }
    }

    /**
     * `give_stack` with the cap applied as intended: the stack is kept only
     * while there is room below the cap, so a pool within the cap stays within it.
     */
    method GiveStackBounded(stack: Stack, limit: CachedStackLimit)
      requires limit.Valid()
      modifies this, limit
      ensures limit.Valid()
      ensures stacks == if |old(stacks)| < Configured(limit.setting)
        then old(stacks) + [stack] else old(stacks)
      ensures |old(stacks)| <= Configured(limit.setting) ==> |stacks| <= Configured(limit.setting)
    {
      var max := limit.MaxCachedStacks();
      if |stacks| < max {
        stacks := stacks + [stack];
      }
    }
  }

  /** Any index that fits and has only misfits before it is the one `FirstFit` finds. */
  lemma {:induction false} FirstFitIsFirst(stacks: seq<Stack>, minSize: nat, i: nat)
    requires i < |stacks| && minSize <= stacks[i].minSize
    requires forall j :: 0 <= j < i ==> stacks[j].minSize < minSize
    ensures FirstFit(stacks, minSize) == Some(i)
  {
    if i > 0 {
      FirstFitIsFirst(stacks[1..], minSize, i - 1);
    }
  }

  /**
   * The pool's first test: a stack given back is reused for any smaller
   * request, and a larger request gets a new stack of its own size.
   */
  method PoolReusesLargerStack(pageSize: nat, a1: nat, a2: nat, a3: nat)
    returns (second: Stack, third: Stack)
    requires pageSize > 0
    ensures second.minSize == 10 && second.buf == Some(a1)
    ensures third.minSize == 14 && third.buf == Some(a3)
  {
    var limit := new CachedStackLimit(None);
    var p := new StackPool();
    var s := p.TakeStack(10, pageSize, a1);
    p.GiveStack(s, limit);
    second := p.TakeStack(4, pageSize, a2);
    p.GiveStack(second, limit);
    third := p.TakeStack(14, pageSize, a3);
    p.GiveStack(third, limit);
  }

  /** The pool's second test: a request of exactly the cached size is served from the cache. */
  method PoolServesExactSize(pageSize: nat, a1: nat, a2: nat) returns (again: Stack)
    requires pageSize > 0
    ensures again.minSize == 10 && again.buf == Some(a1)
  {
    var limit := new CachedStackLimit(None);
    var p := new StackPool();
    var s := p.TakeStack(10, pageSize, a1);
    p.GiveStack(s, limit);
    again := p.TakeStack(10, pageSize, a2);
  }

  /**
   * With the cap set to 0 a pool should cache nothing, yet `give_stack` as
   * written keeps a stack in an empty pool.
   */
  method ZeroCapStillCaches(pageSize: nat, addr: nat) returns (cap: nat, cached: nat)
    requires pageSize > 0
    ensures cap == 0 && cached == 1 && cached > cap
  {
    var limit := new CachedStackLimit(Some(0));
    var p := new StackPool();
    var s := p.TakeStack(4096, pageSize, addr);
    p.GiveStack(s, limit);
    cap := limit.MaxCachedStacks();
    cached := |p.stacks|;
  }

  /** The corrected cap: with the cap at 0 nothing is cached. */
  method ZeroCapCachesNothing(pageSize: nat, addr: nat) returns (cap: nat, cached: nat)
    requires pageSize > 0
    ensures cap == 0 && cached == 0
  {
    var limit := new CachedStackLimit(Some(0));
    var p := new StackPool();
    var s := p.TakeStack(4096, pageSize, addr);
    p.GiveStackBounded(s, limit);
    cap := limit.MaxCachedStacks();
    cached := |p.stacks|;
  }

  /** Every call of `max_cached_stacks` reports the same cap, the configured one. */
  method LimitIsStable(setting: Option<nat>) returns (first: nat, second: nat)
    ensures first == second == Configured(setting)
  {
    var limit := new CachedStackLimit(setting);
    first := limit.MaxCachedStacks();
    second := limit.MaxCachedStacks();
  }
}
