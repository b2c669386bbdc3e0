/**
 * A coroutine stack as a record: where the buffer starts (the address the
 * allocator returned, if any), how many bytes it spans and the size that was
 * asked for. The memory itself is not modelled.
 */
module StackStandard {
  import opened Types

  datatype Stack = Stack(buf: Option<nat>, len: nat, minSize: nat)

  /** Division by a positive number leaves no other quotient or remainder. */
  lemma DivModUnique(x: int, to: int, q: int, m: int)
    requires to > 0 && 0 <= m < to && x == to * q + m
    ensures x / to == q && x % to == m
  {
    var d := x / to - q;
    assert to * d == m - x % to;
    MulAwayFromZero(to, d);
  }

  lemma MulAwayFromZero(to: int, d: int)
    requires to > 0
    ensures d >= 1 ==> to * d >= to
    ensures d <= -1 ==> to * d <= -to
  {
    if d >= 1 {
      assert to * d == to + to * (d - 1);
    } else if d <= -1 {
      assert to * d == -to + to * (d + 1);
    }
  }

  lemma NextMultiple(from: nat, to: nat)
    requires to > 0
    ensures from % to != 0 ==> (from + to - from % to) % to == 0
  {
    if from % to != 0 {
      assert from == to * (from / to) + from % to;
      DivModUnique(from + to - from % to, to, from / to + 1, 0);
    }
  }

  /**
   * Rounds `from` up to a multiple of `to`; zero becomes `to`, so the result is
   * the least positive multiple of `to` that is not below `from`.
   */
  function RoundUp(from: nat, to: nat): (r: nat)
    requires to > 0
    ensures r > 0 && r % to == 0
    ensures from <= r
    ensures from > 0 ==> r < from + to
    ensures from == 0 ==> r == to
    ensures from > 0 && from % to == 0 ==> r == from
  {
    NextMultiple(from, to);
    var r := if from % to == 0 then from else from + to - from % to;
    if r == 0 then to else r
  }

  /**
   * `Stack::new(size)`: a buffer of `size` rounded up to whole pages, at the
   * address `addr` the allocator hands out, remembering `size` as its minimum.
   */
  function New(size: nat, pageSize: nat, addr: nat): (s: Stack)
    requires pageSize > 0
    ensures s.buf == Some(addr) && s.minSize == size
    ensures size <= s.len && s.len > 0 && s.len % pageSize == 0
  {
    Stack(Some(addr), RoundUp(size, pageSize), size)
  }

  /** `dummy_stack`: no buffer, no length, no minimum. */
  function Dummy(): (s: Stack)
    ensures Start(s) == End(s) == 0 && s.minSize == 0
  {
    Stack(None, 0, 0)
  }

  /** Low end of the buffer; null (0) without one. */
  function Start(s: Stack): nat
  {
    match s.buf
    case Some(b) => b
    case None => 0
  }

  /** One past the high end of the buffer; null (0) without one. */
  function End(s: Stack): nat
  {
    match s.buf
    case Some(b) => b + s.len
    case None => 0
  }

  /** The guard page boundary: one page above the start. */
  function Guard(s: Stack, pageSize: nat): nat
  {
    Start(s) + pageSize
  }

  /**
   * A freshly allocated stack spans at least the requested bytes between its
   * start and end, is never empty, and its guard boundary lies inside it.
   */
  lemma NewStackExtent(size: nat, pageSize: nat, addr: nat)
    requires pageSize > 0
    ensures var s := New(size, pageSize, addr);
      Start(s) == addr && End(s) == addr + s.len && End(s) - Start(s) >= size
      && Start(s) < End(s) && Guard(s, pageSize) <= End(s)
  {
    var s := New(size, pageSize, addr);
    if s.len < pageSize {
      DivModUnique(s.len, pageSize, 0, s.len);
    }
  }
}
