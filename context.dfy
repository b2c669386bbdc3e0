/**
 * Saved execution contexts: the register file a suspended coroutine resumes
 * from, the stack bounds recorded when switching into it, and the initial
 * call frame laid out on a fresh stack. Addresses are byte addresses; a word
 * is 8 bytes on x86_64 and 4 bytes on x86.
 */
module Context {
  import opened Types
  import opened StackStandard

  /** General-purpose register slots used on x86_64 (after rt/arch/x86_64/regs.h). */
  const GPR_COUNT: nat := 10
  const RUSTRT_RSP: nat := 1
  const RUSTRT_RBP: nat := 2
  const RUSTRT_R12: nat := 4
  const RUSTRT_R13: nat := 5
  const RUSTRT_R14: nat := 6
  const RUSTRT_IP: nat := 8

  /** Largest `usize` on a 32-bit (x86) target. */
  const USIZE32_MAX: nat := 0xFFFF_FFFF

  /** A saved x86_64 register file and the bounds of the stack it runs on. */
  datatype Context = Context(regs: seq<nat>, stackBounds: Option<(nat, nat)>)

  /** The words of a stack's memory, by byte address. */
  class StackMemory {
    var words: map<nat, nat>

    constructor ()
      ensures words == map[]
    {
      words := map[];
    }
  }

  /** `Registers::new()` on x86_64: every general-purpose slot is zero. */
  function ZeroRegisters(): (r: seq<nat>)
    ensures |r| == GPR_COUNT && forall k :: 0 <= k < |r| ==> r[k] == 0
  {
    seq(GPR_COUNT, _ => 0)
  }

  /** `Context::empty`: zeroed registers and no stack bounds. */
  function Empty(): (c: Context)
    ensures c.stackBounds.None? && c.regs == ZeroRegisters()
  {
    Context(ZeroRegisters(), None)
  }

  /**
   * `align_down`: clears the four low bits of a `usize` address, giving the
   * nearest 16-byte boundary at or below it.
   */
  function AlignDown(sp: nat): (r: nat)
    ensures r % 16 == 0 && r <= sp && sp - r < 16
  {
    sp - sp % 16
  }

  /** On a 64-bit word, masking with `!(16 - 1)` is subtracting the remainder by 16. */
  lemma MaskIsAlignDown(x: bv64)
    ensures x & !(16 - 1) == x - x % 16
  {
  }

  /**
   * The stack bounds `Context::new` records for a stack: none when the stack
   * is empty (it starts where it ends), otherwise its start and end.
   */
  function Bounds(stack: Stack): (b: Option<(nat, nat)>)
    ensures b.None? <==> Start(stack) == End(stack)
    ensures b.Some? ==> b.value == (Start(stack), End(stack))
  {
    if End(stack) == Start(stack) then None else Some((Start(stack), End(stack)))
  }

  /**
   * The bounds `swap` records for the context it switches into: the context's
   * own, or the whole address space when it has none.
   */
  function RecordedBounds(into: Context): (b: (nat, nat))
    ensures into.stackBounds.None? ==> b == (0, USIZE_MAX)
    ensures into.stackBounds.Some? ==> b == into.stackBounds.value
  {
    match into.stackBounds
    case Some((lo, hi)) => (lo, hi)
    case None => (0, USIZE_MAX)
  }

  /** What one `Context::swap` does: the registers saved, loaded and the bounds recorded. */
  datatype Switch = Switch(saved: Context, loaded: seq<nat>, recorded: (nat, nat))

  /**
   * `Context::swap(out, in)`: the live registers are saved into `out` (its
   * bounds untouched), the registers of `in` become live, and the bounds of
   * `in` are recorded for the stack-overflow check.
   */
  function Swap(out: Context, into: Context, live: seq<nat>): (s: Switch)
    ensures s.saved == Context(live, out.stackBounds)
    ensures s.loaded == into.regs && s.recorded == RecordedBounds(into)
  {
    Switch(out.(regs := live), into.regs, RecordedBounds(into))
  }

  /**
   * Switching from `a` into `b` and later from `b` back into what the first
   * switch saved resumes exactly the registers that were live at the first
   * switch, and records the bounds `a` had.
   */
  lemma SwapThereAndBack(a: Context, b: Context, live: seq<nat>, liveInB: seq<nat>)
    ensures var there := Swap(a, b, live);
      var back := Swap(b, there.saved, liveInB);
      back.loaded == live && back.recorded == RecordedBounds(a)
      && back.saved.stackBounds == b.stackBounds
  {
  }

  /**
   * A context made for a freshly allocated stack records that stack's start
   * and end; a context for the dummy stack or an empty context records none,
   * so switching into it lifts the stack limit entirely.
   */
  lemma {:induction false} BoundsOfStacks(size: nat, pageSize: nat, addr: nat)
    requires pageSize > 0
    ensures var s := StackStandard.New(size, pageSize, addr);
      Bounds(s) == Some((addr, addr + s.len))
      && RecordedBounds(Context(ZeroRegisters(), Bounds(s))) == (addr, addr + s.len)
    ensures Bounds(Dummy()).None?
    ensures RecordedBounds(Empty()) == (0, USIZE_MAX)
  {
    NewStackExtent(size, pageSize, addr);
  }

  /**
   * `initialize_call_frame` on x86_64: aligns the stack end down to 16 bytes,
   * steps one word below it and stores a zero return address there, then
   * places the argument, the thunk and the entry point in R12, R13 and R14,
   * the new stack pointer in RSP, the bootstrap trampoline in IP and a zero
   * frame pointer in RBP. Every other slot keeps its value.
   */
  method InitializeCallFrameX86_64(regs: array<nat>, mem: StackMemory, fptr: nat, arg: nat,
                                   thunk: nat, sp: nat, bootstrap: nat) returns (top: nat)
    requires regs.Length == GPR_COUNT && 16 <= sp <= USIZE_MAX
    modifies regs, mem
    ensures top == AlignDown(sp) - 8 && top % 16 == 8 && sp - 24 < top <= sp - 8
    ensures mem.words == old(mem.words)[top := 0]
    ensures regs[RUSTRT_R12] == arg && regs[RUSTRT_R13] == thunk && regs[RUSTRT_R14] == fptr
    ensures regs[RUSTRT_RSP] == top && regs[RUSTRT_IP] == bootstrap && regs[RUSTRT_RBP] == 0
    ensures forall k :: 0 <= k < GPR_COUNT && k !in {RUSTRT_RSP, RUSTRT_RBP, RUSTRT_R12, RUSTRT_R13, RUSTRT_R14, RUSTRT_IP} ==>
              regs[k] == old(regs[k])
  {
    var aligned := AlignDown(sp);
    top := aligned - 8;
    mem.words := mem.words[top := 0];
    regs[RUSTRT_R12] := arg;
    regs[RUSTRT_R13] := thunk;
    regs[RUSTRT_R14] := fptr;
    regs[RUSTRT_RSP] := top;
    regs[RUSTRT_IP] := bootstrap;
    regs[RUSTRT_RBP] := 0;
  }

  /**
   * `Context::new` on x86_64: a zeroed register file with the initial call
   * frame for `fptr(arg, thunk)` at the end of `stack`, and the stack's
   * bounds.
   */
  method New(fptr: nat, arg: nat, thunk: nat, stack: Stack, bootstrap: nat, mem: StackMemory)
    returns (c: Context)
    requires 16 <= End(stack) <= USIZE_MAX
    modifies mem
    ensures c.stackBounds == Bounds(stack)
    ensures c.regs == ZeroRegisters()[RUSTRT_RSP := AlignDown(End(stack)) - 8]
      [RUSTRT_RBP := 0][RUSTRT_R12 := arg][RUSTRT_R13 := thunk][RUSTRT_R14 := fptr][RUSTRT_IP := bootstrap]
    ensures mem.words == old(mem.words)[AlignDown(End(stack)) - 8 := 0]
  {
    var sp := End(stack);
    var regs := new nat[GPR_COUNT](_ => 0);
    var top := InitializeCallFrameX86_64(regs, mem, fptr, arg, thunk, sp, bootstrap);
    c := Context(regs[..], Bounds(stack));
  }

  /**
   * The frame a new x86_64 context starts from: stack pointer one word below a
   * 16-byte boundary within 24 bytes of the stack end, a zero return address
   * stored there, and nothing but the six initialised slots non-zero. Pages
   * are at least 4 KiB on every target the source supports.
   */
  method InitialFrameX86_64(fptr: nat, arg: nat, thunk: nat, size: nat, pageSize: nat,
                            addr: nat, bootstrap: nat)
    returns (regs: seq<nat>, bounds: Option<(nat, nat)>, retAddr: nat)
    requires pageSize >= 4096 && addr >= 16 && addr + RoundUp(size, pageSize) <= USIZE_MAX
    ensures |regs| == GPR_COUNT
    ensures regs == [0, regs[RUSTRT_RSP], 0, 0, arg, thunk, fptr, 0, bootstrap, 0]
    ensures regs[RUSTRT_RSP] % 16 == 8 && bounds.Some?
    ensures bounds.value.0 < regs[RUSTRT_RSP] < bounds.value.1 == addr + RoundUp(size, pageSize)
    ensures bounds.value.1 - regs[RUSTRT_RSP] <= 23
    ensures retAddr == 0
  {
    var stack := StackStandard.New(size, pageSize, addr);
    NewStackExtent(size, pageSize, addr);
    var mem := new StackMemory();
    var c := New(fptr, arg, thunk, stack, bootstrap, mem);
    regs, bounds := c.regs, c.stackBounds;
    retAddr := mem.words[regs[RUSTRT_RSP]];
  }

  /** The x86 register file (`u32` fields; the segment selectors are not used here). */
  class X86Registers {
    var eax: nat, ebx: nat, ecx: nat, edx: nat
    var ebp: nat, esi: nat, edi: nat, esp: nat
    var eflags: nat, eip: nat

    /** `Registers::new()` on x86: everything zero. */
    constructor ()
      ensures eax == ebx == ecx == edx == ebp == esi == edi == esp == eflags == eip == 0
    {
      eax, ebx, ecx, edx := 0, 0, 0, 0;
      ebp, esi, edi, esp := 0, 0, 0, 0;
      eflags, eip := 0, 0;
    }
  }

  /**
   * `initialize_call_frame` on x86: aligns the stack end down to 16 bytes and
   * steps four 4-byte words below it; stores the thunk two words up, the
   * argument one word up and a zero return address at the new stack pointer;
   * sets ESP to it, EIP to the entry point and EBP to zero.
   */
  method InitializeCallFrameX86(regs: X86Registers, mem: StackMemory, fptr: nat, arg: nat,
                                thunk: nat, sp: nat) returns (top: nat)
    requires 16 <= sp <= USIZE32_MAX && fptr <= USIZE32_MAX
    modifies regs, mem
    ensures top == AlignDown(sp) - 16 && top % 16 == 0 && sp - 32 < top <= sp - 16
    ensures mem.words == old(mem.words)[top + 8 := thunk][top + 4 := arg][top := 0]
    ensures regs.esp == top && regs.eip == fptr && regs.ebp == 0
    ensures regs.eax == old(regs.eax) && regs.ebx == old(regs.ebx) && regs.ecx == old(regs.ecx)
    ensures regs.edx == old(regs.edx) && regs.esi == old(regs.esi) && regs.edi == old(regs.edi)
    ensures regs.eflags == old(regs.eflags)
  {
    var aligned := AlignDown(sp);
    top := aligned - 4 * 4;
    mem.words := mem.words[top + 2 * 4 := thunk];
    mem.words := mem.words[top + 1 * 4 := arg];
    mem.words := mem.words[top + 0 * 4 := 0];
    regs.esp := top;
    regs.eip := fptr;
    regs.ebp := 0;
  }

  /**
   * The three words an x86 frame starts with, read back from the stack: zero
   * return address, argument, thunk, from the stack pointer upwards.
   */
  method InitialFrameX86(fptr: nat, arg: nat, thunk: nat, sp: nat)
    returns (esp: nat, eip: nat, words: seq<nat>)
    requires 16 <= sp <= USIZE32_MAX && fptr <= USIZE32_MAX
    ensures esp % 16 == 0 && esp < sp && eip == fptr
    ensures words == [0, arg, thunk]
  {
    var regs := new X86Registers();
    var mem := new StackMemory();
    var top := InitializeCallFrameX86(regs, mem, fptr, arg, thunk, sp);
    esp, eip := regs.esp, regs.eip;
    words := [mem.words[esp], mem.words[esp + 4], mem.words[esp + 8]];
  }
}
