/**
 * Generators on bare contexts (the older asymmetric implementation): no
 * state field, the wrapper starts the body at the first switch and loops
 * yielding once it has ended, and dropping the generator only gives its
 * stack back, without unwinding a body that has not finished.
 */
module Asymmetric {
  import opened Types
  import StackStandard
  import opened Pool = StackPool
  import opened GeneratorScript
  import Context
  import Options
  import Newer = CoroutineAsymmetric

  /**
   * Where the wrapper is: not yet entered (the context still points at
   * `coroutine_initialize`), inside the body, or in its endless loop after
   * the body returned or panicked.
   */
  datatype Phase = NotStarted | InBody | Done(panicked: bool)

  /** The generator as its resumer sees it between two switches. */
  datatype Gen<T> = Gen(phase: Phase, body: Body<T>)

  /** The generator after control came back, and what the slot then holds. */
  datatype Turn<T> = Turn(gen: Gen<T>, slot: Option<Result<T>>)

  /**
   * What holds whenever the resumer has control: a body that has ended has
   * nothing left to run and no live guard, and one not started holds no guards.
   */
  predicate Settled<T>(g: Gen<T>)
  {
    && (g.phase.Done? ==> g.body.steps == [] && g.body.guardsLive == 0)
    && (g.phase.NotStarted? ==> g.body.guardsLive == 0 && g.body.guardsDropped == 0)
  }

  /** A freshly spawned generator. */
  function Spawned<T>(steps: seq<Step<T>>): (g: Gen<T>)
    ensures Settled(g) && g.phase.NotStarted? && g.body.steps == steps
  {
    Gen(NotStarted, Start(steps))
  }

  /**
   * One switch into the generator: the first one enters the wrapper, which
   * calls the closure; a later one returns from the body's pending yield;
   * once the body has ended, the wrapper's loop takes the slot and, after a
   * panic, stores `Err(Panicked)` before yielding again.
   */
  function SwitchIn<T>(g: Gen<T>, slot: Option<Result<T>>): (t: Turn<T>)
    requires Settled(g)
    ensures Settled(t.gen) && !t.gen.phase.NotStarted?
    ensures g.phase.Done? ==> t.gen == g && t.slot == LoopSlot(g.phase.panicked)
  {
    match g.phase
    case NotStarted => Wrap(Run(g.body, slot))
    case InBody => Wrap(Continue(g.body, slot))
    case Done(panicked) => Turn(g, LoopSlot(panicked))
  }

  /** The wrapper's reaction to the body stopping: a panic is reported as `Err(Panicked)`. */
  function Wrap<T>(e: Exec<T>): Turn<T>
  {
    Turn(Gen(if e.stop.Yielded? then InBody else Done(e.stop.Unwound?), e.body), WrapperSlot(e))
  }

  /** `resume`: switch in with the slot as the resumer left it, then take the slot. */
  function ResumeSpec<T>(g: Gen<T>, slot: Option<Result<T>>): (r: (Gen<T>, Result<Option<T>>))
    requires Settled(g)
    ensures Settled(r.0)
    ensures NoError(slot) ==> (r.1.Err? <==> r.0.phase == Done(true))
  {
    var t := SwitchIn(g, slot);
    (t.gen, SlotResult(t.slot))
  }

  /** The results of `n` successive plain `resume`s. */
  function Resumes<T>(g: Gen<T>, n: nat): (rs: seq<Result<Option<T>>>)
    requires Settled(g)
    ensures |rs| == n
    decreases n
  {
    if n == 0 then []
    else
      var r := ResumeSpec(g, None);
      [r.1] + Resumes(r.0, n - 1)
  }

  /**
   * The newer generator this one corresponds to: not started is `Created`,
   * inside the body is `Running`, ended is `Finished`, with the panic flag.
   */
  function Lift<T>(g: Gen<T>): (n: Newer.Gen<T>)
    requires Settled(g)
    ensures Newer.Settled(n) && n.body == g.body
  {
    match g.phase
    case NotStarted => Newer.Gen(Newer.Created, g.body, false)
    case InBody => Newer.Gen(Newer.GenState.Running, g.body, false)
    case Done(panicked) => Newer.Gen(Newer.GenState.Finished, g.body, panicked)
  }

  /**
   * Resumed with nothing or a value, the older generator answers exactly as
   * the newer one does and ends up in the corresponding state: the two
   * differ only in what happens on drop.
   */
  lemma ResumeAgreesWithNewer<T>(g: Gen<T>, slot: Option<Result<T>>)
    requires Settled(g) && NoError(slot)
    ensures var r := ResumeSpec(g, slot);
      var n := Newer.ResumeSpec(Lift(g), slot);
      Lift(r.0) == n.gen && r.1 == n.result
  {
  }

  /** Hence any number of plain `resume`s give the newer generator's results. */
  lemma {:induction false} ResumesAgreeWithNewer<T>(g: Gen<T>, n: nat)
    requires Settled(g)
    ensures Resumes(g, n) == Newer.Resumes(Lift(g), n)
    decreases n
  {
    if n > 0 {
      ResumeAgreesWithNewer(g, None);
      ResumesAgreeWithNewer(ResumeSpec(g, None).0, n - 1);
    }
  }

  /**
   * `test_coroutine_basic`/`test_coroutine_generator`: a body yielding each
   * of `vs` hands them out in order, and every `resume` after the body
   * returned is `Ok(None)`, which ends the iterator. Holds for a body not
   * yet started as well as one waiting in a yield.
   */
  lemma YieldsInOrder<T>(g: Gen<T>, vs: seq<T>, extra: nat)
    requires Settled(g) && !g.phase.Done? && g.body.steps == Yields(vs)
    ensures Resumes(g, |vs| + 1 + extra) == Newer.Pulled(vs) + Newer.Repeat<Result<Option<T>>>(Ok(None), 1 + extra)
  {
    var m := |vs| + 1 + extra;
    var want := Newer.Pulled(vs) + Newer.Repeat<Result<Option<T>>>(Ok(None), 1 + extra);
    assert Resumes(g, m) == Newer.Resumes(Lift(g), m) by {
      ResumesAgreeWithNewer(g, m);
    }
    assert Newer.Resumes(Lift(g), m) == want by {
      Newer.YieldsInOrder(Lift(g), vs, extra);
    }
  }

  /** The iterator over a fresh generator yielding `vs` gives exactly `vs`, then ends. */
  lemma GeneratorIteratesOverYields<T>(vs: seq<T>)
    ensures var rs := Resumes(Spawned(Yields(vs)), |vs| + 1);
      && (forall i :: 0 <= i < |vs| ==> NextItem(rs[i]) == Some(Ok(vs[i])))
      && NextItem(rs[|vs|]).None?
  {
    var g := Spawned(Yields(vs));
    YieldsInOrder(g, vs, 0);
    Newer.ItemsOfPulled(Resumes(g, |vs| + 1), vs);
  }

  /** `test_panic_inside`: a body that panics makes every `resume` an error. */
  lemma PanicIsReportedForever(p: Payload, n: nat)
    ensures var rs := Resumes(Spawned<int>([Panic(p)]), n + 1);
      forall i :: 0 <= i <= n ==> rs[i] == Err(Error.Panicked)
  {
    var g := Spawned<int>([Panic(p)]);
    ResumesAgreeWithNewer(g, n + 1);
    Newer.PanicIsReportedForever(p, n);
  }

  /**
   * The generator object: the resumer's and the body's contexts, the stack,
   * the name and the result slot; the body and the wrapper's phase stand
   * for what runs on that stack.
   */
  class CoroutineImpl<T> {
    var parent: Context.Context
    var context: Context.Context
    var stack: Option<StackStandard.Stack>
    var name: Option<string>
    var result: Option<Result<T>>
    var phase: Phase
    var body: Body<T>

    /** The generator's abstract value. */
    function Value(): Gen<T>
      reads this
    {
      Gen(phase, body)
    }

    /** Between public operations the slot is empty and the generator settled. */
    predicate Valid()
      reads this
    {
      result.None? && Settled(Value())
    }

    /** The box `spawn_opts` builds: empty contexts, no stack yet, the given name, an empty slot. */
    constructor (opts: Options.Options, steps: seq<Step<T>>)
      ensures Valid() && Value() == Spawned(steps) && name == opts.name && stack.None?
      ensures parent == Context.Empty() && context == Context.Empty()
    {
      parent := Context.Empty();
      context := Context.Empty();
      stack := None;
      name := opts.name;
      result := None;
      phase := NotStarted;
      body := Start(steps);
    }

    /** `resume`: switch in, then take the slot. */
    method Resume() returns (r: Result<Option<T>>)
      requires Settled(Value())
      modifies this
      ensures Valid() && stack == old(stack) && name == old(name)
      ensures (Value(), r) == ResumeSpec(old(Value()), old(result))
    {
      var t := SwitchIn(Value(), result);
      phase, body, result := t.gen.phase, t.gen.body, t.slot;
      r := SlotResult(result);
      result := None;
    }

    /** `resume_with`: store the value in the slot, then resume. */
    method ResumeWith(v: T) returns (r: Result<Option<T>>)
      requires Valid()
      modifies this
      ensures Valid() && stack == old(stack) && name == old(name)
      ensures (Value(), r) == ResumeSpec(old(Value()), Some(Ok(v)))
    {
      result := Some(Ok(v));
      r := Resume();
    }

    /** `Iterator::next`: resume and turn the result into an item. */
    method Next() returns (item: Option<Result<T>>)
      requires Valid()
      modifies this
      ensures Valid() && stack == old(stack)
      ensures var s := ResumeSpec(old(Value()), None);
        Value() == s.0 && item == NextItem(s.1)
    {
      var r := Resume();
      item := NextItem(r);
    }

    /**
     * `Drop`: hand the stack, if there is one, back to the thread's pool.
     * The body is not unwound: whatever it still holds is never dropped.
     */
    method Drop(pool: Pool.StackPool, limit: CachedStackLimit)
      requires limit.Valid()
      modifies this, pool, limit
      ensures stack.None? && Value() == old(Value()) && limit.Valid()
      ensures old(stack).None? ==> pool.stacks == old(pool.stacks)
      ensures old(stack).Some? ==>
        pool.stacks == if |old(pool.stacks)| < Configured(limit.setting)
                       then old(pool.stacks) + [old(stack).value] else old(pool.stacks)
    {
      var s := stack;
      stack := None;
      if s.Some? {
        pool.GiveStackBounded(s.value, limit);
      }
    }
  }

  /**
   * `spawn_opts`: take a stack of at least the requested size from the
   * pool, box the generator with the given name, set its context up to enter
   * `coroutine_initialize` on top of that stack (`init_with`), and give it
   * the stack.
   */
  method SpawnOpts<T>(steps: seq<Step<T>>, opts: Options.Options, pool: Pool.StackPool,
                      pageSize: nat, addr: nat, entry: nat, thunk: nat, bootstrap: nat,
                      mem: Context.StackMemory) returns (c: CoroutineImpl<T>)
    requires pageSize > 0
    requires forall s :: s in pool.stacks ==> 16 <= StackStandard.End(s) <= USIZE_MAX
    requires 16 <= addr + StackStandard.RoundUp(opts.stackSize, pageSize) <= USIZE_MAX
    modifies pool, mem
    ensures fresh(c) && c.Valid() && c.Value() == Spawned(steps) && c.name == opts.name
    ensures c.stack.Some? && c.stack.value.minSize >= opts.stackSize
    ensures c.context.stackBounds == Context.Bounds(c.stack.value)
    ensures 16 <= StackStandard.End(c.stack.value) <= USIZE_MAX
    ensures mem.words == old(mem.words)[Context.AlignDown(StackStandard.End(c.stack.value)) - 8 := 0]
    ensures match FirstFit(old(pool.stacks), opts.stackSize)
      case Some(i) => c.stack == Some(old(pool.stacks)[i]) && pool.stacks == SwapRemove(old(pool.stacks), i)
      case None => c.stack == Some(StackStandard.New(opts.stackSize, pageSize, addr)) && pool.stacks == old(pool.stacks)
  {
    var stack := pool.TakeStack(opts.stackSize, pageSize, addr);
    c := new CoroutineImpl(opts, steps);
    c.context := Context.New(entry, 0, thunk, stack, bootstrap, mem);
    c.stack := Some(stack);
  }

  /**
   * Unlike the newer generator, dropping a body suspended while holding `k`
   * guards leaves all `k` of them alive: none is ever dropped.
   */
  lemma {:induction false} DropLeavesGuards<T>(k: nat)
    ensures var r := ResumeSpec(Spawned<T>(Guards(k) + [YieldBack]), None);
      && r.1 == Ok(None) && r.0.phase == InBody
      && r.0.body.guardsLive == k && r.0.body.guardsDropped == 0
  {
    var g := Spawned<T>(Guards(k) + [YieldBack]);
    RunPastGuards(g.body, k, None);
  }
}
