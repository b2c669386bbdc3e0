/**
 * Generators on raw coroutines (the newer asymmetric implementation): a
 * state field, a result slot shared with the body, the wrapper that runs the
 * body and turns its end into a state, and a forced unwind on drop.
 */
module CoroutineAsymmetric {
  import opened Types
  import StackStandard
  import opened Pool = StackPool
  import opened GeneratorScript
  import RawCoroutine
  import Context
  import Options

  /** The generator's `State`. */
  datatype GenState = Created | Running | Finished | ForceUnwind

  /**
   * The generator as its resumer sees it between two switches: the state
   * field, the body (the closure and its suspended frame) and the wrapper's
   * `is_panicked` local.
   */
  datatype Gen<T> = Gen(state: GenState, body: Body<T>, isPanicked: bool)

  /** The generator after control came back, and what the slot then holds. */
  datatype Turn<T> = Turn(gen: Gen<T>, slot: Option<Result<T>>)

  /** The generator after a `resume`, and what that `resume` returned. */
  datatype Resumed<T> = Resumed(gen: Gen<T>, result: Result<Option<T>>)

  /**
   * What holds of a generator whenever its resumer has control: a forced
   * unwind is over, a finished body has left its closure (nothing left to
   * run, every guard dropped), a panic is only recorded for a finished body,
   * and a body not yet started holds no guards.
   */
  predicate Settled<T>(g: Gen<T>)
  {
    && g.state != ForceUnwind
    && (g.state == GenState.Finished ==> g.body.steps == [] && g.body.guardsLive == 0)
    && (g.isPanicked ==> g.state == GenState.Finished)
    && (g.state == Created ==> g.body.guardsLive == 0 && g.body.guardsDropped == 0)
  }

  /** A freshly spawned generator: `Created`, its closure not yet called. */
  function Spawned<T>(steps: seq<Step<T>>): (g: Gen<T>)
    ensures Settled(g) && g.state == Created && g.body.steps == steps
  {
    Gen(Created, Start(steps), false)
  }

  /**
   * The wrapper's reaction to the body stopping: a yield leaves it `Running`;
   * leaving the closure sets `Finished`, and a panic sets `is_panicked` and
   * leaves `Err(Panicked)` in the slot.
   */
  function Wrap<T>(e: Exec<T>): Turn<T>
  {
    Turn(Gen(if e.stop.Yielded? then GenState.Running else GenState.Finished, e.body, e.stop.Unwound?), WrapperSlot(e))
  }

  /**
   * One switch into the generator, from the resumer's `yield_to` until
   * control comes back. The first switch starts the wrapper, which sets
   * `Running` and calls the closure; a later one returns from the body's
   * pending yield; in `ForceUnwind` that yield unwinds the body, which the
   * wrapper does not count as a panic; once `Finished`, the wrapper's loop
   * empties the slot and, after a panic, stores `Err(Panicked)` again.
   */
  function SwitchIn<T>(g: Gen<T>, slot: Option<Result<T>>): (t: Turn<T>)
    requires g.state == ForceUnwind ==> Settled(g.(state := GenState.Running))
    requires g.state != ForceUnwind ==> Settled(g)
    ensures Settled(t.gen) && t.gen.state != Created
    ensures g.state == GenState.Finished ==> t.gen == g && t.slot == LoopSlot(g.isPanicked)
    ensures g.state == ForceUnwind ==>
      && t.gen.state == GenState.Finished && !t.gen.isPanicked && t.slot == slot
      && t.gen.body.guardsDropped == g.body.guardsDropped + g.body.guardsLive
    ensures NoError(slot) ==> (t.slot.Some? && t.slot.value.Err? <==> t.gen.isPanicked)
    ensures NoError(slot) && t.slot.Some? && t.slot.value.Err? ==> t.slot.value.error == Error.Panicked
    ensures g.isPanicked ==> t.gen.isPanicked
  {
    if g.state == Created then Wrap(Run(g.body, slot))
    else if g.state == GenState.Running then Wrap(Continue(g.body, slot))
    else if g.state == ForceUnwind then Turn(Gen(GenState.Finished, Ended(g.body), false), slot)
    else Turn(g, LoopSlot(g.isPanicked))
  }

  /**
   * `resume`: switch in with whatever the resumer left in the slot, then
   * take the slot: nothing is `Ok(None)`, a value is `Ok(Some(value))`, an
   * error is returned as it is. A settled generator resumed with nothing or a
   * value reports an error exactly when its body has panicked, and the error
   * is then `Panicked`, whatever the payload was.
   */
  function ResumeSpec<T>(g: Gen<T>, slot: Option<Result<T>>): (r: Resumed<T>)
    requires Settled(g) && NoError(slot)
    ensures Settled(r.gen) && r.gen.state != Created
    ensures r.result.Err? <==> r.gen.isPanicked
    ensures r.result.Err? ==> r.result.error == Error.Panicked
    ensures g.state == GenState.Finished ==> r.gen == g
    ensures g.state == GenState.Finished && !g.isPanicked ==> r.result == Ok(None)
  {
    var t := SwitchIn(g, slot);
    Resumed(t.gen, SlotResult(t.slot))
  }

  /** The slot `resume_with(v)` fills before switching in. */
  function Pushed<T>(v: T): (slot: Option<Result<T>>)
    ensures NoError(slot) && slot.Some?
  {
    Some(Ok(v))
  }

  /**
   * `force_unwind`, run by `Drop`: only a `Running` generator is re-entered,
   * in state `ForceUnwind`, so its pending yield unwinds the body and every
   * live guard is dropped; what that resume returns is discarded. A
   * generator never started or already finished is left alone.
   */
  function ForceUnwindSpec<T>(g: Gen<T>): (u: Gen<T>)
    requires Settled(g)
    ensures Settled(u) && u.state != GenState.Running
    ensures g.state != GenState.Running ==> u == g
    ensures g.state == GenState.Running ==>
      && u.state == GenState.Finished && !u.isPanicked
      && u.body.guardsLive == 0 && u.body.guardsDropped == g.body.guardsDropped + g.body.guardsLive
      && u.body.received == g.body.received
  {
    if g.state == GenState.Running then SwitchIn(g.(state := ForceUnwind), None).gen else g
  }

  /** The results of `n` successive plain `resume`s. */
  function Resumes<T>(g: Gen<T>, n: nat): (rs: seq<Result<Option<T>>>)
    requires Settled(g)
    ensures |rs| == n
    decreases n
  {
    if n == 0 then []
    else
      var r := ResumeSpec(g, None);
      [r.result] + Resumes(r.gen, n - 1)
  }

  /** The generator after `n` successive plain `resume`s. */
  function AfterResumes<T>(g: Gen<T>, n: nat): (h: Gen<T>)
    requires Settled(g)
    ensures Settled(h)
    decreases n
  {
    if n == 0 then g else AfterResumes(ResumeSpec(g, None).gen, n - 1)
  }

  /** `resume_with` called with each of `vs` in turn: the generator afterwards and the results. */
  function ResumeWiths<T>(g: Gen<T>, vs: seq<T>): (r: (Gen<T>, seq<Result<Option<T>>>))
    requires Settled(g)
    ensures Settled(r.0) && |r.1| == |vs|
    decreases |vs|
  {
    if vs == [] then (g, [])
    else
      var first := ResumeSpec(g, Pushed(vs[0]));
      var rest := ResumeWiths(first.gen, vs[1..]);
      (rest.0, [first.result] + rest.1)
  }

  /** The `resume` results a generator yielding `vs` is expected to give: each value in turn. */
  function Pulled<T>(vs: seq<T>): (rs: seq<Result<Option<T>>>)
    ensures |rs| == |vs| && forall i :: 0 <= i < |vs| ==> rs[i] == Ok(Some(vs[i]))
  {
    if vs == [] then [] else [Ok(Some(vs[0]))] + Pulled(vs[1..])
  }

  /** `n` copies of `x`. */
  function Repeat<X>(x: X, n: nat): (s: seq<X>)
    ensures |s| == n && forall i :: 0 <= i < n ==> s[i] == x
  {
    if n == 0 then [] else [x] + Repeat(x, n - 1)
  }

  /** A plain `resume` of a body whose next step yields a value returns that value. */
  lemma {:induction false} ResumeAtYieldWith<T>(g: Gen<T>)
    requires Settled(g) && (g.state == Created || g.state == GenState.Running)
    requires g.body.steps != [] && g.body.steps[0].YieldWith?
    ensures var r := ResumeSpec(g, None);
      && r.result == Ok(Some(g.body.steps[0].value))
      && r.gen.state == GenState.Running && r.gen.body.steps == g.body.steps[1..]
  {
    var b := if g.state == Created then g.body else g.body.(received := g.body.received + [None]);
    assert SwitchIn(g, None) == Wrap(Run(b, None));
  }

  /** A body not started that has nothing to run finishes normally on its first `resume`. */
  lemma {:induction false} StartAtEnd<T>(g: Gen<T>)
    requires Settled(g) && g.state == Created && g.body.steps == []
    ensures var r := ResumeSpec(g, None);
      r.result == Ok(None) && r.gen.state == GenState.Finished && !r.gen.isPanicked
  {
    var e := Run(g.body, None);
    assert e.stop == Returned && e.slot.None?;
    var t := SwitchIn(g, None);
    assert t == Wrap(e);
  }

  /**
   * A body waiting in a yield with nothing left to run returns once
   * resumed: it receives what the slot held, and the `resume` is `Ok(None)`
   * with the state `Finished`.
   */
  lemma {:induction false} ResumeAtEnd<T>(g: Gen<T>, slot: Option<Result<T>>)
    requires Settled(g) && g.state == GenState.Running && NoError(slot)
    requires g.body.steps == []
    ensures var r := ResumeSpec(g, slot);
      && r.result == Ok(None) && r.gen.state == GenState.Finished && !r.gen.isPanicked
      && r.gen.body.received == g.body.received + [if slot.None? then None else Some(slot.value.value)]
  {
    var b := g.body.(received := g.body.received + [if slot.None? then None else Some(slot.value.value)]);
    var e := Continue(g.body, slot);
    assert e == Run(b, None);
    assert e.stop == Returned && e.slot.None?;
    var t := SwitchIn(g, slot);
    assert t == Wrap(e);
  }

  /**
   * A body waiting in a plain yield, whose next step is another plain yield,
   * receives the pushed value and switches back: the `resume_with` is
   * `Ok(None)`.
   */
  lemma {:induction false} ResumeWithAtYieldBack<T>(g: Gen<T>, v: T)
    requires Settled(g) && g.state == GenState.Running
    requires g.body.steps != [] && g.body.steps[0].YieldBack?
    ensures var r := ResumeSpec(g, Pushed(v));
      && r.result == Ok(None) && r.gen.state == GenState.Running
      && r.gen.body.steps == g.body.steps[1..] && r.gen.body.received == g.body.received + [Some(v)]
  {
    var b := g.body.(received := g.body.received + [Some(v)]);
    assert SwitchIn(g, Pushed(v)) == Wrap(Run(b, None));
  }

  /**
   * Once finished, a generator stays as it is and every `resume` gives the
   * same answer: `Err(Panicked)` after a panic, `Ok(None)` otherwise.
   */
  lemma {:induction false} FinishedAnswersForever<T>(g: Gen<T>, n: nat)
    requires Settled(g) && g.state == GenState.Finished
    ensures Resumes(g, n) == Repeat(if g.isPanicked then Err(Error.Panicked) else Ok(None), n)
    ensures AfterResumes(g, n) == g
  {
    if n > 0 {
      FinishedAnswersForever(g, n - 1);
    }
  }

  /**
   * A body that yields each of `vs` and returns hands the values out in
   * order, one per `resume`; after that, every `resume` is `Ok(None)`.
   * Covers a body already running (the values pushed back to its yields are
   * nothing) as well as one not yet started.
   */
  lemma {:induction false} YieldsInOrder<T>(g: Gen<T>, vs: seq<T>, extra: nat)
    requires Settled(g) && (g.state == Created || g.state == GenState.Running)
    requires g.body.steps == Yields(vs)
    ensures Resumes(g, |vs| + 1 + extra) == Pulled(vs) + Repeat(Ok(None), 1 + extra)
    decreases |vs|
  {
    var r := ResumeSpec(g, None);
    if vs == [] && g.state == Created {
      StartAtEnd(g);
      FinishedAnswersForever(r.gen, extra);
    } else if vs == [] {
      ResumeAtEnd(g, None);
      FinishedAnswersForever(r.gen, extra);
    } else {
      ResumeAtYieldWith(g);
      assert Yields(vs)[1..] == Yields(vs[1..]);
      YieldsInOrder(r.gen, vs[1..], extra);
      assert Resumes(g, |vs| + 1 + extra) == [r.result] + Resumes(r.gen, |vs[1..]| + 1 + extra);
      assert Pulled(vs) == [Ok(Some(vs[0]))] + Pulled(vs[1..]);
    }
  }

  /**
   * `test_coroutine_basic` and `test_coroutine_generator`: the generator
   * yielding 0..9 is resumed into 0..9 in order, and the iterator over it
   * hands out exactly those ten items and then ends.
   */
  lemma {:induction false} GeneratorIteratesOverYields<T>(vs: seq<T>)
    ensures var rs := Resumes(Spawned(Yields(vs)), |vs| + 1);
      && rs[..|vs|] == Pulled(vs)
      && (forall i :: 0 <= i < |vs| ==> NextItem(rs[i]) == Some(Ok(vs[i])))
      && NextItem(rs[|vs|]).None?
  {
    var g := Spawned(Yields(vs));
    YieldsInOrder(g, vs, 0);
    ItemsOfPulled(Resumes(g, |vs| + 1), vs);
  }

  /** The items the iterator makes of the results for `vs` and one final `Ok(None)`. */
  lemma ItemsOfPulled<T>(rs: seq<Result<Option<T>>>, vs: seq<T>)
    requires rs == Pulled(vs) + Repeat(Ok(None), 1)
    ensures |rs| == |vs| + 1 && rs[..|vs|] == Pulled(vs)
    ensures forall i :: 0 <= i < |vs| ==> NextItem(rs[i]) == Some(Ok(vs[i]))
    ensures NextItem(rs[|vs|]).None?
  {
    assert rs[..|vs|] == Pulled(vs);
  }

  /**
   * A running body whose remaining script is `n` plain yields receives, over
   * `n + 1` calls of `resume_with`, exactly the pushed values, each as the
   * return of the yield it was waiting in; every call returns `Ok(None)` and
   * the last one finishes the body.
   */
  lemma {:induction false} PushedValuesDelivered<T>(g: Gen<T>, vs: seq<T>)
    requires Settled(g) && g.state == GenState.Running && vs != []
    requires g.body.steps == YieldBacks(|vs| - 1)
    ensures var (h, rs) := ResumeWiths(g, vs);
      && h.state == GenState.Finished && !h.isPanicked
      && h.body.received == g.body.received + Somes(vs)
      && rs == Repeat(Ok(None), |vs|)
    decreases |vs|
  {
    var first := ResumeSpec(g, Pushed(vs[0]));
    var rest := ResumeWiths(first.gen, vs[1..]);
    assert ResumeWiths(g, vs) == (rest.0, [first.result] + rest.1);
    if |vs| == 1 {
      ResumeAtEnd(g, Pushed(vs[0]));
      assert rest == (first.gen, []);
      assert Somes(vs) == [Some(vs[0])];
    } else {
      assert first.result == Ok(None) && first.gen.state == GenState.Running
          && first.gen.body.steps == YieldBacks(|vs| - 2)
          && first.gen.body.received == g.body.received + [Some(vs[0])] by {
        ResumeWithAtYieldBack(g, vs[0]);
        assert YieldBacks<T>(|vs| - 1)[1..] == YieldBacks(|vs| - 2);
      }
      assert rest.0.state == GenState.Finished && !rest.0.isPanicked
          && rest.0.body.received == first.gen.body.received + Somes(vs[1..])
          && rest.1 == Repeat(Ok(None), |vs| - 1) by {
        PushedValuesDelivered(first.gen, vs[1..]);
      }
      assert [Some(vs[0])] + Somes(vs[1..]) == Somes(vs);
      assert [Ok(None)] + Repeat<Result<Option<T>>>(Ok(None), |vs| - 1) == Repeat(Ok(None), |vs|);
    }
  }

  /** Each of `vs` as it reaches the body. */
  function Somes<T>(vs: seq<T>): (os: seq<Option<T>>)
    ensures |os| == |vs| && forall i :: 0 <= i < |vs| ==> os[i] == Some(vs[i])
  {
    if vs == [] then [] else [Some(vs[0])] + Somes(vs[1..])
  }

  /**
   * `test_coroutine_push` (there with the ten values 0..9): the body takes
   * the first pushed value with `take_data` and each later one as the return
   * of a plain yield, so every value reaches it, in order, and every
   * `resume_with` is `Ok(None)`.
   */
  lemma {:induction false} TakeDataThenYieldBacks<T>(vs: seq<T>)
    requires vs != []
    ensures var (h, rs) := ResumeWiths(Spawned([TakeData] + YieldBacks<T>(|vs| - 1)), vs);
      && h.body.received == Somes(vs) && h.state == GenState.Finished
      && rs == Repeat(Ok(None), |vs|)
  {
    var g := Spawned([TakeData] + YieldBacks<T>(|vs| - 1));
    var b1 := g.body.(steps := YieldBacks<T>(|vs| - 1), received := [Some(vs[0])]);
    assert g.body.steps[0] == TakeData && g.body.steps[1..] == YieldBacks(|vs| - 1);
    assert Run(g.body, Pushed(vs[0])) == Run(b1, None);
    var first := ResumeSpec(g, Pushed(vs[0]));
    if |vs| == 1 {
      assert first.gen.body.received == [Some(vs[0])];
      assert Somes(vs) == [Some(vs[0])];
    } else {
      assert b1.steps[0] == YieldBack && b1.steps[1..] == YieldBacks(|vs| - 2);
      assert first.gen == Gen(GenState.Running, b1.(steps := YieldBacks(|vs| - 2)), false);
      PushedValuesDelivered(first.gen, vs[1..]);
      assert [Some(vs[0])] + Somes(vs[1..]) == Somes(vs);
    }
  }

  /**
   * `test_panic_inside`: a body that panics makes its first `resume` an
   * error, and every later one too.
   */
  lemma {:induction false} PanicIsReportedForever(p: Payload, n: nat)
    ensures var rs := Resumes(Spawned<int>([Panic(p)]), n + 1);
      forall i :: 0 <= i <= n ==> rs[i] == Err(Error.Panicked)
  {
    var g := Spawned<int>([Panic(p)]);
    var r := ResumeSpec(g, None);
    assert r.gen.state == GenState.Finished && r.gen.isPanicked;
    FinishedAnswersForever(r.gen, n);
  }

  /**
   * `test_coroutine_unwind` (there with one guard): a body that creates `k`
   * guards and yields is resumed once and then dropped; the forced unwind
   * drops each guard exactly once, and unwinding again changes nothing.
   */
  lemma {:induction false} UnwindDropsGuardsOnce<T>(k: nat)
    ensures var r := ResumeSpec(Spawned<T>(Guards(k) + [YieldBack]), None);
      && r.result == Ok(None) && r.gen.body.guardsLive == k && r.gen.state == GenState.Running
      && var u := ForceUnwindSpec(r.gen);
      && u.body.guardsDropped == k && u.body.guardsLive == 0
      && ForceUnwindSpec(u) == u
  {
    var g := Spawned<T>(Guards(k) + [YieldBack]);
    RunPastGuards(g.body, k, None);
  }

  /**
   * The generator object: a parent context to return to, the raw coroutine
   * running the wrapper, the name, the state, the result slot, and the body
   * with the wrapper's `is_panicked` flag.
   */
  class CoroutineImpl<T> {
    const parent: RawCoroutine.Coroutine
    var rawImpl: Option<RawCoroutine.Coroutine>
    var name: Option<string>
    var state: GenState
    var result: Option<Result<T>>
    var body: Body<T>
    var isPanicked: bool

    /** The generator's abstract value. */
    function Value(): Gen<T>
      reads this
    {
      Gen(state, body, isPanicked)
    }

    /**
     * Between public operations the raw coroutine is present, the slot is
     * empty (every `resume` takes it) and the generator is settled.
     */
    predicate Valid()
      reads this
    {
      rawImpl.Some? && result.None? && Settled(Value())
    }

    /** Builds the object `spawn_opts` boxes: `Created`, empty slot, empty raw coroutines. */
    constructor (opts: Options.Options, steps: seq<Step<T>>)
      ensures Valid() && Value() == Spawned(steps) && name == opts.name
      ensures fresh(parent) && rawImpl.Some? && fresh(rawImpl.value) && rawImpl.value.stack.None?
    {
      parent := new RawCoroutine.Coroutine.Empty();
      var raw := new RawCoroutine.Coroutine.Empty();
      rawImpl := Some(raw);
      name := opts.name;
      state := Created;
      result := None;
      body := Start(steps);
      isPanicked := false;
    }

    /** `CoroutineImpl::resume`: switch in with the slot as it is, then take it. */
    method Resume() returns (r: Result<Option<T>>)
      requires rawImpl.Some? && Settled(Value()) && NoError(result)
      modifies this
      ensures Valid() && rawImpl == old(rawImpl) && name == old(name)
      ensures Resumed(Value(), r) == ResumeSpec(old(Value()), old(result))
    {
      var t := SwitchIn(Value(), result);
      state, body, isPanicked, result := t.gen.state, t.gen.body, t.gen.isPanicked, t.slot;
      r := SlotResult(result);
      result := None;
    }

    /** `resume_with`: store the value in the slot, then resume. */
    method ResumeWith(v: T) returns (r: Result<Option<T>>)
      requires Valid()
      modifies this
      ensures Valid() && rawImpl == old(rawImpl) && name == old(name)
      ensures Resumed(Value(), r) == ResumeSpec(old(Value()), Pushed(v))
    {
      result := Some(Ok(v));
      r := Resume();
    }

    /** `Iterator::next`: resume and turn the result into an item. */
    method Next() returns (item: Option<Result<T>>)
      requires Valid()
      modifies this
      ensures Valid() && rawImpl == old(rawImpl)
      ensures var s := ResumeSpec(old(Value()), None);
        Value() == s.gen && item == NextItem(s.result)
    {
      var r := Resume();
      item := NextItem(r);
    }

    /** `force_unwind`: only a `Running` generator is set to `ForceUnwind` and resumed once. */
    method ForceUnwind()
      requires Valid()
      modifies this
      ensures Valid() && rawImpl == old(rawImpl) && name == old(name)
      ensures Value() == ForceUnwindSpec(old(Value()))
    {
      if state == GenState.Running {
        state := GenState.ForceUnwind;
        var t := SwitchIn(Value(), result);
        state, body, isPanicked := t.gen.state, t.gen.body, t.gen.isPanicked;
        result := None;
      }
    }

    /**
     * `Drop`: unwind a running body, then take the raw coroutine and hand
     * its stack, if it has one, back to the thread's pool.
     */
    method Drop(pool: Pool.StackPool, limit: CachedStackLimit)
      requires Valid() && limit.Valid()
      modifies this, rawImpl.value, pool, limit
      ensures rawImpl.None? && Value() == ForceUnwindSpec(old(Value())) && limit.Valid()
      ensures old(rawImpl.value).stack.None?
      ensures old(rawImpl.value.stack).None? ==> pool.stacks == old(pool.stacks)
      ensures old(rawImpl.value.stack).Some? ==>
        pool.stacks == if |old(pool.stacks)| < Configured(limit.setting)
                       then old(pool.stacks) + [old(rawImpl.value.stack).value] else old(pool.stacks)
    {
      ForceUnwind();
      var raw := rawImpl.value;
      rawImpl := None;
      var s := raw.TakeStack();
      if s.Some? {
        pool.GiveStackBounded(s.value, limit);
      }
    }
  }

  /**
   * `spawn_opts`: take a stack of at least the requested size from the
   * pool, box a `Created` generator with the given name, set its raw
   * coroutine's context up to enter `coroutine_initialize` on top of that
   * stack (`init_with`), and give the raw coroutine the stack.
   */
  method SpawnOpts<T>(steps: seq<Step<T>>, opts: Options.Options, pool: Pool.StackPool,
                      pageSize: nat, addr: nat, entry: nat, thunk: nat, bootstrap: nat,
                      mem: Context.StackMemory) returns (c: CoroutineImpl<T>)
    requires pageSize > 0
    requires forall s :: s in pool.stacks ==> 16 <= StackStandard.End(s) <= USIZE_MAX
    requires 16 <= addr + StackStandard.RoundUp(opts.stackSize, pageSize) <= USIZE_MAX
    modifies pool, mem
    ensures fresh(c) && c.Valid() && c.Value() == Spawned(steps) && c.name == opts.name
    ensures c.rawImpl.value.stack.Some? && c.rawImpl.value.stack.value.minSize >= opts.stackSize
    ensures c.rawImpl.value.context.stackBounds == Context.Bounds(c.rawImpl.value.stack.value)
    ensures 16 <= StackStandard.End(c.rawImpl.value.stack.value) <= USIZE_MAX
    ensures mem.words == old(mem.words)[Context.AlignDown(StackStandard.End(c.rawImpl.value.stack.value)) - 8 := 0]
    ensures match FirstFit(old(pool.stacks), opts.stackSize)
      case Some(i) => c.rawImpl.value.stack == Some(old(pool.stacks)[i])
                      && pool.stacks == SwapRemove(old(pool.stacks), i)
      case None => c.rawImpl.value.stack == Some(StackStandard.New(opts.stackSize, pageSize, addr))
                   && pool.stacks == old(pool.stacks)
  {
    var stack := pool.TakeStack(opts.stackSize, pageSize, addr);
    c := new CoroutineImpl(opts, steps);
    c.rawImpl.value.context := Context.New(entry, 0, thunk, stack, bootstrap, mem);
    var _ := c.rawImpl.value.SetStack(stack);
  }
}
