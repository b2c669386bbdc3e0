/**
 * Symmetric coroutines whose handles are unique pointers: a per-thread
 * environment with the stack of active coroutines and a one-shot panic
 * slot, `resume` that panics on a coroutine it cannot enter, `join` as a
 * loop of resumes, and `yield_now` popping the active stack.
 */
module CoroutineUnique {
  import opened Types
  import opened StackStandard
  import opened Pool = StackPool
  import Context
  import Options
  import Builder
  import opened SymmetricScript

  /** The name of the coroutine standing for the thread itself. */
  const ROOT_NAME: string := "<Environment Root Coroutine>"

  /** The message of the panic on resuming a panicked coroutine. */
  const RESUME_PANICKED: string := "Trying to resume a panicked coroutine"

  /** What `Handle::resume` does: return `Ok(())`, return the child's panic payload, or panic itself. */
  datatype Outcome = Success | Failure(payload: Payload) | Fatal(message: string)

  /** After a `resume` or `join`: its outcome, the target, the caller's state and the panic slot. */
  datatype After = After(outcome: Outcome, target: Co, caller: State, slot: Option<Payload>)

  /** The message of the panic on resuming a coroutine that is waiting for its child. */
  function WaitingMessage(name: Option<string>): (m: string)
    ensures |m| > 0
  {
    "Coroutine \"" + (if name.Some? then name.value else "<unnamed>")
      + "\" is waiting for its child to return, cannot resume!"
  }

  /**
   * `Handle::resume` from a caller other than the target. `Finished` and
   * `Running` return `Ok` at once; `Panicked` and `Normal` panic. Otherwise
   * the target is marked `Running`, the caller `Normal`, the target is pushed
   * and entered; its body runs one step, and the `yield_now` that ends it
   * pops the target and stores the tag as its state. The caller is left
   * `Normal`. Finally the panic slot is taken: a payload is the `Err`.
   */
  function ResumeSpec(c: Co, name: Option<string>, caller: State, slot: Option<Payload>): (a: After)
    ensures c.state == State.Finished || c.state == Running ==> a == After(Success, c, caller, slot)
    ensures c.state == State.Panicked || c.state == Normal ==> a.outcome.Fatal? && a.target == c
    ensures Resumable(c.state) ==> a.caller == Normal && a.slot.None? && a.target.state != Running
    ensures Resumable(c.state) ==> Measure(a.target) < Measure(c)
    ensures Resumable(c.state) && slot.None? ==>
      (a.outcome.Failure? <==> c.body.Live? && a.target.body == Exited(true))
  {
    match c.state
    case Finished => After(Success, c, caller, slot)
    case Running => After(Success, c, caller, slot)
    case Panicked => After(Fatal(RESUME_PANICKED), c, caller, slot)
    case Normal => After(Fatal(WaitingMessage(name)), c, caller, slot)
    case _ =>
      var t := Switch(c.body, slot);
      After(if t.slot.Some? then Failure(t.slot.value) else Success, Co(t.tag, t.body), Normal, None)
  }

  /**
   * `Handle::join`: resume while the target is `Suspended` or `Blocked`,
   * returning the first `Err`; any other state ends the loop with `Ok`. A
   * join never panics, and it ends with the target no longer resumable
   * unless a panic payload stopped it.
   */
  function JoinSpec(c: Co, name: Option<string>, caller: State, slot: Option<Payload>): (a: After)
    ensures !a.outcome.Fatal?
    ensures a.outcome.Success? ==> !Resumable(a.target.state)
    ensures !Resumable(c.state) ==> a == After(Success, c, caller, slot)
    ensures Resumable(c.state) ==> a.caller == Normal && a.slot.None?
    decreases Measure(c)
  {
    if Resumable(c.state) then
      var a := ResumeSpec(c, name, caller, slot);
      if a.outcome.Failure? then a else JoinSpec(a.target, name, a.caller, a.slot)
    else After(Success, c, caller, slot)
  }

  /**
   * `test_coroutine_yield` and `test_coroutine_resume_after_finished`: a
   * coroutine that yields `Suspended` once comes back `Suspended` from its
   * first resume and `Finished` from its second, and a third resume is an
   * `Ok` that changes nothing; none of them reports a panic.
   */
  lemma YieldThenFinish(name: Option<string>, caller: State)
    ensures var a1 := ResumeSpec(Co(Suspended, Live([Yield(Suspended)])), name, caller, None);
      && a1 == After(Success, Co(Suspended, Live([])), Normal, None)
      && var a2 := ResumeSpec(a1.target, name, a1.caller, a1.slot);
      && a2 == After(Success, Co(State.Finished, Exited(false)), Normal, None)
      && ResumeSpec(a2.target, name, a2.caller, a2.slot) == a2
  {
  }

  /**
   * Joining a coroutine whose body only pauses (`sched()`/`block()`) runs it
   * to its end: the join is `Ok`, the coroutine `Finished`, the slot empty.
   */
  lemma {:induction false} JoinRunsPausesToEnd(steps: seq<Step>, s: State, name: Option<string>, caller: State)
    requires Pauses(steps) && Resumable(s)
    ensures JoinSpec(Co(s, Live(steps)), name, caller, None) == After(Success, Co(State.Finished, Exited(false)), Normal, None)
    decreases |steps|
  {
    var c := Co(s, Live(steps));
    var a := ResumeSpec(c, name, caller, None);
    if steps == [] {
      assert a == After(Success, Co(State.Finished, Exited(false)), Normal, None);
    } else {
      assert a == After(Success, Co(steps[0].tag, Live(steps[1..])), Normal, None);
      assert Pauses(steps[1..]) by {
        forall i | 0 <= i < |steps[1..]|
          ensures steps[1..][i].Yield? && Resumable(steps[1..][i].tag)
        {
          assert steps[1..][i] == steps[i + 1];
        }
      }
      JoinRunsPausesToEnd(steps[1..], steps[0].tag, name, Normal);
    }
  }

  /**
   * `test_coroutine_panic`: joining a coroutine that pauses and then panics
   * returns `Err` with that payload, leaves it `Panicked` and the slot empty,
   * so the payload is delivered exactly once.
   */
  lemma {:induction false} JoinReportsPanic(steps: seq<Step>, p: Payload, s: State, name: Option<string>, caller: State)
    requires Pauses(steps) && Resumable(s)
    ensures JoinSpec(Co(s, Live(steps + [Panic(p)])), name, caller, None)
         == After(Failure(p), Co(State.Panicked, Exited(true)), Normal, None)
    decreases |steps|
  {
    var c := Co(s, Live(steps + [Panic(p)]));
    var a := ResumeSpec(c, name, caller, None);
    if steps == [] {
      assert (steps + [Panic(p)])[0] == Panic(p);
      assert a == After(Failure(p), Co(State.Panicked, Exited(true)), Normal, None);
    } else {
      assert (steps + [Panic(p)])[0] == steps[0];
      assert (steps + [Panic(p)])[1..] == steps[1..] + [Panic(p)];
      assert a == After(Success, Co(steps[0].tag, Live(steps[1..] + [Panic(p)])), Normal, None);
      assert Pauses(steps[1..]) by {
        forall i | 0 <= i < |steps[1..]|
          ensures steps[1..][i].Yield? && Resumable(steps[1..][i].tag)
        {
          assert steps[1..][i] == steps[i + 1];
        }
      }
      JoinReportsPanic(steps[1..], p, steps[0].tag, name, Normal);
    }
  }

  /**
   * `test_coroutine_child_panic`: the payload of a child that panicked is
   * taken by the join that reports it, so a join of a parent that goes on
   * to return normally is `Ok`.
   */
  lemma ChildPanicStaysWithChild(child: seq<Step>, p: Payload, parent: seq<Step>, name: Option<string>)
    requires Pauses(child) && Pauses(parent)
    ensures var inner := JoinSpec(Co(Suspended, Live(child + [Panic(p)])), name, Running, None);
      && inner.outcome == Failure(p)
      && JoinSpec(Co(Suspended, Live(parent)), name, Running, inner.slot).outcome == Success
  {
    JoinReportsPanic(child, p, Suspended, name, Running);
    JoinRunsPausesToEnd(parent, Suspended, name, Running);
  }

  /**
   * A coroutine: its stack, its saved register context, its state, its name,
   * and the body running on that stack.
   */
  class Coroutine {
    var currentStackSegment: Option<Stack>
    var savedContext: Context.Context
    var state: State
    const name: Option<string>
    var body: Body

    /** The coroutine as `resume` sees it. */
    function View(): Co
      reads this
    {
      Co(state, body)
    }

    /** `Coroutine::empty`: no stack, an empty context; used for the root, whose own code is not a script. */
    constructor Empty(name: Option<string>, state: State)
      ensures this.name == name && this.state == state && body == Live([])
      ensures currentStackSegment.None? && savedContext == Context.Empty()
    {
      this.name := name;
      this.state := state;
      body := Live([]);
      currentStackSegment := None;
      savedContext := Context.Empty();
    }

    /** `Coroutine::new`: a coroutine owning `stack`, about to run `body` from `ctx`. */
    constructor New(name: Option<string>, stack: Stack, ctx: Context.Context, state: State, body: Body)
      ensures this.name == name && this.state == state && this.body == body
      ensures currentStackSegment == Some(stack) && savedContext == ctx
    {
      this.name := name;
      this.state := state;
      this.body := body;
      currentStackSegment := Some(stack);
      savedContext := ctx;
    }

    /** `Handle::set_state`, which the source makes public. */
    method SetState(s: State)
      modifies this
      ensures state == s && body == old(body) && currentStackSegment == old(currentStackSegment)
    {
      state := s;
    }

    /** `Drop for Coroutine`: hand the stack, if any, back to the environment's pool. */
    method Drop(pool: Pool.StackPool, limit: CachedStackLimit)
      requires limit.Valid()
      modifies this, pool, limit
      ensures currentStackSegment.None? && limit.Valid() && state == old(state)
      ensures old(currentStackSegment).None? ==> pool.stacks == old(pool.stacks)
      ensures old(currentStackSegment).Some? ==>
        pool.stacks == if |old(pool.stacks)| < Configured(limit.setting)
                       then old(pool.stacks) + [old(currentStackSegment).value] else old(pool.stacks)
    {
      var s := currentStackSegment;
      currentStackSegment := None;
      if s.Some? {
        pool.GiveStackBounded(s.value, limit);
      }
    }
  }

  /**
   * The per-thread environment: the stack pool, the active stack of
   * coroutines (the running one on top), the root coroutine standing for the
   * thread, and the panic slot.
   */
  class Environment {
    const stackPool: Pool.StackPool
    var coroutineStack: seq<Coroutine>
    const mainCoroutine: Coroutine
    var runningState: Option<Payload>

    /** `Environment::new`: the root, `Running`, alone on the active stack; empty pool and slot. */
    constructor ()
      ensures coroutineStack == [mainCoroutine] && runningState.None?
      ensures mainCoroutine.state == Running && mainCoroutine.name == Some(ROOT_NAME)
      ensures fresh(stackPool) && fresh(mainCoroutine) && stackPool.stacks == []
    {
      stackPool := new Pool.StackPool();
      var root := new Coroutine.Empty(Some(ROOT_NAME), Running);
      mainCoroutine := root;
      coroutineStack := [root];
      runningState := None;
    }

    /** `Coroutine::current`: the top of the active stack, which is never empty. */
    function Current(): (c: Coroutine)
      requires coroutineStack != []
      reads this
      ensures c in coroutineStack
    {
      coroutineStack[|coroutineStack| - 1]
    }

    /**
     * `Coroutine::yield_now(tag)` (and `sched`/`block`): the tag `Running`
     * fails the assertion; with only the root active nothing happens;
     * otherwise the current coroutine is popped, takes the tag as its state,
     * and the new top runs on.
     */
    method YieldNow(tag: State) returns (fatal: bool)
      requires coroutineStack != []
      modifies this, Current()
      ensures fatal <==> tag == Running
      ensures runningState == old(runningState)
      ensures fatal || |old(coroutineStack)| == 1 ==> coroutineStack == old(coroutineStack)
      ensures !fatal && |old(coroutineStack)| > 1 ==>
        coroutineStack == old(coroutineStack)[..|old(coroutineStack)| - 1] && old(Current()).state == tag
      ensures unchanged(old(Current())`body, old(Current())`currentStackSegment)
      ensures fatal || |old(coroutineStack)| == 1 ==> unchanged(old(Current()))
    {
      if tag == Running {
        return true;
      }
      fatal := false;
      if |coroutineStack| == 1 {
        return;
      }
      var from := coroutineStack[|coroutineStack| - 1];
      coroutineStack := coroutineStack[..|coroutineStack| - 1];
      from.state := tag;
    }
  }

  /**
   * `Handle::resume`. The target's one step between switches is its body's
   * next step; the yield that ends it goes through `yield_now`. A caller
   * resuming itself (possible only after `set_state`) is marked `Normal`,
   * pushed a second time, and continues at once.
   */
  method Resume(env: Environment, h: Coroutine) returns (o: Outcome)
    requires env.coroutineStack != []
    modifies env, h, env.Current()
    ensures env.coroutineStack != []
    ensures h != old(env.Current()) ==>
      && After(o, h.View(), old(env.Current()).state, env.runningState)
         == ResumeSpec(old(h.View()), h.name, old(env.Current().state), old(env.runningState))
      && env.coroutineStack == old(env.coroutineStack)
    ensures h == old(env.Current()) && Resumable(old(h.state)) ==>
      && h.state == Normal && h.body == old(h.body) && env.runningState.None?
      && env.coroutineStack == old(env.coroutineStack) + [h]
  {
    if h.state == State.Finished || h.state == Running {
      return Success;
    } else if h.state == State.Panicked {
      return Fatal(RESUME_PANICKED);
    } else if h.state == Normal {
      return Fatal(WaitingMessage(h.name));
    }
    var from := env.Current();
    h.state := Running;
    from.state := Normal;
    env.coroutineStack := env.coroutineStack + [h];
    if from != h {
      var t := Switch(h.body, env.runningState);
      h.body := t.body;
      env.runningState := t.slot;
      var _ := env.YieldNow(t.tag);
      assert h.View() == Co(t.tag, t.body);
    }
    o := if env.runningState.Some? then Failure(env.runningState.value) else Success;
    env.runningState := None;
  }

  /**
   * `Handle::join`: resume while the target is `Suspended` or `Blocked`,
   * returning the first `Err`. A coroutine joining itself normally finds
   * itself `Running` and gets `Ok` at once; one made resumable by
   * `set_state` resumes itself once, which leaves it `Normal` and ends the
   * loop.
   */
  method Join(env: Environment, h: Coroutine) returns (o: Outcome)
    requires env.coroutineStack != []
    modifies env, h, env.Current()
    ensures h != old(env.Current()) || !Resumable(old(h.state)) ==>
      && env.coroutineStack == old(env.coroutineStack)
      && After(o, h.View(), old(env.Current()).state, env.runningState)
         == JoinSpec(old(h.View()), h.name, old(env.Current().state), old(env.runningState))
    ensures h == old(env.Current()) && Resumable(old(h.state)) ==>
      && h.state == Normal && h.body == old(h.body) && env.runningState.None?
      && env.coroutineStack == old(env.coroutineStack) + [h]
  {
    if h == env.Current() && Resumable(h.state) {
      // The self-resume leaves `h` `Normal`, where the loop stops with `Ok`.
      o := Resume(env, h);
      return;
    }
    ghost var caller := env.Current();
    ghost var goal := JoinSpec(h.View(), h.name, caller.state, env.runningState);
    while Resumable(h.state)
      invariant env.coroutineStack == old(env.coroutineStack) && env.Current() == caller
      invariant h == caller ==> !Resumable(h.state)
      invariant goal == JoinSpec(h.View(), h.name, caller.state, env.runningState)
      decreases Measure(h.View())
    {
      o := Resume(env, h);
      if o.Failure? {
        return;
      }
    }
    o := Success;
  }

  /**
   * `Coroutine::spawn_opts`: a stack of at least the requested size from the
   * environment's pool, a context that starts `coroutine_initialize` at the
   * top of it, and a `Suspended` coroutine with the given name.
   */
  method SpawnOpts(env: Environment, body: seq<Step>, opts: Options.Options, pageSize: nat, addr: nat,
                   entry: nat, thunk: nat, bootstrap: nat, mem: Context.StackMemory) returns (h: Coroutine)
    requires pageSize > 0
    requires forall s :: s in env.stackPool.stacks ==> 16 <= End(s) <= USIZE_MAX
    requires 16 <= addr + RoundUp(opts.stackSize, pageSize) <= USIZE_MAX
    modifies env.stackPool, mem
    ensures fresh(h) && h.View() == Co(Suspended, Live(body)) && h.name == opts.name
    ensures h.currentStackSegment.Some? && h.currentStackSegment.value.minSize >= opts.stackSize
    ensures h.savedContext.stackBounds == Context.Bounds(h.currentStackSegment.value)
    ensures match FirstFit(old(env.stackPool.stacks), opts.stackSize)
      case Some(i) => h.currentStackSegment == Some(old(env.stackPool.stacks)[i])
                      && env.stackPool.stacks == SwapRemove(old(env.stackPool.stacks), i)
      case None => h.currentStackSegment == Some(StackStandard.New(opts.stackSize, pageSize, addr))
                   && env.stackPool.stacks == old(env.stackPool.stacks)
  {
    var stack := env.stackPool.TakeStack(opts.stackSize, pageSize, addr);
    var ctx := Context.New(entry, 0, thunk, stack, bootstrap, mem);
    h := new Coroutine.New(opts.name, stack, ctx, Suspended, Live(body));
  }

  /** This module's `Options::default()`: the runtime's minimum stack size and no name. */
  function DefaultOptions(minStack: nat): (o: Options.Options)
    ensures o.stackSize == minStack && o.name.None?
  {
    Options.Options(minStack, None)
  }

  /** This module's `Builder::spawn`: `spawn_opts` with the options the builder collected. */
  method BuilderSpawn(env: Environment, b: Builder.Builder, body: seq<Step>, pageSize: nat, addr: nat,
                      entry: nat, thunk: nat, bootstrap: nat, mem: Context.StackMemory) returns (h: Coroutine)
    requires pageSize > 0
    requires forall s :: s in env.stackPool.stacks ==> 16 <= End(s) <= USIZE_MAX
    requires 16 <= addr + RoundUp(b.opts.stackSize, pageSize) <= USIZE_MAX
    modifies env.stackPool, mem
    ensures fresh(h) && h.View() == Co(Suspended, Live(body)) && h.name == b.opts.name
    ensures h.currentStackSegment.Some? && h.currentStackSegment.value.minSize >= b.opts.stackSize
  {
    h := SpawnOpts(env, body, b.opts, pageSize, addr, entry, thunk, bootstrap, mem);
  }
}
