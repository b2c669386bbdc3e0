/**
 * Symmetric coroutines behind clonable handles: `resume` reports a
 * coroutine it cannot enter as an error instead of panicking, restores the
 * caller to `Running` afterwards, and takes the resumed coroutine's new
 * state from the environment's switch state, where `yield_now` left it.
 */
module CoroutineClonable {
  import opened Types
  import opened StackStandard
  import opened Pool = StackPool
  import Context
  import Options
  import opened SymmetricScript
  import opened ClonableCoroutine
  import Env = Environment
  import Unique = CoroutineUnique

  /** After a `resume` or `join`: its result, the target, the switch state and the panic slot. */
  datatype Switched = Switched(result: Result<()>, target: Co, switchState: State, slot: Option<Payload>)

  /**
   * `Handle::resume`. A target that is not `Suspended` or `Blocked` is not
   * entered: `Finished`, `Panicked` and `Normal` give the matching error and
   * `Running` gives `Ok`. Otherwise the body runs to its next `yield_now`,
   * whose tag goes through the switch state into the target's state, and the
   * panic slot is taken: a payload is `Err(Panicking(payload))`.
   */
  function ResumeSpec(c: Co, switchState: State, slot: Option<Payload>): (a: Switched)
    ensures !Resumable(c.state) ==> a.target == c && a.switchState == switchState && a.slot == slot
    ensures !Resumable(c.state) ==> (a.result.Ok? <==> c.state == Running)
    ensures a.result == Err(Error.Finished) <==> c.state == State.Finished
    ensures a.result == Err(Error.Panicked) <==> c.state == State.Panicked
    ensures a.result == Err(Error.Waiting) <==> c.state == Normal
    ensures Resumable(c.state) ==> a.slot.None? && a.target.state == a.switchState != Running
    ensures Resumable(c.state) ==> Measure(a.target) < Measure(c)
    ensures Resumable(c.state) ==> a.result.Ok? || a.result.error.Panicking?
    ensures Resumable(c.state) && slot.None? ==>
      (a.result.Err? <==> c.body.Live? && a.target.body == Exited(true))
  {
    match c.state
    case Finished => Switched(Err(Error.Finished), c, switchState, slot)
    case Panicked => Switched(Err(Error.Panicked), c, switchState, slot)
    case Normal => Switched(Err(Error.Waiting), c, switchState, slot)
    case Running => Switched(Ok(()), c, switchState, slot)
    case _ =>
      var t := Switch(c.body, slot);
      Switched(if t.slot.Some? then Err(Panicking(t.slot.value)) else Ok(()), Co(t.tag, t.body), t.tag, None)
  }

  /**
   * `Handle::join`: resume until `Err(Finished)`, which ends the join with
   * `Ok`; any other error is returned. Joining a `Running` coroutine (itself)
   * would resume it with `Ok` forever, so it is excluded.
   */
  function JoinSpec(c: Co, switchState: State, slot: Option<Payload>): (a: Switched)
    requires c.state != Running
    ensures a.result.Ok? ==> a.target.state == State.Finished
    ensures slot.None? ==> (a.result.Ok? <==> a.target.state == State.Finished)
    ensures a.result != Err(Error.Finished)
    ensures c.state == State.Finished ==> a == Switched(Ok(()), c, switchState, slot)
    decreases Measure(c)
  {
    var r := ResumeSpec(c, switchState, slot);
    match r.result
    case Ok(_) => JoinSpec(r.target, r.switchState, r.slot)
    case Err(Finished) => r.(result := Ok(()))
    case Err(_) => r
  }

  /**
   * `panicking()` and `finished()` are exactly the states a `resume` refuses
   * with `Err(Panicked)` and `Err(Finished)`, whatever the switch state and slot.
   */
  lemma RefusalsMatchPredicates(c: Coroutine, switchState: State, slot: Option<Payload>)
    ensures c.Panicking() <==> ResumeSpec(c.View(), switchState, slot).result == Err(Error.Panicked)
    ensures c.Finished() <==> ResumeSpec(c.View(), switchState, slot).result == Err(Error.Finished)
  {
  }

  /**
   * Once entered, a clonable coroutine moves exactly as a unique one does:
   * same body, same state, same slot, and `Ok`/`Err(Panicking(p))` where the
   * unique `resume` gives `Ok`/`Err(p)`. The two differ only on a target they
   * do not enter, and in the caller's state afterwards.
   */
  lemma AgreesWithUniqueOnceEntered(c: Co, switchState: State, slot: Option<Payload>, name: Option<string>, caller: State)
    requires Resumable(c.state)
    ensures var a := ResumeSpec(c, switchState, slot);
      var u := Unique.ResumeSpec(c, name, caller, slot);
      && a.target == u.target && a.slot == u.slot
      && (a.result.Ok? <==> u.outcome.Success?)
      && (forall p :: a.result == Err(Panicking(p)) <==> u.outcome == Unique.Failure(p))
  {
  }

  /**
   * After its panic has been reported, a coroutine is `Panicked`: a clonable
   * `join` of it says `Err(Panicked)` again, while a unique `join` stops at
   * the state and says `Ok`.
   */
  lemma JoinAfterPanicDiffers(b: Body, switchState: State, slot: Option<Payload>, name: Option<string>, caller: State)
    ensures JoinSpec(Co(State.Panicked, b), switchState, slot).result == Err(Error.Panicked)
    ensures Unique.JoinSpec(Co(State.Panicked, b), name, caller, slot).outcome == Unique.Success
  {
  }

  /**
   * `test_coroutine_basic`: joining a coroutine whose body only pauses runs
   * it to its end; the join is `Ok` and the coroutine `Finished`.
   */
  lemma {:induction false} JoinRunsPausesToEnd(steps: seq<Step>, s: State, switchState: State)
    requires Pauses(steps) && Resumable(s)
    ensures JoinSpec(Co(s, Live(steps)), switchState, None)
         == Switched(Ok(()), Co(State.Finished, Exited(false)), State.Finished, None)
    decreases |steps|
  {
    var c := Co(s, Live(steps));
    var r := ResumeSpec(c, switchState, None);
    if steps == [] {
      assert r == Switched(Ok(()), Co(State.Finished, Exited(false)), State.Finished, None);
      assert JoinSpec(r.target, r.switchState, r.slot) == r;
    } else {
      assert r == Switched(Ok(()), Co(steps[0].tag, Live(steps[1..])), steps[0].tag, None);
      assert Pauses(steps[1..]) by {
        forall i | 0 <= i < |steps[1..]|
          ensures steps[1..][i].Yield? && Resumable(steps[1..][i].tag)
        {
          assert steps[1..][i] == steps[i + 1];
        }
      }
      JoinRunsPausesToEnd(steps[1..], steps[0].tag, steps[0].tag);
    }
  }

  /**
   * `test_coroutine_panic`: joining a coroutine that pauses and then panics
   * returns `Err(Panicking(p))`, leaves it `Panicked` and the slot empty;
   * joining it again gives `Err(Panicked)`.
   */
  lemma {:induction false} JoinReportsPanic(steps: seq<Step>, p: Payload, s: State, switchState: State)
    requires Pauses(steps) && Resumable(s)
    ensures JoinSpec(Co(s, Live(steps + [Panic(p)])), switchState, None)
         == Switched(Err(Panicking(p)), Co(State.Panicked, Exited(true)), State.Panicked, None)
    decreases |steps|
  {
    var c := Co(s, Live(steps + [Panic(p)]));
    var r := ResumeSpec(c, switchState, None);
    if steps == [] {
      assert (steps + [Panic(p)])[0] == Panic(p);
      assert r == Switched(Err(Panicking(p)), Co(State.Panicked, Exited(true)), State.Panicked, None);
    } else {
      assert (steps + [Panic(p)])[0] == steps[0];
      assert (steps + [Panic(p)])[1..] == steps[1..] + [Panic(p)];
      assert r == Switched(Ok(()), Co(steps[0].tag, Live(steps[1..] + [Panic(p)])), steps[0].tag, None);
      assert Pauses(steps[1..]) by {
        forall i | 0 <= i < |steps[1..]|
          ensures steps[1..][i].Yield? && Resumable(steps[1..][i].tag)
        {
          assert steps[1..][i] == steps[i + 1];
        }
      }
      JoinReportsPanic(steps[1..], p, steps[0].tag, steps[0].tag);
    }
  }

  /**
   * `Coroutine::yield_now(tag)` (and `sched`/`block`): the tag `Running`
   * fails the assertion; with only the root active nothing happens;
   * otherwise the current coroutine is popped and the tag is left in the
   * switch state for its resumer. No coroutine's own state changes here.
   */
  method YieldNow(env: Env.Environment, tag: State) returns (fatal: bool)
    requires env.coroutineStack != []
    modifies env
    ensures fatal <==> tag == Running
    ensures env.runningState == old(env.runningState)
    ensures fatal || |old(env.coroutineStack)| == 1 ==>
      env.coroutineStack == old(env.coroutineStack) && env.switchState == old(env.switchState)
    ensures !fatal && |old(env.coroutineStack)| > 1 ==>
      env.coroutineStack == old(env.coroutineStack)[..|old(env.coroutineStack)| - 1] && env.switchState == tag
  {
    if tag == Running {
      return true;
    }
    fatal := false;
    if |env.coroutineStack| == 1 {
      return;
    }
    env.coroutineStack := env.coroutineStack[..|env.coroutineStack| - 1];
    env.switchState := tag;
  }

  /**
   * `Handle::resume`. The target's one step between switches is its body's
   * next step; the yield that ends it goes through `yield_now`. The caller
   * is `Normal` while the target runs and `Running` again afterwards.
   */
  method Resume(env: Env.Environment, h: Coroutine) returns (r: Result<()>)
    requires env.Valid()
    modifies env, h, env.Current()
    ensures env.Valid() && env.coroutineStack == old(env.coroutineStack)
    ensures Switched(r, h.View(), env.switchState, env.runningState)
         == ResumeSpec(old(h.View()), old(env.switchState), old(env.runningState))
  {
    if h.state == State.Finished {
      return Err(Error.Finished);
    } else if h.state == State.Panicked {
      return Err(Error.Panicked);
    } else if h.state == Normal {
      return Err(Waiting);
    } else if h.state == Running {
      return Ok(());
    }
    h.state := Running;
    var from := env.Current();
    from.state := Normal;
    env.coroutineStack := env.coroutineStack + [h];
    var t := Switch(h.body, env.runningState);
    h.body := t.body;
    env.runningState := t.slot;
    var _ := YieldNow(env, t.tag);
    from.state := Running;
    h.state := env.switchState;
    r := if env.runningState.Some? then Err(Panicking(env.runningState.value)) else Ok(());
    env.runningState := None;
  }

  /** `Handle::join`: resume until `Err(Finished)`, returning any other error. */
  method Join(env: Env.Environment, h: Coroutine) returns (r: Result<()>)
    requires env.Valid() && h.state != Running
    modifies env, h, env.Current()
    ensures env.Valid() && env.coroutineStack == old(env.coroutineStack)
    ensures Switched(r, h.View(), env.switchState, env.runningState)
         == JoinSpec(old(h.View()), old(env.switchState), old(env.runningState))
  {
    ghost var goal := JoinSpec(h.View(), env.switchState, env.runningState);
    while true
      invariant env.Valid() && env.coroutineStack == old(env.coroutineStack)
      invariant h.state != Running
      invariant goal == JoinSpec(h.View(), env.switchState, env.runningState)
      decreases Measure(h.View())
    {
      r := Resume(env, h);
      if r == Err(Error.Finished) {
        break;
      } else if r.Err? {
        return;
      }
    }
    r := Ok(());
  }

  /**
   * `Coroutine::spawn_opts`: a stack of at least the requested size from the
   * environment's pool, a context that starts `coroutine_initialize` at the
   * top of it, and a `Suspended` coroutine with the given name.
   */
  method SpawnOpts(env: Env.Environment, body: seq<Step>, opts: Options.Options, pageSize: nat, addr: nat,
                   entry: nat, thunk: nat, bootstrap: nat, mem: Context.StackMemory) returns (h: Coroutine)
    requires pageSize > 0
    requires forall s :: s in env.stackPool.stacks ==> 16 <= End(s) <= USIZE_MAX
    requires 16 <= addr + RoundUp(opts.stackSize, pageSize) <= USIZE_MAX
    modifies env.stackPool, mem
    ensures fresh(h) && h.View() == Co(Suspended, Live(body)) && h.name == opts.name
    ensures h.currentStackSegment.Some? && h.currentStackSegment.value.minSize >= opts.stackSize
    ensures h.savedContext.stackBounds == Context.Bounds(h.currentStackSegment.value)
    ensures match FirstFit(old(env.stackPool.stacks), opts.stackSize)
      case Some(i) => h.currentStackSegment == Some(old(env.stackPool.stacks)[i])
                      && env.stackPool.stacks == SwapRemove(old(env.stackPool.stacks), i)
      case None => h.currentStackSegment == Some(StackStandard.New(opts.stackSize, pageSize, addr))
                   && env.stackPool.stacks == old(env.stackPool.stacks)
  {
    var stack := env.stackPool.TakeStack(opts.stackSize, pageSize, addr);
    var ctx := Context.New(entry, 0, thunk, stack, bootstrap, mem);
    h := new Coroutine.New(opts.name, stack, ctx, Suspended, Live(body));
  }
}
