/**
 * The per-thread coroutine environment of the clonable implementation: the
 * stack pool, the stack of active coroutines with the running one on top,
 * the root coroutine standing for the thread, the panic slot and the state
 * the last `yield_now` passed on.
 */
module Environment {
  import opened Types
  import Pool = StackPool
  import opened ClonableCoroutine

  /** The name of the coroutine standing for the thread itself. */
  const ROOT_NAME: string := "<Environment Root Coroutine>"

  class Environment {
    const stackPool: Pool.StackPool
    var coroutineStack: seq<Coroutine>
    const mainCoroutine: Coroutine
    var runningState: Option<Payload>
    var switchState: State

    /**
     * What holds whenever code runs on the thread: the root is at the
     * bottom of the active stack, the coroutine on top is `Running`, and
     * every one below it is `Normal`, waiting for the one above to come back.
     */
    ghost predicate Valid()
      reads this, coroutineStack
    {
      && coroutineStack != []
      && coroutineStack[0] == mainCoroutine
      && Current().state == Running
      && forall i :: 0 <= i < |coroutineStack| - 1 ==> coroutineStack[i].state == Normal
    }

    /**
     * `Environment::new`: the root, `Running` and named, alone on the active
     * stack; an empty pool, an empty panic slot, and `Suspended` as the
     * switch state.
     */
    constructor ()
      ensures Valid() && coroutineStack == [mainCoroutine]
      ensures mainCoroutine.name == Some(ROOT_NAME) && mainCoroutine.currentStackSegment.None?
      ensures runningState.None? && switchState == Suspended
      ensures fresh(stackPool) && fresh(mainCoroutine) && stackPool.stacks == []
    {
      stackPool := new Pool.StackPool();
      var root := new Coroutine.Empty(Some(ROOT_NAME), Running);
      mainCoroutine := root;
      coroutineStack := [root];
      runningState := None;
      switchState := Suspended;
    }

    /** `Coroutine::current`: the top of the active stack. */
    function Current(): (c: Coroutine)
      requires coroutineStack != []
      reads this
      ensures c in coroutineStack
    {
      coroutineStack[|coroutineStack| - 1]
    }
  }
}
