/**
 * The coroutine record behind a clonable handle: a stack, a saved register
 * context, a state behind a lock, and a name. Every clone of a handle shares
 * this one record, so it is a class.
 */
module ClonableCoroutine {
  import opened Types
  import opened StackStandard
  import opened Pool = StackPool
  import Context
  import opened SymmetricScript

  /** A coroutine, with the body that runs on its stack. */
  class Coroutine {
    var currentStackSegment: Option<Stack>
    var savedContext: Context.Context
    var state: State
    const name: Option<string>
    var body: Body

    /** The coroutine as `resume` sees it. */
    function View(): Co
      reads this
    {
      Co(state, body)
    }

    /** `Coroutine::empty`: no stack and an empty context; used for the root, whose own code is not a script. */
    constructor Empty(name: Option<string>, state: State)
      ensures this.name == name && this.state == state && body == Live([])
      ensures currentStackSegment.None? && savedContext == Context.Empty()
    {
      this.name := name;
      this.state := state;
      body := Live([]);
      currentStackSegment := None;
      savedContext := Context.Empty();
    }

    /** `Coroutine::new`: a coroutine owning `stack`, about to run `body` from `ctx`. */
    constructor New(name: Option<string>, stack: Stack, ctx: Context.Context, state: State, body: Body)
      ensures this.name == name && this.state == state && this.body == body
      ensures currentStackSegment == Some(stack) && savedContext == ctx
    {
      this.name := name;
      this.state := state;
      this.body := body;
      currentStackSegment := Some(stack);
      savedContext := ctx;
    }

    /** `Coroutine::panicking`. */
    predicate Panicking()
      reads this
    {
      state == State.Panicked
    }

    /** `Coroutine::finished`. */
    predicate Finished()
      reads this
    {
      state == State.Finished
    }

    /** `Drop for Coroutine`: hand the stack, if any, back to the thread's pool. */
    method Drop(pool: Pool.StackPool, limit: CachedStackLimit)
      requires limit.Valid()
      modifies this, pool, limit
      ensures currentStackSegment.None? && limit.Valid() && View() == old(View())
      ensures old(currentStackSegment).None? ==> pool.stacks == old(pool.stacks)
      ensures old(currentStackSegment).Some? ==>
        pool.stacks == if |old(pool.stacks)| < Configured(limit.setting)
                       then old(pool.stacks) + [old(currentStackSegment).value] else old(pool.stacks)
    {
      var s := currentStackSegment;
      currentStackSegment := None;
      if s.Some? {
        pool.GiveStackBounded(s.value, limit);
      }
    }
  }
}
