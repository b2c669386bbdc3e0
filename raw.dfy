/**
 * The raw coroutine the generators are built on: a saved context and the
 * stack it owns, nothing more.
 */
module RawCoroutine {
  import opened Types
  import opened StackStandard
  import Context

  class Coroutine {
    var context: Context.Context
    var stack: Option<Stack>

    /** `Coroutine::empty`: an empty context and no stack. */
    constructor Empty()
      ensures context == Context.Empty() && stack == None
    {
      context := Context.Empty();
      stack := None;
    }

    /** `Coroutine::new`: the given context, owning the given stack. */
    constructor New(ctx: Context.Context, s: Stack)
      ensures context == ctx && stack == Some(s)
    {
      context := ctx;
      stack := Some(s);
    }

    /**
     * `yield_to`: the live registers are saved into this coroutine's context
     * and the target's registers are loaded, recording the target's stack
     * bounds. The target itself is not changed.
     */
    method YieldTo(target: Coroutine, live: seq<nat>) returns (loaded: seq<nat>, recorded: (nat, nat))
      requires target != this
      modifies this
      ensures context == old(context).(regs := live) && stack == old(stack)
      ensures loaded == target.context.regs && recorded == Context.RecordedBounds(target.context)
    {
      var sw := Context.Swap(context, target.context, live);
      context, loaded, recorded := sw.saved, sw.loaded, sw.recorded;
    }

    /** `take_stack`: hands over the stack, leaving none. */
    method TakeStack() returns (s: Option<Stack>)
      modifies this
      ensures s == old(stack) && stack == None && context == old(context)
    {
      s := stack;
      stack := None;
    }

    /** `set_stack`: installs a stack and hands back the one it replaces. */
    method SetStack(s: Stack) returns (previous: Option<Stack>)
      modifies this
      ensures stack == Some(s) && previous == old(stack) && context == old(context)
    {
      previous := stack;
      stack := Some(s);
    }
  }

  /**
   * A parent switching into a child and the child switching back: the parent
   * gets back the registers it had when it left, and the bounds recorded on
   * return are the parent's.
   */
  method SwitchThereAndBack(parentCtx: Context.Context, childCtx: Context.Context,
                            parentLive: seq<nat>, childLive: seq<nat>)
    returns (inChild: seq<nat>, backInParent: seq<nat>, recorded: (nat, nat))
    ensures inChild == childCtx.regs
    ensures backInParent == parentLive && recorded == Context.RecordedBounds(parentCtx)
  {
    var parent := new Coroutine.Empty();
    parent.context := parentCtx;
    var child := new Coroutine.Empty();
    child.context := childCtx;
    var r1;
    inChild, r1 := parent.YieldTo(child, parentLive);
    backInParent, recorded := child.YieldTo(parent, childLive);
  }
}
