/**
 * The body of a symmetric coroutine as a script, shared by both symmetric
 * implementations. Between two switches a body does exactly one thing:
 * yield with a state tag, panic, or return; after that, the
 * `coroutine_initialize` loop yields the final state at every switch.
 */
module SymmetricScript {
  import opened Types

  /** The payload of the assertion in `yield_now` that rejects the tag `Running`. */
  const YIELD_RUNNING_PANIC: Payload := "assertion failed: state != State::Running"

  /** One action of the body, ending in a switch back: `yield_now(tag)`, or `panic!`. */
  datatype Step = Yield(tag: State) | Panic(payload: Payload)

  /**
   * The body: still running its closure with these steps left (none left
   * means the closure returns next), or out of it, looping in
   * `coroutine_initialize` and yielding `Panicked` or `Finished` for good.
   */
  datatype Body = Live(steps: seq<Step>) | Exited(panicked: bool)

  /** The state the loop after the closure yields at every switch. */
  function Final(panicked: bool): (s: State)
    ensures s == State.Panicked || s == State.Finished
  {
    if panicked then State.Panicked else State.Finished
  }

  /** What one switch into a body leads to: the body afterwards, the tag it yielded, the panic slot. */
  datatype Turn = Turn(body: Body, tag: State, slot: Option<Payload>)

  /** How many more switches can change the body. */
  function Remaining(b: Body): nat
  {
    match b
    case Live(steps) => |steps| + 1
    case Exited(_) => 0
  }

  /**
   * One switch into the body, up to its next `yield_now`. A yield keeps the
   * closure running, except that the tag `Running` fails `yield_now`'s
   * assertion, which is a panic; a panic is caught by the `try` in
   * `coroutine_initialize`, which stores the payload in the panic slot and
   * yields `Panicked`; returning clears the slot and yields `Finished`; once
   * out of the closure, the loop yields the same final state again and leaves
   * the slot alone.
   */
  function Switch(b: Body, slot: Option<Payload>): (t: Turn)
    ensures t.tag != Running
    ensures b.Exited? ==> t == Turn(b, Final(b.panicked), slot)
    ensures b.Live? ==> Remaining(t.body) < Remaining(b)
    ensures t.body.Exited? ==> t.tag == Final(t.body.panicked)
    ensures slot.None? ==> (t.slot.Some? <==> b.Live? && t.body == Exited(true))
  {
    match b
    case Exited(panicked) => Turn(b, Final(panicked), slot)
    case Live(steps) =>
      if steps == [] then Turn(Exited(false), State.Finished, None)
      else match steps[0]
        case Yield(tag) =>
          if tag == Running then Turn(Exited(true), State.Panicked, Some(YIELD_RUNNING_PANIC))
          else Turn(Live(steps[1..]), tag, slot)
        case Panic(p) => Turn(Exited(true), State.Panicked, Some(p))
  }

  /** A coroutine as `resume` sees it: its state and its body. */
  datatype Co = Co(state: State, body: Body)

  /** What a loop of resumes can still do: the body's remaining switches, plus one while the state lets it resume. */
  function Measure(c: Co): nat
  {
    Remaining(c.body) + (if Resumable(c.state) then 1 else 0)
  }

  /** A state a coroutine can be resumed from: `Suspended` or `Blocked`. */
  predicate Resumable(s: State)
  {
    s == Suspended || s == Blocked
  }

  /** A script of yields, each with a tag that lets the coroutine be resumed again. */
  predicate Pauses(steps: seq<Step>)
  {
    forall i :: 0 <= i < |steps| ==> steps[i].Yield? && Resumable(steps[i].tag)
  }

  /** `Suspended` as many times as `n`: the body of a coroutine that calls `sched()` `n` times. */
  function Scheds(n: nat): (steps: seq<Step>)
    ensures |steps| == n && Pauses(steps)
  {
    if n == 0 then [] else [Yield(Suspended)] + Scheds(n - 1)
  }
}
