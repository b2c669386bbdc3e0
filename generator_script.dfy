/**
 * The body of an asymmetric coroutine (a generator) as a script, shared by
 * both generator implementations: what the closure does between two
 * switches, the values handed to it, and the destructor-bearing locals
 * ("guards") it creates, so that unwinding can be observed.
 */
module GeneratorScript {
  import opened Types

  /** The message of the `unreachable!` in `yield_back`/`take_data` on an error in the slot. */
  const UNREACHABLE_PANIC: Payload := "Coroutine is panicking"

  /**
   * One action of the body: hand a value out and switch back (`yield_with`),
   * switch back without a value (`yield_back`/`yield_now`), take what the
   * resumer left (`take_data`), create a local with a destructor, or panic.
   * The end of the script is the closure returning.
   */
  datatype Step<T> = YieldWith(value: T) | YieldBack | TakeData | Guard | Panic(payload: Payload)

  /**
   * The body's progress: the steps still to run, everything it has been
   * handed so far, and how many of its guards are alive or already dropped.
   */
  datatype Body<T> = Body(steps: seq<Step<T>>, received: seq<Option<T>>, guardsLive: nat, guardsDropped: nat)

  /** Why the body gave control back. */
  datatype Stop = Yielded | Returned | Unwound(payload: Payload)

  /** Where a run of the body stopped, and what the shared result slot then holds. */
  datatype Exec<T> = Exec(stop: Stop, body: Body<T>, slot: Option<Result<T>>)

  /** The slot holds nothing, or a value: never an error. */
  predicate NoError<T>(slot: Option<Result<T>>)
  {
    slot.None? || slot.value.Ok?
  }

  /** A fresh body that has not started. */
  function Start<T>(steps: seq<Step<T>>): (b: Body<T>)
    ensures b.steps == steps && b.received == [] && b.guardsLive == 0 && b.guardsDropped == 0
  {
    Body(steps, [], 0, 0)
  }

  /**
   * Leaving the closure, by returning or by unwinding: every live guard is
   * dropped and nothing remains to run.
   */
  function Ended<T>(b: Body<T>): (e: Body<T>)
    ensures e.steps == [] && e.guardsLive == 0 && e.received == b.received
    ensures e.guardsDropped == b.guardsDropped + b.guardsLive
  {
    b.(steps := [], guardsLive := 0, guardsDropped := b.guardsDropped + b.guardsLive)
  }

  /**
   * Runs the body until it switches back or leaves the closure. `take_data`
   * empties the slot and hands the body its value; an error found there is
   * the `unreachable!` panic. Yielding a value stores it in the slot.
   */
  function Run<T>(b: Body<T>, slot: Option<Result<T>>): (e: Exec<T>)
    decreases |b.steps|
    ensures e.stop.Yielded? ==> |e.body.steps| < |b.steps| && e.body.guardsDropped == b.guardsDropped
    ensures !e.stop.Yielded? ==> e.body.steps == [] && e.body.guardsLive == 0
    ensures e.body.guardsLive + e.body.guardsDropped >= b.guardsLive + b.guardsDropped
    ensures NoError(slot) ==> NoError(e.slot)
  {
    if b.steps == [] then Exec(Returned, Ended(b), slot)
    else
      var rest := b.(steps := b.steps[1..]);
      match b.steps[0]
      case YieldWith(v) => Exec(Yielded, rest, Some(Ok(v)))
      case YieldBack => Exec(Yielded, rest, slot)
      case Guard => Run(rest.(guardsLive := b.guardsLive + 1), slot)
      case Panic(p) => Exec(Unwound(p), Ended(rest), slot)
      case TakeData =>
        match slot
        case None => Run(rest.(received := b.received + [None]), None)
        case Some(Ok(v)) => Run(rest.(received := b.received + [Some(v)]), None)
        case Some(Err(_)) => Exec(Unwound(UNREACHABLE_PANIC), Ended(rest), None)
  }

  /**
   * The body's pending `yield_back`/`yield_with` returns: it takes the slot
   * (its value, or nothing) and runs on.
   */
  function Continue<T>(b: Body<T>, slot: Option<Result<T>>): (e: Exec<T>)
    ensures !e.stop.Yielded? ==> e.body.steps == [] && e.body.guardsLive == 0
    ensures e.stop.Yielded? ==> |e.body.steps| < |b.steps|
    ensures NoError(slot) ==> NoError(e.slot)
  {
    match slot
    case None => Run(b.(received := b.received + [None]), None)
    case Some(Ok(v)) => Run(b.(received := b.received + [Some(v)]), None)
    case Some(Err(_)) => Exec(Unwound(UNREACHABLE_PANIC), Ended(b), None)
  }

  /**
   * The body only ever adds to what it has received: running it keeps
   * everything handed to it so far, in order.
   */
  lemma {:induction false} RunOnlyAppends<T>(b: Body<T>, slot: Option<Result<T>>)
    ensures b.received <= Run(b, slot).body.received
    decreases |b.steps|
  {
    if b.steps != [] {
      var rest := b.(steps := b.steps[1..]);
      match b.steps[0]
      case YieldWith(_) =>
      case YieldBack =>
      case Panic(_) =>
      case Guard => RunOnlyAppends(rest.(guardsLive := b.guardsLive + 1), slot);
      case TakeData =>
        match slot
        case None => RunOnlyAppends(rest.(received := b.received + [None]), None);
        case Some(Ok(v)) => RunOnlyAppends(rest.(received := b.received + [Some(v)]), None);
        case Some(Err(_)) =>
    }
  }

  /**
   * Returning from a pending yield hands the body what the slot held, an
   * error aside, before anything else it receives.
   */
  lemma ContinueDelivers<T>(b: Body<T>, slot: Option<Result<T>>)
    requires NoError(slot)
    ensures b.received + [if slot.None? then None else Some(slot.value.value)] <= Continue(b, slot).body.received
  {
    RunOnlyAppends(b.(received := b.received + [if slot.None? then None else Some(slot.value.value)]), None);
  }

  /** What `resume` makes of the slot once control is back. */
  function SlotResult<T>(slot: Option<Result<T>>): Result<Option<T>>
  {
    match slot
    case None => Ok(None)
    case Some(Ok(v)) => Ok(Some(v))
    case Some(Err(e)) => Err(e)
  }

  /**
   * `Iterator::next`: a value becomes an item, an error becomes an error item,
   * and nothing ends the iteration.
   */
  function NextItem<T>(r: Result<Option<T>>): (item: Option<Result<T>>)
    ensures item.None? <==> r == Ok(None)
    ensures r.Err? ==> item == Some(Err(r.error))
    ensures r.Ok? && r.value.Some? ==> item == Some(Ok(r.value.value))
  {
    match r
    case Ok(v) => (match v case Some(x) => Some(Ok(x)) case None => None)
    case Err(e) => Some(Err(e))
  }

  /**
   * The iterator hands out exactly what the body left in the slot: an item
   * for a value or an error, the end of iteration for an empty slot.
   */
  lemma IteratorReportsSlot<T>(slot: Option<Result<T>>)
    ensures NextItem(SlotResult(slot)) == slot
  {
    match slot
    case None =>
    case Some(Ok(v)) =>
    case Some(Err(e)) =>
  }

  /**
   * The slot the wrapper leaves once the body has stopped: a panic that got
   * out of the body is reported as `Err(Panicked)`, overwriting the
   * `Err(Panicking(payload))` stored just before.
   */
  function WrapperSlot<T>(e: Exec<T>): Option<Result<T>>
  {
    if e.stop.Unwound? then Some(Err(Error.Panicked)) else e.slot
  }

  /** The slot the wrapper's endless loop leaves at every switch after the body ended. */
  function LoopSlot<T>(panicked: bool): Option<Result<T>>
  {
    if panicked then Some(Err(Error.Panicked)) else None
  }

  /** A script that yields each of `vs` in turn and then returns. */
  function Yields<T>(vs: seq<T>): (s: seq<Step<T>>)
    ensures |s| == |vs| && forall i :: 0 <= i < |vs| ==> s[i] == YieldWith(vs[i])
  {
    if vs == [] then [] else [YieldWith(vs[0])] + Yields(vs[1..])
  }

  /** `n` plain yields. */
  function YieldBacks<T>(n: nat): (s: seq<Step<T>>)
    ensures |s| == n && forall i :: 0 <= i < n ==> s[i] == YieldBack
  {
    if n == 0 then [] else [YieldBack] + YieldBacks(n - 1)
  }

  /** `k` guards created in a row. */
  function Guards<T>(k: nat): (s: seq<Step<T>>)
    ensures |s| == k && forall i :: 0 <= i < k ==> s[i] == Guard
  {
    if k == 0 then [] else [Guard] + Guards(k - 1)
  }

  /**
   * A body that creates `k` guards and then yields runs straight to that
   * yield, holding `k` more live guards and leaving the slot alone.
   */
  lemma {:induction false} RunPastGuards<T>(b: Body<T>, k: nat, slot: Option<Result<T>>)
    requires k < |b.steps| && b.steps[k] == YieldBack
    requires forall i :: 0 <= i < k ==> b.steps[i] == Guard
    ensures Run(b, slot) == Exec(Yielded, b.(steps := b.steps[k + 1..], guardsLive := b.guardsLive + k), slot)
    decreases k
  {
    if k > 0 {
      var rest := b.(steps := b.steps[1..], guardsLive := b.guardsLive + 1);
      assert Run(b, slot) == Run(rest, slot);
      RunPastGuards(rest, k - 1, slot);
      assert rest.steps[k..] == b.steps[k + 1..];
    }
  }
}
