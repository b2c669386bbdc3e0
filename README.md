# coroutine-rs in Dafny

This project models the bookkeeping core of coroutine-rs, a Rust library of
stackful coroutines. The register swap itself is assembly. Everything around
it is modelled, and a coroutine's body is a script of steps. "Switching into
a coroutine" means running its script up to its next yield.

The parts:

- **Symmetric coroutines, unique handles** (`CoroutineUnique`). A per-thread
  environment keeps an active stack of coroutines and a one-shot panic slot.
  - `resume` pushes the target and runs its body to the next `yield_now`, which pops it.
  - `join` resumes until the target stops being `Suspended`/`Blocked`.
  - Resuming a `Panicked` or `Normal` coroutine is a fatal panic. The caller is left `Normal`.
- **Symmetric coroutines, clonable handles** (`ClonableCoroutine`,
  `Environment`, `CoroutineClonable`). This is the same machine with typed
  refusals (`Err(Finished)`, `Err(Panicked)`, `Err(Waiting)`).
  - The yield tag travels through the environment's switch state.
  - The caller becomes `Running` again after a switch.
  - `join` resumes until `Err(Finished)`.
- **Symmetric bodies** (`SymmetricScript`). A body is a script of `yield_now(tag)` and panic steps. After the closure, it runs the endless loop of `coroutine_initialize`.
- **Scheduler** (`Scheduler`).
  - Coroutines are indices into a table held by a shared `Runtime`, together with the work deques, channels, the registry of schedulers and the "started" flag.
  - Each `Scheduler` has a bounded private FIFO queue, its neighbours and an I/O slab (token to handle).
  - One pass of the scheduling loop is split into a message step and a run step. Start guards, registry joins and readiness callbacks are modelled too.
- **Stacks** (`StackStandard`, `StackPool`). Rounding up to pages, stack bounds, and a first-fit cache with `swap_remove` and a configurable cap.
- **Contexts** (`Context`, `RawCoroutine`). 16-byte alignment, the stack bounds a context records, and the bounds a switch records. Also the x86 and x86_64 initial call frames, as writes into a register array and stack words, and raw stack ownership.
- **Asymmetric generators** in two versions: `CoroutineAsymmetric` (the newer one, with forced unwind on drop) and `Asymmetric` (the older one). Both run on `GeneratorScript`, a body of yields, `take_data`, guard creations and panics.
- **Builder and options** (`Options`, `Builder`).

Each operation is specified by a pure function on values (`ResumeSpec`,
`JoinSpec`, `SwitchIn`, `ReadyPush`, `Steal`, `Broadcast`, ...). The classes'
methods are proved to follow those functions, and the lemmas state what the
library promises: values delivered in order, panics reported once, pools
within their cap, stolen work conserved, and so on.

I/O, time and allocation are parameters:

- the page size;
- the address the allocator hands out;
- the `RUST_MAX_CACHED_STACKS` setting;
- the entry-point and thunk addresses;
- the stack memory, as a map of words.

## Model

| member | source | states |
|---|---|---|
| StackStandard.RoundUp | src/stack/stack_standard.rs:116-128 | on unbounded integers, the result is a positive multiple of `to`, at least `from` and below `from + to` when `from > 0`; `round_up(0, to) == to`; an exact multiple is kept |
| StackStandard.New | src/stack/stack_standard.rs:61-75 | `Stack::new(size)` has the allocator's buffer, `min_size == size`, and a length that is a whole number of pages, at least `size` and never 0 (on unbounded integers) |
| StackStandard.Dummy | src/stack/stack_standard.rs:77-85 | the dummy stack has null start and end and minimum size 0 |
| StackStandard.NewStackExtent | src/stack/stack_standard.rs:88-107 | for a new stack, `start` is the buffer, `end == start + len`, the span covers the requested size and is non-empty, and the guard boundary lies inside it |
| StackPool.Configured | src/stack/stack_pool.rs:63-70 | the cap is the parsed `RUST_MAX_CACHED_STACKS` value when it fits a `usize`; an absent or unparsable setting, or one too large for a `usize`, gives 10 |
| StackPool.CachedStackLimit.constructor | src/stack/stack_pool.rs:58 | the static cache starts at the sentinel 0 |
| StackPool.CachedStackLimit.MaxCachedStacks | src/stack/stack_pool.rs:57-71 | every call returns the configured cap; the first stores cap + 1 (wrapping, as a release build does; in a debug build a cap of `usize::MAX` panics on the addition) and later calls leave the cache alone |
| StackPool.LimitIsStable | src/stack/stack_pool.rs:57-71 | two calls of `max_cached_stacks` agree with each other and with the configured cap |
| StackPool.FirstFit | src/stack/stack_pool.rs:44 | the index found is the first whose `min_size` is at least the request; no index means no stack fits |
| StackPool.FirstFitIsFirst | src/stack/stack_pool.rs:44 | any fitting index with only misfits before it is the one found |
| StackPool.SwapRemove | src/stack/stack_pool.rs:45 | `swap_remove(i)` removes one element; the last takes slot `i`, every other position keeps its element, and the multiset loses exactly the removed one |
| StackPool.StackPool.constructor | src/stack/stack_pool.rs:36-40 | a new pool holds no stacks |
| StackPool.StackPool.TakeStack | src/stack/stack_pool.rs:42-48 | on a hit, returns the first fitting stack and removes it with `swap_remove`; on a miss, the pool is unchanged and a new stack of exactly the requested size is returned; the result is always large enough |
| StackPool.StackPool.GiveStack | src/stack/stack_pool.rs:50-54 | as written: the stack is kept iff the pool holds at most the cap, so the pool can reach cap + 1 |
| StackPool.StackPool.GiveStackBounded | src/stack/stack_pool.rs:50-54 | as intended: the stack is kept iff the pool holds fewer than the cap, so a pool within the cap stays within it |
| StackPool.PoolReusesLargerStack | src/stack/stack_pool.rs:77-88 | a 10-byte stack given back serves a request of 4; a request of 14 gets a new 14-byte stack |
| StackPool.PoolServesExactSize | src/stack/stack_pool.rs:90-98 | a request of exactly the cached size is served from the cache |
| StackPool.ZeroCapStillCaches | src/stack/stack_pool.rs:50-54 | with the cap at 0, `give_stack` as written still caches one stack |
| StackPool.ZeroCapCachesNothing | src/stack/stack_pool.rs:50-54 | with the corrected test and the cap at 0, nothing is cached |
| Options.Default | src/options.rs:3-21 | default options are a 2 MiB stack and no name |
| Builder.New | src/builder.rs:40-44 | a new builder carries the default options |
| Builder.Name | src/builder.rs:47-50 | `name` sets the name and leaves the stack size alone |
| Builder.StackSize | src/builder.rs:53-56 | `stack_size` sets the size and leaves the name alone |
| Builder.SettersCommute | src/builder.rs:47-56 | the two setters commute, and a later call of the same setter overrides an earlier one |
| Builder.SpawnAsymmetric | src/builder.rs:59-64 | the generator spawned carries the builder's name and a stack at least the builder's size; the same address-space requires as `Asymmetric.SpawnOpts` |
| Builder.BuilderBasic | src/builder.rs:71-77 | a named generator yielding 1 gives `Ok(Some(1))` on its first resume |
| Context.ZeroRegisters | src/context.rs:225-233 | a fresh x86_64 register file has ten general-purpose slots, all 0 |
| Context.Empty | src/context.rs:39-44 | an empty context has zeroed registers and no stack bounds |
| Context.AlignDown | src/context.rs:345-348 | the result is a multiple of 16, at most `sp`, and less than 16 below it |
| Context.MaskIsAlignDown | src/context.rs:346 | on a 64-bit word, masking with `!(16 - 1)` subtracts the remainder by 16 |
| Context.Bounds | src/context.rs:57-76 | a context records no bounds iff its stack starts where it ends; otherwise it records `(start, end)` |
| Context.RecordedBounds | src/context.rs:108-114 | a switch records the incoming bounds, or `(0, usize::MAX)` when there are none |
| Context.Swap | src/context.rs:89-117 | a switch saves the live registers into the outgoing context with its bounds untouched, loads the incoming registers, and records the incoming bounds |
| Context.SwapThereAndBack | src/context.rs:89-117 | switching there and back restores exactly the registers live at the first switch and records the first context's bounds |
| Context.BoundsOfStacks | src/context.rs:57-114 | a new stack's context records its start and end; the dummy stack and the empty context record none, which lifts the limit to the whole address space |
| Context.InitializeCallFrameX86_64 | src/context.rs:235-275 | the x86_64 frame: `sp` is aligned down and lowered one word, and a zero return address is stored there; R12/R13/R14/RSP/IP/RBP become arg/thunk/fptr/sp/bootstrap/0; every other slot is unchanged |
| Context.New | src/context.rs:55-81 | `Context::new` gives zeroed registers with exactly the six frame slots set, one stack word written, and the stack's bounds |
| Context.InitialFrameX86_64 | src/context.rs:55-81 | the new frame's stack pointer is 8 mod 16 and within 23 bytes of the stack end, strictly inside the bounds; only the six initialised slots may be non-zero; the return address is 0 |
| Context.X86Registers.constructor | src/context.rs:158-168 | the x86 register file starts all zero |
| Context.InitializeCallFrameX86 | src/context.rs:170-195 | the x86 frame: `sp` is aligned down and lowered 4 words; words +0/+1/+2 hold 0/arg/thunk; ESP/EIP/EBP become sp/fptr/0; the other registers are unchanged |
| Context.InitialFrameX86 | src/context.rs:170-195 | read back, the x86 frame is 16-byte aligned below `sp`, enters at `fptr`, and starts with the words 0, arg, thunk |
| RawCoroutine.Coroutine.Empty | src/coroutine/raw.rs:36-41 | an empty raw coroutine has an empty context and no stack |
| RawCoroutine.Coroutine.New | src/coroutine/raw.rs:45-50 | a raw coroutine holds exactly the given context and stack |
| RawCoroutine.Coroutine.YieldTo | src/coroutine/raw.rs:54-56 | `yield_to` writes only this coroutine's registers, loads the target's registers and records the target's bounds; the target is not changed |
| RawCoroutine.Coroutine.TakeStack | src/coroutine/raw.rs:60-62 | `take_stack` returns the held stack and leaves none |
| RawCoroutine.Coroutine.SetStack | src/coroutine/raw.rs:78-82 | `set_stack` installs the stack and returns the one it replaced |
| RawCoroutine.SwitchThereAndBack | src/coroutine/raw.rs:54-56 | a parent switching into a child and back gets its own registers back, and the parent's bounds are recorded |
| GeneratorScript.Start | src/coroutine/asymmetric.rs:212-218 | a body not yet started has its whole script, has received nothing and holds no guards |
| GeneratorScript.Ended | src/coroutine/asymmetric.rs:213-225 | leaving the closure drops every live guard and leaves nothing to run |
| GeneratorScript.Run | src/coroutine/asymmetric.rs:96-135 | running a body to its next switch consumes script, ends with no script and no live guards unless it yielded, never un-drops a guard, and never puts an error into an error-free slot |
| GeneratorScript.Continue | src/coroutine/asymmetric.rs:96-109 | returning from a pending yield makes progress, and leaves an error-free slot free of errors |
| GeneratorScript.RunOnlyAppends | src/coroutine/asymmetric.rs:124-135 | a body only ever adds to what it has received |
| GeneratorScript.ContinueDelivers | src/coroutine/asymmetric.rs:104-108 | a pending yield returns exactly what the slot held, before anything else the body receives |
| GeneratorScript.NextItem | src/coroutine/asymmetric.rs:373-378 | `next` ends iff the resume gave `Ok(None)`, maps an error to an error item and a value to a value item |
| GeneratorScript.IteratorReportsSlot | src/coroutine/asymmetric.rs:111-118 | `resume` followed by `next` hands out exactly what the body left in the slot |
| GeneratorScript.RunPastGuards | src/coroutine/asymmetric.rs:96-109 | a body creating `k` guards and then yielding stops at that yield with `k` more live guards and the slot untouched |
| CoroutineAsymmetric.Spawned | src/coroutine/asymmetric.rs:192-199 | a spawned generator is `Created`, settled, and has its whole script |
| CoroutineAsymmetric.SwitchIn | src/coroutine/asymmetric.rs:96-109 | a switch sets `Running` or `Finished`; a finished generator only reloads the loop's slot; a forced unwind finishes the body without a panic and drops every guard; with an error-free slot, the slot ends in an error iff the body has panicked, and that error is `Panicked` |
| CoroutineAsymmetric.ResumeSpec | src/coroutine/asymmetric.rs:111-118 | a resume is `Err` iff the body has panicked, and the error is then `Panicked`; a finished generator does not change; a normally finished one gives `Ok(None)` |
| CoroutineAsymmetric.Pushed | src/coroutine/asymmetric.rs:137-140 | `resume_with` fills the slot with a value, never an error |
| CoroutineAsymmetric.ForceUnwindSpec | src/coroutine/asymmetric.rs:99-102 | only a `Running` generator is re-entered; it finishes without counting as a panic, drops every live guard, and keeps what it received; any other generator is left alone |
| CoroutineAsymmetric.ResumeAtYieldWith | src/coroutine/asymmetric.rs:111-135 | a resume of a body about to `yield_with(v)` returns `Ok(Some(v))` and consumes that step |
| CoroutineAsymmetric.StartAtEnd | src/coroutine/asymmetric.rs:212-228 | a body with nothing to run finishes normally on its first resume with `Ok(None)` |
| CoroutineAsymmetric.ResumeAtEnd | src/coroutine/asymmetric.rs:96-109 | a body in its last yield receives the slot's content, returns, and the resume is `Ok(None)` with the state `Finished` |
| CoroutineAsymmetric.ResumeWithAtYieldBack | src/coroutine/asymmetric.rs:96-140 | a pushed value reaches a body waiting in `yield_back`; the resume is `Ok(None)` |
| CoroutineAsymmetric.FinishedAnswersForever | src/coroutine/asymmetric.rs:254-262 | a finished generator never changes and answers every resume with `Err(Panicked)` after a panic, `Ok(None)` otherwise |
| CoroutineAsymmetric.YieldsInOrder | src/coroutine/asymmetric.rs:132-135 | a body yielding `vs` hands them out one per resume, in order, then `Ok(None)` forever |
| CoroutineAsymmetric.GeneratorIteratesOverYields | src/coroutine/asymmetric.rs:373-409 | the iterator over a fresh generator yielding `vs` gives exactly `vs`, then ends |
| CoroutineAsymmetric.PushedValuesDelivered | src/coroutine/asymmetric.rs:96-140 | over the resume_withs, a body of plain yields receives exactly the pushed values, in order; every call is `Ok(None)` and the last finishes the body |
| CoroutineAsymmetric.TakeDataThenYieldBacks | src/coroutine/asymmetric.rs:420-433 | a body that takes the first value with `take_data` and the rest from its yields receives every pushed value, in order |
| CoroutineAsymmetric.PanicIsReportedForever | src/coroutine/asymmetric.rs:227-262 | a panicking body makes every resume `Err(Panicked)` |
| CoroutineAsymmetric.UnwindDropsGuardsOnce | src/coroutine/asymmetric.rs:142-147 | dropping a body suspended with `k` guards drops each exactly once, and unwinding again changes nothing |
| CoroutineAsymmetric.CoroutineImpl.constructor | src/coroutine/asymmetric.rs:192-199 | the boxed generator is `Created` with an empty slot, empty raw coroutines and the given name |
| CoroutineAsymmetric.CoroutineImpl.Resume | src/coroutine/asymmetric.rs:111-118 | the object moves as `ResumeSpec` says, with an empty slot after the call |
| CoroutineAsymmetric.CoroutineImpl.ResumeWith | src/coroutine/asymmetric.rs:137-140 | storing the value and resuming moves the object as `ResumeSpec` with the pushed slot says |
| CoroutineAsymmetric.CoroutineImpl.Next | src/coroutine/asymmetric.rs:373-378 | `next` resumes and returns the item of that result |
| CoroutineAsymmetric.CoroutineImpl.ForceUnwind | src/coroutine/asymmetric.rs:142-147 | the object moves as `ForceUnwindSpec` says |
| CoroutineAsymmetric.CoroutineImpl.Drop | src/coroutine/asymmetric.rs:154-163 | drop unwinds, takes the raw coroutine and gives its stack to the pool, kept only while the pool is below the cap (the corrected test) |
| CoroutineAsymmetric.SpawnOpts | src/coroutine/asymmetric.rs:187-274 | a spawned generator is `Created` with the given name and a pool stack of at least the requested size, taken first-fit; its raw coroutine's context is the `Context.New` frame on that stack (bounds and the zero return slot) |
| Asymmetric.Spawned | src/asymmetric.rs:139-145 | a spawned generator has not started and has its whole script |
| Asymmetric.SwitchIn | src/asymmetric.rs:69-76 | a switch leaves the generator started and settled; an ended one only reloads the loop's slot |
| Asymmetric.ResumeSpec | src/asymmetric.rs:78-85 | with an error-free slot, a resume is `Err` iff the body ended in a panic |
| Asymmetric.Lift | src/asymmetric.rs:158-195 | each older generator corresponds to a settled newer one with the same body |
| Asymmetric.ResumeAgreesWithNewer | src/asymmetric.rs:78-107 | resumed with nothing or a value, the older generator answers as the newer one and ends in the corresponding state |
| Asymmetric.ResumesAgreeWithNewer | src/asymmetric.rs:220-225 | any number of resumes give the newer generator's results |
| Asymmetric.YieldsInOrder | src/asymmetric.rs:99-102 | a body yielding `vs` hands them out in order, then `Ok(None)` forever |
| Asymmetric.GeneratorIteratesOverYields | src/asymmetric.rs:276-312 | the iterator over a fresh generator yielding `vs` gives exactly `vs`, then ends |
| Asymmetric.PanicIsReportedForever | src/asymmetric.rs:181-189 | a panicking body makes every resume `Err(Panicked)` |
| Asymmetric.CoroutineImpl.constructor | src/asymmetric.rs:139-145 | the boxed generator has empty contexts, no stack, the given name and an empty slot |
| Asymmetric.CoroutineImpl.Resume | src/asymmetric.rs:78-85 | the object moves as `ResumeSpec` says |
| Asymmetric.CoroutineImpl.ResumeWith | src/asymmetric.rs:104-107 | storing the value and resuming moves the object as `ResumeSpec` with that slot says |
| Asymmetric.CoroutineImpl.Next | src/asymmetric.rs:276-281 | `next` resumes and returns the item of that result |
| Asymmetric.CoroutineImpl.Drop | src/asymmetric.rs:110-118 | drop gives the stack, if any, to the pool, kept only while the pool is below the cap (the corrected test), and leaves the body as it is |
| Asymmetric.SpawnOpts | src/asymmetric.rs:132-203 | a spawned generator has the given name and a pool stack of at least the requested size, taken first-fit; its context is the `Context.New` frame on that stack (bounds and the zero return slot) |
| Asymmetric.DropLeavesGuards | src/asymmetric.rs:110-118 | dropping a body suspended with `k` guards drops none of them |
| SymmetricScript.Final | src/coroutine_unique.rs:281-307 | a body that has left its closure yields `Panicked` or `Finished` |
| SymmetricScript.Switch | src/coroutine_unique.rs:281-312 | a switch never yields `Running`; an exited body yields its final state again and leaves the slot alone; a live one makes progress; from an empty slot, a payload appears iff the live body just panicked |
| SymmetricScript.Scheds | src/coroutine_unique.rs:379-381 | `n` calls of `sched()` form a script of `n` pauses |
| CoroutineUnique.WaitingMessage | src/coroutine_unique.rs:162-163 | the panic message for resuming a waiting coroutine is non-empty |
| CoroutineUnique.ResumeSpec | src/coroutine_unique.rs:158-187 | `Finished`/`Running` return `Ok` and change nothing; `Panicked`/`Normal` are fatal; otherwise the caller is left `Normal`, the slot is taken, the target is not `Running`, and the result is `Err` iff the body just panicked |
| CoroutineUnique.JoinSpec | src/coroutine_unique.rs:202-210 | a join never panics; it is `Ok` only with the target no longer resumable; a target not resumable is returned at once with `Ok` |
| CoroutineUnique.YieldThenFinish | src/coroutine_unique.rs:547-609 | a coroutine that yields once comes back `Suspended`, then `Finished`; a third resume is `Ok` and changes nothing |
| CoroutineUnique.JoinRunsPausesToEnd | src/coroutine_unique.rs:202-210 | joining a coroutine whose body only pauses runs it to its end: `Ok`, `Finished`, empty slot |
| CoroutineUnique.JoinReportsPanic | src/coroutine_unique.rs:202-210 | joining a coroutine that panics returns its payload once and leaves it `Panicked` with the slot empty |
| CoroutineUnique.ChildPanicStaysWithChild | src/coroutine_unique.rs:183-186 | the child's payload is taken by the inner join, so the outer join is `Ok` |
| CoroutineUnique.Coroutine.Empty | src/coroutine_unique.rs:316-323 | an empty coroutine has the given name and state, no stack and an empty context |
| CoroutineUnique.Coroutine.New | src/coroutine_unique.rs:325-332 | a new coroutine has the given name, state, stack and context |
| CoroutineUnique.Coroutine.SetState | src/coroutine_unique.rs:220-222 | only the state changes |
| CoroutineUnique.Coroutine.Drop | src/coroutine_unique.rs:256-265 | the stack, if any, goes back to the environment's pool, kept only while the pool is below the cap (the corrected test) |
| CoroutineUnique.Environment.constructor | src/coroutine_unique.rs:431-450 | the root, `Running` and named, is alone on the active stack; the pool and the slot are empty |
| CoroutineUnique.Environment.Current | src/coroutine_unique.rs:394-397 | the current coroutine is on the active stack |
| CoroutineUnique.Environment.YieldNow | src/coroutine_unique.rs:356-375 | the tag `Running` is fatal; at the root nothing happens; otherwise the current coroutine is popped and takes the tag as its state |
| CoroutineUnique.Resume | src/coroutine_unique.rs:158-187 | the method moves target, caller and slot as `ResumeSpec` says and leaves the active stack as it was; a self-resume pushes the caller again, marked `Normal` |
| CoroutineUnique.Join | src/coroutine_unique.rs:202-210 | the loop of resumes ends as `JoinSpec` says, including a coroutine joining itself while `Running` (`Ok` at once, nothing changes); a self-join after `set_state` resumes itself once and is left `Normal` |
| CoroutineUnique.SpawnOpts | src/coroutine_unique.rs:335-345 | a `Suspended` coroutine with the given name, a pool stack of at least the requested size taken first-fit, and a context bounded by that stack |
| CoroutineUnique.DefaultOptions | src/coroutine_unique.rs:128-135 | default options are the minimum stack size and no name |
| CoroutineUnique.BuilderSpawn | src/coroutine_unique.rs:493-497 | the builder spawns with the options it collected |
| ClonableCoroutine.Coroutine.Empty | src/coroutine_clonable.rs:298-305 | an empty coroutine has the given name and state, no stack and an empty context |
| ClonableCoroutine.Coroutine.New | src/coroutine_clonable.rs:308-315 | a new coroutine has the given name, state, stack and context |
| ClonableCoroutine.Coroutine.Drop | src/coroutine_clonable.rs:236-246 | the stack, if any, goes back to the pool, kept only while the pool is below the cap (the corrected test) |
| Environment.Environment.constructor | src/environment.rs:45-65 | the root, named and without a stack, is alone on the active stack; empty pool and panic slot; switch state `Suspended` |
| Environment.Environment.Current | src/coroutine_clonable.rs:378-381 | the current coroutine is on the active stack |
| CoroutineClonable.ResumeSpec | src/coroutine_clonable.rs:123-160 | `Finished`/`Panicked`/`Normal` give exactly `Err(Finished)`/`Err(Panicked)`/`Err(Waiting)`, `Running` gives `Ok`, all without change; otherwise the target takes the switch state, the slot is emptied, and the result is `Err(Panicking)` iff the body just panicked |
| CoroutineClonable.JoinSpec | src/coroutine_clonable.rs:175-184 | `Ok` only with the target `Finished` (iff, from an empty slot); never `Err(Finished)`; a finished target gives `Ok` at once |
| CoroutineClonable.RefusalsMatchPredicates | src/coroutine_clonable.rs:127-129 | `panicking()`/`finished()` hold exactly when resume refuses with `Err(Panicked)`/`Err(Finished)` |
| CoroutineClonable.AgreesWithUniqueOnceEntered | src/coroutine_clonable.rs:135-159 | once entered, a clonable coroutine moves exactly as a unique one, with `Err(Panicking(p))` for the unique `Err(p)` |
| CoroutineClonable.JoinAfterPanicDiffers | src/coroutine_clonable.rs:175-184 | joining a `Panicked` coroutine is `Err(Panicked)`, where the unique join says `Ok` |
| CoroutineClonable.JoinRunsPausesToEnd | src/coroutine_clonable.rs:175-184 | joining a coroutine whose body only pauses ends `Ok` with it `Finished` |
| CoroutineClonable.JoinReportsPanic | src/coroutine_clonable.rs:175-184 | joining a coroutine that panics returns `Err(Panicking(p))` once, then `Err(Panicked)` |
| CoroutineClonable.YieldNow | src/coroutine_clonable.rs:339-359 | `Running` is fatal; at the root nothing happens; otherwise one entry is popped and the tag is left in the switch state |
| CoroutineClonable.Resume | src/coroutine_clonable.rs:123-160 | the method moves target, switch state and slot as `ResumeSpec` says and keeps the environment valid, with the caller `Running` again |
| CoroutineClonable.Join | src/coroutine_clonable.rs:175-184 | the loop of resumes ends as `JoinSpec` says |
| CoroutineClonable.SpawnOpts | src/coroutine_clonable.rs:318-328 | a `Suspended` coroutine with the given name, a pool stack of at least the requested size taken first-fit, and a context bounded by that stack |
| Scheduler.ReadyPush | src/scheduler.rs:141-147 | exactly one of private queue and deque grows by the handle; the private queue grows iff it holds fewer than 10; a queue of at most 10 stays so |
| Scheduler.BroadcastReachesEach | src/scheduler.rs:97-99 | each registered channel receives the message exactly once at its back; other channels are unchanged |
| Scheduler.Steal | src/scheduler.rs:270 | a steal takes the oldest handle of that deque, or nothing iff it is empty; other deques are unchanged |
| Scheduler.StealEach | src/scheduler.rs:294-302 | at most one handle per neighbour; deques of non-neighbours are unchanged |
| Scheduler.NothingStolenMeansAllEmpty | src/scheduler.rs:294-310 | if nothing was stolen, every neighbour's deque was empty and nothing changed |
| Scheduler.StealEachConserves | src/scheduler.rs:294-302 | stealing only moves handles: what was stolen plus what remains is what there was |
| Scheduler.Runtime.constructor | src/scheduler.rs:63 | before any scheduler exists nothing is registered or started |
| Scheduler.Runtime.Announce | src/scheduler.rs:176-183 | the message goes to every registered scheduler; nothing else changes |
| Scheduler.Runtime.Enlist | src/scheduler.rs:88-102 | a new deque and channel; `NewNeighbor` to every earlier scheduler; the registry grows by the new one at the end; the earlier registry is returned |
| Scheduler.Runtime.Start | src/scheduler.rs:152-155 | fewer than one thread fails the first assertion; an already started runtime panics; otherwise the flag is set |
| Scheduler.Runtime.Finish | src/scheduler.rs:194 | the flag is cleared and nothing else changes |
| Scheduler.StartTwice | src/scheduler.rs:152-194 | a second start panics, and after `Finish` a start succeeds again |
| Scheduler.Scheduler.constructor | src/scheduler.rs:104-116 | the scheduler owns its deque and channel, its neighbours are the given ones, and queue and slab are empty |
| Scheduler.Scheduler.Ready | src/scheduler.rs:141-147 | the handle goes where `ReadyPush` says; nothing else changes |
| Scheduler.Scheduler.Spawn | src/scheduler.rs:125-139 | a new `Suspended` coroutine is added and readied |
| Scheduler.Scheduler.ResumeCoroutine | src/scheduler.rs:197-235 | only a `Suspended`/`Blocked` coroutine is resumed; after it, `Suspended` is readied, any other state is left out of the queues, `Normal` crashes; other states change nothing |
| Scheduler.Scheduler.RunPrivateWork | src/scheduler.rs:257-267 | runs iff the queue was non-empty; unless a resume crashed, every coroutine queued at the start is in `served`, in queue order, and the queue ends empty; each served handle went through `ServeOne`, and every coroutine not in `served` is unchanged |
| Scheduler.Scheduler.ServeOne | src/scheduler.rs:264-266 | pops the front and applies to the coroutine table exactly what `resume_coroutine` does (`ResumeStep`: `CoroutineUnique.ResumeSpec` applied if it was `Suspended` or `Blocked`, else unchanged); crashed iff that resume left it `Normal`; keeps the rest of the queue at its front, and lowers the load unless it crashed |
| Scheduler.Scheduler.StealOwn | src/scheduler.rs:269-274 | takes the oldest handle of the own deque, if any |
| Scheduler.Scheduler.StealFromNeighbors | src/scheduler.rs:294-302 | the steals follow `StealEach` over the neighbours, in order |
| Scheduler.Scheduler.ResumeAll | src/scheduler.rs:303-306 | resuming no stolen work changes nothing |
| Scheduler.Scheduler.Receive | src/scheduler.rs:239-249 | takes at most one message; `Shutdown` stops; `NewNeighbor` appends exactly one neighbour |
| Scheduler.Scheduler.RunReady | src/scheduler.rs:257-310 | a non-empty private queue is all that runs; I/O pending or a steal happen only with both local queues empty; a sleep means every neighbour's deque was empty |
| Scheduler.Scheduler.ScheduleRound | src/scheduler.rs:238-311 | one pass: stop iff the first message is `Shutdown`; then the run step as above, with other deques untouched while local work runs |
| Scheduler.Scheduler.Readiness | src/scheduler.rs:357-391 | a registered token is removed and its handle readied once; an unknown token changes nothing |
| Scheduler.NewScheduler | src/scheduler.rs:88-117 | the new scheduler's neighbours are the earlier registry; each earlier scheduler is sent `NewNeighbor`; the registry grows by one |
| Scheduler.EnlistNotifiesEachOnce | src/scheduler.rs:95-102 | each earlier scheduler finds exactly one `NewNeighbor` at the back of its channel; the new channel is empty |

## Left out

- The register swap (`rust_swap_registers`, `rust_bootstrap_green_task`, the assembly): a switch is "run the target's script to its next yield", and `Context.Swap` only moves register values.
- The TLS stack-limit writes in src/sys.rs: only their arguments (`RecordedBounds`) are modelled.
- The guard-page stack (src/stack/stack_protected.rs), the allocator and `Drop for Stack`: a stack is a record of buffer address, length and minimum size.
- The Windows, ARM and MIPS register layouts in src/context.rs.
- The raw coroutine's `context`/`context_mut` accessors: they are plain field access, modelled as the field itself. `Context::init_with` is not part of this model; both generators' `SpawnOpts` stand for it with `Context.New`, the x86_64 frame that `Context::new` writes from the same arguments (entry function, argument, closure, stack).
- Bodies are scripts. A resume or join nested inside a body is not a step of a script; such nesting is stated separately, on values, by `CoroutineUnique.ChildPanicStaysWithChild`.
- CoroutineUnique.Resume: a self-resume (only possible after the public `set_state`) is followed only as far as its push. The model does not run the caller's own body further.
- CoroutineClonable.Join and CoroutineClonable.JoinSpec: they require the target not to be `Running`, because joining oneself resumes with `Ok` forever.
- The unique `Handle` wraps `Unique<Coroutine>` and has no destructor, so a unique coroutine is never dropped by its handle; `CoroutineUnique.Coroutine.Drop` models `Drop for Coroutine` on its own.
- `Coroutine::spawn`, `sched`, `block` and the crate-level wrappers `spawn`/`current`/`resume`/`sched`: they call the modelled operations with fixed arguments (`sched` is the step `Yield(Suspended)`).
- `Handle::state`, `Coroutine::name` and the `Mutex` around the clonable state: the state is the field itself, read and written without locking.
- `min_stack()` in `CoroutineUnique.DefaultOptions` is a parameter.
- SpawnOpts (all four modules), Builder.SpawnAsymmetric and Builder.BuilderBasic: they require the pool's stacks and the new stack's end to lie within the address space, which the allocator guarantees in the source.
- Panic and log messages to stderr, and `Debug` formatting: not modelled. `CoroutineUnique.WaitingMessage` only states that the message is non-empty.
- The asymmetric wrappers store `Err(Panicking(payload))` and overwrite it with `Err(Panicked)` before the first yield back, so no resumer ever sees the payload. The model reproduces this: `ResumeSpec` never returns `Panicking`.
- The closure type of `Builder::spawn_asymmetric`, which matches neither asymmetric module: only the option passing is modelled.
- Scheduler: threads and the spin-wait in `run`, the thread-local `Scheduler::current`, the real work-stealing deque (including `Stolen::Abort`), channel disconnection, mio's `run_once`, `deregister`, the slab's capacity, `wait_event`'s registration and the 100 ms sleep are not modelled. Deques and channels are sequences in a shared `Runtime`, the slab is a map, and `Slept` stands for the sleep.
- Scheduler.Scheduler.ResumeCoroutine: it applies `CoroutineUnique.ResumeSpec` to the coroutine's value with an empty slot. The scheduler thread's own root coroutine and the aliasing of handles are not tracked, and `Normal` after a resume is reported as `crashed` instead of `unreachable!()`.
- Scheduler.Scheduler.Spawn: the trailing `Coroutine::sched()` of `Scheduler::spawn` is a step of the caller's own script, not part of the method.
- Scheduler.Scheduler.ResumeAll: it states only the empty case; what each resume does is `ResumeCoroutine`'s contract.
- Scheduler.Scheduler.ServeOne: the private queue after a turn is stated only as extending what the pop left; whether the served coroutine was readied again onto it or onto the deque is `ResumeCoroutine`'s contract, not restated here.
- Scheduler.Scheduler.RunPrivateWork: after a crash (an `unreachable!()` in the source) nothing is promised about the queue. The coroutine table is stated one turn at a time by `ServeOne` and, for the whole run, only as "coroutines not served are unchanged", not as the fold of the turns. Its termination and the empty queue at the end rest on bodies being finite scripts (the loop decreases the total steps left). In the source, a body that never finishes but keeps coming back `Suspended` (a loop around `sched()`) is put back on the private queue on every turn, so the drain never ends on that thread: `Shutdown` and other messages are never received, the I/O poll never runs, and coroutines blocked on I/O are never readied there. `RunReady` and `ScheduleRound` likewise describe only passes that finish.
- StackStandard.RoundUp: integers are unbounded. The source computes `from + to - from % to` in `usize`, so for `from` within `to` of `usize::MAX` (and not a multiple of `to`) a debug build panics and a release build wraps to a small value; `round_up(usize::MAX, 4096)` is 4096. The model promises `from <= r` for all `from`.
- StackStandard.New: it inherits `RoundUp`'s unbounded arithmetic, so `min_size <= len` holds in the model even for sizes near `usize::MAX`, where the source's length wraps.
- CoroutineAsymmetric.CoroutineImpl.Drop: it returns the stack with the corrected cap test (`GiveStackBounded`, `<`); the source's destructor calls `give_stack`, which with `<=` keeps the stack when the pool already holds exactly the cap.
- Asymmetric.CoroutineImpl.Drop: it returns the stack with the corrected cap test (`GiveStackBounded`, `<`); the source calls `give_stack` (`<=`).
- CoroutineUnique.Coroutine.Drop: it returns the stack with the corrected cap test (`GiveStackBounded`, `<`); the source calls `give_stack` (`<=`).
- ClonableCoroutine.Coroutine.Drop: it returns the stack with the corrected cap test (`GiveStackBounded`, `<`); the source calls `give_stack` (`<=`).
- CoroutineUnique.Join: a self-join after `set_state` made the caller resumable is followed only through its one self-resume, as for `CoroutineUnique.Resume`, and its outcome is not stated.
- The newer generator's slot holds a raw pointer to `Some(data)`, a temporary that `yield_with` and `resume_with` create in the statement that stores the pointer; the model stores the value itself and does not capture whether the pointer is still valid when read.
- src/net, src/sync, src/coroutine.rs, lib.rs and the module files: socket wrappers, unfinished or non-compiling synchronisation code, a stale module, and re-exports.

## Findings

| source | as written | input that shows it | evidently intended | confidence | as-written member | corrected member |
|---|---|---|---|---|---|---|
| src/stack/stack_pool.rs:50-54 | `give_stack` keeps the stack when `self.stacks.len() <= max_cached_stacks()`, so a pool already holding the cap takes one more | `RUST_MAX_CACHED_STACKS=0` and an empty pool: the stack is cached, so one stack is kept where none should be | keep the stack only while `len < max_cached_stacks()`, so the pool never exceeds the cap | not executed | StackPool.ZeroCapStillCaches | StackPool.ZeroCapCachesNothing |
