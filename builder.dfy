/**
 * The generator builder: spawn options collected by chained setters, each
 * of which takes the builder by value and returns it with one field
 * changed, then handed unchanged to the older generator's `spawn_opts`.
 */
module Builder {
  import opened Types
  import opened Options
  import StackStandard
  import Pool = StackPool
  import GeneratorScript
  import Asymmetric
  import Context

  /** The builder: nothing but the options it will spawn with. */
  datatype Builder = Builder(opts: Options)

  /** `Builder::new`: the default options, a 2 MiB stack and no name. */
  function New(): (b: Builder)
    ensures b.opts.stackSize == 2 * 1024 * 1024 && b.opts.name.None?
  {
    Builder(Default())
  }

  /** `Builder::name`: sets the name and leaves the stack size alone. */
  function Name(b: Builder, name: string): (r: Builder)
    ensures r.opts.name == Some(name) && r.opts.stackSize == b.opts.stackSize
  {
    b.(opts := b.opts.(name := Some(name)))
  }

  /** `Builder::stack_size`: sets the stack size and leaves the name alone. */
  function StackSize(b: Builder, size: nat): (r: Builder)
    ensures r.opts.stackSize == size && r.opts.name == b.opts.name
  {
    b.(opts := b.opts.(stackSize := size))
  }

  /**
   * The two setters touch different fields, so their order does not matter,
   * and a later call of the same setter overrides an earlier one.
   */
  lemma SettersCommute(b: Builder, name: string, size: nat)
    ensures Name(StackSize(b, size), name) == StackSize(Name(b, name), size)
    ensures Name(Name(b, "x"), name) == Name(b, name)
    ensures StackSize(StackSize(b, 0), size) == StackSize(b, size)
  {
  }

  /**
   * `Builder::spawn_asymmetric`: spawns a generator running `steps` with the
   * builder's options, so it carries the name and a stack of at least the
   * requested size.
   */
  method SpawnAsymmetric<T>(b: Builder, steps: seq<GeneratorScript.Step<T>>, pool: Pool.StackPool,
                            pageSize: nat, addr: nat, entry: nat, thunk: nat, bootstrap: nat,
                            mem: Context.StackMemory) returns (c: Asymmetric.CoroutineImpl<T>)
    requires pageSize > 0
    requires forall s :: s in pool.stacks ==> 16 <= StackStandard.End(s) <= USIZE_MAX
    requires 16 <= addr + StackStandard.RoundUp(b.opts.stackSize, pageSize) <= USIZE_MAX
    modifies pool, mem
    ensures fresh(c) && c.Valid() && c.Value() == Asymmetric.Spawned(steps)
    ensures c.name == b.opts.name
    ensures c.stack.Some? && c.stack.value.minSize >= b.opts.stackSize
  {
    c := Asymmetric.SpawnOpts(steps, b.opts, pool, pageSize, addr, entry, thunk, bootstrap, mem);
  }

  /**
   * `test_asymmetric_builder_basic` (there with `v` = 1): a named generator
   * whose body yields `v` gives `Ok(Some(v))` on its first `resume`.
   */
  method BuilderBasic<T>(v: T, pool: Pool.StackPool, pageSize: nat, addr: nat, entry: nat, thunk: nat,
                         bootstrap: nat, mem: Context.StackMemory) returns (r: Result<Option<T>>, name: Option<string>)
    requires pageSize > 0
    requires forall s :: s in pool.stacks ==> 16 <= StackStandard.End(s) <= USIZE_MAX
    requires 16 <= addr + StackStandard.RoundUp(Default().stackSize, pageSize) <= USIZE_MAX
    modifies pool, mem
    ensures r == Ok(Some(v)) && name == Some("Test builder")
  {
    var b := Name(New(), "Test builder");
    var c := SpawnAsymmetric(b, [GeneratorScript.YieldWith(v)], pool, pageSize, addr, entry, thunk, bootstrap, mem);
    r := c.Resume();
    name := c.name;
  }
}
