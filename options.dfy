/** Spawn options shared by every kind of coroutine. */
module Options {
  import opened Types

  /** Two mebibytes. */
  const DEFAULT_STACK_SIZE: nat := 2 * 1024 * 1024

  /** The size of the stack to ask the pool for, and the coroutine's name. */
  datatype Options = Options(stackSize: nat, name: Option<string>)

  /** `Options::default()`: a 2 MiB stack and no name. */
  function Default(): (o: Options)
    ensures o.stackSize == 2097152 && o.name.None?
  {
    Options(DEFAULT_STACK_SIZE, None)
  }
}
