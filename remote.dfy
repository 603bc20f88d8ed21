/** A call of a stored function in the database, as the client hands it to the driver. */
module Remote {
  import opened Wrappers
  import opened Php

  /**
   * The function name and the positional arguments. `args` is None when the
   * caller passes no argument list at all (or passes null), so that the
   * driver's own default applies.
   */
  datatype Request = Request(func: string, args: Option<seq<Value>>)

  /** The database driver's `call`: the raw result, or the exception it throws. */
  type Caller = Request -> Result<Value, Error>
}
