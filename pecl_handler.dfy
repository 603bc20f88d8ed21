/** The callable handler over the PECL `\Tarantool` driver: it hands back row 0 of the reply, or null. */
module PeclHandler {
  import opened Wrappers
  import opened Php
  import opened Remote
  import opened Tasks
  import opened Queues

  /** `empty($result[0]) ? null : $result[0]`. */
  function Normalize(result: Value): (r: Value)
    ensures r == Null <==> EmptyAt(result, IntKey(0))
    ensures r != Null ==> r == Index(result, IntKey(0)) && !Falsy(r)
  {
    if EmptyAt(result, IntKey(0)) then Null else Index(result, IntKey(0))
  }

  /**
   * `__invoke($func, $args = null)`: the name and the arguments (or their
   * absence) go to the driver unchanged; a driver exception passes through.
   */
  function Invoke(driver: Caller, func: string, args: Option<seq<Value>>): (r: Result<Value, Error>)
    ensures var reply := driver(Request(func, args));
      (r.Err? <==> reply.Err?)
      && (r.Err? ==> r.error == reply.error)
      && (r.Ok? ==> r.value == Normalize(reply.value))
  {
    match driver(Request(func, args))
    case Ok(result) => Ok(Normalize(result))
    case Err(e) => Err(e)
  }

  /** Only row 0 matters: two replies with the same row 0 are handled alike. */
  lemma OnlyRow0Matters(a: Value, b: Value)
    requires Index(a, IntKey(0)) == Index(b, IntKey(0))
    ensures Normalize(a) == Normalize(b)
  {
    IsSetIffIndex(a, IntKey(0));
    IsSetIffIndex(b, IntKey(0));
  }

  /** In particular the rows after row 0 never affect the result. */
  lemma LaterRowsIgnored(row: Value, rest1: seq<Value>, rest2: seq<Value>)
    ensures Normalize(List([row] + rest1)) == Normalize(List([row] + rest2))
  {
    ListIndex([row] + rest1, IntKey(0));
    ListIndex([row] + rest2, IntKey(0));
    OnlyRow0Matters(List([row] + rest1), List([row] + rest2));
  }

  /** A reply with no rows, or whose row 0 is empty, gives null. */
  lemma NoRowGivesNull()
    ensures Normalize(List([])) == Null
    ensures Normalize(List([List([])])) == Null
  {
    ListIndex([], IntKey(0));
    ListIndex([List([])], IntKey(0));
  }

  /**
   * `Queue` decodes a task from `$result[0]` of the raw reply; the handler's
   * result is row 0 itself, whose offset 0 is the id, not a tuple.
   */
  lemma TaskAfterHandlerIsTypeError(t: Task)
    ensures DecodeTask(List([ToTuple(t)])) == Ok(t)
    ensures DecodeTask(Normalize(List([ToTuple(t)]))) == Err(TypeError)
  {
    DecodeTaskOfRows(t, []);
    ListIndex([ToTuple(t)], IntKey(0));
    ListIndex([Int(t.id), Str(t.state), t.data], IntKey(0));
  }
}
