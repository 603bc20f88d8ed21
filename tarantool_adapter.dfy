/**
 * The adapter over the PECL `\Tarantool` driver. That driver returns a
 * tuple-of-tuples reply, `[[id, state, data], ...]`, or a scalar wrapped
 * once, `[[value]]`, or nothing, `[]`; the adapter reshapes it.
 */
module TarantoolAdapter {
  import opened Wrappers
  import opened Php
  import opened Remote
  import opened Queues

  /** `isset($result[0][1]) ? $result : ($result[0] ?? $result)`. */
  function Normalize(result: Value): (r: Value)
    ensures r == result || (IsSet(result, IntKey(0)) && r == Index(result, IntKey(0)))
    ensures IsSet(Index(result, IntKey(0)), IntKey(1)) ==> r == result
    ensures !IsSet(Index(result, IntKey(0)), IntKey(1)) && IsSet(result, IntKey(0)) ==> r == Index(result, IntKey(0))
  {
    if IsSet(Index(result, IntKey(0)), IntKey(1)) then result
    else Coalesce(result, IntKey(0), result)
  }

  /**
   * `call($funcName, ...$args)`: the variadic arguments go to the driver as
   * one list, in order, under the same name; a driver exception passes
   * through; a reply is normalised.
   */
  function Call(driver: Caller, funcName: string, args: seq<Value>): (r: Result<Value, Error>)
    ensures var reply := driver(Request(funcName, Some(args)));
      (r.Err? <==> reply.Err?)
      && (r.Err? ==> r.error == reply.error)
      && (r.Ok? ==> r.value == Normalize(reply.value))
  {
    match driver(Request(funcName, Some(args)))
    case Ok(result) => Ok(Normalize(result))
    case Err(e) => Err(e)
  }

  /** A reply of tuples whose first row has a non-null second field is kept as it is. */
  lemma TuplesKept(fields: seq<Value>, rows: seq<Value>)
    requires |fields| >= 2 && fields[1] != Null
    ensures Normalize(List([List(fields)] + rows)) == List([List(fields)] + rows)
  {
    ListIndex([List(fields)] + rows, IntKey(0));
    ListIndex(fields, IntKey(1));
  }

  /** A scalar reply `[[v]]` is unwrapped to `[v]`. */
  lemma ScalarUnwrapped(v: Value)
    ensures Normalize(List([List([v])])) == List([v])
  {
    ListIndex([List([v])], IntKey(0));
    ListIndex([v], IntKey(1));
  }

  /** An empty reply stays empty. */
  lemma EmptyKept()
    ensures Normalize(List([])) == List([])
  {
    ListIndex([], IntKey(0));
  }

  /**
   * `Queue` reads kick's count as `$result[0][0]` of the raw reply; after this
   * adapter has unwrapped a scalar reply `[[n]]` to `[n]`, that offset is null.
   */
  lemma KickAfterUnwrapIsNull(n: int)
    ensures DecodeKick(List([List([Int(n)])])) == Int(n)
    ensures DecodeKick(Normalize(List([List([Int(n)])]))) == Null
  {
    ScalarUnwrapped(Int(n));
    DecodeKickCount(Int(n), [], []);
    ListIndex([Int(n)], IntKey(0));
  }
}
