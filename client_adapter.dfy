/**
 * The adapter over the pure-PHP `Tarantool\Client\Client` driver, whose
 * reply data is wrapped one level less than the queue code expects when it
 * is a single row.
 */
module ClientAdapter {
  import opened Wrappers
  import opened Php
  import opened Remote
  import Queues

  /** `isset($data[0][0]) ? $data : [$data]`. */
  function Normalize(data: Value): (r: Value)
    ensures r == data || r == List([data])
    ensures r == data <==> IsSet(Index(data, IntKey(0)), IntKey(0))
    ensures r.Arr? && Lookup(r.entries, IntKey(0)).Some?
    ensures data.Arr? ==> IsSet(r, IntKey(0))
  {
    ListIndex([data], IntKey(0));
    if IsSet(Index(data, IntKey(0)), IntKey(0)) then data else List([data])
  }

  /**
   * `call($funcName, $args = [])`: the name and the arguments go to the
   * driver unchanged; a driver exception passes through; the reply data is
   * normalised.
   */
  function Call(driver: Caller, funcName: string, args: seq<Value>): (r: Result<Value, Error>)
    ensures var reply := driver(Request(funcName, Some(args)));
      (r.Err? <==> reply.Err?)
      && (r.Err? ==> r.error == reply.error)
      && (r.Ok? ==> r.value == Normalize(reply.value))
  {
    match driver(Request(funcName, Some(args)))
    case Ok(data) => Ok(Normalize(data))
    case Err(e) => Err(e)
  }

  /** Data whose first row has a non-null first field is kept as it is. */
  lemma RowsKept(fields: seq<Value>, rows: seq<Value>)
    requires |fields| >= 1 && fields[0] != Null
    ensures Normalize(List([List(fields)] + rows)) == List([List(fields)] + rows)
  {
    ListIndex([List(fields)] + rows, IntKey(0));
    ListIndex(fields, IntKey(0));
  }

  /** A single scalar row `[v]` is wrapped into `[[v]]`. */
  lemma ScalarRowWrapped(n: int)
    ensures Normalize(List([Int(n)])) == List([List([Int(n)])])
  {
    ListIndex([Int(n)], IntKey(0));
  }

  /** Empty data becomes `[[]]`: row 0 exists and is empty. */
  lemma EmptyWrapped()
    ensures Normalize(List([])) == List([List([])])
  {
    ListIndex([], IntKey(0));
  }

  /** So an empty reply still reads as "no task" in take. */
  lemma EmptyReplyTakesNothing()
    ensures Queues.DecodeTake(Normalize(List([]))) == Ok(None)
  {
    EmptyWrapped();
    Queues.DecodeTakeNoTask();
  }

  /** `Queue` reads kick's count as `$result[0][0]`; after this adapter has wrapped a scalar row `[n]`, that offset is n. */
  lemma KickAfterWrap(n: int)
    ensures Queues.DecodeKick(Normalize(List([Int(n)]))) == Int(n)
  {
    ScalarRowWrapped(n);
    Queues.DecodeKickCount(Int(n), [], []);
  }
}
