/**
 * The queue handle: for each operation, the request it sends to the
 * database (function name and positional arguments) and how it reads the
 * reply. The driver that carries a request out is not part of this module;
 * a reply enters as the raw `result` value it returned.
 */
module Queues {
  import opened Wrappers
  import opened Php
  import opened Remote
  import opened Tasks

  const TubePrefix: string := "queue.tube."
  const StatisticsFunc: string := "queue.statistics"

  /** The position of the last ':' in `s`, if any. */
  function LastColon(s: string): (r: Option<nat>)
    ensures r.Some? ==> r.value < |s| && s[r.value] == ':' && ':' !in s[r.value + 1..]
    ensures r.None? ==> ':' !in s
  {
    if |s| == 0 then None
    else if s[|s| - 1] == ':' then Some(|s| - 1)
    else
      var r := LastColon(s[..|s| - 1]);
      assert r.Some? ==> s[r.value + 1..] == s[..|s| - 1][r.value + 1..] + [s[|s| - 1]];
      assert s == s[..|s| - 1] + [s[|s| - 1]];
      r
  }

  /**
   * The tube and the operation a per-tube function name addresses: what
   * follows "queue.tube.", split at the last ':'.
   */
  function ParseFuncName(name: string): Option<(string, string)>
  {
    if |name| < |TubePrefix| || name[..|TubePrefix|] != TubePrefix then None
    else
      match LastColon(name)
      case None => None
      case Some(j) => if j < |TubePrefix| then None else Some((name[|TubePrefix|..j], name[j + 1..]))
  }

  lemma {:induction false} LastColonOfSuffix(x: string, op: string)
    requires ':' !in op
    ensures LastColon(x + ":" + op) == Some(|x|)
  {
    var s := x + ":" + op;
    if |op| > 0 {
      assert s[..|s| - 1] == x + ":" + op[..|op| - 1];
      assert s[|s| - 1] == op[|op| - 1];
      LastColonOfSuffix(x, op[..|op| - 1]);
    }
  }

  /** A per-tube function name gives back its tube and operation, as long as the operation has no ':'. */
  lemma FuncNameRoundTrip(tube: string, op: string)
    requires ':' !in op
    ensures ParseFuncName(TubePrefix + tube + ":" + op) == Some((tube, op))
  {
    var name := TubePrefix + tube + ":" + op;
    LastColonOfSuffix(TubePrefix + tube, op);
    assert name[..|TubePrefix|] == TubePrefix;
    assert name[|TubePrefix|..|TubePrefix + tube|] == tube;
    assert name[|TubePrefix + tube| + 1..] == op;
  }

  /** Conversely, every name that parses is the per-tube name of what it parses to. */
  lemma ParseFuncNameInverse(name: string)
    requires ParseFuncName(name).Some?
    ensures var (tube, op) := ParseFuncName(name).value;
      name == TubePrefix + tube + ":" + op && ':' !in op
  {
    var j := LastColon(name).value;
    assert name == name[..|TubePrefix|] + name[|TubePrefix|..j] + [name[j]] + name[j + 1..];
  }

  /**
   * A handle on one tube. The PHP object also holds the driver; here a
   * request is handed to whichever driver the embedding code uses.
   */
  datatype Queue = Queue(tubeName: string) {

    /** The prefix the constructor stores: "queue.tube.<tube>:". */
    function Prefix(): (p: string)
      ensures |p| == |TubePrefix| + |tubeName| + 1
      ensures ParseFuncName(p) == Some((tubeName, ""))
    {
      var p := TubePrefix + tubeName + ":";
      FuncNameRoundTrip(tubeName, "");
      assert p + "" == p;
      p
    }

    /** put: `[data]`, or `[data, options]` when options is a non-empty array. */
    function PutRequest(data: Value, options: Value): (req: Request)
      requires options.Null? || options.Arr?
      ensures req.func == "queue.tube." + tubeName + ":put"
      ensures req.args.Some? && 1 <= |req.args.value| <= 2 && req.args.value[0] == data
      ensures |req.args.value| == 2 <==> options != Null && options != Arr([])
      ensures |req.args.value| == 2 ==> req.args.value[1] == options
    {
      Request(Prefix() + "put", Some(if Falsy(options) then [data] else [data, options]))
    }

    /** take: no argument when the timeout is null; any other timeout, 0 included, is sent. */
    function TakeRequest(timeout: Value): (req: Request)
      ensures req.func == "queue.tube." + tubeName + ":take"
      ensures req.args.Some? && |req.args.value| <= 1
      ensures req.args.value == [] <==> timeout == Null
      ensures req.args.value != [] ==> req.args.value[0] == timeout
    {
      Request(Prefix() + "take", Some(if timeout == Null then [] else [timeout]))
    }

    function AckRequest(taskId: Value): (req: Request)
      ensures req.func == "queue.tube." + tubeName + ":ack" && req.args == Some([taskId])
    {
      Request(Prefix() + "ack", Some([taskId]))
    }

    /** release: `[taskId]`, or `[taskId, options]` when options is a non-empty array. */
    function ReleaseRequest(taskId: Value, options: Value): (req: Request)
      requires options.Null? || options.Arr?
      ensures req.func == "queue.tube." + tubeName + ":release"
      ensures req.args.Some? && 1 <= |req.args.value| <= 2 && req.args.value[0] == taskId
      ensures |req.args.value| == 2 <==> options != Null && options != Arr([])
      ensures |req.args.value| == 2 ==> req.args.value[1] == options
    {
      Request(Prefix() + "release", Some(if Falsy(options) then [taskId] else [taskId, options]))
    }

    function PeekRequest(taskId: Value): (req: Request)
      ensures req.func == "queue.tube." + tubeName + ":peek" && req.args == Some([taskId])
    {
      Request(Prefix() + "peek", Some([taskId]))
    }

    function BuryRequest(taskId: Value): (req: Request)
      ensures req.func == "queue.tube." + tubeName + ":bury" && req.args == Some([taskId])
    {
      Request(Prefix() + "bury", Some([taskId]))
    }

    function KickRequest(count: Value): (req: Request)
      ensures req.func == "queue.tube." + tubeName + ":kick" && req.args == Some([count])
    {
      Request(Prefix() + "kick", Some([count]))
    }

    function DeleteRequest(taskId: Value): (req: Request)
      ensures req.func == "queue.tube." + tubeName + ":delete" && req.args == Some([taskId])
    {
      Request(Prefix() + "delete", Some([taskId]))
    }

    /** truncate passes no argument list at all; its reply is discarded. */
    function TruncateRequest(): (req: Request)
      ensures req.func == "queue.tube." + tubeName + ":truncate" && req.args.None?
    {
      Request(Prefix() + "truncate", None)
    }

    /** statistics calls the one function that is not per tube, with the tube name as its argument. */
    function StatisticsRequest(): (req: Request)
      ensures req.func == "queue.statistics" && req.args == Some([Str(tubeName)])
      ensures ParseFuncName(req.func).None?
    {
      Request(StatisticsFunc, Some([Str(tubeName)]))
    }
  }

  /** put and release, the two requests with options, name the handle's tube and their operation. */
  lemma PutReleaseNames(q: Queue, data: Value, options: Value, id: Value)
    requires options.Null? || options.Arr?
    ensures ParseFuncName(q.PutRequest(data, options).func) == Some((q.tubeName, "put"))
    ensures ParseFuncName(q.ReleaseRequest(id, options).func) == Some((q.tubeName, "release"))
  {
    FuncNameRoundTrip(q.tubeName, "put");
    FuncNameRoundTrip(q.tubeName, "release");
  }

  /** take names the handle's tube and `take`, with or without a timeout. */
  lemma TakeName(q: Queue, timeout: Value)
    ensures ParseFuncName(q.TakeRequest(timeout).func) == Some((q.tubeName, "take"))
  {
    FuncNameRoundTrip(q.tubeName, "take");
  }

  /** ack, peek, bury and delete, the requests about one task, name the handle's tube and their operation. */
  lemma TaskOpNames(q: Queue, id: Value)
    ensures ParseFuncName(q.AckRequest(id).func) == Some((q.tubeName, "ack"))
    ensures ParseFuncName(q.PeekRequest(id).func) == Some((q.tubeName, "peek"))
    ensures ParseFuncName(q.BuryRequest(id).func) == Some((q.tubeName, "bury"))
    ensures ParseFuncName(q.DeleteRequest(id).func) == Some((q.tubeName, "delete"))
  {
    FuncNameRoundTrip(q.tubeName, "ack");
    FuncNameRoundTrip(q.tubeName, "peek");
    FuncNameRoundTrip(q.tubeName, "bury");
    FuncNameRoundTrip(q.tubeName, "delete");
  }

  /** kick and truncate, the requests about the whole tube, name the handle's tube and their operation. */
  lemma TubeOpNames(q: Queue, count: Value)
    ensures ParseFuncName(q.KickRequest(count).func) == Some((q.tubeName, "kick"))
    ensures ParseFuncName(q.TruncateRequest().func) == Some((q.tubeName, "truncate"))
  {
    FuncNameRoundTrip(q.tubeName, "kick");
    FuncNameRoundTrip(q.tubeName, "truncate");
  }

  // ---------------------------------------------------------------------------
  // Reading the reply.

  /** `$result[0]`, the first row. */
  function Row0(result: Value): Value
  {
    Index(result, IntKey(0))
  }

  /** put, ack, release, peek, bury and delete: the task that row 0 describes. */
  function DecodeTask(result: Value): (r: Result<Task, Error>)
    ensures r.Ok? <==> IsTaskTuple(Row0(result))
    ensures r.Ok? ==> Describes(r.value, Row0(result))
    ensures r.Err? ==> r.error == TypeError
  {
    FromTuple(Row0(result))
  }

  /** take: null when row 0 is absent or empty, otherwise the task it describes. */
  function DecodeTake(result: Value): (r: Result<Option<Task>, Error>)
    ensures r == Ok(None) <==> EmptyAt(result, IntKey(0))
    ensures !EmptyAt(result, IntKey(0)) ==> (r.Ok? <==> IsTaskTuple(Row0(result)))
    ensures r.Ok? && r.value.Some? ==> Describes(r.value.value, Row0(result))
    ensures r.Err? ==> r.error == TypeError
  {
    if EmptyAt(result, IntKey(0)) then Ok(None)
    else
      match FromTuple(Row0(result))
      case Ok(t) => Ok(Some(t))
      case Err(e) => Err(e)
  }

  /** kick: `$result[0][0]`, the number of tasks kicked. */
  function DecodeKick(result: Value): (r: Value)
    ensures r != Null <==> IsSet(Row0(result), IntKey(0))
    ensures r != Null ==> IsSet(result, IntKey(0)) && (IntKey(0), r) in Row0(result).entries
  {
    Index(Row0(result), IntKey(0))
  }

  /** A reply whose row 0 is a task's tuple decodes to that task, whatever rows follow. */
  lemma DecodeTaskOfRows(t: Task, rest: seq<Value>)
    ensures DecodeTask(List([ToTuple(t)] + rest)) == Ok(t)
  {
    ListIndex([ToTuple(t)] + rest, IntKey(0));
    FromTupleToTuple(t);
  }

  /** take yields null both for a reply with no rows and for one whose row 0 is empty. */
  lemma DecodeTakeNoTask()
    ensures DecodeTake(List([])) == Ok(None)
    ensures DecodeTake(List([List([])])) == Ok(None)
  {
    ListIndex([], IntKey(0));
    ListIndex([List([])], IntKey(0));
  }

  /** take yields the task of row 0 when there is one. */
  lemma DecodeTakeOfRows(t: Task, rest: seq<Value>)
    ensures DecodeTake(List([ToTuple(t)] + rest)) == Ok(Some(t))
  {
    var result := List([ToTuple(t)] + rest);
    ListIndex([ToTuple(t)] + rest, IntKey(0));
    FromTupleToTuple(t);
    assert Row0(result) == ToTuple(t) && !Falsy(ToTuple(t));
  }

  /** kick returns the first field of row 0 as it is. */
  lemma DecodeKickCount(v: Value, fields: seq<Value>, rows: seq<Value>)
    ensures DecodeKick(List([List([v] + fields)] + rows)) == v
  {
    ListIndex([List([v] + fields)] + rows, IntKey(0));
    ListIndex([v] + fields, IntKey(0));
  }

  // ---------------------------------------------------------------------------
  // statistics($path)

  /** The message of the InvalidArgumentException, quoting the whole path. */
  function InvalidPathMessage(path: string): string
  {
    "Invalid path \"" + path + "\"."
  }

  /**
   * Descend from `v` through `keys`, one offset at a time. The first offset
   * that is not set (absent, or null) stops the walk with the
   * invalid-path error for the whole `path`.
   */
  function Walk(v: Value, keys: seq<string>, path: string): (r: Result<Value, Error>)
    ensures r.Err? ==> r.error == InvalidArgument(InvalidPathMessage(path))
    ensures r.Ok? && |keys| > 0 ==> r.value != Null
  {
    if |keys| == 0 then Ok(v)
    else
      var k := ArrayKey(keys[0]);
      if IsSet(v, k) then Walk(Index(v, k), keys[1..], path)
      else Err(InvalidArgument(InvalidPathMessage(path)))
  }

  /** The statistics array `$result[0][0]`. */
  function Stats(result: Value): Value
  {
    Index(Row0(result), IntKey(0))
  }

  /** What statistics($path) returns or raises for the reply `result`. */
  function DecodeStatistics(result: Value, path: Option<string>): (r: Result<Value, Error>)
    ensures path.None? ==> r == Ok(Stats(result))
    ensures r.Err? ==> path.Some? && r.error == InvalidArgument(InvalidPathMessage(path.value))
    ensures r.Ok? && path.Some? ==> r.value != Null
  {
    if path.None? then Ok(Stats(result))
    else Walk(Stats(result), Explode(path.value), path.value)
  }

  /** statistics($path): the loop over the path's segments, proved to compute `DecodeStatistics`. */
  method Statistics(result: Value, path: Option<string>) returns (r: Result<Value, Error>)
    ensures r == DecodeStatistics(result, path)
    ensures path.None? ==> r == Ok(Index(Index(result, IntKey(0)), IntKey(0)))
    ensures r.Err? ==> path.Some? && r.error == InvalidArgument("Invalid path \"" + path.value + "\".")
  {
    var stats := Index(Index(result, IntKey(0)), IntKey(0));
    if path.None? {
      return Ok(stats);
    }
    var p := path.value;
    var keys := Explode(p);
    var cur := stats;
    var i := 0;
    while i < |keys|
      invariant 0 <= i <= |keys|
      invariant Walk(stats, keys, p) == Walk(cur, keys[i..], p)
    {
      var k := ArrayKey(keys[i]);
      if !IsSet(cur, k) {
        return Err(InvalidArgument(InvalidPathMessage(p)));
      }
      assert keys[i..][1..] == keys[i + 1..];
      cur := Index(cur, k);
      i := i + 1;
    }
    return Ok(cur);
  }

  /** Walking `a + b` is walking `a`, then walking `b` from where `a` ended. */
  lemma {:induction false} WalkAppend(v: Value, a: seq<string>, b: seq<string>, path: string)
    ensures Walk(v, a + b, path) == match Walk(v, a, path)
      case Ok(w) => Walk(w, b, path)
      case Err(e) => Err(e)
  {
    if |a| == 0 {
      assert a + b == b;
    } else {
      assert (a + b)[0] == a[0] && (a + b)[1..] == a[1..] + b;
      var k := ArrayKey(a[0]);
      if IsSet(v, k) {
        WalkAppend(Index(v, k), a[1..], b, path);
      }
    }
  }

  /** A path made of dot-free segments is walked segment by segment, in order. */
  lemma StatisticsBySegments(result: Value, segments: seq<string>)
    requires |segments| >= 1
    requires forall i | 0 <= i < |segments| :: '.' !in segments[i]
    ensures var path := Implode(segments);
      DecodeStatistics(result, Some(path)) == Walk(Stats(result), segments, path)
  {
    ExplodeImplode(segments);
  }

  /** "a.b" reads offset b of offset a of the statistics array, or fails if either is not set. */
  lemma StatisticsTwoSegments(result: Value, a: string, b: string)
    requires '.' !in a && '.' !in b
    ensures var s, ka, kb := Stats(result), ArrayKey(a), ArrayKey(b);
      DecodeStatistics(result, Some(a + "." + b)) ==
        if IsSet(s, ka) && IsSet(Index(s, ka), kb) then Ok(Index(Index(s, ka), kb))
        else Err(InvalidArgument(InvalidPathMessage(a + "." + b)))
  {
    var path := a + "." + b;
    ExplodeConcat(a, b);
    ExplodeNoDot(b);
    assert Explode(path) == [a, b];
    var s, ka := Stats(result), ArrayKey(a);
    if IsSet(s, ka) {
      assert [a, b][1..] == [b] && [b][1..] == [];
      assert Walk(s, [a, b], path) == Walk(Index(s, ka), [b], path);
    }
  }

  /** The empty path names the key "", which a statistics array without that key rejects. */
  lemma StatisticsEmptyPath(result: Value)
    requires !IsSet(Stats(result), StrKey(""))
    ensures DecodeStatistics(result, Some("")) == Err(InvalidArgument("Invalid path \"\"."))
  {
    assert ArrayKey("") == StrKey("");
    assert InvalidPathMessage("") == "Invalid path \"\".";
  }

  /** ... and a statistics array that has the key "" answers the empty path with that entry. */
  lemma StatisticsEmptyKey(result: Value)
    requires IsSet(Stats(result), StrKey(""))
    ensures DecodeStatistics(result, Some("")) == Ok(Index(Stats(result), StrKey("")))
  {
    assert ArrayKey("") == StrKey("");
    var stats := Stats(result);
    assert Explode("") == [""];
    assert Walk(stats, [""], "") == Walk(Index(stats, StrKey("")), [], "");
  }

  /** A leading dot starts with the empty segment, and so fails at once. */
  lemma StatisticsLeadingDot(result: Value, rest: string)
    requires !IsSet(Stats(result), StrKey(""))
    ensures DecodeStatistics(result, Some("." + rest)) == Err(InvalidArgument(InvalidPathMessage("." + rest)))
  {
    ExplodeConcat("", rest);
    assert "" + "." + rest == "." + rest;
  }

  /** A trailing dot ends with the empty segment, which fails unless the value reached has a key "". */
  lemma StatisticsTrailingDot(result: Value, seg: string)
    requires '.' !in seg
    requires !IsSet(Index(Stats(result), ArrayKey(seg)), StrKey(""))
    ensures DecodeStatistics(result, Some(seg + ".")) == Err(InvalidArgument(InvalidPathMessage(seg + ".")))
  {
    var path := seg + ".";
    ExplodeConcat(seg, "");
    assert seg + "." + "" == path;
    assert Explode(path) == [seg, ""];
    var s, k := Stats(result), ArrayKey(seg);
    assert ArrayKey("") == StrKey("");
    if IsSet(s, k) {
      assert [seg, ""][1..] == [""] && [""][1..] == [];
      assert Walk(s, [seg, ""], path) == Walk(Index(s, k), [""], path);
    }
  }

  /** A stored null counts as missing: the walk fails on it rather than returning null. */
  lemma StatisticsNullIsMissing(result: Value, seg: string)
    requires '.' !in seg
    requires Index(Stats(result), ArrayKey(seg)) == Null
    ensures DecodeStatistics(result, Some(seg)) == Err(InvalidArgument(InvalidPathMessage(seg)))
  {
    ExplodeNoDot(seg);
  }

  /** A segment whose first character is neither a digit nor '-' stays a string key. */
  lemma NamedKey(k: string)
    requires |k| > 0 && !IsDigit(k[0]) && k[0] != '-'
    ensures ArrayKey(k) == StrKey(k)
  {
    assert !AllDigits(k);
  }

  /** A two-segment path over a reply holding `{a: {b: v}}` returns v, when both segments are string keys. */
  lemma StatisticsNested(a: string, b: string, v: Value)
    requires '.' !in a && '.' !in b
    requires ArrayKey(a) == StrKey(a) && ArrayKey(b) == StrKey(b)
    requires v != Null
    ensures DecodeStatistics(List([List([Arr([(StrKey(a), Arr([(StrKey(b), v)]))])])]), Some(a + "." + b)) == Ok(v)
  {
    var inner := Arr([(StrKey(b), v)]);
    var stats := Arr([(StrKey(a), inner)]);
    var result := List([List([stats])]);
    ListIndex([List([stats])], IntKey(0));
    ListIndex([stats], IntKey(0));
    assert Stats(result) == stats;
    assert Index(stats, StrKey(a)) == inner;
    assert Index(inner, StrKey(b)) == v;
    StatisticsTwoSegments(result, a, b);
  }

  /** `stats('tasks.total')` on a reply holding the statistics array reads the counter. */
  lemma StatisticsTasksTotal(total: int)
    ensures var tasks := Arr([(StrKey("total"), Int(total))]);
      var stats := Arr([(StrKey("tasks"), tasks)]);
      DecodeStatistics(List([List([stats])]), Some("tasks.total")) == Ok(Int(total))
  {
    NamedKey("tasks");
    NamedKey("total");
    assert "tasks" + "." + "total" == "tasks.total";
    StatisticsNested("tasks", "total", Int(total));
  }
}
