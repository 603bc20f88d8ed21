/** A queue task as the client sees it: an immutable snapshot built from a tuple. */
module Tasks {
  import opened Wrappers
  import opened Php

  // The one-character state codes the queue server uses.
  const Ready: string := "r"
  const Taken: string := "t"
  const Done: string := "-"
  const Buried: string := "!"
  const Delayed: string := "~"

  /** The five codes, in the order of the predicates in `Task.Predicates`. */
  const StateCodes: seq<string> := [Ready, Taken, Done, Buried, Delayed]

  /**
   * A snapshot of one queue entry. The fields are the getters (`getId`,
   * `getState`, `getData`); as a datatype value it cannot be changed once made.
   */
  datatype Task = Task(id: int, state: string, data: Value) {
    predicate IsReady()
      ensures IsReady() ==> state !in {Taken, Done, Buried, Delayed}
    {
      state == Ready
    }
    predicate IsTaken()
      ensures IsTaken() ==> state !in {Ready, Done, Buried, Delayed}
    {
      state == Taken
    }
    predicate IsDone()
      ensures IsDone() ==> state !in {Ready, Taken, Buried, Delayed}
    {
      state == Done
    }
    predicate IsBuried()
      ensures IsBuried() ==> state !in {Ready, Taken, Done, Delayed}
    {
      state == Buried
    }
    predicate IsDelayed()
      ensures IsDelayed() ==> state !in {Ready, Taken, Done, Buried}
    {
      state == Delayed
    }

    /** The five state predicates, in the order of `StateCodes`. */
    function Predicates(): seq<bool>
    {
      [IsReady(), IsTaken(), IsDone(), IsBuried(), IsDelayed()]
    }
  }

  /** What the constructor's declared types accept: an array whose offset 0 holds an int and offset 1 a string. */
  predicate IsTaskTuple(tuple: Value)
  {
    tuple.Arr? && Index(tuple, IntKey(0)).Int? && Index(tuple, IntKey(1)).Str?
  }

  /** `t` carries offsets 0, 1 and 2 of `tuple` unchanged (offset 2 reads as null when absent). */
  predicate Describes(t: Task, tuple: Value)
  {
    Index(tuple, IntKey(0)) == Int(t.id)
    && Index(tuple, IntKey(1)) == Str(t.state)
    && Index(tuple, IntKey(2)) == t.data
  }

  /**
   * `Task::createFromTuple`: destructure `tuple + [2 => null]` into id, state
   * and data. A tuple that is not an array, or whose id or state does not
   * have the declared type (including a missing one, read as null), raises a
   * TypeError.
   */
  function FromTuple(tuple: Value): (r: Result<Task, Error>)
    ensures r.Ok? <==> IsTaskTuple(tuple)
    ensures r.Ok? ==> Describes(r.value, tuple)
    ensures r.Err? ==> r.error == TypeError
  {
    if !tuple.Arr? then Err(TypeError)
    else
      var pad := [(IntKey(2), Null)];
      var padded := Arr(Union(tuple.entries, pad));
      UnionLookup(tuple.entries, pad, IntKey(0));
      UnionLookup(tuple.entries, pad, IntKey(1));
      UnionLookup(tuple.entries, pad, IntKey(2));
      var id, state, data := Index(padded, IntKey(0)), Index(padded, IntKey(1)), Index(padded, IntKey(2));
      if id.Int? && state.Str? then Ok(Task(id.i, state.s, data)) else Err(TypeError)
  }

  /** The tuple `[id, state, data]` the server sends for a task. */
  function ToTuple(t: Task): Value
  {
    List([Int(t.id), Str(t.state), t.data])
  }

  /** Reading a task back from its tuple gives the same id, state and data, untransformed. */
  lemma FromTupleToTuple(t: Task)
    ensures FromTuple(ToTuple(t)) == Ok(t)
  {
    var vs := [Int(t.id), Str(t.state), t.data];
    ListIndex(vs, IntKey(0));
    ListIndex(vs, IntKey(1));
    ListIndex(vs, IntKey(2));
  }

  /** A two-element tuple yields a task whose data is null. */
  lemma FromTuplePair(id: int, state: string)
    ensures FromTuple(List([Int(id), Str(state)])) == Ok(Task(id, state, Null))
  {
    var vs := [Int(id), Str(state)];
    ListIndex(vs, IntKey(0));
    ListIndex(vs, IntKey(1));
    ListIndex(vs, IntKey(2));
  }

  /** Elements after offset 2 are ignored. */
  lemma FromTupleIgnoresRest(t: Task, rest: seq<Value>)
    ensures FromTuple(List([Int(t.id), Str(t.state), t.data] + rest)) == Ok(t)
  {
    var vs := [Int(t.id), Str(t.state), t.data] + rest;
    ListIndex(vs, IntKey(0));
    ListIndex(vs, IntKey(1));
    ListIndex(vs, IntKey(2));
  }

  /** Each predicate holds exactly when the state equals its own code. */
  lemma PredicateIffCode(t: Task, i: nat)
    requires i < |StateCodes|
    ensures |t.Predicates()| == |StateCodes|
    ensures t.Predicates()[i] <==> t.state == StateCodes[i]
  {
  }

  /** For each of the five codes exactly one predicate holds: the one for that code. */
  lemma ExactlyOnePredicate(t: Task, i: nat)
    requires i < |StateCodes| && t.state == StateCodes[i]
    ensures forall j | 0 <= j < |StateCodes| :: t.Predicates()[j] <==> j == i
  {
  }

  /** A state outside the five codes makes every predicate false. */
  lemma UnknownStateNoPredicate(t: Task)
    requires t.state !in StateCodes
    ensures forall j | 0 <= j < |StateCodes| :: !t.Predicates()[j]
  {
  }
}
