/** `prepare_batch_command`: named calls as `method?query` command strings. */
module Batch {
  import opened Wrappers
  import opened Values
  import opened Errors
  import opened Ordered
  import opened Flattening
  import opened UrlEncoding

  /** `'?'.join([method, query])` once `query` has been computed: an error in the query
      comes first, then a method that is not a string, which `join` refuses. */
  function Joined(apiMethod: Value, query: Result<string, Error>): Result<string, Error>
  {
    if query.Failure? then Failure(query.error)
    else if !apiMethod.Str? then Failure(TypeError)
    else Success(apiMethod.s + "?" + query.value)
  }

  /** The method and the params a pair or a dict call carries, when it has both: the
      first two elements of a list or tuple, the `method` and `params` entries of a dict. */
  function Parts(call: Value): Option<(Value, Value)>
  {
    match call
    case List(items) => if |items| >= 2 then Some((items[0], items[1])) else None
    case Dict(m) => if "method" in m && "params" in m then Some((m["method"], m["params"])) else None
    case _ => None
  }

  /** The command one named call becomes, or the error it raises. */
  function Command(name: string, call: Value, c: Codec): (r: Result<string, Error>)
    ensures r.Failure? && r.error.ValueError? ==> r.error.call == name
  {
    match call
    case Str(s) => Success(s)
    case List(items) =>
      if |items| < 2 then Failure(ValueError(name, NotAPair))
      else Joined(items[0], Urlencoded(items[1], c))
    case Dict(m) =>
      if "method" !in m || "params" !in m then Failure(ValueError(name, MissingKeys))
      else Joined(m["method"], Urlencoded(m["params"], c))
    case Scalar(_) => Failure(ValueError(name, WrongShape))
  }

  /** Each call's name with the command it becomes or the error it raises. */
  function Outcomes(calls: seq<(string, Value)>, c: Codec): (outs: seq<(string, Result<string, Error>)>)
    ensures |outs| == |calls|
    ensures forall j :: 0 <= j < |calls| ==> outs[j] == (calls[j].0, Command(calls[j].0, calls[j].1, c))
  {
    seq(|calls|, j requires 0 <= j < |calls| => (calls[j].0, Command(calls[j].0, calls[j].1, c)))
  }

  /** The `commands` dict after storing the outcomes in order, or the first error. */
  function Gather(outs: seq<(string, Result<string, Error>)>): Result<seq<(string, string)>, Error>
  {
    if outs == [] then Success([])
    else
      var before := Gather(outs[..|outs| - 1]);
      var (name, command) := outs[|outs| - 1];
      if before.Failure? then before
      else if command.Failure? then Failure(command.error)
      else Success(Put(before.value, name, command.value))
  }

  /** What `prepare_batch_command(calls)` returns or raises. */
  function Prepared(calls: seq<(string, Value)>, c: Codec): Result<seq<(string, string)>, Error>
  {
    Gather(Outcomes(calls, c))
  }

  /** Which calls raise `ValueError`, which succeed, and what a successful call becomes. */
  lemma CommandMeaning(name: string, call: Value, c: Codec)
    ensures call.Str? ==> Command(name, call, c) == Success(call.s)
    ensures Command(name, call, c).Failure? && Command(name, call, c).error.ValueError? <==>
      !call.Str? && Parts(call).None?
    ensures Command(name, call, c).Success? <==>
      call.Str? || (Parts(call).Some? && Parts(call).value.0.Str? && Parts(call).value.1.Dict?)
    ensures !call.Str? && Parts(call).Some? && Command(name, call, c).Success? ==>
      Command(name, call, c).value == Parts(call).value.0.s + "?" + Query(Collect(Flat(Parts(call).value.1)), c)
  {
  }

  /** `prepare_batch_command` as it runs: one pass over the calls that stores each
      command and stops at the first error. */
  method PrepareBatchCommand(calls: seq<(string, Value)>, c: Codec) returns (r: Result<seq<(string, string)>, Error>)
    ensures r == Prepared(calls, c)
  {
    var commands: seq<(string, string)> := [];
    for i := 0 to |calls|
      invariant Gather(Outcomes(calls, c)[..i]) == Success(commands)
    {
      GatherSnoc(Outcomes(calls, c), i);
      var (name, call) := calls[i];
      var command := CommandFor(name, call, c);
      if command.Failure? {
        r := Failure(command.error);
        GatherStopsAt(Outcomes(calls, c), i + 1);
        return;
      }
      commands := Put(commands, name, command.value);
    }
    assert Outcomes(calls, c)[..|calls|] == Outcomes(calls, c);
    r := Success(commands);
  }

  /** The body of the loop for one call: dispatch on its shape, raising `ValueError` for
      a short sequence, a dict without both keys, or any other type. */
  method CommandFor(name: string, call: Value, c: Codec) returns (r: Result<string, Error>)
    ensures call.Str? ==> r == Success(call.s)
    ensures r.Failure? && r.error.ValueError? <==> !call.Str? && Parts(call).None?
    ensures r == Command(name, call, c)
  {
    match call {
      case Str(s) =>
        r := Success(s);
      case List(items) =>
        if |items| < 2 {
          return Failure(ValueError(name, NotAPair));
        }
        r := JoinCommand(items[0], items[1], c);
      case Dict(m) =>
        if "method" !in m || "params" !in m {
          return Failure(ValueError(name, MissingKeys));
        }
        r := JoinCommand(m["method"], m["params"], c);
      case Scalar(_) =>
        r := Failure(ValueError(name, WrongShape));
    }
  }

  /** `'?'.join([method, multidict_urlencode(params)])`: params that are not a dict and a
      method that is not a string both raise `TypeError`, the encoder's first. */
  method JoinCommand(apiMethod: Value, params: Value, c: Codec) returns (r: Result<string, Error>)
    ensures r.Success? <==> apiMethod.Str? && params.Dict?
    ensures r.Failure? ==> r.error == TypeError
    ensures r.Success? ==> r.value == apiMethod.s + "?" + Query(Collect(Flat(params)), c)
    ensures r == Joined(apiMethod, Urlencoded(params, c))
  {
    var query := MultidictUrlencode(params, c);
    if query.Failure? {
      return Failure(query.error);
    }
    if !apiMethod.Str? {
      return Failure(TypeError);
    }
    return Success(apiMethod.s + "?" + query.value);
  }

  lemma GatherSnoc(outs: seq<(string, Result<string, Error>)>, i: nat)
    requires i < |outs|
    ensures Gather(outs[..i + 1]) ==
      var before := Gather(outs[..i]);
      if before.Failure? then before
      else if outs[i].1.Failure? then Failure(outs[i].1.error)
      else Success(Put(before.value, outs[i].0, outs[i].1.value))
  {
    assert outs[..i + 1][..i] == outs[..i];
  }

  /** Once a call has failed, the later calls are not looked at. */
  lemma {:induction false} GatherStopsAt(outs: seq<(string, Result<string, Error>)>, i: nat)
    requires i <= |outs|
    requires Gather(outs[..i]).Failure?
    ensures Gather(outs) == Gather(outs[..i])
    decreases |outs|
  {
    if i < |outs| {
      var init := outs[..|outs| - 1];
      assert init[..i] == outs[..i];
      GatherStopsAt(init, i);
    } else {
      assert outs[..i] == outs;
    }
  }

  // ---------------------------------------------------------------------------
  // What the batch comes to

  ghost predicate AllSucceed(outs: seq<(string, Result<string, Error>)>) {
    forall j :: 0 <= j < |outs| ==> outs[j].1.Success?
  }

  lemma {:induction false} GatherSucceeds(outs: seq<(string, Result<string, Error>)>)
    ensures Gather(outs).Success? <==> AllSucceed(outs)
    decreases |outs|
  {
    if outs != [] {
      var init := outs[..|outs| - 1];
      GatherSucceeds(init);
      assert forall j :: 0 <= j < |init| ==> init[j] == outs[j];
    }
  }

  lemma {:induction false} GatherFirstError(outs: seq<(string, Result<string, Error>)>, f: nat)
    requires f < |outs|
    requires forall j :: 0 <= j < f ==> outs[j].1.Success?
    requires outs[f].1.Failure?
    ensures Gather(outs) == Failure(outs[f].1.error)
    decreases |outs|
  {
    var init := outs[..|outs| - 1];
    assert forall j :: 0 <= j < |init| ==> init[j] == outs[j];
    if f < |outs| - 1 {
      GatherFirstError(init, f);
    } else {
      GatherSucceeds(init);
    }
  }

  lemma {:induction false} GatherNames(outs: seq<(string, Result<string, Error>)>)
    requires Gather(outs).Success?
    ensures Names(Gather(outs).value) == Dedup(Names(outs))
    decreases |outs|
  {
    if outs != [] {
      var init := outs[..|outs| - 1];
      var (name, command) := outs[|outs| - 1];
      GatherNames(init);
      assert Names(outs) == Names(init) + [name];
      DedupSnoc(Names(init), name);
      PutNames(Gather(init).value, name, command.value);
    }
  }

  lemma NamesInit<V>(pairs: seq<(string, V)>)
    requires pairs != []
    ensures Names(pairs[..|pairs| - 1]) == Names(pairs)[..|pairs| - 1]
    ensures Distinct(Names(pairs)) ==>
      Distinct(Names(pairs[..|pairs| - 1])) && pairs[|pairs| - 1].0 !in Names(pairs[..|pairs| - 1])
  {
    var n := |pairs|;
    if Distinct(Names(pairs)) {
      assert forall j :: 0 <= j < n - 1 ==> Names(pairs)[j] != Names(pairs)[n - 1];
    }
  }

  lemma {:induction false} GatherInOrder(outs: seq<(string, Result<string, Error>)>)
    requires Distinct(Names(outs))
    requires Gather(outs).Success?
    ensures |Gather(outs).value| == |outs|
    ensures forall j :: 0 <= j < |outs| ==> outs[j].1.Success? && Gather(outs).value[j] == (outs[j].0, outs[j].1.value)
    decreases |outs|
  {
    if outs != [] {
      var n := |outs|;
      var init := outs[..n - 1];
      var (name, command) := outs[n - 1];
      NamesInit(outs);
      GatherInOrder(init);
      GatherNames(init);
      var before := Gather(init).value;
      assert name !in Names(before);
      PutNew(before, name, command.value);
      GatherSnoc(outs, n - 1);
      assert outs[..n] == outs;
      var after := Gather(outs).value;
      assert after == before + [(name, command.value)];
      forall j | 0 <= j < n
        ensures outs[j].1.Success? && after[j] == (outs[j].0, outs[j].1.value)
      {
        if j < n - 1 {
          assert init[j] == outs[j];
        }
      }
    }
  }

  /** The batch succeeds exactly when every call does. */
  lemma PreparedSucceeds(calls: seq<(string, Value)>, c: Codec)
    ensures Prepared(calls, c).Success? <==>
      forall j :: 0 <= j < |calls| ==> Command(calls[j].0, calls[j].1, c).Success?
  {
    GatherSucceeds(Outcomes(calls, c));
  }

  /** When call `f` is the first to fail, the batch raises what that call raises. */
  lemma PreparedFirstError(calls: seq<(string, Value)>, c: Codec, f: nat)
    requires f < |calls|
    requires forall j :: 0 <= j < f ==> Command(calls[j].0, calls[j].1, c).Success?
    requires Command(calls[f].0, calls[f].1, c).Failure?
    ensures Prepared(calls, c) == Failure(Command(calls[f].0, calls[f].1, c).error)
  {
    GatherFirstError(Outcomes(calls, c), f);
  }

  /** The commands are keyed by the calls' names, each once, in the order of the calls. */
  lemma PreparedNames(calls: seq<(string, Value)>, c: Codec)
    requires Prepared(calls, c).Success?
    ensures Names(Prepared(calls, c).value) == Dedup(Names(calls))
  {
    var outs := Outcomes(calls, c);
    GatherNames(outs);
    assert Names(outs) == Names(calls);
  }

  /** The names of a dict are distinct, and then the batch holds one command per call,
      in order. */
  lemma PreparedInOrder(calls: seq<(string, Value)>, c: Codec)
    requires Distinct(Names(calls))
    requires Prepared(calls, c).Success?
    ensures forall j :: 0 <= j < |calls| ==> Command(calls[j].0, calls[j].1, c).Success?
    ensures |Prepared(calls, c).value| == |calls|
    ensures forall j :: 0 <= j < |calls| ==>
      Prepared(calls, c).value[j] == (calls[j].0, Command(calls[j].0, calls[j].1, c).value)
  {
    var outs := Outcomes(calls, c);
    assert Names(outs) == Names(calls);
    GatherInOrder(outs);
    GatherSucceeds(outs);
  }
  /** A pair call uses its first two elements only, and it means what the dict form with
      the same method and params means. */
  lemma CallFormsAgree(name: string, items: seq<Value>, c: Codec)
    requires |items| >= 2
    ensures Command(name, List(items), c) == Command(name, List(items[..2]), c)
    ensures Command(name, List(items), c) ==
      Command(name, Dict(map["method" := items[0], "params" := items[1]]), c)
  {
    var m := map["method" := items[0], "params" := items[1]];
    assert m["method"] == items[0] && m["params"] == items[1];
  }

  // ---------------------------------------------------------------------------
  // Examples

  lemma PreparedOne(name: string, call: Value, c: Codec)
    ensures Prepared([(name, call)], c) ==
      var r := Command(name, call, c);
      if r.Failure? then Failure(r.error) else Success([(name, r.value)])
  {
    var outs := Outcomes([(name, call)], c);
    var r := Command(name, call, c);
    assert outs[..0] == [] && outs[..1] == outs && outs[0] == (name, r);
    GatherSnoc(outs, 0);
    if r.Success? {
      assert Put([], name, r.value) == [(name, r.value)];
    }
  }

  /** A string call passes through, and a pair or dict call with a one-entry params dict
      becomes `method?name=value`. */
  lemma BatchExamples(name: string, m: string, k: string, v: Value, c: Codec)
    requires !v.Dict? && !v.List?
    ensures Prepared([(name, Str(m))], c) == Success([(name, m)])
    ensures Prepared([(name, List([Str(m), Dict(map[k := v])]))], c)
      == Success([(name, m + "?" + c.quote(k) + "=" + c.quote(Text(v, c)))])
    ensures Prepared([(name, Dict(map["method" := Str(m), "params" := Dict(map[k := v])]))], c)
      == Success([(name, m + "?" + c.quote(k) + "=" + c.quote(Text(v, c)))])
  {
    PreparedOne(name, Str(m), c);
    UrlencodedSingle(k, v, c);
    var pair := [Str(m), Dict(map[k := v])];
    var q := c.quote(k) + "=" + c.quote(Text(v, c));
    assert pair[0] == Str(m) && pair[1] == Dict(map[k := v]);
    assert Command(name, List(pair), c) == Joined(Str(m), Success(q));
    assert m + "?" + q == m + "?" + c.quote(k) + "=" + c.quote(Text(v, c));
    PreparedOne(name, List(pair), c);
    CallFormsAgree(name, pair, c);
    var d := map["method" := Str(m), "params" := Dict(map[k := v])];
    assert d["method"] == Str(m) && d["params"] == Dict(map[k := v]);
    PreparedOne(name, Dict(d), c);
  }

  /** An integer, an empty sequence, a dict without `params` and a non-dict `params` each
      raise, the first three a `ValueError` naming the call. */
  lemma BatchErrorExamples(name: string, t: string, m: string, c: Codec)
    ensures Prepared([(name, Scalar(t))], c) == Failure(ValueError(name, WrongShape))
    ensures Prepared([(name, List([]))], c) == Failure(ValueError(name, NotAPair))
    ensures Prepared([(name, Dict(map["method" := Str(m)]))], c) == Failure(ValueError(name, MissingKeys))
    ensures Prepared([(name, List([Str(m), Str(t)]))], c) == Failure(TypeError)
  {
    PreparedOne(name, Scalar(t), c);
    PreparedOne(name, List([]), c);
    PreparedOne(name, Dict(map["method" := Str(m)]), c);
    PreparedOne(name, List([Str(m), Str(t)]), c);
  }
}
