/** The two shapes of an invocable call (InvokableProxy.cs).  The generated
    InvokeInner is an input: its outcome, a value or a raised exception.
    Invoke wraps a successful outcome in a response and lets an exception
    through unchanged, since it has no handler of its own. */
module InvokableProxies {
  import opened Common
  import opened Responses

  /** The no-result Invoke: the completed response once InvokeInner is done. */
  function Invoke(inner: Outcome<()>): (r: Outcome<Response>)
    ensures r.Ok? <==> inner.Ok?
    ensures r.Ok? ==> r.value == Completed && GetSimpleResultType(r.value) == None
    ensures inner.Raise? ==> r == Raise(inner.error)
  {
    match inner
    case Ok(_) => Ok(Completed)
    case Raise(e) => Raise(e)
  }

  /** The typed Invoke: a pooled typed response holding exactly the value
      InvokeInner produced; a raised exception propagates and takes nothing
      from the pool. */
  method InvokeTyped(pool: ResponsePool, resultType: TypeDesc, inner: Outcome<Value>) returns (r: Outcome<Response>)
    requires pool.Valid()
    requires inner.Ok? ==> HasType(inner.value, resultType)
    modifies pool, pool.free
    ensures pool.Valid()
    ensures r.Ok? <==> inner.Ok?
    ensures r.Ok? ==>
      && r.value.Typed? && ValidResponse(r.value) && r.value.typed !in pool.free
      && GetResult(r.value, resultType) == Ok(inner.value)
      && GetSimpleResultType(r.value) == Some(resultType)
    ensures inner.Raise? ==> r == Raise(inner.error) && pool.free == old(pool.free)
  {
    match inner
    case Raise(e) =>
      r := Raise(e);
    case Ok(v) =>
      var response := FromResult(pool, resultType, v);
      r := Ok(response);
  }

  /** The call's parameters as the proxy holds them. */
  datatype Arguments = Arguments(values: seq<Value>)

  /** Default Deserialize (both shapes): the serialized arguments are
      ignored and the parameters stay as they were. */
  function Deserialize(params: Arguments, args: seq<seq<bv8>>): (p: Arguments)
    ensures p == params
  {
    params
  }

  /** Default Update (both shapes): the parameters stay as they were. */
  function Update(params: Arguments, args: seq<Value>): (p: Arguments)
    ensures p == params
  {
    params
  }
}
