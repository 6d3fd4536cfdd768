/** The result container of an actor call (Response.cs): the read-only
    completed singleton, a pooled typed value, or a captured exception.

    Typed and exception responses are objects whose fields their setters
    overwrite, so they are classes; `Response` is the tagged union a caller
    holds.  The typed-response pool is a free list: Get hands out a pooled
    object of the requested type or a new one, and Dispose puts the object
    back after resetting its value to the type's default. */
module Responses {
  import opened Common

  /** A runtime type, as far as defaults and casts need it: its name,
      whether it is a value type, and the names of the reference types it
      derives from or implements. */
  datatype TypeDesc = TypeDesc(name: string, isValueType: bool, baseNames: seq<string>)

  /** A value seen as `object`: null, or an instance of a runtime type (a
      boxed value for a value type). */
  datatype Value = Null | Instance(ty: TypeDesc, payload: int)

  /** `default(T)`: null for a reference type, the zero value otherwise. */
  function Default(t: TypeDesc): Value
  {
    if t.isValueType then Instance(t, 0) else Null
  }

  /** `v is T` for a non-null value. */
  predicate IsA(v: Value, t: TypeDesc)
  {
    v.Instance? && (v.ty == t || (!t.isValueType && t.name in v.ty.baseNames))
  }

  /** The values a variable of static type t can hold. */
  predicate HasType(v: Value, t: TypeDesc)
  {
    if v == Null then !t.isValueType else IsA(v, t)
  }

  /** The cast `(T)v` of a value held as `object`: unboxing null into a
      value type raises NullReferenceException, an instance of another type
      raises InvalidCastException. */
  function Cast(v: Value, t: TypeDesc): (r: Outcome<Value>)
    ensures r.Ok? <==> HasType(v, t)
    ensures r.Ok? ==> r.value == v
    ensures r.Raise? ==> r.error.kind == (if v == Null then NullReference else InvalidCast)
  {
    if v == Null then
      if t.isValueType then Raise(Exception(NullReference, "unboxing null")) else Ok(Null)
    else if IsA(v, t) then Ok(v)
    else Raise(Exception(InvalidCast, "invalid cast"))
  }

  /** A Response<TResult>: its result type and the stored value. */
  class TypedResponse {
    const resultType: TypeDesc
    var result: Value

    ghost predicate Valid()
      reads this
    {
      HasType(result, resultType)
    }

    constructor (resultType: TypeDesc)
      ensures Valid()
      ensures this.resultType == resultType && result == Default(resultType)
    {
      this.resultType := resultType;
      result := Default(resultType);
    }

    /** Clears the stored value to `default` and returns this object to the
        pool. */
    method Dispose(pool: ResponsePool)
      requires pool.Valid() && this !in pool.free
      modifies this, pool
      ensures pool.Valid() && Valid()
      ensures result == Default(resultType)
      ensures pool.free == old(pool.free) + [this]
    {
      result := Default(resultType);
      pool.Return(this);
    }
  }

  /** An ExceptionResponse: a settable exception, null until assigned. */
  class ExceptionResponse {
    var exception: Option<Exception>

    constructor ()
      ensures exception == None
    {
      exception := None;
    }
  }

  /** A response as its holder sees it.  `Completed` is the singleton. */
  datatype Response =
    | Completed
    | Typed(typed: TypedResponse)
    | Failed(failure: ExceptionResponse)

  /** The objects a response's members read. */
  function Objects(r: Response): set<object>
  {
    match r
    case Completed => {}
    case Typed(box) => {box}
    case Failed(box) => {box}
  }

  ghost predicate ValidResponse(r: Response)
    reads Objects(r)
  {
    r.Typed? ==> r.typed.Valid()
  }

  /** What re-raising a captured exception raises: the exception itself, or
      ArgumentNullException when none was ever set. */
  function Rethrown(e: Option<Exception>): (ex: Exception)
    ensures e.Some? ==> ex == e.value
    ensures e.None? ==> ex.kind == ArgumentNull
  {
    match e
    case Some(x) => x
    case None => Exception(ArgumentNull, "exception")
  }

  /** GetResult<T>(): the completed response yields `default(T)`; a typed
      response yields its value, by reinterpretation when both types are
      the same value type and by a cast otherwise; an exception response
      re-raises its exception. */
  function GetResult(r: Response, t: TypeDesc): (o: Outcome<Value>)
    reads Objects(r)
    ensures r.Completed? ==> o == Ok(Default(t))
    ensures r.Typed? && r.typed.Valid() ==> o == Cast(r.typed.result, t)
    ensures r.Typed? && r.typed.Valid() && t == r.typed.resultType ==> o == Ok(r.typed.result)
    ensures r.Failed? ==> o == Raise(Rethrown(r.failure.exception))
  {
    match r
    case Completed => Ok(Default(t))
    case Typed(box) =>
      if box.resultType.isValueType && t.isValueType && t == box.resultType then Ok(box.result)
      else Cast(box.result, t)
    case Failed(box) => Raise(Rethrown(box.exception))
  }

  /** The `Result` getter: null for the completed response, the stored
      value for a typed one, the re-raised exception otherwise. */
  function ResultOf(r: Response): (o: Outcome<Value>)
    reads Objects(r)
    ensures o.Raise? <==> r.Failed?
    ensures r.Completed? ==> o == Ok(Null)
    ensures r.Typed? && r.typed.Valid() ==> o.Ok? && HasType(o.value, r.typed.resultType)
  {
    match r
    case Completed => Ok(Null)
    case Typed(box) => Ok(box.result)
    case Failed(box) => Raise(Rethrown(box.exception))
  }

  /** Reading `Result` agrees with GetResult at the response's own type (for
      the completed response: at any reference type). */
  lemma ResultAgreesWithGetResult(r: Response, t: TypeDesc)
    requires ValidResponse(r)
    requires r.Typed? ==> t == r.typed.resultType
    requires r.Completed? ==> !t.isValueType
    ensures ResultOf(r) == GetResult(r, t)
  {
  }

  /** The `Exception` getter: only an exception response has one. */
  function ExceptionOf(r: Response): (e: Option<Exception>)
    reads Objects(r)
    ensures e.Some? ==> r.Failed?
    ensures r.Failed? ==> e == r.failure.exception
  {
    match r
    case Completed => None
    case Typed(_) => None
    case Failed(box) => box.exception
  }

  /** The `Result` setter.  The completed and exception responses are
      read-only and raise InvalidOperationException; a typed response casts
      the value to its result type and stores it, or raises the cast's
      exception and keeps its value. */
  method SetResult(r: Response, v: Value) returns (o: Outcome<()>)
    modifies Objects(r)
    ensures !r.Typed? ==> o.Raise? && o.error.kind == InvalidOperation
    ensures r.Typed? ==> (o.Ok? <==> HasType(v, r.typed.resultType))
    ensures r.Typed? && o.Ok? ==> r.typed.result == v
    ensures r.Typed? && o.Raise? ==> r.typed.result == old(r.typed.result) && o.error == Cast(v, r.typed.resultType).error
    ensures r.Failed? ==> r.failure.exception == old(r.failure.exception)
  {
    match r
    case Completed =>
      o := Raise(Exception(InvalidOperation, "Type CompletedResponse is read-only"));
    case Typed(box) =>
      var c := Cast(v, box.resultType);
      if c.Ok? {
        box.result := c.value;
        o := Ok(());
      } else {
        o := Raise(c.error);
      }
    case Failed(_) =>
      o := Raise(Exception(InvalidOperation, "Cannot set result property on response of type ExceptionResponse"));
  }

  /** The `Exception` setter: only an exception response accepts it. */
  method SetException(r: Response, e: Option<Exception>) returns (o: Outcome<()>)
    modifies Objects(r)
    ensures o.Ok? <==> r.Failed?
    ensures o.Raise? ==> o.error.kind == InvalidOperation
    ensures r.Failed? ==> r.failure.exception == e
    ensures r.Typed? ==> r.typed.result == old(r.typed.result)
  {
    match r
    case Completed =>
      o := Raise(Exception(InvalidOperation, "Type CompletedResponse is read-only"));
    case Typed(_) =>
      o := Raise(Exception(InvalidOperation, "Cannot set Exception property for type Response"));
    case Failed(box) =>
      box.exception := e;
      o := Ok(());
  }

  /** GetSimpleResultType: the result type of a typed response, none
      otherwise. */
  function GetSimpleResultType(r: Response): (t: Option<TypeDesc>)
    ensures t.Some? <==> r.Typed?
    ensures r.Typed? ==> t == Some(r.typed.resultType)
  {
    if r.Typed? then Some(r.typed.resultType) else None
  }

  /** The text of a response, up to the text of the exception or value it
      shows. */
  datatype Display = ExceptionText(e: Exception) | ValueText(v: Value) | Literal(text: string)

  /** The ToString rule every variant inherits: the exception if there is
      one, else the result, else "[null]". */
  function BaseToString(r: Response): Outcome<Display>
    reads Objects(r)
  {
    match ExceptionOf(r)
    case Some(ex) => Ok(ExceptionText(ex))
    case None =>
      match ResultOf(r)
      case Raise(ex) => Raise(ex)
      case Ok(v) => Ok(if v == Null then Literal("[null]") else ValueText(v))
  }

  /** ToString as each variant overrides it. */
  function ToString(r: Response): (d: Display)
    reads Objects(r)
    ensures r.Completed? ==> d == Literal("[Completed]")
    ensures d.ExceptionText? ==> r.Failed? && r.failure.exception == Some(d.e)
    ensures d.ValueText? ==> r.Typed? && d.v == r.typed.result != Null
  {
    match r
    case Completed => Literal("[Completed]")
    case Typed(box) => if box.result == Null then Literal("[null]") else ValueText(box.result)
    case Failed(box) => if box.exception.Some? then ExceptionText(box.exception.value) else Literal("[null]")
  }

  /** The typed and exception overrides agree with the inherited rule
      wherever that rule does not itself raise; the completed response
      replaces its "[null]" by "[Completed]". */
  lemma ToStringRefinesBase(r: Response)
    ensures r.Typed? || (r.Failed? && r.failure.exception.Some?) ==> BaseToString(r) == Ok(ToString(r))
    ensures r.Completed? ==> BaseToString(r) == Ok(Literal("[null]"))
    ensures r.Failed? && r.failure.exception.None? ==> BaseToString(r).Raise?
  {
  }

  /** The free list of typed responses (the pool policy creates a new object
      when none is free and accepts every return). */
  class ResponsePool {
    var free: seq<TypedResponse>

    /** Every pooled object holds its type's default, and none is pooled
        twice. */
    ghost predicate Valid()
      reads this, free
    {
      && (forall i :: 0 <= i < |free| ==> free[i].result == Default(free[i].resultType))
      && (forall i, j :: 0 <= i < j < |free| ==> free[i] != free[j])
    }

    constructor ()
      ensures Valid() && free == []
    {
      free := [];
    }

    /** The index of the first pooled object of type t, or |free|. */
    function FirstOfType(t: TypeDesc, from: nat): (i: nat)
      reads this, free
      requires from <= |free|
      ensures from <= i <= |free|
      ensures i < |free| ==> free[i].resultType == t
      ensures forall k :: from <= k < i ==> free[k].resultType != t
      decreases |free| - from
    {
      if from == |free| then from
      else if free[from].resultType == t then from
      else FirstOfType(t, from + 1)
    }

    /** Takes the first pooled object of type t, or creates one. */
    method Get(t: TypeDesc) returns (r: TypedResponse)
      requires Valid()
      modifies this
      ensures Valid() && r.Valid()
      ensures r.resultType == t && r.result == Default(t)
      ensures r !in free
      ensures fresh(r) ==> free == old(free) && (forall k :: 0 <= k < |free| ==> free[k].resultType != t)
      ensures !fresh(r) ==>
        exists i :: 0 <= i < |old(free)| && old(free)[i] == r && free == old(free)[..i] + old(free)[i + 1..]
    {
      var i := FirstOfType(t, 0);
      if i < |free| {
        r := free[i];
        free := free[..i] + free[i + 1..];
        assert forall k :: 0 <= k < |free| ==> free[k] == old(free)[if k < i then k else k + 1];
      } else {
        r := new TypedResponse(t);
      }
    }

    /** Puts an object back; the policy accepts every return. */
    method Return(r: TypedResponse)
      requires Valid() && r !in free && r.result == Default(r.resultType)
      modifies this
      ensures Valid()
      ensures free == old(free) + [r]
    {
      free := free + [r];
    }
  }

  /** Response.FromException(e): a new exception response holding e. */
  method FromException(e: Exception) returns (r: Response)
    ensures r.Failed? && fresh(r.failure)
    ensures ExceptionOf(r) == Some(e)
    ensures forall t :: GetResult(r, t) == Raise(e)
    ensures ResultOf(r) == Raise(e)
  {
    var box := new ExceptionResponse();
    box.exception := Some(e);
    r := Failed(box);
  }

  /** Response.FromResult(v): a pooled typed response of type t holding v. */
  method FromResult(pool: ResponsePool, t: TypeDesc, v: Value) returns (r: Response)
    requires pool.Valid() && HasType(v, t)
    modifies pool, pool.free
    ensures pool.Valid() && r.Typed? && r.typed !in pool.free && ValidResponse(r)
    ensures GetSimpleResultType(r) == Some(t)
    ensures GetResult(r, t) == Ok(v) && ResultOf(r) == Ok(v)
    ensures ExceptionOf(r) == None
    ensures fresh(r.typed) || r.typed in old(pool.free)
    ensures pool.free == old(pool.free) || exists i :: 0 <= i < |old(pool.free)| && old(pool.free)[i] == r.typed && pool.free == old(pool.free)[..i] + old(pool.free)[i + 1..]
    ensures fresh(r.typed) ==> pool.free == old(pool.free) && (forall k :: 0 <= k < |pool.free| ==> pool.free[k].resultType != t)
  {
    var box := pool.Get(t);
    box.result := v;
    r := Typed(box);
  }

  /** Dispose: a typed response is cleared and pooled; the completed and
      exception responses do nothing. */
  method Dispose(r: Response, pool: ResponsePool)
    requires pool.Valid()
    requires r.Typed? ==> r.typed !in pool.free
    modifies Objects(r), pool
    ensures pool.Valid()
    ensures !r.Typed? ==> pool.free == old(pool.free)
    ensures r.Failed? ==> r.failure.exception == old(r.failure.exception)
    ensures r.Typed? ==> r.typed.result == Default(r.typed.resultType) && pool.free == old(pool.free) + [r.typed]
  {
    if r.Typed? {
      r.typed.Dispose(pool);
    }
  }

  /** A disposed typed response handed out again holds no stale value: the
      next FromResult of its type reuses it and sees only the new value. */
  method DisposedResponseIsReused(pool: ResponsePool, t: TypeDesc, v: Value, w: Value) returns (first: Response, second: Response)
    requires pool.Valid() && HasType(v, t) && HasType(w, t)
    requires forall k :: 0 <= k < |pool.free| ==> pool.free[k].resultType != t
    modifies pool, pool.free
    ensures first.Typed? && second.Typed? && first.typed == second.typed
    ensures GetResult(second, t) == Ok(w)
  {
    first := FromResult(pool, t, v);
    assert pool.free == old(pool.free);
    Dispose(first, pool);
    ghost var last := |pool.free| - 1;
    assert pool.free[last] == first.typed;
    assert forall k :: 0 <= k < last ==> pool.free[k].resultType != t;
    second := FromResult(pool, t, w);
  }
}
