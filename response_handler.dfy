/** Correlation of responses with the calls waiting for them
    (ResponseHandler.cs): a callback completes its completion source at most
    once, and the handler maps RPC ids to callbacks. */
module ResponseHandling {
  import opened Common
  import opened Responses

  /** An unsigned 64-bit RPC id. */
  newtype UInt64 = x: int | 0 <= x < 0x1_0000_0000_0000_0000

  datatype MessageType = NoType | Request | Response

  /** A message between servers; the request payload is not modelled, the
      response is null (None) or a response. */
  datatype ServerMessage = ServerMessage(rpcId: UInt64, messageType: MessageType, responseObj: Option<Responses.Response>)

  /** A message is a request exactly when it carries a non-zero RPC id. */
  predicate IsRequest(m: ServerMessage)
  {
    m.rpcId > 0
  }

  /** A fulfillable promise for the response to a request.  What the
      concrete source does with a value is not part of this model; it is
      seen as the log of values it accepted, and `rejects` says for which
      values Complete raises instead. */
  class CompletionSource {
    const resultType: Option<TypeDesc>
    const rejects: Option<Responses.Response> -> Option<Exception>
    var completions: seq<Option<Responses.Response>>

    constructor (resultType: Option<TypeDesc>, rejects: Option<Responses.Response> -> Option<Exception>)
      ensures this.resultType == resultType && this.rejects == rejects && completions == []
    {
      this.resultType := resultType;
      this.rejects := rejects;
      completions := [];
    }

    /** Complete(value): accepts the value, or raises what `rejects` says
        and accepts nothing. */
    method Complete(value: Option<Responses.Response>) returns (o: Outcome<()>)
      modifies this
      ensures rejects(value).None? ==> o == Ok(()) && completions == old(completions) + [value]
      ensures rejects(value).Some? ==> o == Raise(rejects(value).value) && completions == old(completions)
    {
      match rejects(value)
      case Some(ex) =>
        o := Raise(ex);
      case None =>
        completions := completions + [value];
        o := Ok(());
    }
  }

  /** The exception responses among completed values. */
  function FailureBoxes(values: seq<Option<Responses.Response>>): set<object>
  {
    set k | 0 <= k < |values| && values[k].Some? && values[k].value.Failed? :: values[k].value.failure
  }

  /** What a callback's delivery of `response` to its source did: the
      source accepted the response; or it raised, and received a new
      exception response carrying that error instead; or it raised on that
      too, and the second error escapes. */
  twostate predicate Delivered(source: CompletionSource, response: Option<Responses.Response>, new escaped: Option<Exception>)
    reads source, FailureBoxes(source.completions)
  {
    match source.rejects(response)
    case None =>
      escaped == None && source.completions == old(source.completions) + [response]
    case Some(ex) =>
      && |old(source.completions)| <= |source.completions| <= |old(source.completions)| + 1
      && source.completions[..|old(source.completions)|] == old(source.completions)
      && (|source.completions| == |old(source.completions)| + 1 ==>
            var sent := source.completions[|old(source.completions)|];
            && escaped == None && sent.Some? && sent.value.Failed? && fresh(sent.value.failure)
            && sent.value.failure.exception == Some(ex) && source.rejects(sent) == None)
      && (|source.completions| == |old(source.completions)| ==> escaped.Some?)
  }

  class CallBack {
    var packet: ServerMessage
    const respSource: CompletionSource
    /** The test-and-set completion flag, 0 or 1. */
    var completed: int
    /** The responses this callback handed to its source's Complete. */
    ghost var delivered: seq<Option<Responses.Response>>

    /** The callback completes its source at most once, and only after the
        flag was set. */
    ghost predicate Valid()
      reads this
    {
      && (completed == 0 || completed == 1)
      && (completed == 0 <==> delivered == [])
      && |delivered| <= 1
    }

    constructor (respSource: CompletionSource, message: ServerMessage)
      ensures Valid() && this.respSource == respSource && packet == message
      ensures !IsCompleted() && delivered == []
    {
      this.respSource := respSource;
      packet := message;
      completed := 0;
      delivered := [];
    }

    function IsCompleted(): (done: bool)
      reads this
      ensures Valid() ==> (done <==> delivered != [])
    {
      completed == 1
    }

    /** The result type the waiting source expects. */
    function GetResponseType(): (t: Option<TypeDesc>)
      ensures t == respSource.resultType
    {
      respSource.resultType
    }

    /** The first call sets the flag and delivers the response; every later
        call returns without touching the source. */
    method Do(response: Option<Responses.Response>) returns (escaped: Option<Exception>)
      requires Valid()
      modifies this, respSource
      ensures Valid() && IsCompleted() && packet == old(packet)
      ensures old(IsCompleted()) ==>
        && escaped == None && delivered == old(delivered)
        && respSource.completions == old(respSource.completions)
      ensures !old(IsCompleted()) ==> delivered == [response] && Delivered(respSource, response, escaped)
    {
      if completed != 0 {
        return None;
      }
      completed := 1;
      delivered := [response];
      escaped := ResponseCallback(response);
    }

    /** Completes the source with the response; if that raises, completes it
        with Response.FromException of the error instead. */
    method ResponseCallback(response: Option<Responses.Response>) returns (escaped: Option<Exception>)
      modifies respSource
      ensures Delivered(respSource, response, escaped)
    {
      var o := respSource.Complete(response);
      escaped := None;
      if o.Raise? {
        var failure := FromException(o.error);
        var o2 := respSource.Complete(Some(failure));
        if o2.Raise? {
          escaped := Some(o2.error);
        }
      }
    }
  }

  /** Delivering a response twice to one callback completes its source once:
      the second Do is ignored. */
  method CallBackCompletesOnce(cb: CallBack, first: Option<Responses.Response>, second: Option<Responses.Response>)
    returns (escaped: Option<Exception>)
    requires cb.Valid() && !cb.IsCompleted() && cb.respSource.rejects(first).None?
    modifies cb, cb.respSource
    ensures cb.respSource.completions == old(cb.respSource.completions) + [first]
    ensures escaped == None
  {
    escaped := cb.Do(first);
    var ignored := cb.Do(second);
  }

  class ResponseHandler {
    var callbacks: map<UInt64, CallBack>
    const logger: LogSink

    constructor (logger: LogSink)
      ensures callbacks == map[] && this.logger == logger
    {
      callbacks := map[];
      this.logger := logger;
    }

    /** The objects ReceiveResponse may change for a given id. */
    function Callee(rpcId: UInt64): set<object>
      reads this
    {
      if rpcId in callbacks then {callbacks[rpcId], callbacks[rpcId].respSource} else {}
    }

    /** Removes the callback registered for the message's id and runs it with
        the message's response; an unknown id (never registered, already
        answered or cleared) only writes a debug line. */
    method ReceiveResponse(message: ServerMessage) returns (escaped: Option<Exception>)
      requires message.rpcId in callbacks ==> callbacks[message.rpcId].Valid()
      modifies this, logger, Callee(message.rpcId)
      ensures message.rpcId !in callbacks
      ensures message.rpcId in old(callbacks) ==>
        var cb := old(callbacks[message.rpcId]);
        && callbacks == old(callbacks) - {message.rpcId}
        && logger.entries == old(logger.entries)
        && cb.Valid() && cb.IsCompleted()
        && (!old(cb.IsCompleted()) ==> Delivered(cb.respSource, message.responseObj, escaped))
        && (old(cb.IsCompleted()) ==> escaped == None && cb.respSource.completions == old(cb.respSource.completions))
      ensures message.rpcId !in old(callbacks) ==>
        && callbacks == old(callbacks) && escaped == None
        && logger.entries == old(logger.entries) + [LogEntry(Debug, UnknownRpcId(message.rpcId as nat))]
    {
      if message.rpcId in callbacks {
        var callback := callbacks[message.rpcId];
        callbacks := callbacks - {message.rpcId};
        escaped := callback.Do(message.responseObj);
      } else {
        logger.Write(Debug, UnknownRpcId(message.rpcId as nat));
        escaped := None;
      }
    }

    /** Registers a new callback for the message's id unless one is already
        registered, in which case the existing one is kept. */
    method AddCallback(source: CompletionSource, msg: ServerMessage)
      modifies this
      ensures msg.rpcId in old(callbacks) ==> callbacks == old(callbacks)
      ensures msg.rpcId !in old(callbacks) ==>
        && msg.rpcId in callbacks && fresh(callbacks[msg.rpcId])
        && callbacks == old(callbacks)[msg.rpcId := callbacks[msg.rpcId]]
        && callbacks[msg.rpcId].Valid() && !callbacks[msg.rpcId].IsCompleted()
        && callbacks[msg.rpcId].respSource == source && callbacks[msg.rpcId].packet == msg
    {
      var callbackData := new CallBack(source, msg);
      if msg.rpcId !in callbacks {
        callbacks := callbacks[msg.rpcId := callbackData];
      }
    }

    /** Forgets every callback without completing any. */
    method Clear()
      modifies this
      ensures callbacks == map[]
    {
      callbacks := map[];
    }
  }

  /** A second response for an id that was already answered reaches no
      callback: it only writes a debug line. */
  method DuplicateResponseIsIgnored(handler: ResponseHandler, message: ServerMessage) returns (second: Option<Exception>)
    requires message.rpcId in handler.callbacks
    requires handler.callbacks[message.rpcId].Valid() && !handler.callbacks[message.rpcId].IsCompleted()
    requires handler.callbacks[message.rpcId].respSource.rejects(message.responseObj).None?
    modifies handler, handler.logger, handler.Callee(message.rpcId)
    ensures var source := old(handler.callbacks[message.rpcId].respSource);
      source.completions == old(source.completions) + [message.responseObj]
    ensures handler.logger.entries == old(handler.logger.entries) + [LogEntry(Debug, UnknownRpcId(message.rpcId as nat))]
  {
    var first := handler.ReceiveResponse(message);
    second := handler.ReceiveResponse(message);
  }
}
