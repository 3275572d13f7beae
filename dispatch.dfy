/**
 * Request dispatch of buckets-mdapi: a Fast message names an RPC method and
 * carries a JSON array whose first element is the request payload. The
 * method name picks a handler; the handler decodes the array, takes its
 * first element and runs its action, and the messages the action produces
 * form the reply.
 */
module Dispatch {

  import opened Wrappers
  import opened Fast

  /** What an action returns: one message or several. */
  datatype HandlerResponse = Message(msg: FastMessage) | Messages(msgs: seq<FastMessage>)

  /** Why a request produced no reply: a connection-pool failure or an I/O error. */
  datatype HandlerError = Cueball(reason: string) | IO(reason: string)

  /** The methods `handle_msg` routes to a handler. */
  const SupportedMethods: set<string> := {"getobject", "createobject", "getbucket", "createbucket"}

  function ParseFailure(rpc: string): string
  {
    "Failed to parse JSON data as payload for " + rpc + " function"
  }

  /** `unwrap_fast_message`: the first element of the request array, which must not be empty. */
  function UnwrapFastMessage<T>(rpc: string, arr: seq<T>): (r: Result<T, string>)
    ensures r.Ok? <==> arr != []
    ensures r.Ok? ==> r.value == arr[0]
    ensures r.Err? ==> r.error == ParseFailure(rpc)
  {
    if arr == [] then Err(ParseFailure(rpc)) else Ok(arr[0])
  }

  /** A value the client wrapped in an array, as Fast requires, is unwrapped to itself. */
  lemma UnwrapOfWrapped<T>(rpc: string, x: T, rest: seq<T>)
    ensures UnwrapFastMessage(rpc, [x] + rest) == Ok(x)
  {
  }

  /**
   * `handle_request`: decode the array, unwrap its first element, run the
   * action on it; the first step to fail gives the error, as an I/O error.
   */
  function HandleRequest<X>(rpc: string, data: Result<seq<X>, string>, action: X -> Result<HandlerResponse, string>)
    : (r: Result<HandlerResponse, HandlerError>)
    ensures data.Err? ==> r == Err(IO(data.error))
    ensures data == Ok([]) ==> r == Err(IO(ParseFailure(rpc)))
    ensures data.Ok? && data.value != [] ==>
      r == match action(data.value[0]) case Ok(v) => Ok(v) case Err(e) => Err(IO(e))
  {
    var payload :=
      match data
      case Err(e) => Err(e)
      case Ok(arr) => UnwrapFastMessage(rpc, arr);
    var acted :=
      match payload
      case Err(e) => Err(e)
      case Ok(p) => action(p);
    match acted
    case Ok(v) => Ok(v)
    case Err(e) => Err(IO(e))
  }

  /** The action is not run when decoding or unwrapping fails. */
  lemma ActionRunsOnlyOnPayload<X>(rpc: string, data: Result<seq<X>, string>,
                                   a1: X -> Result<HandlerResponse, string>, a2: X -> Result<HandlerResponse, string>)
    requires data.Err? || data == Ok([])
    ensures HandleRequest(rpc, data, a1) == HandleRequest(rpc, data, a2)
  {
  }

  /** Only the first element of the request array is read. */
  lemma OnlyFirstElementRead<X>(rpc: string, arr: seq<X>, action: X -> Result<HandlerResponse, string>)
    requires arr != []
    ensures HandleRequest(rpc, Ok(arr), action) == HandleRequest(rpc, Ok([arr[0]]), action)
  {
  }

  /** The messages of an action's response, in order. */
  function ResponseMessages(h: HandlerResponse): seq<FastMessage>
  {
    match h
    case Message(m) => [m]
    case Messages(ms) => ms
  }

  /** The error text a failed request reports. */
  function ErrorText(e: HandlerError): string
  {
    match e
    case Cueball(reason) => reason
    case IO(reason) => reason
  }

  /**
   * `handle_msg`: route the request by its method name and gather the
   * reply. `handled` stands for what the routed handler returned; for a
   * method outside `SupportedMethods` no handler runs.
   */
  method HandleMsg(rpc: string, handled: Result<HandlerResponse, HandlerError>)
    returns (r: Result<seq<FastMessage>, string>)
    ensures rpc !in SupportedMethods ==> r == Err("Unsupported functon: " + rpc)
    ensures rpc in SupportedMethods && handled.Err? ==> r == Err(ErrorText(handled.error))
    ensures rpc in SupportedMethods && handled.Ok? ==> r == Ok(ResponseMessages(handled.value))
  {
    if rpc !in SupportedMethods {
      return Err("Unsupported functon: " + rpc);
    }
    if handled.Err? {
      return Err(ErrorText(handled.error));
    }
    var response: seq<FastMessage> := [];
    match handled.value {
      case Message(m) => response := response + [m];
      case Messages(ms) => response := response + ms;
    }
    assert response == ResponseMessages(handled.value);
    r := Ok(response);
  }
}
