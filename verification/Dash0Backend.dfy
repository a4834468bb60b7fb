/** The part of the Dash0 API that holds check rules and recording rules, and how a client sees its answers. */
module Dash0Backend {
  import opened Common

  datatype ObjectType = CheckRule | RecordingRule

  /** Objects of different types can have the same origin. */
  datatype ApiObject = ApiObject(objectType: ObjectType, origin: string)

  type Payload = string

  datatype Verb = Put(payload: Payload) | Delete

  datatype ApiRequest = ApiRequest(verb: Verb, itemName: string, target: ApiObject)

  datatype ClientError = InvalidAuthToken | UnexpectedStatus(code: int) | TransportError

  /** What goes wrong with a call. A call that fails for the client may still have had its effect. */
  datatype Fault = Healthy | Fails(error: ClientError, applied: bool)

  function Effect(objects: map<ApiObject, Payload>, request: ApiRequest): map<ApiObject, Payload> {
    match request.verb
    case Put(payload) => objects[request.target := payload]
    case Delete => objects - {request.target}
  }

  function Serve(objects: map<ApiObject, Payload>, request: ApiRequest, fault: Fault): map<ApiObject, Payload> {
    if fault.Healthy? || fault.applied then Effect(objects, request) else objects
  }

  /** The error the client of the API sees. */
  function Answer(objects: map<ApiObject, Payload>, request: ApiRequest, fault: Fault): Option<ClientError> {
    match fault
    case Fails(error, _) => Some(error)
    case Healthy => if request.verb.Delete? && request.target !in objects then Some(UnexpectedStatus(404)) else None
  }

  /** The status code under which a failed call is recorded, if it counts as failed. Deleting an object that is already
      gone does not, and an auth token that the client refuses to use counts as unauthorized. */
  function ConvertApiClientError(error: ClientError, isDelete: bool): Option<int> {
    match error
    case InvalidAuthToken => Some(401)
    case TransportError => Some(0)
    case UnexpectedStatus(code) => if isDelete && code == 404 then None else Some(code)
  }

  /** The status code recorded for a request, which depends on what goes wrong but not on the objects that exist. */
  function FailureCode(request: ApiRequest, fault: Fault): Option<int> {
    match fault
    case Healthy => None
    case Fails(error, _) => ConvertApiClientError(error, request.verb.Delete?)
  }

  type Faults = ApiObject -> Fault

  function ServeAll(objects: map<ApiObject, Payload>, requests: seq<ApiRequest>, faults: Faults)
    : map<ApiObject, Payload>
  {
    if requests == [] then
      objects
    else
      var last := requests[|requests| - 1];
      Serve(ServeAll(objects, requests[..|requests| - 1], faults), last, faults(last.target))
  }

  /** The recorded status codes by item name. A later failure replaces the code of an earlier one with the same name. */
  function RecordedCodes(requests: seq<ApiRequest>, faults: Faults): map<string, int> {
    if requests == [] then
      map[]
    else
      var last := requests[|requests| - 1];
      var before := RecordedCodes(requests[..|requests| - 1], faults);
      match FailureCode(last, faults(last.target))
      case None => before
      case Some(code) => before[last.itemName := code]
  }

  /** The names of the items whose request did not count as failed, in the order of the requests. */
  function Succeeded(requests: seq<ApiRequest>, faults: Faults): seq<string> {
    if requests == [] then
      []
    else
      var last := requests[|requests| - 1];
      Succeeded(requests[..|requests| - 1], faults) +
      (if FailureCode(last, faults(last.target)).None? then [last.itemName] else [])
  }

  ghost predicate DistinctTargets(requests: seq<ApiRequest>) {
    forall i, j | 0 <= i < j < |requests| :: requests[i].target != requests[j].target
  }

  lemma {:induction false} UntargetedObjectsStay(objects: map<ApiObject, Payload>, requests: seq<ApiRequest>,
                                                 faults: Faults, o: ApiObject)
    requires forall i | 0 <= i < |requests| :: requests[i].target != o
    ensures Lookup(ServeAll(objects, requests, faults), o) == Lookup(objects, o)
  {
    if requests != [] {
      UntargetedObjectsStay(objects, requests[..|requests| - 1], faults, o);
    }
  }

  lemma {:induction false} TargetedObjectsChange(objects: map<ApiObject, Payload>, requests: seq<ApiRequest>,
                                                 faults: Faults, i: nat)
    requires i < |requests| && DistinctTargets(requests)
    ensures var o := requests[i].target;
      Lookup(ServeAll(objects, requests, faults), o) == Lookup(Serve(objects, requests[i], faults(o)), o)
  {
    var n := |requests| - 1;
    if i < n {
      TargetedObjectsChange(objects, requests[..n], faults, i);
    } else {
      UntargetedObjectsStay(objects, requests[..n], faults, requests[n].target);
    }
  }

  class Dash0Api {
    var objects: map<ApiObject, Payload>

    method Execute(request: ApiRequest, fault: Fault) returns (error: Option<ClientError>)
      modifies this
      ensures objects == Serve(old(objects), request, fault)
      ensures error == Answer(old(objects), request, fault)
      ensures fault.Healthy? && request.verb.Put? ==>
        objects == old(objects)[request.target := request.verb.payload] && error == None
      ensures fault.Healthy? && request.verb.Delete? ==>
        && request.target !in objects
        && error == (if request.target in old(objects) then None else Some(UnexpectedStatus(404)))
      ensures fault.Fails? ==> error == Some(fault.error) && (!fault.applied ==> objects == old(objects))
    {
      error := Answer(objects, request, fault);
      if fault.Healthy? || fault.applied {
        match request.verb
        case Put(payload) => objects := objects[request.target := payload];
        case Delete => objects := objects - {request.target};
      }
    }
  }

  /** Executes all requests, whatever the outcome of the earlier ones. */
  method ExecuteAllApiCalls(api: Dash0Api, requests: seq<ApiRequest>, faults: Faults)
    returns (successfullySynchronized: seq<string>, httpErrors: map<string, ClientError>,
             httpErrorStatusCodes: map<string, int>)
    modifies api
    ensures api.objects == ServeAll(old(api.objects), requests, faults)
    ensures httpErrorStatusCodes == RecordedCodes(requests, faults)
    ensures httpErrors.Keys == httpErrorStatusCodes.Keys
    ensures successfullySynchronized == Succeeded(requests, faults)
  {
    successfullySynchronized, httpErrors, httpErrorStatusCodes := [], map[], map[];
    assert requests[..|requests|] == requests;
    for i := 0 to |requests|
      invariant api.objects == ServeAll(old(api.objects), requests[..i], faults)
      invariant httpErrorStatusCodes == RecordedCodes(requests[..i], faults)
      invariant httpErrors.Keys == httpErrorStatusCodes.Keys
      invariant successfullySynchronized == Succeeded(requests[..i], faults)
    {
      var request := requests[i];
      assert requests[..i + 1][..i] == requests[..i];
      var error := api.Execute(request, faults(request.target));
      var code := if error.None? then None else ConvertApiClientError(error.value, request.verb.Delete?);
      if code.Some? {
        httpErrors := httpErrors[request.itemName := error.value];
        httpErrorStatusCodes := httpErrorStatusCodes[request.itemName := code.value];
      } else {
        successfullySynchronized := successfullySynchronized + [request.itemName];
      }
    }
  }
}
