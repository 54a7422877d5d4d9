/**
 The PowerVS REST client: which failures are retried, how a request path is
 scoped to the workspace, how a response body is read, and the method,
 path and body each CRUD wrapper sends. The transport itself is a script of
 tries (see module Retry).
 */
module PowerVSClient {
  import opened Errors
  import opened Wrappers
  import opened Strings
  import opened Json
  import opened Credentials
  import Retry

  /** `_is_server_error`: an HTTP 5xx, or a connection failure or timeout.
      Every such failure is a `requests.RequestException`, and no 4xx answer
      and no other request exception is one. */
  predicate IsServerError(e: Exc): (r: bool)
    ensures r ==> IsRequestException(e)
    ensures e.HttpError? && 400 <= e.status < 500 ==> !r
    ensures e.OtherRequestError? ==> !r
  {
    if e.HttpError? then 500 <= e.status < 600
    else e.ConnectionError? || e.RequestTimeout?
  }

  /** The give-up rule of `request`: every failure except a server error, so
      what is not given up is always caught by the decorator, and an HTTP
      answer is given up exactly when its status is not 5xx. */
  predicate GiveUp(e: Exc): (r: bool)
    ensures !r ==> IsRequestException(e)
    ensures e.HttpError? ==> (r <==> !(500 <= e.status < 600))
    ensures e.ConnectionError? || e.RequestTimeout? ==> !r
  {
    !IsServerError(e)
  }

  /** Retry budget of `request`, in seconds. */
  const MaxTime: int := 300

  /** A client keeps its credentials and the cloud-instance id read at construction. */
  datatype Client = Client(credentials: Credentials, cloudInstanceId: string)

  /** `PowerVSClient(credentials)`: reading `cloud_instance_id` fails on a short CRN. */
  function NewClient(c: Credentials): (r: Result<Client>)
    ensures r.Ok? <==> CloudInstanceId(c).Ok?
    ensures r.Ok? ==> r.value.credentials == c && r.value.cloudInstanceId == CloudInstanceId(c).value
  {
    var id :- CloudInstanceId(c);
    Ok(Client(c, id))
  }

  /** The workspace prefix every non-broker path lives under. */
  function WorkspacePrefix(cloudInstanceId: string): string {
    "/cloud-instances/" + cloudInstanceId
  }

  /** The path rewrite in `request`. */
  function ScopePath(path: string, cloudInstanceId: string, broker: bool): (r: string)
    ensures broker ==> r == path
    ensures !broker ==> StartsWith(r, WorkspacePrefix(cloudInstanceId))
    ensures !broker && StartsWith(path, WorkspacePrefix(cloudInstanceId)) ==> r == path
    ensures !broker && !StartsWith(path, WorkspacePrefix(cloudInstanceId))
            ==> r == WorkspacePrefix(cloudInstanceId) + path
  {
    var prefix := WorkspacePrefix(cloudInstanceId);
    if !broker && !StartsWith(path, prefix) then
      assert (prefix + path)[..|prefix|] == prefix;
      prefix + path
    else path
  }

  /** Scoping an already scoped path changes nothing. */
  lemma ScopePathIdempotent(path: string, cloudInstanceId: string, broker: bool)
    ensures ScopePath(ScopePath(path, cloudInstanceId, broker), cloudInstanceId, broker)
            == ScopePath(path, cloudInstanceId, broker)
  {
  }

  /** The base URL `request` puts in front of the scoped path. */
  function BaseUrl(client: Client, broker: bool): (r: Result<string>)
    ensures broker ==> r == BrokerUrl(client.credentials)
    ensures !broker ==> r == ServiceUrl(client.credentials)
  {
    if broker then BrokerUrl(client.credentials) else ServiceUrl(client.credentials)
  }

  /** `url = f"{base_url}{path}"`: it exists iff the CRN has a region; a
      broker request goes to the broker URL with its path as given, any other
      to the service URL under the client's workspace. */
  function RequestUrl(client: Client, path: string, broker: bool): (r: Result<string>)
    ensures r.Ok? <==> Region(client.credentials).Ok?
    ensures r.Ok? && broker ==> r.value == BrokerUrl(client.credentials).value + path
    ensures r.Ok? && !broker ==>
              StartsWith(r.value, ServiceUrl(client.credentials).value + WorkspacePrefix(client.cloudInstanceId))
  {
    var base :- BaseUrl(client, broker);
    var scoped := ScopePath(path, client.cloudInstanceId, broker);
    var prefix := WorkspacePrefix(client.cloudInstanceId);
    assert !broker ==> scoped[..|prefix|] == prefix && (base + scoped)[..|base + prefix|] == base + prefix;
    Ok(base + scoped)
  }

  /** A constructed client always has a base URL: the instance field is past the region field. */
  lemma ConstructedClientHasUrls(c: Credentials, path: string, broker: bool)
    requires NewClient(c).Ok?
    ensures RequestUrl(NewClient(c).value, path, broker).Ok?
  {
  }

  /** A non-broker request lands under the workspace of the client's CRN. */
  lemma ServiceRequestsAreScoped(client: Client, path: string)
    requires RequestUrl(client, path, false).Ok?
    ensures StartsWith(RequestUrl(client, path, false).value,
                       ServiceUrl(client.credentials).value + WorkspacePrefix(client.cloudInstanceId))
  {
    var base := ServiceUrl(client.credentials).value;
    var scoped := ScopePath(path, client.cloudInstanceId, false);
    var prefix := WorkspacePrefix(client.cloudInstanceId);
    assert scoped[..|prefix|] == prefix;
    assert (base + scoped)[..|base + prefix|] == base + prefix;
  }

  /** The body of an HTTP response as `request` sees it. */
  datatype Body = NoContent | Content(json: Json)

  /** `return response.json() if response.content else {}` */
  function DecodeBody(b: Body): (j: Json)
    ensures b.NoContent? ==> j == JObj(map[])
    ensures b.Content? ==> j == b.json
  {
    match b
    case NoContent => JObj(map[])
    case Content(json) => json
  }

  /** One request as the wrappers issue it. */
  datatype ApiCall = ApiCall(verb: string, path: string, body: Option<Json>, broker: bool)

  function CreateInstanceCall(instanceBody: Json): ApiCall {
    ApiCall("POST", "/pvm-instances", Some(instanceBody), false)
  }

  function GetInstanceCall(instanceId: string): ApiCall {
    ApiCall("GET", "/pvm-instances/" + instanceId, None, false)
  }

  function DeleteInstanceCall(instanceId: string, deleteDataVolumes: bool): ApiCall {
    ApiCall("DELETE", "/pvm-instances/" + instanceId,
            Some(JObj(map["delete_data_volumes" := JBool(deleteDataVolumes)])), false)
  }

  function ListInstancesCall(): ApiCall {
    ApiCall("GET", "/pvm-instances", None, false)
  }

  function CreateVolumeCall(volumeBody: Json): ApiCall {
    ApiCall("POST", "/volumes", Some(volumeBody), false)
  }

  function UpdateVolumeCall(volumeId: string, volumeBody: Option<Json>): ApiCall {
    ApiCall("PUT", "/volumes/" + volumeId, volumeBody, false)
  }

  function DeleteVolumeCall(volumeId: string): ApiCall {
    ApiCall("DELETE", "/volumes/" + volumeId, None, false)
  }

  function DetachVolumeCall(instanceId: string, volumeId: string): ApiCall {
    ApiCall("DELETE", "/pvm-instances/" + instanceId + "/volumes/" + volumeId, None, false)
  }

  function ListVolumesCall(): ApiCall {
    ApiCall("GET", "/volumes", None, false)
  }

  /** The URLs the instance-level wrappers reach, once scoped: deleting an
      instance and detaching one of its volumes both address the instance's
      own URL, the detach one level below it. */
  lemma InstanceCallUrls(client: Client, instanceId: string, volumeId: string, flag: bool)
    requires RequestUrl(client, "/", false).Ok?
    ensures var inst := ServiceUrl(client.credentials).value
                        + "/cloud-instances/" + client.cloudInstanceId + "/pvm-instances/" + instanceId;
            && RequestUrl(client, DeleteInstanceCall(instanceId, flag).path, false) == Ok(inst)
            && RequestUrl(client, DetachVolumeCall(instanceId, volumeId).path, false)
               == Ok(inst + "/volumes/" + volumeId)
            && DeleteInstanceCall(instanceId, flag).verb == DetachVolumeCall(instanceId, volumeId).verb == "DELETE"
            && DeleteInstanceCall(instanceId, flag).body == Some(JObj(map["delete_data_volumes" := JBool(flag)]))
            && DetachVolumeCall(instanceId, volumeId).body == None
  {
    var base := ServiceUrl(client.credentials).value;
    var prefix := WorkspacePrefix(client.cloudInstanceId);
    var instPath := "/pvm-instances/" + instanceId;
    var detachPath := "/pvm-instances/" + instanceId + "/volumes/" + volumeId;
    assert instPath[1] == 'p' && detachPath[1] == 'p';
    UnscopedWrapperPath(client.cloudInstanceId, instPath);
    UnscopedWrapperPath(client.cloudInstanceId, detachPath);
    assert base + (prefix + instPath)
        == base + "/cloud-instances/" + client.cloudInstanceId + "/pvm-instances/" + instanceId;
    assert base + (prefix + detachPath)
        == base + "/cloud-instances/" + client.cloudInstanceId + "/pvm-instances/" + instanceId
           + "/volumes/" + volumeId;
  }

  /** The instance-collection wrappers: `create_instance` posts the body to
      the workspace's `pvm-instances` collection, `list_instances` reads that
      collection and `get_instance` one member of it. */
  lemma InstanceCollectionUrls(client: Client, instanceId: string, instanceBody: Json)
    requires RequestUrl(client, "/", false).Ok?
    ensures var coll := ServiceUrl(client.credentials).value
                        + "/cloud-instances/" + client.cloudInstanceId + "/pvm-instances";
            && RequestUrl(client, CreateInstanceCall(instanceBody).path, false) == Ok(coll)
            && RequestUrl(client, ListInstancesCall().path, false) == Ok(coll)
            && RequestUrl(client, GetInstanceCall(instanceId).path, false) == Ok(coll + "/" + instanceId)
            && CreateInstanceCall(instanceBody).verb == "POST"
            && CreateInstanceCall(instanceBody).body == Some(instanceBody)
            && ListInstancesCall().verb == GetInstanceCall(instanceId).verb == "GET"
            && ListInstancesCall().body == GetInstanceCall(instanceId).body == None
  {
    var base := ServiceUrl(client.credentials).value;
    var prefix := WorkspacePrefix(client.cloudInstanceId);
    var collPath := "/pvm-instances";
    var getPath := "/pvm-instances/" + instanceId;
    assert collPath[1] == 'p' && getPath[1] == 'p';
    UnscopedWrapperPath(client.cloudInstanceId, collPath);
    UnscopedWrapperPath(client.cloudInstanceId, getPath);
    assert base + (prefix + collPath)
        == base + "/cloud-instances/" + client.cloudInstanceId + "/pvm-instances";
    assert base + (prefix + getPath)
        == base + "/cloud-instances/" + client.cloudInstanceId + "/pvm-instances" + "/" + instanceId;
  }

  /** The volume wrappers: `create_volume` posts to and `list_volumes` reads
      the workspace's `volumes` collection; `update_volume` puts and
      `delete_volume` deletes one member of it. */
  lemma VolumeCallUrls(client: Client, volumeId: string, volumeBody: Json, update: Option<Json>)
    requires RequestUrl(client, "/", false).Ok?
    ensures var coll := ServiceUrl(client.credentials).value
                        + "/cloud-instances/" + client.cloudInstanceId + "/volumes";
            && RequestUrl(client, CreateVolumeCall(volumeBody).path, false) == Ok(coll)
            && RequestUrl(client, ListVolumesCall().path, false) == Ok(coll)
            && RequestUrl(client, UpdateVolumeCall(volumeId, update).path, false) == Ok(coll + "/" + volumeId)
            && RequestUrl(client, DeleteVolumeCall(volumeId).path, false) == Ok(coll + "/" + volumeId)
            && CreateVolumeCall(volumeBody).verb == "POST" && CreateVolumeCall(volumeBody).body == Some(volumeBody)
            && ListVolumesCall().verb == "GET" && ListVolumesCall().body == None
            && UpdateVolumeCall(volumeId, update).verb == "PUT" && UpdateVolumeCall(volumeId, update).body == update
            && DeleteVolumeCall(volumeId).verb == "DELETE" && DeleteVolumeCall(volumeId).body == None
  {
    var base := ServiceUrl(client.credentials).value;
    var prefix := WorkspacePrefix(client.cloudInstanceId);
    var collPath := "/volumes";
    var onePath := "/volumes/" + volumeId;
    assert collPath[1] == 'v' && onePath[1] == 'v';
    UnscopedWrapperPath(client.cloudInstanceId, collPath);
    UnscopedWrapperPath(client.cloudInstanceId, onePath);
    assert base + (prefix + collPath)
        == base + "/cloud-instances/" + client.cloudInstanceId + "/volumes";
    assert base + (prefix + onePath)
        == base + "/cloud-instances/" + client.cloudInstanceId + "/volumes" + "/" + volumeId;
  }

  /** Wrapper paths start with `/p` or `/v`, never with the workspace prefix, so
      `request` always prepends it. */
  lemma UnscopedWrapperPath(cloudInstanceId: string, path: string)
    requires |path| >= 2 && path[0] == '/' && (path[1] == 'p' || path[1] == 'v')
    ensures ScopePath(path, cloudInstanceId, false) == WorkspacePrefix(cloudInstanceId) + path
  {
    var prefix := WorkspacePrefix(cloudInstanceId);
    assert prefix[1] == 'c';
  }

  /** `list_instances`: the `pvmInstances` entry of the response, `[]` when absent. */
  function ListInstancesResult(response: Json): (r: Result<Json>)
    ensures response.JObj? && "pvmInstances" !in response.fields ==> r == Ok(JArr([]))
    ensures response.JObj? && "pvmInstances" in response.fields
            ==> r == Ok(response.fields["pvmInstances"])
    ensures !response.JObj? ==> r.Err?
  {
    Get(response, "pvmInstances", JArr([]))
  }

  /** `list_volumes`: the `volumes` entry of the response, `[]` when absent. */
  function ListVolumesResult(response: Json): (r: Result<Json>)
    ensures response.JObj? && "volumes" !in response.fields ==> r == Ok(JArr([]))
    ensures response.JObj? && "volumes" in response.fields ==> r == Ok(response.fields["volumes"])
    ensures !response.JObj? ==> r.Err?
  {
    Get(response, "volumes", JArr([]))
  }

  /** An empty response lists nothing. */
  lemma EmptyResponseListsNothing()
    ensures ListInstancesResult(DecodeBody(NoContent)) == Ok(JArr([]))
    ensures ListVolumesResult(DecodeBody(NoContent)) == Ok(JArr([]))
  {
  }

  /** `request(method, path, ...)`: the URL it addresses, how many tries the
      retry policy makes, and the decoded JSON or the exception that escapes.
      A CRN without a region makes `service_url` raise IndexError before any
      request is sent; IndexError is no `RequestException`, so the decorator
      lets it through at once. */
  method Request(client: Client, call: ApiCall, attempts: seq<Retry.Attempt<Body>>)
    returns (url: Result<string>, tries: nat, r: Result<Json>)
    ensures url == RequestUrl(client, call.path, call.broker)
    ensures NewClient(client.credentials) == Ok(client) ==> url.Ok?
    ensures url.Err? ==> tries == 0 && r == Err(url.exc)
    ensures url.Ok? ==> 1 <= tries <= |attempts| + 1
    ensures forall k :: 0 <= k < tries - 1 ==>
              var o := Retry.AttemptAt(attempts, k).outcome;
              o.Err? && IsServerError(o.exc) && Retry.AttemptAt(attempts, k).elapsed < MaxTime
    ensures url.Ok? ==>
            var last := Retry.AttemptAt(attempts, tries - 1);
            && (r.Ok? <==> last.outcome.Ok?)
            && (r.Ok? ==> r.value == DecodeBody(last.outcome.value))
            && (r.Err? ==> r.exc == last.outcome.exc
                           && (!IsServerError(r.exc) || last.elapsed >= MaxTime))
  {
    url := RequestUrl(client, call.path, call.broker);
    if NewClient(client.credentials) == Ok(client) {
      ConstructedClientHasUrls(client.credentials, call.path, call.broker);
    }
    if url.Err? {
      return url, 0, Err(url.exc);
    }
    var outcome;
    tries, outcome := Retry.OnException(attempts, MaxTime, GiveUp);
    forall k | 0 <= k < tries - 1
      ensures var o := Retry.AttemptAt(attempts, k).outcome;
              o.Err? && IsServerError(o.exc) && Retry.AttemptAt(attempts, k).elapsed < MaxTime
    {
      assert Retry.RetriedAt(attempts, k, MaxTime, GiveUp);
    }
    match outcome
    case Ok(body) => r := Ok(DecodeBody(body));
    case Err(e) => r := Err(e);
  }

  /** A client error (HTTP 4xx) on the first try is raised after that one
      try: the decorator gives it up at once. */
  lemma ClientErrorIsNotRetried(attempts: seq<Retry.Attempt<Body>>, status: int)
    requires |attempts| > 0 && attempts[0].outcome == Err(HttpError(status)) && 400 <= status < 500
    ensures Retry.Run(attempts, 0, MaxTime, GiveUp) == (1, Err(HttpError(status)))
  {
    assert !Retry.RetriedAt(attempts, 0, MaxTime, GiveUp);
    Retry.FirstRejectedEndsCall(attempts, MaxTime, GiveUp, 0);
  }
}
