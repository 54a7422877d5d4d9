/**
 What the PowerVS manager does to the outside world, as a trace of steps:
 a request through the client, the ssh waiter, the playbook runner. Also
 the Python conversions the manager applies to values read from responses
 (truthiness, `str()` in an f-string path) and the retried volume delete
 shared by the create and delete paths.
 */
module PowerVSCalls {
  import opened Errors
  import opened Wrappers
  import opened Json
  import opened PowerVSClient
  import Retry
  import Strings

  datatype Step =
    | Api(call: ApiCall)
      /** `wait_for_ssh(address, timeout)` */
    | WaitForSsh(address: string, timeout: int)
      /** `run_playbook(host=address, playbook_path=playbook)` */
    | RunPlaybook(address: string, playbook: string)

  /** Python truthiness of a JSON value. Numbers count as false only when
      written `0` or `0.0`. */
  predicate JTruthy(x: Json) {
    match x
    case JNull => false
    case JBool(b) => b
    case JNum(repr) => repr != "0" && repr != "0.0"
    case JStr(s) => s != ""
    case JArr(items) => |items| > 0
    case JObj(fields) => |fields| > 0
  }

  /** `str(x)` for the scalar ids the manager puts into request paths. */
  function PyStr(x: Json): string {
    match x
    case JNull => "None"
    case JBool(b) => if b then "True" else "False"
    case JNum(repr) => repr
    case JStr(s) => s
    case JArr(_) => "[...]"
    case JObj(_) => "{...}"
  }

  /** The characters of a string, each as a one-character string. */
  function Chars(s: string): (r: seq<Json>)
    ensures |r| == |s|
    ensures forall i :: 0 <= i < |s| ==> r[i] == JStr([s[i]])
  {
    seq(|s|, i requires 0 <= i < |s| => JStr([s[i]]))
  }

  /** The keys of a dict, each once, as strings, in ascending order. */
  function Keys(fields: map<string, Json>): (r: seq<Json>)
    ensures |r| == |fields|
    ensures forall i :: 0 <= i < |r| ==> r[i].JStr? && r[i].s in fields
    ensures forall k :: k in fields ==> JStr(k) in r
  {
    var keys := Strings.Sorted(fields.Keys);
    var r := seq(|keys|, i requires 0 <= i < |keys| => JStr(keys[i]));
    assert forall k :: k in fields ==> JStr(k) in r by {
      forall k | k in fields
        ensures JStr(k) in r
      {
        var i :| 0 <= i < |keys| && keys[i] == k;
        assert r[i] == JStr(k);
      }
    }
    r
  }

  /** `for x in value`: a list yields its items, a string its characters
      and a dict its keys; anything else is not iterable. Dict keys are
      taken in ascending order: the model's JSON objects keep no insertion
      order. */
  function Items(x: Json): (r: Result<seq<Json>>)
    ensures r.Ok? <==> x.JArr? || x.JStr? || x.JObj?
    ensures x.JArr? ==> r == Ok(x.items)
    ensures x.JStr? ==> r.Ok? && |r.value| == |x.s|
                        && forall i :: 0 <= i < |x.s| ==> r.value[i] == JStr([x.s[i]])
    ensures x.JObj? ==> r.Ok? && |r.value| == |x.fields|
                        && (forall i :: 0 <= i < |r.value| ==> r.value[i].JStr? && r.value[i].s in x.fields)
                        && (forall k :: k in x.fields ==> JStr(k) in r.value)
  {
    match x
    case JArr(items) => Ok(items)
    case JStr(s) => Ok(Chars(s))
    case JObj(fields) => Ok(Keys(fields))
    case _ => Err(TypeError)
  }

  /** An empty dict or string is iterated zero times, quietly. */
  lemma EmptyContainersYieldNothing()
    ensures Items(JObj(map[])) == Ok([]) && Items(JStr("")) == Ok([])
  {
  }

  /** Budget of `_delete_volume_with_backoff`, in seconds. */
  const VolumeDeleteMaxTime: int := 120

  /** `_delete_volume_with_backoff` has no give-up predicate. */
  predicate NeverGiveUp(e: Exc) {
    false
  }

  /** The scripted tries of the `i`-th retried volume delete; none scripted
      means the first try is `Unscripted`. */
  function TriesAt(scripts: seq<seq<Retry.Attempt<Json>>>, i: nat): seq<Retry.Attempt<Json>> {
    if i < |scripts| then scripts[i] else []
  }

  /** `_delete_volume_with_backoff(volume_id)`: one DELETE per try, repeated
      while a request exception is raised within 120 seconds of the first.
      The two backoffs nest: each try here is one whole `client.request`, so
      its outcome is what is left after the client's own 300-second retries
      of server errors (`PowerVSClient.Request`). */
  function DeleteVolumeWithBackoff(volumeId: string, attempts: seq<Retry.Attempt<Json>>)
    : (r: (seq<Step>, Result<Json>))
    ensures 1 <= |r.0|
    ensures forall i :: 0 <= i < |r.0| ==> r.0[i] == Api(DeleteVolumeCall(volumeId))
    ensures forall k :: 0 <= k < |r.0| - 1 ==>
              Retry.AttemptAt(attempts, k).outcome.Err?
              && IsRequestException(Retry.AttemptAt(attempts, k).outcome.exc)
              && Retry.AttemptAt(attempts, k).elapsed < VolumeDeleteMaxTime
    ensures r.1 == Retry.AttemptAt(attempts, |r.0| - 1).outcome
    ensures r.1.Err? && IsRequestException(r.1.exc)
            ==> Retry.AttemptAt(attempts, |r.0| - 1).elapsed >= VolumeDeleteMaxTime
  {
    var run := Retry.Run(attempts, 0, VolumeDeleteMaxTime, NeverGiveUp);
    var steps := seq(run.0, _ => Api(DeleteVolumeCall(volumeId)));
    assert |steps| == run.0;
    assert forall k :: 0 <= k < |steps| - 1 ==>
             Retry.AttemptAt(attempts, k).outcome.Err?
             && IsRequestException(Retry.AttemptAt(attempts, k).outcome.exc)
             && Retry.AttemptAt(attempts, k).elapsed < VolumeDeleteMaxTime by {
      forall k | 0 <= k < |steps| - 1
        ensures Retry.AttemptAt(attempts, k).outcome.Err?
        ensures IsRequestException(Retry.AttemptAt(attempts, k).outcome.exc)
        ensures Retry.AttemptAt(attempts, k).elapsed < VolumeDeleteMaxTime
      {
        assert Retry.RetriedAt(attempts, k, VolumeDeleteMaxTime, NeverGiveUp);
      }
    }
    (steps, run.1)
  }

  /** A volume delete that succeeds on its first try is one DELETE. */
  lemma DeleteVolumeFirstTry(volumeId: string, attempts: seq<Retry.Attempt<Json>>)
    requires |attempts| > 0 && attempts[0].outcome.Ok?
    ensures DeleteVolumeWithBackoff(volumeId, attempts) == ([Api(DeleteVolumeCall(volumeId))], attempts[0].outcome)
  {
    var r := DeleteVolumeWithBackoff(volumeId, attempts);
    assert Retry.AttemptAt(attempts, 0).outcome.Ok?;
    assert |r.0| == 1;
    assert r.0 == [r.0[0]];
  }
}
