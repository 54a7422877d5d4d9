/**
 `PowerVSVMManager.delete_vm`: find the instance by its exact server name
 (the first match), detach and delete each of its data volumes, tolerating
 HTTP errors per volume, then delete the instance together with its data
 volumes. The client's answers are scripted in a `DeleteVmWorld`.
 */
module PowerVSDelete {
  import opened Errors
  import opened Wrappers
  import opened Json
  import opened Seqs
  import opened PowerVSClient
  import opened PowerVSCalls
  import Retry

  /** The scripted answers of one `delete_vm`: the instance list, the
      instance details, one detach answer and the delete tries per volume,
      and the final instance delete. */
  datatype DeleteVmWorld = DeleteVmWorld(
    listed: Result<Json>,
    details: Result<Json>,
    detachAnswers: seq<Result<Json>>,
    volumeDeletes: seq<seq<Retry.Attempt<Json>>>,
    deleteAnswer: Result<Json>)

  /** `instance["serverName"]` */
  function ServerName(instance: Json): Result<Json> {
    Item(instance, Field("serverName"))
  }

  /** Entry `i` is the first whose server name is exactly `name`, and every
      entry before it has a server name. */
  predicate IsFirstNamed(items: seq<Json>, name: string, i: int) {
    && 0 <= i < |items|
    && ServerName(items[i]) == Ok(JStr(name))
    && forall j :: 0 <= j < i ==> ServerName(items[j]).Ok? && ServerName(items[j]).value != JStr(name)
  }

  /** The search loop of `delete_vm`: the `pvmInstanceID` of the first
      instance named `name`, or None (`JNull`) when none is. An instance
      without a `serverName` met before the match raises KeyError. */
  function FindInstanceId(items: seq<Json>, name: string): (r: Result<Json>)
    ensures forall i :: IsFirstNamed(items, name, i) ==> r == Item(items[i], Field("pvmInstanceID"))
    ensures (forall j :: 0 <= j < |items| ==> ServerName(items[j]).Ok? && ServerName(items[j]).value != JStr(name))
            ==> r == Ok(JNull)
    decreases |items|
  {
    if |items| == 0 then Ok(JNull)
    else
      match ServerName(items[0])
      case Err(e) => Err(e)
      case Ok(n) =>
        if n == JStr(name) then Item(items[0], Field("pvmInstanceID"))
        else
          var r := FindInstanceId(items[1..], name);
          assert forall i :: IsFirstNamed(items, name, i) ==> i >= 1 && IsFirstNamed(items[1..], name, i - 1);
          r
  }

  /** The first match wins: a later instance of the same name is never chosen. */
  lemma FirstMatchWins(before: seq<Json>, name: string, id: Json, rest: seq<Json>)
    requires forall j :: 0 <= j < |before| ==> ServerName(before[j]).Ok? && ServerName(before[j]).value != JStr(name)
    ensures FindInstanceId(before + [JObj(map["serverName" := JStr(name), "pvmInstanceID" := id])] + rest, name) == Ok(id)
  {
    var inst := JObj(map["serverName" := JStr(name), "pvmInstanceID" := id]);
    var items := before + [inst] + rest;
    assert items[|before|] == inst;
    assert forall j :: 0 <= j < |before| ==> items[j] == before[j];
    assert IsFirstNamed(items, name, |before|);
  }

  /** What one volume's detach-and-delete ended with: done or skipped after
      an HTTP error, or an exception that stops `delete_vm`. */
  function TeardownVolume(instanceId: string, volumeId: Json, detach: Result<Json>,
                          tries: seq<Retry.Attempt<Json>>): (r: (seq<Step>, Option<Exc>))
    ensures |r.0| >= 1 && r.0[0] == Api(DetachVolumeCall(instanceId, PyStr(volumeId)))
    ensures forall i :: 1 <= i < |r.0| ==> r.0[i] == Api(DeleteVolumeCall(PyStr(volumeId)))
    ensures detach.Err? ==> r.0 == [Api(DetachVolumeCall(instanceId, PyStr(volumeId)))]
    ensures detach.Ok? ==> |r.0| >= 2
    ensures r.1.Some? ==> !r.1.value.HttpError?
    ensures detach.Err? && !detach.exc.HttpError? ==> r.1 == Some(detach.exc)
  {
    var detachStep := Api(DetachVolumeCall(instanceId, PyStr(volumeId)));
    match detach
    case Err(e) => ([detachStep], if e.HttpError? then None else Some(e))
    case Ok(_) =>
      var del := DeleteVolumeWithBackoff(PyStr(volumeId), tries);
      ([detachStep] + del.0,
       if del.1.Err? && !del.1.exc.HttpError? then Some(del.1.exc) else None)
  }

  /** The steps of one volume that was torn down without stopping the loop. */
  predicate VolumeStep(instanceId: string, volumeIds: seq<Json>, s: Step) {
    exists j :: 0 <= j < |volumeIds| &&
      (s == Api(DetachVolumeCall(instanceId, PyStr(volumeIds[j]))) || s == Api(DeleteVolumeCall(PyStr(volumeIds[j]))))
  }

  /** The volume loop of `delete_vm`, from the `k`-th volume on. */
  function Teardown(instanceId: string, volumeIds: seq<Json>, w: DeleteVmWorld, k: nat)
    : (r: (seq<Step>, Option<Exc>))
    ensures r.1.Some? ==> !r.1.value.HttpError?
    ensures forall i :: 0 <= i < |r.0| ==> VolumeStep(instanceId, volumeIds, r.0[i])
    ensures r.1.None? ==> forall j :: k <= j < |volumeIds| ==>
              Api(DetachVolumeCall(instanceId, PyStr(volumeIds[j]))) in r.0
    decreases |volumeIds| - k
  {
    if k >= |volumeIds| then ([], None)
    else
      var one := TeardownVolume(instanceId, volumeIds[k], Answer(w.detachAnswers, k), TriesAt(w.volumeDeletes, k));
      assert forall i :: 0 <= i < |one.0| ==> VolumeStep(instanceId, volumeIds, one.0[i]);
      if one.1.Some? then (one.0, one.1)
      else
        var rest := Teardown(instanceId, volumeIds, w, k + 1);
        assert rest.1.None? ==> forall j :: k <= j < |volumeIds| ==>
                 Api(DetachVolumeCall(instanceId, PyStr(volumeIds[j]))) in one.0 + rest.0 by {
          if rest.1.None? {
            forall j | k <= j < |volumeIds|
              ensures Api(DetachVolumeCall(instanceId, PyStr(volumeIds[j]))) in one.0 + rest.0
            {
              if j == k {
                assert (one.0 + rest.0)[0] == one.0[0];
              } else {
                var x := Api(DetachVolumeCall(instanceId, PyStr(volumeIds[j])));
                var m :| 0 <= m < |rest.0| && rest.0[m] == x;
                assert (one.0 + rest.0)[|one.0| + m] == x;
              }
            }
          }
        }
        (one.0 + rest.0, rest.1)
  }

  /** `delete_vm(name)`. */
  function DeleteVm(name: string, w: DeleteVmWorld): (r: (seq<Step>, Result<()>))
    ensures |r.0| >= 1 && r.0[0] == Api(ListInstancesCall())
    ensures w.listed.Ok? && Items(w.listed.value).Ok? && FindInstanceId(Items(w.listed.value).value, name).Ok?
            && !JTruthy(FindInstanceId(Items(w.listed.value).value, name).value)
            ==> r == ([Api(ListInstancesCall())], Ok(()))
    ensures r.1.Ok? && |r.0| > 1 ==>
              && w.listed.Ok? && Items(w.listed.value).Ok?
              && FindInstanceId(Items(w.listed.value).value, name).Ok?
              && JTruthy(FindInstanceId(Items(w.listed.value).value, name).value)
              && r.0[|r.0| - 1] == Api(DeleteInstanceCall(PyStr(FindInstanceId(Items(w.listed.value).value, name).value), true))
  {
    var list := [Api(ListInstancesCall())];
    match w.listed
    case Err(e) => (list, Err(e))
    case Ok(listed) =>
      match Items(listed)
      case Err(e) => (list, Err(e))
      case Ok(items) =>
        match FindInstanceId(items, name)
        case Err(e) => (list, Err(e))
        case Ok(found) =>
          if !JTruthy(found) then (list, Ok(()))
          else
            var id := PyStr(found);
            var list2 := list + [Api(GetInstanceCall(id))];
            match w.details
            case Err(e) => (list2, Err(e))
            case Ok(details) =>
              match Get(details, "volumeIDs", JArr([]))
              case Err(e) => (list2, Err(e))
              case Ok(ids) =>
                match Items(ids)
                case Err(e) => (list2, Err(e))
                case Ok(volumeIds) =>
                  var volumes := Teardown(id, volumeIds, w, 0);
                  if volumes.1.Some? then (list2 + volumes.0, Err(volumes.1.value))
                  else
                    (list2 + volumes.0 + [Api(DeleteInstanceCall(id, true))],
                     match w.deleteAnswer case Err(e) => Err(e) case Ok(_) => Ok(()))
  }

  /** The instance `delete_vm` found, when it found one. */
  predicate Found(name: string, w: DeleteVmWorld, id: string) {
    && w.listed.Ok? && Items(w.listed.value).Ok?
    && FindInstanceId(Items(w.listed.value).value, name).Ok?
    && JTruthy(FindInstanceId(Items(w.listed.value).value, name).value)
    && id == PyStr(FindInstanceId(Items(w.listed.value).value, name).value)
  }

  /** The trace of `delete_vm` once it has found the instance and read its
      volume list. */
  lemma DeleteVmShape(name: string, w: DeleteVmWorld, id: string, volumeIds: seq<Json>)
    requires Found(name, w, id)
    requires w.details.Ok? && Get(w.details.value, "volumeIDs", JArr([])) == Ok(JArr(volumeIds))
    ensures var head := [Api(ListInstancesCall()), Api(GetInstanceCall(id))];
            var volumes := Teardown(id, volumeIds, w, 0);
            && (volumes.1.Some? ==> DeleteVm(name, w) == (head + volumes.0, Err(volumes.1.value)))
            && (volumes.1.None? ==> DeleteVm(name, w).0 == head + volumes.0 + [Api(DeleteInstanceCall(id, true))]
                                    && (DeleteVm(name, w).1.Ok? <==> w.deleteAnswer.Ok?))
  {
    var items := Items(w.listed.value).value;
    var found := FindInstanceId(items, name).value;
    assert Items(JArr(volumeIds)) == Ok(volumeIds);
    assert [Api(ListInstancesCall())] + [Api(GetInstanceCall(id))]
        == [Api(ListInstancesCall()), Api(GetInstanceCall(id))];
  }

  /** `delete_vm` touches only the instance it found and that instance's
      volumes: after the listing, every request reads the instance, detaches
      or deletes one of its volumes, or deletes the instance with its data
      volumes. */
  lemma DeleteVmTouchesOnlyFound(name: string, w: DeleteVmWorld, id: string, volumeIds: seq<Json>)
    requires Found(name, w, id)
    requires w.details.Ok? && Get(w.details.value, "volumeIDs", JArr([])) == Ok(JArr(volumeIds))
    ensures forall i :: 1 <= i < |DeleteVm(name, w).0| ==>
              var s := DeleteVm(name, w).0[i];
              s == Api(GetInstanceCall(id)) || VolumeStep(id, volumeIds, s) || s == Api(DeleteInstanceCall(id, true))
  {
    DeleteVmShape(name, w, id, volumeIds);
    StepsAfterListing(id, volumeIds, Teardown(id, volumeIds, w, 0).0);
  }

  /** The steps after the listing, whether or not the instance delete is reached. */
  lemma StepsAfterListing(id: string, volumeIds: seq<Json>, volumes: seq<Step>)
    requires forall i :: 0 <= i < |volumes| ==> VolumeStep(id, volumeIds, volumes[i])
    ensures var head := [Api(ListInstancesCall()), Api(GetInstanceCall(id))];
            forall i :: 1 <= i < |head + volumes| ==>
              var s := (head + volumes)[i];
              s == Api(GetInstanceCall(id)) || VolumeStep(id, volumeIds, s) || s == Api(DeleteInstanceCall(id, true))
    ensures var head := [Api(ListInstancesCall()), Api(GetInstanceCall(id))];
            var all := head + volumes + [Api(DeleteInstanceCall(id, true))];
            forall i :: 1 <= i < |all| ==>
              all[i] == Api(GetInstanceCall(id)) || VolumeStep(id, volumeIds, all[i]) || all[i] == Api(DeleteInstanceCall(id, true))
  {
    var head := [Api(ListInstancesCall()), Api(GetInstanceCall(id))];
    forall i | 2 <= i < |head + volumes|
      ensures (head + volumes)[i] == volumes[i - 2]
      ensures (head + volumes + [Api(DeleteInstanceCall(id, true))])[i] == volumes[i - 2]
    {
    }
  }

  /** Every volume is detached before the instance is deleted, unless an
      error other than an HTTP error stopped the loop. */
  lemma DeleteVmDetachesEveryVolume(name: string, w: DeleteVmWorld, id: string, volumeIds: seq<Json>)
    requires Found(name, w, id)
    requires w.details.Ok? && Get(w.details.value, "volumeIDs", JArr([])) == Ok(JArr(volumeIds))
    requires Teardown(id, volumeIds, w, 0).1.None?
    ensures var r := DeleteVm(name, w);
            && r.0[|r.0| - 1] == Api(DeleteInstanceCall(id, true))
            && (r.1.Ok? <==> w.deleteAnswer.Ok?)
            && forall j :: 0 <= j < |volumeIds| ==> Api(DetachVolumeCall(id, PyStr(volumeIds[j]))) in r.0[..|r.0| - 1]
  {
    DeleteVmShape(name, w, id, volumeIds);
    var head := [Api(ListInstancesCall()), Api(GetInstanceCall(id))];
    var volumes := Teardown(id, volumeIds, w, 0);
    DetachesBeforeLast(head, volumes.0, Api(DeleteInstanceCall(id, true)), id, volumeIds);
  }

  lemma DetachesBeforeLast(head: seq<Step>, volumes: seq<Step>, last: Step, id: string, volumeIds: seq<Json>)
    requires forall j :: 0 <= j < |volumeIds| ==> Api(DetachVolumeCall(id, PyStr(volumeIds[j]))) in volumes
    ensures (head + volumes + [last])[..|head + volumes + [last]| - 1] == head + volumes
    ensures forall j :: 0 <= j < |volumeIds| ==> Api(DetachVolumeCall(id, PyStr(volumeIds[j]))) in head + volumes
  {
    assert (head + volumes + [last])[..|head + volumes + [last]| - 1] == head + volumes;
    assert forall x :: x in volumes ==> x in head + volumes;
  }

  /** An HTTP error while detaching or deleting one volume is skipped: the
      next volume is still detached. */
  lemma HttpErrorSkipsVolume(instanceId: string, volumeIds: seq<Json>, w: DeleteVmWorld, k: nat, status: int)
    requires k + 1 < |volumeIds|
    requires Answer(w.detachAnswers, k) == Err(HttpError(status))
    ensures var r := Teardown(instanceId, volumeIds, w, k);
            && |r.0| >= 2
            && r.0[0] == Api(DetachVolumeCall(instanceId, PyStr(volumeIds[k])))
            && r.0[1] == Api(DetachVolumeCall(instanceId, PyStr(volumeIds[k + 1])))
  {
    var one := TeardownVolume(instanceId, volumeIds[k], Answer(w.detachAnswers, k), TriesAt(w.volumeDeletes, k));
    var rest := Teardown(instanceId, volumeIds, w, k + 1);
    assert one.0 == [Api(DetachVolumeCall(instanceId, PyStr(volumeIds[k])))];
    var next := TeardownVolume(instanceId, volumeIds[k + 1], Answer(w.detachAnswers, k + 1), TriesAt(w.volumeDeletes, k + 1));
    assert rest.0[0] == next.0[0];
  }
}
