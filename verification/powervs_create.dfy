/**
 `PowerVSVMManager.create_vm`: build the instance body, create the data
 volumes, create the instance and wait for it, and, when that raises,
 delete the volumes just created before re-raising; then read the address,
 wait for ssh and run the playbook. The client's answers are scripted in a
 `CreateVmWorld`.
 */
module PowerVSCreate {
  import opened Errors
  import opened Wrappers
  import opened Json
  import opened PowerVSClient
  import opened PowerVSBody
  import opened PowerVSCalls
  import opened PowerVSWait
  import Strings
  import Retry

  /** The scripted answers of one `create_vm`: one per `create_volume` call,
      the `create_instance` answer, the wait rounds, the tries of each
      clean-up delete, and the two subprocess collaborators. */
  datatype CreateVmWorld = CreateVmWorld(
    volumeAnswers: seq<Result<Json>>,
    instanceAnswer: Result<Json>,
    polls: seq<Poll>,
    cleanup: seq<seq<Retry.Attempt<Json>>>,
    ssh: Result<()>,
    playbook: Result<()>)

  /** Default timeout of `wait_for_ssh`. */
  const SshTimeout: int := 240

  /** The request creating the `i`-th volume. */
  function CreateVolumeStep(v: VolumeSpec, tags: Option<seq<string>>): Step {
    Api(CreateVolumeCall(VolumeBody(v, tags)))
  }

  /** `resp.get("volumeID")` */
  function VolumeIdOf(resp: Json): Result<Json> {
    Get(resp, "volumeID", JNull)
  }

  /** What the `i`-th `create_volume` answer yields: the id, or the exception. */
  function CreatedId(answers: seq<Result<Json>>, i: nat): Result<Json> {
    var resp :- Seqs.Answer(answers, i);
    VolumeIdOf(resp)
  }

  /** `_create_volumes_with_tags(volumes, tags)`: one `create_volume` per
      parsed volume, in order, each carrying `userTags` iff the tags are
      non-empty; the ids come back in the same order, and the first failure
      propagates with nothing undone. */
  function CreateVolumes(vols: seq<VolumeSpec>, tags: Option<seq<string>>, answers: seq<Result<Json>>)
    : (r: (seq<Step>, Result<seq<Json>>))
    ensures 1 <= |r.0| <= |vols| || (r.0 == [] && vols == [])
    ensures forall i :: 0 <= i < |r.0| ==> r.0[i] == CreateVolumeStep(vols[i], tags)
    ensures r.1.Ok? ==> |r.0| == |vols| && |r.1.value| == |vols|
    ensures r.1.Ok? ==> forall i :: 0 <= i < |vols| ==> CreatedId(answers, i) == Ok(r.1.value[i])
    ensures r.1.Err? ==> forall i :: 0 <= i < |r.0| - 1 ==> CreatedId(answers, i).Ok?
    ensures r.1.Err? ==> |r.0| >= 1 && CreatedId(answers, |r.0| - 1) == Err(r.1.exc)
    ensures forall i :: 0 <= i < |r.0| ==> r.0[i].Api? && r.0[i].call.verb == "POST"
    decreases |vols|
  {
    if |vols| == 0 then ([], Ok([]))
    else
      var step := CreateVolumeStep(vols[0], tags);
      match CreatedId(answers, 0)
      case Err(e) => ([step], Err(e))
      case Ok(id) =>
        var rest := CreateVolumes(vols[1..], tags, Seqs.Rest(answers));
        ShiftedAnswers(answers);
        assert forall i :: 1 <= i < 1 + |rest.0| ==> CreatedId(answers, i) == CreatedId(Seqs.Rest(answers), i - 1);
        ([step] + rest.0, if rest.1.Ok? then Ok([id] + rest.1.value) else rest.1)
  }

  /** The answers after the first are the first answers of the tail. */
  lemma ShiftedAnswers(answers: seq<Result<Json>>)
    ensures forall i: nat :: CreatedId(Seqs.Rest(answers), i) == CreatedId(answers, i + 1)
  {
  }

  /** Each volume of the body carries `userTags` exactly when the tags are
      a non-empty list, and every volume gets a request. */
  lemma VolumeRequestsCarryTags(vols: seq<VolumeSpec>, tags: Option<seq<string>>, answers: seq<Result<Json>>)
    requires CreateVolumes(vols, tags, answers).1.Ok?
    ensures forall i :: 0 <= i < |vols| ==>
              && CreateVolumes(vols, tags, answers).0[i].call.body.Some?
              && CreateVolumes(vols, tags, answers).0[i].call.body.value.JObj?
              && ("userTags" in CreateVolumes(vols, tags, answers).0[i].call.body.value.fields <==> TruthyList(tags))
  {
  }

  /** Deleting the freshly created volumes after a failure: every id is
      tried in order, any `Exception` it raises is swallowed. Only an
      escape that is not an `Exception` stops the sweep. */
  function Cleanup(ids: seq<Json>, tries: seq<seq<Retry.Attempt<Json>>>): (r: (seq<Step>, Option<Exc>))
    ensures r.1.Some? ==> !IsException(r.1.value)
    ensures |ids| > 0 ==> |r.0| > 0 && r.0[0] == Api(DeleteVolumeCall(PyStr(ids[0])))
    ensures |ids| == 0 ==> r == ([], None)
    ensures forall i :: 0 <= i < |r.0| ==> IsDelete(r.0[i])
    ensures Api(ListInstancesCall()) !in r.0
    decreases |ids|
  {
    if |ids| == 0 then ([], None)
    else
      var one := DeleteVolumeWithBackoff(PyStr(ids[0]), TriesAt(tries, 0));
      if one.1.Err? && !IsException(one.1.exc) then (one.0, Some(one.1.exc))
      else (one.0 + Cleanup(ids[1..], RestTries(tries)).0, Cleanup(ids[1..], RestTries(tries)).1)
  }

  /** The scripted tries of the deletes after the first. */
  function RestTries(tries: seq<seq<Retry.Attempt<Json>>>): (r: seq<seq<Retry.Attempt<Json>>>)
    ensures forall i: nat :: TriesAt(r, i) == TriesAt(tries, i + 1)
  {
    if |tries| > 0 then tries[1..] else []
  }

  /** The clean-up deletes only volumes it was given. */
  lemma {:induction false} CleanupTouchesOnlyIds(ids: seq<Json>, tries: seq<seq<Retry.Attempt<Json>>>)
    ensures forall i :: 0 <= i < |Cleanup(ids, tries).0| ==>
              exists j :: 0 <= j < |ids| && Cleanup(ids, tries).0[i] == Api(DeleteVolumeCall(PyStr(ids[j])))
    decreases |ids|
  {
    if |ids| > 0 {
      var one := DeleteVolumeWithBackoff(PyStr(ids[0]), TriesAt(tries, 0));
      var stops := one.1.Err? && !IsException(one.1.exc);
      var rest := Cleanup(ids[1..], RestTries(tries));
      var r := Cleanup(ids, tries);
      assert r.0 == if stops then one.0 else one.0 + rest.0;
      CleanupTouchesOnlyIds(ids[1..], RestTries(tries));
      DeletesOfHeadAndTail(ids, one.0, rest.0);
    } else {
      assert Cleanup(ids, tries).0 == [];
    }
  }

  /** `s` deletes one of the volumes `ids`. */
  ghost predicate DeletesOneOf(s: Step, ids: seq<Json>) {
    exists j :: 0 <= j < |ids| && s == Api(DeleteVolumeCall(PyStr(ids[j])))
  }

  /** Deletes of the first id followed by deletes of later ids are all deletes of given ids. */
  lemma DeletesOfHeadAndTail(ids: seq<Json>, first: seq<Step>, rest: seq<Step>)
    requires |ids| > 0
    requires forall i :: 0 <= i < |first| ==> first[i] == Api(DeleteVolumeCall(PyStr(ids[0])))
    requires forall i :: 0 <= i < |rest| ==> DeletesOneOf(rest[i], ids[1..])
    ensures forall i :: 0 <= i < |first| ==> DeletesOneOf(first[i], ids)
    ensures forall i :: 0 <= i < |first + rest| ==> DeletesOneOf((first + rest)[i], ids)
  {
    forall i | 0 <= i < |first|
      ensures DeletesOneOf(first[i], ids)
    {
      assert first[i] == Api(DeleteVolumeCall(PyStr(ids[0])));
    }
    forall i | 0 <= i < |first + rest|
      ensures DeletesOneOf((first + rest)[i], ids)
    {
      if i < |first| {
        assert (first + rest)[i] == first[i];
      } else {
        assert (first + rest)[i] == rest[i - |first|];
        var j :| 0 <= j < |ids[1..]| && rest[i - |first|] == Api(DeleteVolumeCall(PyStr(ids[1..][j])));
        assert ids[1..][j] == ids[j + 1];
      }
    }
  }

  /** A clean-up that ends without an escape has asked to delete every id. */
  lemma {:induction false} CleanupCoversEveryId(ids: seq<Json>, tries: seq<seq<Retry.Attempt<Json>>>)
    requires Cleanup(ids, tries).1.None?
    ensures forall j :: 0 <= j < |ids| ==> Api(DeleteVolumeCall(PyStr(ids[j]))) in Cleanup(ids, tries).0
    decreases |ids|
  {
    if |ids| > 0 {
      var one := DeleteVolumeWithBackoff(PyStr(ids[0]), TriesAt(tries, 0));
      var rest := Cleanup(ids[1..], RestTries(tries));
      CleanupCoversEveryId(ids[1..], RestTries(tries));
      assert Cleanup(ids, tries).0 == one.0 + rest.0;
      assert one.0[0] in one.0;
      forall j | 1 <= j < |ids|
        ensures Api(DeleteVolumeCall(PyStr(ids[j]))) in rest.0
      {
        assert ids[j] == ids[1..][j - 1];
      }
    }
  }

  /** `options.no_rmc`: a missing attribute raises, None is false. */
  function NoRmcOf(opts: PowerVSOptions): (r: Result<bool>)
    ensures opts.noRmc.Missing? <==> r.Err?
    ensures opts.noRmc.Has? ==> r == Ok(opts.noRmc.value)
  {
    match opts.noRmc
    case Missing => Err(AttributeError("no_rmc"))
    case PyNone => Ok(false)
    case Has(b) => Ok(b)
  }

  /** The request `_create_instance` sends: a POST of the body to the instance collection. */
  function CreateStep(body: InstanceBody): (s: Step)
    ensures s == Api(CreateInstanceCall(BodyJson(body)))
    ensures s.Api? && s.call.verb == "POST" && s.call.path == "/pvm-instances"
  {
    Api(CreateInstanceCall(BodyJson(body)))
  }

  /** The body of `try:` in `create_vm`: `_create_instance(body, options.no_rmc)`,
      which reads `instance[0]["pvmInstanceID"]` and waits for it. */
  function LaunchInstance(body: InstanceBody, opts: PowerVSOptions, w: CreateVmWorld): (r: (seq<Step>, Result<Json>))
    ensures opts.noRmc.Missing? ==> r == ([], Err(AttributeError("no_rmc")))
    ensures !opts.noRmc.Missing? ==> |r.0| >= 1 && r.0[0] == CreateStep(body)
    ensures forall i :: 0 <= i < |r.0| ==> !r.0[i].RunPlaybook?
    ensures forall i :: 0 <= i < |r.0| ==> !(r.0[i].Api? && r.0[i].call.verb == "DELETE")
    ensures Api(ListInstancesCall()) !in r.0
  {
    match NoRmcOf(opts)
    case Err(e) => ([], Err(e))
    case Ok(noRmc) =>
      var create := [CreateStep(body)];
      match w.instanceAnswer
      case Err(e) => (create, Err(e))
      case Ok(created) =>
        match Lookup(created, [Index(0), Field("pvmInstanceID")])
        case Err(e) => (create, Err(e))
        case Ok(id) =>
          var wait := WaitFrom(PyStr(id), noRmc, w.polls, 0);
          WaitStepsAreReads(PyStr(id), noRmc, w.polls, 0);
          assert Api(ListInstancesCall()) !in wait.steps by {
            assert |GetInstanceCall(PyStr(id)).path| > |ListInstancesCall().path|;
          }
          (create + wait.steps, wait.result)
  }

  /** A create response that is a string is indexed as a string: an empty
      one has no item 0 (IndexError), and the first character of any other
      cannot be indexed by `"pvmInstanceID"` (TypeError). Nothing is waited for. */
  lemma StringCreateResponse(body: InstanceBody, opts: PowerVSOptions, w: CreateVmWorld)
    requires !opts.noRmc.Missing?
    requires w.instanceAnswer.Ok? && w.instanceAnswer.value.JStr?
    ensures LaunchInstance(body, opts, w)
            == ([CreateStep(body)], Err(if w.instanceAnswer.value.s == "" then IndexError else TypeError))
  {
    var created := w.instanceAnswer.value;
    var path := [Index(0), Field("pvmInstanceID")];
    if created.s == "" {
      assert Lookup(created, path) == Err(IndexError);
    } else {
      assert Item(created, Index(0)) == Ok(JStr([created.s[0]]));
      assert Lookup(JStr([created.s[0]]), path[1..]) == Err(TypeError);
      assert Lookup(created, path) == Err(TypeError);
    }
  }

  /** The wait only reads the instance and probes ssh. */
  lemma {:induction false} WaitStepsAreReads(instanceId: string, noRmc: bool, polls: seq<Poll>, k: nat)
    ensures forall i :: 0 <= i < |WaitFrom(instanceId, noRmc, polls, k).steps| ==>
              var s := WaitFrom(instanceId, noRmc, polls, k).steps[i];
              s == Api(GetInstanceCall(instanceId)) || s.WaitForSsh?
    decreases |polls| - k
  {
    if k < |polls| {
      var round := PollOnce(instanceId, noRmc, polls[k]);
      WaitStep(instanceId, noRmc, polls, k);
      assert forall i :: 0 <= i < |round.0| ==> round.0[i] == Api(GetInstanceCall(instanceId)) || round.0[i].WaitForSsh?;
      if round.1.Pending? {
        WaitStepsAreReads(instanceId, noRmc, polls, k + 1);
      }
    }
  }

  /** After the instance is up: its address, ssh, then the playbook. An
      address that is not a string stops the ssh step with TypeError before
      it runs. */
  function Finish(instance: Json, opts: PowerVSOptions, w: CreateVmWorld): (r: (seq<Step>, Result<string>))
    ensures r.1.Ok? ==> ExtractIpAddress(instance) == Ok(JStr(r.1.value))
                        && r.0 == [WaitForSsh(r.1.value, SshTimeout), RunPlaybook(r.1.value, opts.playbook)]
    ensures r.1.Ok? <==> SshAddress(instance).Ok? && w.ssh.Ok? && w.playbook.Ok?
    ensures SshAddress(instance).Err? ==> r == ([], Err(SshAddress(instance).exc))
    ensures forall i :: 0 <= i < |r.0| ==> !r.0[i].Api?
  {
    match SshAddress(instance)
    case Err(e) => ([], Err(e))
    case Ok(ip) =>
      match w.ssh
      case Err(e) => ([WaitForSsh(ip, SshTimeout)], Err(e))
      case Ok(_) =>
        ([WaitForSsh(ip, SshTimeout), RunPlaybook(ip, opts.playbook)],
         match w.playbook case Err(e) => Err(e) case Ok(_) => Ok(ip))
  }

  /** The stages of one `create_vm` that precede the `try:`. */
  datatype Prepared = Prepared(body: InstanceBody, volumeSteps: seq<Step>, ids: seq<Json>)

  function Prepare(name: string, opts: PowerVSOptions, w: CreateVmWorld): (r: (seq<Step>, Result<Prepared>))
    ensures BuildInstanceBody(name, opts).Err? ==> r == ([], Err(BuildInstanceBody(name, opts).exc))
    ensures BuildInstanceBody(name, opts).Ok? && VolumesOf(opts).Err? ==> r == ([], Err(TypeError))
    ensures BuildInstanceBody(name, opts).Ok? && VolumesOf(opts).Ok?
            ==> r.0 == CreateVolumes(VolumesOf(opts).value, TagsOf(opts), w.volumeAnswers).0
    ensures r.1.Ok? ==> && BuildInstanceBody(name, opts).Ok? && VolumesOf(opts).Ok?
                        && |r.1.value.ids| == |VolumesOf(opts).value|
                        && r.1.value.body == BuildInstanceBody(name, opts).value.(volumeIds := Some(r.1.value.ids))
                        && r.0 == r.1.value.volumeSteps
    ensures r.1.Ok? ==> forall i :: 0 <= i < |r.1.value.ids| ==> CreatedId(w.volumeAnswers, i) == Ok(r.1.value.ids[i])
    ensures Api(ListInstancesCall()) !in r.0
  {
    match BuildInstanceBody(name, opts)
    case Err(e) => ([], Err(e))
    case Ok(body) =>
      match VolumesOf(opts)
      case Err(e) => ([], Err(e))
      case Ok(vols) =>
        var created := CreateVolumes(vols, TagsOf(opts), w.volumeAnswers);
        assert Api(ListInstancesCall()) !in created.0 by {
          assert forall i :: 0 <= i < |created.0| ==> created.0[i] != Api(ListInstancesCall());
        }
        match created.1
        case Err(e) => (created.0, Err(e))
        case Ok(ids) => (created.0, Ok(Prepared(body.(volumeIds := Some(ids)), created.0, ids)))
  }

  /** `create_vm(name, options)`: the steps taken and the address returned
      or the exception raised. A failure before the `try:` is raised with
      nothing undone; an address is returned only when the instance came up,
      ssh answered and the playbook ran, and it is the instance's first
      network address. */
  function CreateVm(name: string, opts: PowerVSOptions, w: CreateVmWorld): (r: (seq<Step>, Result<string>))
    ensures Prepare(name, opts, w).1.Err? ==> r == (Prepare(name, opts, w).0, Err(Prepare(name, opts, w).1.exc))
    ensures r.1.Ok? ==> && Prepare(name, opts, w).1.Ok?
                        && LaunchInstance(Prepare(name, opts, w).1.value.body, opts, w).1.Ok?
                        && ExtractIpAddress(LaunchInstance(Prepare(name, opts, w).1.value.body, opts, w).1.value)
                           == Ok(JStr(r.1.value))
                        && w.ssh.Ok? && w.playbook.Ok?
  {
    var prepared := Prepare(name, opts, w);
    match prepared.1
    case Err(e) => (prepared.0, Err(e))
    case Ok(p) =>
      var launch := LaunchInstance(p.body, opts, w);
      match launch.1
      case Err(e) =>
        if IsException(e) then
          var c := Cleanup(p.ids, w.cleanup);
          (p.volumeSteps + launch.0 + c.0, Err(if c.1.Some? then c.1.value else e))
        else (p.volumeSteps + launch.0, Err(e))
      case Ok(instance) =>
        var f := Finish(instance, opts, w);
        (p.volumeSteps + launch.0 + f.0, f.1)
  }

  /** `create_vm` never lists the instances: each stage it runs leaves the listing out. */
  lemma CreateVmNeverLists(name: string, opts: PowerVSOptions, w: CreateVmWorld)
    ensures Api(ListInstancesCall()) !in CreateVm(name, opts, w).0
  {
    CreateVmShape(name, opts, w);
    var prepared := Prepare(name, opts, w);
    if prepared.1.Ok? {
      var p := prepared.1.value;
      var launch := LaunchInstance(p.body, opts, w);
      var c := Cleanup(p.ids, w.cleanup);
      if launch.1.Ok? {
        var f := Finish(launch.1.value, opts, w);
        assert Api(ListInstancesCall()) !in f.0 by {
          assert forall i :: 0 <= i < |f.0| ==> f.0[i] != Api(ListInstancesCall());
        }
        NotListedInParts(p.volumeSteps, launch.0, f.0);
      } else {
        NotListedInParts(p.volumeSteps, launch.0, c.0);
      }
    }
  }

  lemma NotListedInParts(a: seq<Step>, b: seq<Step>, c: seq<Step>)
    requires Api(ListInstancesCall()) !in a && Api(ListInstancesCall()) !in b && Api(ListInstancesCall()) !in c
    ensures Api(ListInstancesCall()) !in a + b && Api(ListInstancesCall()) !in a + b + c
  {
  }

  /** The trace of `create_vm` stage by stage: what precedes the `try:`,
      the launch, then either the volume clean-up and the re-raise or the
      steps after a successful launch. */
  lemma CreateVmShape(name: string, opts: PowerVSOptions, w: CreateVmWorld)
    ensures Prepare(name, opts, w).1.Err? ==> CreateVm(name, opts, w) == (Prepare(name, opts, w).0, Err(Prepare(name, opts, w).1.exc))
    ensures Prepare(name, opts, w).1.Ok? ==>
              var p := Prepare(name, opts, w).1.value;
              var launch := LaunchInstance(p.body, opts, w);
              && (launch.1.Err? && IsException(launch.1.exc) ==>
                    var c := Cleanup(p.ids, w.cleanup);
                    CreateVm(name, opts, w) == (p.volumeSteps + launch.0 + c.0, Err(if c.1.Some? then c.1.value else launch.1.exc)))
              && (launch.1.Err? && !IsException(launch.1.exc) ==> CreateVm(name, opts, w) == (p.volumeSteps + launch.0, Err(launch.1.exc)))
              && (launch.1.Ok? ==>
                    var f := Finish(launch.1.value, opts, w);
                    CreateVm(name, opts, w) == (p.volumeSteps + launch.0 + f.0, f.1))
  {
  }

  /** The create request goes out right after the volume requests. */
  lemma CreateRequestFollowsVolumes(name: string, opts: PowerVSOptions, w: CreateVmWorld)
    requires Prepare(name, opts, w).1.Ok? && !opts.noRmc.Missing?
    ensures var p := Prepare(name, opts, w).1.value;
            var steps := CreateVm(name, opts, w).0;
            && |steps| > |p.volumeSteps|
            && steps[..|p.volumeSteps|] == CreateVolumes(VolumesOf(opts).value, TagsOf(opts), w.volumeAnswers).0
            && steps[|p.volumeSteps|] == Api(CreateInstanceCall(BodyJson(p.body)))
  {
    CreateVmShape(name, opts, w);
    var p := Prepare(name, opts, w).1.value;
    var launch := LaunchInstance(p.body, opts, w);
    var tail := if launch.1.Err? && IsException(launch.1.exc) then Cleanup(p.ids, w.cleanup).0
                else if launch.1.Ok? then Finish(launch.1.value, opts, w).0
                else [];
    assert CreateVm(name, opts, w).0 == p.volumeSteps + launch.0 + tail;
    StepAfterPrefix(p.volumeSteps, launch.0, tail);
  }

  /** The body of that request lists the created volume ids as `volumeIDs`,
      one per parsed volume, in the order they were created. */
  lemma CreateBodyCarriesVolumeIds(name: string, opts: PowerVSOptions, w: CreateVmWorld)
    requires Prepare(name, opts, w).1.Ok?
    ensures var p := Prepare(name, opts, w).1.value;
            && BodyJson(p.body).fields["volumeIDs"] == JArr(p.ids)
            && |p.ids| == |VolumesOf(opts).value|
            && forall i :: 0 <= i < |p.ids| ==> CreatedId(w.volumeAnswers, i) == Ok(p.ids[i])
  {
    BodyJsonOptionalKeys(Prepare(name, opts, w).1.value.body);
  }

  lemma StepAfterPrefix(a: seq<Step>, b: seq<Step>, c: seq<Step>)
    requires |b| >= 1
    ensures (a + b + c)[..|a|] == a && (a + b + c)[|a|] == b[0]
  {
  }

  /** A DELETE request. */
  predicate IsDelete(s: Step) {
    s.Api? && s.call.verb == "DELETE"
  }

  predicate HasDelete(steps: seq<Step>) {
    exists i :: 0 <= i < |steps| && IsDelete(steps[i])
  }

  lemma HasDeleteAppend(a: seq<Step>, b: seq<Step>)
    ensures HasDelete(a + b) <==> HasDelete(a) || HasDelete(b)
  {
    if HasDelete(a + b) {
      var i :| 0 <= i < |a + b| && IsDelete((a + b)[i]);
      if i < |a| {
        assert a[i] == (a + b)[i];
      } else {
        assert b[i - |a|] == (a + b)[i];
      }
    }
    if HasDelete(a) {
      var i :| 0 <= i < |a| && IsDelete(a[i]);
      assert (a + b)[i] == a[i];
    }
    if HasDelete(b) {
      var i :| 0 <= i < |b| && IsDelete(b[i]);
      assert (a + b)[|a| + i] == b[i];
    }
  }

  /** The volume clean-up runs iff creating or awaiting the instance raised
      an `Exception` and some volume was created: the create path issues no
      other DELETE. */
  lemma CleanupIffLaunchFails(name: string, opts: PowerVSOptions, w: CreateVmWorld)
    requires Prepare(name, opts, w).1.Ok?
    ensures var p := Prepare(name, opts, w).1.value;
            var launch := LaunchInstance(p.body, opts, w);
            HasDelete(CreateVm(name, opts, w).0) <==> launch.1.Err? && IsException(launch.1.exc) && |p.ids| > 0
  {
    var p := Prepare(name, opts, w).1.value;
    var launch := LaunchInstance(p.body, opts, w);
    NoDeleteBeforeCleanup(name, opts, w);
    if launch.1.Err? && IsException(launch.1.exc) {
      CleanupTail(p.volumeSteps + launch.0, p.ids, w.cleanup);
    } else if launch.1.Ok? {
      FinishTail(p.volumeSteps + launch.0, launch.1.value, opts, w);
    }
  }

  /** Appending the clean-up adds a DELETE iff there is a volume to delete. */
  lemma CleanupTail(before: seq<Step>, ids: seq<Json>, tries: seq<seq<Retry.Attempt<Json>>>)
    ensures HasDelete(before + Cleanup(ids, tries).0) <==> HasDelete(before) || |ids| > 0
  {
    var c := Cleanup(ids, tries);
    HasDeleteAppend(before, c.0);
    if |ids| > 0 {
      assert IsDelete(c.0[0]);
    }
  }

  /** The steps after a successful launch delete nothing. */
  lemma FinishTail(before: seq<Step>, instance: Json, opts: PowerVSOptions, w: CreateVmWorld)
    ensures HasDelete(before + Finish(instance, opts, w).0) <==> HasDelete(before)
  {
    HasDeleteAppend(before, Finish(instance, opts, w).0);
  }

  /** When the launch raised an `Exception` and every clean-up delete ended
      with an `Exception` or a success, every created volume was asked to be
      deleted and the launch's own exception is what `create_vm` raises. */
  lemma CleanupReRaises(name: string, opts: PowerVSOptions, w: CreateVmWorld)
    requires Prepare(name, opts, w).1.Ok?
    requires var p := Prepare(name, opts, w).1.value;
             var launch := LaunchInstance(p.body, opts, w);
             launch.1.Err? && IsException(launch.1.exc) && Cleanup(p.ids, w.cleanup).1.None?
    ensures var p := Prepare(name, opts, w).1.value;
            && CreateVm(name, opts, w).1 == Err(LaunchInstance(p.body, opts, w).1.exc)
            && forall j :: 0 <= j < |p.ids| ==> Api(DeleteVolumeCall(PyStr(p.ids[j]))) in CreateVm(name, opts, w).0
  {
    var p := Prepare(name, opts, w).1.value;
    CreateVmShape(name, opts, w);
    CleanupCoversIds(p.volumeSteps + LaunchInstance(p.body, opts, w).0, p.ids, w.cleanup);
  }

  /** A clean-up that runs to its end has asked for every id. */
  lemma CleanupCoversIds(before: seq<Step>, ids: seq<Json>, tries: seq<seq<Retry.Attempt<Json>>>)
    requires Cleanup(ids, tries).1.None?
    ensures forall j :: 0 <= j < |ids| ==> Api(DeleteVolumeCall(PyStr(ids[j]))) in before + Cleanup(ids, tries).0
  {
    var c := Cleanup(ids, tries);
    CleanupCoversEveryId(ids, tries);
    forall j | 0 <= j < |ids|
      ensures Api(DeleteVolumeCall(PyStr(ids[j]))) in before + c.0
    {
      var k :| 0 <= k < |c.0| && c.0[k] == Api(DeleteVolumeCall(PyStr(ids[j])));
      assert (before + c.0)[|before| + k] == c.0[k];
    }
  }

  /** Neither the volume creation nor the launch deletes anything. */
  lemma NoDeleteBeforeCleanup(name: string, opts: PowerVSOptions, w: CreateVmWorld)
    requires Prepare(name, opts, w).1.Ok?
    ensures var p := Prepare(name, opts, w).1.value;
            !HasDelete(p.volumeSteps + LaunchInstance(p.body, opts, w).0)
  {
    var p := Prepare(name, opts, w).1.value;
    var launch := LaunchInstance(p.body, opts, w);
    HasDeleteAppend(p.volumeSteps, launch.0);
    assert !HasDelete(p.volumeSteps) by {
      forall i | 0 <= i < |p.volumeSteps|
        ensures !IsDelete(p.volumeSteps[i])
      {
      }
    }
  }
}
