/**
 Creating a VPC instance: the prototype sent to `create_instance`, the
 63-character checks made on it before anything reaches the cloud, the
 polling for a private address, and the create driver with its rollback.
 Every call the driver makes is answered by a scripted `CreateWorld`; the
 delete it falls back on is the driver of module VpcDelete.
 */
module VpcCreate {
  import opened Errors
  import opened Wrappers
  import opened Json
  import opened Seqs
  import opened VpcApi
  import opened VpcSelection
  import opened VpcDelete

  /** The create options the prototype and the driver read. The volume size
      is kept as the decimal text of the integer the argument parser made. */
  datatype CreateOptions = CreateOptions(
    sshKeyId: string,
    instanceType: string,
    vpcId: string,
    imageUuid: string,
    subnetId: string,
    securityGroupId: string,
    zone: string,
    additionalVolumeSize: string,
    resourceGroupId: Option<string>,
    tags: Option<seq<string>>,
    noFloatingIp: bool,
    floatingIpUuid: Option<string>,
    playbook: string)

  function Obj1(k: string, v: Json): Json {
    JObj(map[k := v])
  }

  /** A volume of the `general-purpose` profile. */
  function GeneralPurpose(): Json {
    Obj1("name", JStr("general-purpose"))
  }

  /** The instance prototype `create_instance` builds for `name`. */
  function Prototype(name: string, opts: CreateOptions): (proto: Json)
    ensures proto.JObj?
    ensures "resource_group" in proto.fields <==> Truthy(opts.resourceGroupId)
  {
    var base := map[
      "keys" := JArr([Obj1("id", JStr(opts.sshKeyId))]),
      "name" := JStr(name),
      "profile" := Obj1("name", JStr(opts.instanceType)),
      "vpc" := Obj1("id", JStr(opts.vpcId)),
      "boot_volume_attachment" := JObj(map[
        "volume" := JObj(map["name" := JStr(name + "-root"), "profile" := GeneralPurpose()]),
        "delete_volume_on_instance_delete" := JBool(true)]),
      "image" := Obj1("id", JStr(opts.imageUuid)),
      "primary_network_interface" := JObj(map[
        "name" := JStr("primary-network-interface"),
        "subnet" := Obj1("id", JStr(opts.subnetId)),
        "security_groups" := JArr([Obj1("id", JStr(opts.securityGroupId))])]),
      "zone" := Obj1("name", JStr(opts.zone)),
      "volume_attachments" := JArr([JObj(map[
        "volume" := JObj(map[
          "name" := JStr(name + "-swap"),
          "capacity" := JNum(opts.additionalVolumeSize),
          "profile" := GeneralPurpose()]),
        "delete_volume_on_instance_delete" := JBool(true)])])
    ];
    assert "resource_group" !in base;
    if Truthy(opts.resourceGroupId) then
      JObj(base["resource_group" := Obj1("id", JStr(opts.resourceGroupId.value))])
    else JObj(base)
  }

  /** Longest value allowed in the three name fields. */
  const FieldMax: nat := 63

  /** The three name fields checked before the create call. */
  const NamePath: seq<Key> := [Field("name")]
  const RootVolumePath: seq<Key> := [Field("boot_volume_attachment"), Field("volume"), Field("name")]
  const SwapVolumePath: seq<Key> := [Field("volume_attachments"), Index(0), Field("volume"), Field("name")]

  /** `".".join(path)` needs every key to be a string. */
  predicate JoinablePath(path: seq<Key>) {
    forall i :: 0 <= i < |path| ==> path[i].Field?
  }

  /** `check_field_len`: walk `path`, then exit 1 when the value found is
      longer than `maxLength`. A failing walk raises its lookup error. The
      error message joins the path with `.`, which raises TypeError first
      when the path holds an integer index. */
  function CheckFieldLen(config: Json, path: seq<Key>, maxLength: nat): (r: Result<()>)
    ensures r.Ok? <==> Lookup(config, path).Ok? && Len(Lookup(config, path).value).Ok?
                       && Len(Lookup(config, path).value).value <= maxLength
    ensures Lookup(config, path).Err? ==> r == Err(Lookup(config, path).exc)
    ensures (Lookup(config, path).Ok? && Len(Lookup(config, path).value).Ok?
             && Len(Lookup(config, path).value).value > maxLength)
            ==> r == (if JoinablePath(path) then Err(SystemExit(1)) else Err(TypeError))
  {
    var found :- Lookup(config, path);
    var length :- Len(found);
    if length <= maxLength then Ok(())
    else if JoinablePath(path) then Err(SystemExit(1))
    else Err(TypeError)
  }

  /** The value at `path` exists, has a length, and that length is at most 63. */
  predicate FieldFits(config: Json, path: seq<Key>) {
    Lookup(config, path).Ok? && Len(Lookup(config, path).value).Ok?
    && Len(Lookup(config, path).value).value <= FieldMax
  }

  /** The three checks, in the order the source makes them: they pass iff
      all three fields fit, and otherwise the first that does not fit fails
      the way its own check does. */
  function CheckPrototypeFields(proto: Json): (r: Result<()>)
    ensures r.Ok? <==> FieldFits(proto, NamePath) && FieldFits(proto, RootVolumePath)
                       && FieldFits(proto, SwapVolumePath)
    ensures !FieldFits(proto, NamePath) ==> r == CheckFieldLen(proto, NamePath, FieldMax)
    ensures FieldFits(proto, NamePath) && !FieldFits(proto, RootVolumePath)
            ==> r == CheckFieldLen(proto, RootVolumePath, FieldMax)
    ensures FieldFits(proto, NamePath) && FieldFits(proto, RootVolumePath)
            ==> r == CheckFieldLen(proto, SwapVolumePath, FieldMax)
  {
    var _ :- CheckFieldLen(proto, NamePath, FieldMax);
    var _ :- CheckFieldLen(proto, RootVolumePath, FieldMax);
    CheckFieldLen(proto, SwapVolumePath, FieldMax)
  }

  /** The three name fields of a prototype hold the name and its two volume names. */
  lemma PrototypeNameFields(name: string, opts: CreateOptions)
    ensures Lookup(Prototype(name, opts), NamePath) == Ok(JStr(name))
    ensures Lookup(Prototype(name, opts), RootVolumePath) == Ok(JStr(name + "-root"))
    ensures Lookup(Prototype(name, opts), SwapVolumePath) == Ok(JStr(name + "-swap"))
  {
    var proto := Prototype(name, opts);
    assert Lookup(proto, NamePath) == Lookup(JStr(name), []);
    RootVolumeName(name, opts);
    SwapVolumeName(name, opts);
  }

  lemma RootVolumeName(name: string, opts: CreateOptions)
    ensures Lookup(Prototype(name, opts), RootVolumePath) == Ok(JStr(name + "-root"))
  {
    var proto := Prototype(name, opts);
    var boot := proto.fields["boot_volume_attachment"];
    assert Lookup(proto, RootVolumePath) == Lookup(boot, RootVolumePath[1..]);
    assert Lookup(boot, RootVolumePath[1..]) == Lookup(boot.fields["volume"], RootVolumePath[2..]);
    assert Lookup(boot.fields["volume"], RootVolumePath[2..]) == Lookup(JStr(name + "-root"), []);
  }

  lemma SwapVolumeName(name: string, opts: CreateOptions)
    ensures Lookup(Prototype(name, opts), SwapVolumePath) == Ok(JStr(name + "-swap"))
  {
    var proto := Prototype(name, opts);
    var atts := proto.fields["volume_attachments"];
    var att := atts.items[0];
    assert Lookup(proto, SwapVolumePath) == Lookup(atts, SwapVolumePath[1..]);
    assert Lookup(atts, SwapVolumePath[1..]) == Lookup(att, SwapVolumePath[2..]);
    assert Lookup(att, SwapVolumePath[2..]) == Lookup(att.fields["volume"], SwapVolumePath[3..]);
    assert Lookup(att.fields["volume"], SwapVolumePath[3..]) == Lookup(JStr(name + "-swap"), []);
  }

  /** The checks over any object whose three name fields hold `name` and its
      two volume names. */
  lemma ChecksOverNames(config: Json, name: string)
    requires Lookup(config, NamePath) == Ok(JStr(name))
    requires Lookup(config, RootVolumePath) == Ok(JStr(name + "-root"))
    requires Lookup(config, SwapVolumePath) == Ok(JStr(name + "-swap"))
    ensures CheckPrototypeFields(config).Ok? <==> |name| <= 58
    ensures |name| > 58 ==> CheckPrototypeFields(config) == Err(SystemExit(1))
    ensures |name| > 58 ==> CheckFieldLen(config, SwapVolumePath, FieldMax) == Err(TypeError)
    ensures |name| > 58 ==> CheckFieldLen(config, RootVolumePath, FieldMax) == Err(SystemExit(1))
  {
    assert JoinablePath(NamePath) && JoinablePath(RootVolumePath);
    assert !SwapVolumePath[1].Field?;
  }

  /** The create call is made iff the name leaves room for the `-root` and
      `-swap` suffixes within 63 characters, i.e. iff it has at most 58
      characters; otherwise the script exits with status 1. */
  lemma FieldChecksPassIffShortName(name: string, opts: CreateOptions)
    ensures CheckPrototypeFields(Prototype(name, opts)).Ok? <==> |name| <= 58
    ensures |name| > 58 ==> CheckPrototypeFields(Prototype(name, opts)) == Err(SystemExit(1))
  {
    PrototypeNameFields(name, opts);
    ChecksOverNames(Prototype(name, opts), name);
  }

  /** The swap-volume path holds the index 0, so an over-long swap name would
      raise TypeError instead of exiting; `create_instance` never gets there,
      because the root-volume name is as long and is checked first. */
  lemma SwapCheckWouldRaiseTypeError(name: string, opts: CreateOptions)
    requires |name| > 58
    ensures CheckFieldLen(Prototype(name, opts), SwapVolumePath, FieldMax) == Err(TypeError)
    ensures CheckFieldLen(Prototype(name, opts), RootVolumePath, FieldMax) == Err(SystemExit(1))
  {
    PrototypeNameFields(name, opts);
    ChecksOverNames(Prototype(name, opts), name);
  }

  /** Polls of `_get_private_ip_of_instance`. */
  const MaxPolls: nat := 5

  /** The address a fresh instance reports before it has one. */
  const Unassigned: string := "0.0.0.0"

  /** `_get_private_ip_of_instance` from poll `k` on: `addresses[j]` is what
      the `j`-th `get_instance` yields at `primary_network_interface.primary_ip.address`,
      or the error reading it raised. Returns the number of polls made in all. */
  function PollPrivateIp(addresses: seq<Result<string>>, k: nat): (r: (nat, Result<string>))
    requires k < MaxPolls
    ensures k < r.0 <= MaxPolls
    ensures forall j :: k <= j < r.0 - 1 ==> Answer(addresses, j) == Ok(Unassigned)
    ensures r.1.Ok? ==> r.1 == Answer(addresses, r.0 - 1) && r.1.value != Unassigned
    ensures r.1.Err? ==> r.1 == Answer(addresses, r.0 - 1)
                         || (r.0 == MaxPolls && Answer(addresses, r.0 - 1) == Ok(Unassigned)
                             && r.1 == Err(TimeoutError))
    decreases MaxPolls - k
  {
    match Answer(addresses, k)
    case Err(e) => (k + 1, Err(e))
    case Ok(address) =>
      if address != Unassigned then (k + 1, Ok(address))
      else if k + 1 == MaxPolls then (k + 1, Err(TimeoutError))
      else PollPrivateIp(addresses, k + 1)
  }

  /** The first real address within five polls is the one returned, and five
      unassigned answers end in TimeoutError. */
  lemma {:induction false} PollFindsFirstAddress(addresses: seq<Result<string>>, k: nat, j: nat)
    requires k <= j < MaxPolls
    requires forall i :: k <= i < j ==> Answer(addresses, i) == Ok(Unassigned)
    requires Answer(addresses, j).Ok?
    ensures Answer(addresses, j).value != Unassigned
            ==> PollPrivateIp(addresses, k) == (j + 1, Answer(addresses, j))
    ensures Answer(addresses, j).value == Unassigned && j == MaxPolls - 1
            ==> PollPrivateIp(addresses, k) == (MaxPolls, Err(TimeoutError))
    decreases j - k
  {
    if k < j {
      PollFindsFirstAddress(addresses, k + 1, j);
    }
  }

  /** What the cloud and the two subprocess collaborators answer during one
      create: the `create_instance` result, the tag call, the private-address
      polls, the bind and allocate calls (the allocation answers its HTTP
      status and the new address), ssh, the playbook, and the snapshots the
      rollback's delete attempts see. */
  datatype CreateWorld = CreateWorld(
    created: Result<Json>,
    tagAnswer: Result<()>,
    addresses: seq<Result<string>>,
    bindAnswer: Result<string>,
    allocAnswer: Result<(int, string)>,
    sshAnswer: Result<()>,
    playbookAnswer: Result<()>,
    cleanup: seq<AttemptWorld>)

  /** A string value at `path`; these ids are strings in every response. */
  function StrAt(x: Json, path: seq<Key>): (r: Result<string>)
    ensures Lookup(x, path).Ok? && Lookup(x, path).value.JStr? ==> r == Ok(Lookup(x, path).value.s)
    ensures Lookup(x, path).Err? ==> r == Err(Lookup(x, path).exc)
  {
    var v :- Lookup(x, path);
    if v.JStr? then Ok(v.s) else Err(TypeError)
  }

  /** The address step of `create_instance`: poll for a private address, bind
      the preset floating IP, or allocate a new one. */
  function AcquireAddress(name: string, opts: CreateOptions, created: Json, instanceId: string, w: CreateWorld)
    : (r: (seq<Call>, Result<string>))
    ensures opts.noFloatingIp ==>
              var poll := PollPrivateIp(w.addresses, 0);
              r == (seq(poll.0, _ => GetInstance(instanceId)), poll.1)
    ensures !opts.noFloatingIp && Truthy(opts.floatingIpUuid) ==>
              forall c :: c in r.0 ==> c.BindFloatingIp? && c.floatingIpId == opts.floatingIpUuid.value
    ensures !opts.noFloatingIp && !Truthy(opts.floatingIpUuid) ==>
              forall c :: c in r.0 ==> c.AllocateFloatingIp? && c.name == name
    ensures |r.0| <= MaxPolls
  {
    if opts.noFloatingIp then
      var poll := PollPrivateIp(w.addresses, 0);
      (seq(poll.0, _ => GetInstance(instanceId)), poll.1)
    else
      match StrAt(created, [Field("primary_network_interface"), Field("id")])
      case Err(e) => ([], Err(e))
      case Ok(nic) =>
        if Truthy(opts.floatingIpUuid) then
          ([BindFloatingIp(instanceId, nic, opts.floatingIpUuid.value)], w.bindAnswer)
        else
          var call := AllocateFloatingIp(name, nic);
          match w.allocAnswer
          case Err(e) => ([call], Err(e))
          case Ok(answer) => ([call], if answer.0 == 201 then Ok(answer.1) else Err(AssertionError))
  }

  /** Everything `create_instance` does inside its `try` after the create
      call returned `created`: read the id, tag, get an address, wait for
      ssh and run the playbook. Returns the calls made and the address. */
  function AfterCreate(name: string, opts: CreateOptions, created: Json, w: CreateWorld)
    : (r: (seq<Call>, Result<string>))
    ensures forall c :: c in r.0 ==> !c.ListInstances? && !c.Delete?
    ensures r.1.Ok? ==> |r.0| >= 2 && r.0[|r.0| - 2..] == [WaitForSsh(r.1.value), RunPlaybook(r.1.value, opts.playbook)]
    ensures r.1.Ok? ==> w.sshAnswer.Ok? && w.playbookAnswer.Ok?
    ensures forall c :: c in r.0 && c.AssignUserTags? ==> TruthyList(opts.tags) && c.tags == opts.tags.value
  {
    match StrAt(created, [Field("id")])
    case Err(e) => ([], Err(e))
    case Ok(instanceId) =>
      var tagging: (seq<Call>, Result<()>) :=
        if TruthyList(opts.tags) then
          match StrAt(created, [Field("crn")])
          case Err(e) => ([], Err(e))
          case Ok(crn) => ([AssignUserTags(crn, opts.tags.value)], w.tagAnswer)
        else ([], Ok(()));
      if tagging.1.Err? then (tagging.0, Err(tagging.1.exc))
      else
        var acquired := AcquireAddress(name, opts, created, instanceId, w);
        var calls := tagging.0 + acquired.0;
        match acquired.1
        case Err(e) => (calls, Err(e))
        case Ok(address) =>
          match w.sshAnswer
          case Err(e) => (calls + [WaitForSsh(address)], Err(e))
          case Ok(_) =>
            var all := calls + [WaitForSsh(address), RunPlaybook(address, opts.playbook)];
            assert all[|all| - 2..] == [WaitForSsh(address), RunPlaybook(address, opts.playbook)];
            match w.playbookAnswer
            case Err(e) => (all, Err(e))
            case Ok(_) => (all, Ok(address))
  }

  /** `create_instance(service, name, opts)`: the field checks, the create
      call, the steps after it, and on their failure the rollback through
      `delete_instance`, made iff the create call returned and the name is
      not empty. The original exception is raised again unless the rollback
      itself raised. `r` is the address printed for the caller. */
  method CreateWithRollback(name: string, opts: CreateOptions, w: CreateWorld)
    returns (calls: seq<Call>, r: Result<string>)
    ensures var check := CheckPrototypeFields(Prototype(name, opts));
            check.Err? ==> calls == [] && r == Err(check.exc)
    ensures var proto := Prototype(name, opts);
            CheckPrototypeFields(proto).Ok? ==> |calls| >= 1 && calls[0] == CreateInstance(proto)
    ensures CheckPrototypeFields(Prototype(name, opts)).Ok? && w.created.Err?
            ==> calls == [CreateInstance(Prototype(name, opts))] && r == Err(w.created.exc)
    ensures ListInstances in calls <==>
              && CheckPrototypeFields(Prototype(name, opts)).Ok?
              && w.created.Ok?
              && AfterCreate(name, opts, w.created.value, w).1.Err?
              && name != ""
    ensures CheckPrototypeFields(Prototype(name, opts)).Ok? && w.created.Ok? ==>
              var steps := AfterCreate(name, opts, w.created.value, w);
              var head := [CreateInstance(Prototype(name, opts))] + steps.0;
              && (steps.1.Ok? ==> calls == head && r == steps.1)
              && (steps.1.Err? && name == "" ==> calls == head && r == steps.1)
              && (steps.1.Err? && name != "" ==>
                    var outcomes := AttemptOutcomes(name, w.cleanup);
                    var settled := Settle(outcomes, 0);
                    && calls == head + CallsOf(outcomes, settled.0)
                    && r == Err(if settled.1.Some? then settled.1.value else steps.1.exc))
  {
    var proto := Prototype(name, opts);
    var check := CheckPrototypeFields(proto);
    if check.Err? {
      return [], Err(check.exc);
    }
    calls := [CreateInstance(proto)];
    if w.created.Err? {
      return calls, Err(w.created.exc);
    }
    var steps := AfterCreate(name, opts, w.created.value, w);
    calls := calls + steps.0;
    r := steps.1;
    if r.Err? && name != "" {
      var attempts, cleanupCalls, cleanupErr := DeleteInstanceByName(name, w.cleanup);
      RollbackListsInstances(AttemptOutcomes(name, w.cleanup), attempts);
      calls := calls + cleanupCalls;
      if cleanupErr.Some? {
        r := Err(cleanupErr.value);
      }
    }
  }

  /** Every delete attempt starts by listing the instances, so a rollback
      always shows in the trace. */
  lemma RollbackListsInstances(outcomes: seq<(seq<Call>, Option<Exc>)>, n: nat)
    requires 1 <= n <= |outcomes|
    requires |outcomes[0].0| >= 1 && outcomes[0].0[0] == ListInstances
    ensures ListInstances in CallsOf(outcomes, n)
  {
    if n > 1 {
      RollbackListsInstances(outcomes, n - 1);
    } else {
      assert CallsOf(outcomes, 1) == [] + outcomes[0].0;
    }
  }
}
