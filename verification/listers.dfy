/**
 The listing scripts Resalloc calls to reconcile its pools: the VPC and
 PowerVS "which machines of this pool exist" listers, and the three
 "what is stuck deleting" reports. Each is modelled over the listing
 snapshot it iterates; the report lines keep the listing order.
 */
module Listers {
  import opened Errors
  import opened Wrappers
  import opened Strings
  import opened Seqs
  import Names
  import VpcApi
  import PowerVSClient
  import PowerVSCalls

  /** `opts.pool or os.getenv("RESALLOC_POOL_ID")`, and exit 1 when that is still empty. */
  function PoolId(pool: Option<string>, env: Option<string>): (r: Result<string>)
    ensures r.Ok? <==> Truthy(pool) || Truthy(env)
    ensures r.Ok? ==> r.value != ""
    ensures Truthy(pool) ==> r == Ok(pool.value)
    ensures !Truthy(pool) && Truthy(env) ==> r == Ok(env.value)
    ensures r.Err? ==> r.exc == SystemExit(1)
  {
    var chosen := if Truthy(pool) then pool else env;
    if Truthy(chosen) then Ok(chosen.value) else Err(SystemExit(1))
  }

  // ---------------------------------------------------------------------
  // VPC: the pool's machines, from instance and volume names

  /** `name.replace("-", "_")`: back to the Resalloc spelling. */
  function Normalise(name: string): (r: string)
    ensures |r| == |name|
    ensures '-' !in r
    ensures forall i :: 0 <= i < |name| && name[i] != '-' ==> r[i] == name[i]
  {
    ReplaceChar(name, '-', '_')
  }

  /** For a Resalloc name without `-`, normalising undoes the create-side mangling. */
  lemma NormaliseInvertsMangle(name: string)
    requires '-' !in name
    ensures Normalise(Names.MangleName(name)) == name
  {
    var m := Names.MangleName(name);
    assert forall i :: 0 <= i < |name| ==> Normalise(m)[i] == name[i] by {
      forall i | 0 <= i < |name|
        ensures Normalise(m)[i] == name[i]
      {
        assert m[i] == if name[i] == '_' then '-' else name[i];
      }
    }
  }

  /** The machine name a volume stands for: `name.rsplit("_", 1)[0]` after normalising. */
  function VolumeMachine(name: string): (r: string)
    ensures |r| <= |name|
    ensures r == Normalise(name)[..|r|]
    ensures '-' !in r
  {
    BeforeLast(Normalise(name), '_')
  }

  /** The names contributed by the instances: each normalised name starting with the pool id. */
  function InstanceNames(poolId: string, instances: seq<VpcApi.Instance>): set<string>
    decreases |instances|
  {
    if |instances| == 0 then {}
    else
      var name := Normalise(instances[|instances| - 1].name);
      InstanceNames(poolId, instances[..|instances| - 1]) + if StartsWith(name, poolId) then {name} else {}
  }

  /** A name comes from the instances iff some instance name, normalised, is
      that name and starts with the pool id. */
  lemma {:induction false} InstanceNamesMembers(poolId: string, instances: seq<VpcApi.Instance>)
    ensures forall n :: n in InstanceNames(poolId, instances) <==>
              exists i :: 0 <= i < |instances| && StartsWith(Normalise(instances[i].name), poolId)
                          && Normalise(instances[i].name) == n
    decreases |instances|
  {
    if |instances| > 0 {
      var init := instances[..|instances| - 1];
      InstanceNamesMembers(poolId, init);
      assert forall i :: 0 <= i < |init| ==> init[i] == instances[i];
    }
  }

  /** The names contributed by the volumes: the machine of each volume whose
      normalised name starts with the pool id. */
  function VolumeNames(poolId: string, volumes: seq<VpcApi.Volume>): set<string>
    decreases |volumes|
  {
    if |volumes| == 0 then {}
    else
      var name := volumes[|volumes| - 1].name;
      VolumeNames(poolId, volumes[..|volumes| - 1])
      + if StartsWith(Normalise(name), poolId) then {VolumeMachine(name)} else {}
  }

  /** A name comes from the volumes iff some volume whose normalised name
      starts with the pool id stands for it. */
  lemma {:induction false} VolumeNamesMembers(poolId: string, volumes: seq<VpcApi.Volume>)
    ensures forall n :: n in VolumeNames(poolId, volumes) <==>
              exists i :: 0 <= i < |volumes| && StartsWith(Normalise(volumes[i].name), poolId)
                          && VolumeMachine(volumes[i].name) == n
    decreases |volumes|
  {
    if |volumes| > 0 {
      var init := volumes[..|volumes| - 1];
      VolumeNamesMembers(poolId, init);
      assert forall i :: 0 <= i < |init| ==> init[i] == volumes[i];
    }
  }

  /** The two loops of `ibm_cloud_list_vms.main`, adding to one set. */
  method ListVpcResources(poolId: string, instances: seq<VpcApi.Instance>, volumes: seq<VpcApi.Volume>)
    returns (resources: set<string>)
    ensures resources == InstanceNames(poolId, instances) + VolumeNames(poolId, volumes)
    ensures forall n :: n in resources ==> '-' !in n
  {
    resources := {};
    var k := 0;
    while k < |instances|
      invariant k <= |instances|
      invariant resources == InstanceNames(poolId, instances[..k])
    {
      var name := Normalise(instances[k].name);
      if StartsWith(name, poolId) {
        resources := resources + {name};
      }
      assert instances[..k + 1][..k] == instances[..k];
      k := k + 1;
    }
    assert instances[..k] == instances;
    var j := 0;
    while j < |volumes|
      invariant j <= |volumes|
      invariant resources == InstanceNames(poolId, instances) + VolumeNames(poolId, volumes[..j])
    {
      var name := Normalise(volumes[j].name);
      if StartsWith(name, poolId) {
        resources := resources + {VolumeMachine(volumes[j].name)};
      }
      assert volumes[..j + 1][..j] == volumes[..j];
      j := j + 1;
    }
    assert volumes[..j] == volumes;
    InstanceNamesMembers(poolId, instances);
    VolumeNamesMembers(poolId, volumes);
  }

  /** The VPC listing run: no pool id means exit 1 before anything is listed;
      otherwise instances then volumes are listed and the set is printed. */
  function VpcListVms(pool: Option<string>, env: Option<string>,
                      instances: seq<VpcApi.Instance>, volumes: seq<VpcApi.Volume>)
    : (r: (seq<VpcApi.Call>, Result<set<string>>))
    ensures !Truthy(pool) && !Truthy(env) ==> r == ([], Err(SystemExit(1)))
    ensures PoolId(pool, env).Ok? ==>
              r == ([VpcApi.ListInstances, VpcApi.ListVolumes],
                    Ok(InstanceNames(PoolId(pool, env).value, instances)
                       + VolumeNames(PoolId(pool, env).value, volumes)))
  {
    match PoolId(pool, env)
    case Err(e) => ([], Err(e))
    case Ok(poolId) =>
      ([VpcApi.ListInstances, VpcApi.ListVolumes],
       Ok(InstanceNames(poolId, instances) + VolumeNames(poolId, volumes)))
  }

  /** Normalising works character by character, so it distributes over concatenation. */
  lemma NormaliseAppend(a: string, b: string)
    ensures Normalise(a + b) == Normalise(a) + Normalise(b)
  {
    assert forall i :: 0 <= i < |a + b| ==> Normalise(a + b)[i] == (Normalise(a) + Normalise(b))[i];
  }

  lemma NormaliseKeepsPlain(s: string)
    requires '-' !in s
    ensures Normalise(s) == s
  {
    assert forall i :: 0 <= i < |s| ==> Normalise(s)[i] == s[i];
  }

  /** Cutting at the last `c` of `a + [c] + tail`, where `tail` has no `c`, leaves `a`. */
  lemma BeforeLastOfTail(a: string, c: char, tail: string)
    requires c !in tail
    ensures BeforeLast(a + [c] + tail, c) == a
  {
    var s := a + [c] + tail;
    assert s[|a|] == c;
    var r := BeforeLast(s, c);
    assert s[|r| + 1..] == s[|r| + 1..|a| + 1] + s[|a| + 1..] by {
      assert |r| < |s|;
    }
    assert s[..|a|] == a;
  }

  /** The volume `<mangled name>-<suffix>` stands for the Resalloc name it was created for. */
  lemma MangledVolumeMachine(name: string, suffix: string)
    requires '-' !in name && '-' !in suffix && '_' !in suffix
    ensures Normalise(Names.MangleName(name) + "-" + suffix) == name + "_" + suffix
    ensures VolumeMachine(Names.MangleName(name) + "-" + suffix) == name
  {
    var m := Names.MangleName(name);
    NormaliseInvertsMangle(name);
    NormaliseAppend(m + "-", suffix);
    NormaliseAppend(m, "-");
    NormaliseKeepsPlain(suffix);
    assert Normalise("-") == "_";
    BeforeLastOfTail(name, '_', suffix);
    assert name + "_" + suffix == name + ['_'] + suffix;
  }

  /** Such a volume is kept by the pool filter whenever its machine name is. */
  lemma CreatedVolumeListed(poolId: string, name: string, suffix: string)
    requires '-' !in name && StartsWith(name, poolId)
    requires '-' !in suffix && '_' !in suffix
    ensures StartsWith(Normalise(Names.MangleName(name) + "-" + suffix), poolId)
    ensures VolumeMachine(Names.MangleName(name) + "-" + suffix) == name
  {
    MangledVolumeMachine(name, suffix);
    assert (name + "_" + suffix)[..|poolId|] == name[..|poolId|];
  }

  /** A machine created under a Resalloc name from the pool, with its `-root`
      and `-swap` volumes, is listed as that one Resalloc name. */
  lemma CreatedMachineCollapses(poolId: string, name: string)
    requires '-' !in name && StartsWith(name, poolId)
    ensures var m := Names.MangleName(name);
            InstanceNames(poolId, [VpcApi.Instance("", m, "")])
            + VolumeNames(poolId, [VpcApi.Volume("", m + "-root", "", None),
                                   VpcApi.Volume("", m + "-swap", "", None)])
            == {name}
  {
    var m := Names.MangleName(name);
    NormaliseInvertsMangle(name);
    CreatedVolumeListed(poolId, name, "root");
    CreatedVolumeListed(poolId, name, "swap");
    VolumeSuffixes(m);
    OneMachineListed(poolId, name, VpcApi.Instance("", m, ""),
                     VpcApi.Volume("", m + "-root", "", None), VpcApi.Volume("", m + "-swap", "", None));
  }

  lemma VolumeSuffixes(m: string)
    ensures m + "-root" == m + "-" + "root"
    ensures m + "-swap" == m + "-" + "swap"
  {
    assert "-" + "root" == "-root";
    assert "-" + "swap" == "-swap";
    assert m + ("-" + "root") == m + "-" + "root";
    assert m + ("-" + "swap") == m + "-" + "swap";
  }

  /** An instance and two volumes that all stand for one listed name give just that name. */
  lemma OneMachineListed(poolId: string, name: string, instance: VpcApi.Instance,
                         root: VpcApi.Volume, swap: VpcApi.Volume)
    requires Normalise(instance.name) == name && StartsWith(name, poolId)
    requires StartsWith(Normalise(root.name), poolId) && VolumeMachine(root.name) == name
    requires StartsWith(Normalise(swap.name), poolId) && VolumeMachine(swap.name) == name
    ensures InstanceNames(poolId, [instance]) + VolumeNames(poolId, [root, swap]) == {name}
  {
    InstanceNamesSnoc(poolId, [], instance);
    VolumeNamesSnoc(poolId, [], root);
    VolumeNamesSnoc(poolId, [root], swap);
    assert [] + [instance] == [instance];
    assert [] + [root] == [root] && [root] + [swap] == [root, swap];
  }

  lemma InstanceNamesSnoc(poolId: string, instances: seq<VpcApi.Instance>, x: VpcApi.Instance)
    ensures InstanceNames(poolId, instances + [x])
            == InstanceNames(poolId, instances)
               + if StartsWith(Normalise(x.name), poolId) then {Normalise(x.name)} else {}
  {
    assert (instances + [x])[..|instances|] == instances;
  }

  lemma VolumeNamesSnoc(poolId: string, volumes: seq<VpcApi.Volume>, v: VpcApi.Volume)
    ensures VolumeNames(poolId, volumes + [v])
            == VolumeNames(poolId, volumes)
               + if StartsWith(Normalise(v.name), poolId) then {VolumeMachine(v.name)} else {}
  {
    assert (volumes + [v])[..|volumes|] == volumes;
  }

  /** A volume named exactly after a pool id that has a `_` stands for a
      shorter name, one that no longer starts with the pool id. */
  lemma PoolNamedVolumeLeavesPool(prefix: string, tail: string)
    requires '-' !in prefix && '-' !in tail && '_' !in tail
    ensures var poolId := prefix + "_" + tail;
            VolumeNames(poolId, [VpcApi.Volume("", poolId, "", None)]) == {prefix}
            && !StartsWith(prefix, poolId)
  {
    var poolId := prefix + "_" + tail;
    PoolNamedVolumeMachine(prefix, tail);
    SingleVolumeListed(poolId, VpcApi.Volume("", poolId, "", None));
  }

  lemma PoolNamedVolumeMachine(prefix: string, tail: string)
    requires '-' !in prefix && '-' !in tail && '_' !in tail
    ensures VolumeMachine(prefix + "_" + tail) == prefix
    ensures StartsWith(Normalise(prefix + "_" + tail), prefix + "_" + tail)
  {
    var poolId := prefix + "_" + tail;
    assert poolId == prefix + ['_'] + tail;
    assert '-' !in poolId by {
      assert forall i :: 0 <= i < |poolId| ==> poolId[i] in prefix || poolId[i] == '_' || poolId[i] in tail;
    }
    NormaliseKeepsPlain(poolId);
    BeforeLastOfTail(prefix, '_', tail);
  }

  /** A one-volume listing gives that volume's machine when the filter keeps it. */
  lemma SingleVolumeListed(poolId: string, v: VpcApi.Volume)
    requires StartsWith(Normalise(v.name), poolId)
    ensures VolumeNames(poolId, [v]) == {VolumeMachine(v.name)}
  {
    VolumeNamesSnoc(poolId, [], v);
    assert [] + [v] == [v];
  }

  // ---------------------------------------------------------------------
  // PowerVS: the pool's machines, from `serverName`

  /** The keys of a `pvmInstances` entry the listers read; `None` when the key is absent. */
  datatype PvmEntry = PvmEntry(pvmInstanceId: Option<string>, serverName: Option<string>, status: Option<string>)

  /** `instance.get("serverName", "")` */
  function ServerNameOf(e: PvmEntry): string {
    e.serverName.GetOr("")
  }

  /** `list_vms(client, pool_id)`: the server names starting with the pool id, verbatim. */
  function PowerVSListVms(poolId: string, entries: seq<PvmEntry>): set<string>
    decreases |entries|
  {
    if |entries| == 0 then {}
    else
      var name := ServerNameOf(entries[|entries| - 1]);
      PowerVSListVms(poolId, entries[..|entries| - 1]) + if StartsWith(name, poolId) then {name} else {}
  }

  /** A name is listed iff some entry's server name is exactly that name and
      starts with the pool id. */
  lemma {:induction false} PowerVSListVmsMembers(poolId: string, entries: seq<PvmEntry>)
    ensures forall n :: n in PowerVSListVms(poolId, entries) <==>
              exists i :: 0 <= i < |entries| && ServerNameOf(entries[i]) == n && StartsWith(n, poolId)
    decreases |entries|
  {
    if |entries| > 0 {
      var init := entries[..|entries| - 1];
      PowerVSListVmsMembers(poolId, init);
      assert forall i :: 0 <= i < |init| ==> init[i] == entries[i];
    }
  }

  lemma PowerVSListVmsSnoc(poolId: string, entries: seq<PvmEntry>, e: PvmEntry)
    ensures PowerVSListVms(poolId, entries + [e])
            == PowerVSListVms(poolId, entries) + if StartsWith(ServerNameOf(e), poolId) then {ServerNameOf(e)} else {}
  {
    assert (entries + [e])[..|entries|] == entries;
  }

  /** An entry without a `serverName` counts as `""`, so for a non-empty pool
      id it adds nothing to the listing. */
  lemma NamelessEntryIsNotListed(poolId: string, entries: seq<PvmEntry>, e: PvmEntry)
    requires poolId != "" && e.serverName.None?
    ensures PowerVSListVms(poolId, entries + [e]) == PowerVSListVms(poolId, entries)
    ensures "" !in PowerVSListVms(poolId, entries + [e])
  {
    PowerVSListVmsSnoc(poolId, entries, e);
    PowerVSListVmsMembers(poolId, entries + [e]);
  }

  /** Listing the same machine twice reports it once. */
  lemma DuplicatesCollapse(poolId: string, entries: seq<PvmEntry>, e: PvmEntry)
    ensures PowerVSListVms(poolId, entries + [e, e]) == PowerVSListVms(poolId, entries + [e])
  {
    PowerVSListVmsSnoc(poolId, entries, e);
    PowerVSListVmsSnoc(poolId, entries + [e], e);
    assert entries + [e, e] == entries + [e] + [e];
  }

  /** `powervs_list_vms.main`: no pool id means exit 1 before the listing request. */
  function PowerVSListMain(pool: Option<string>, env: Option<string>, entries: seq<PvmEntry>)
    : (r: (seq<PowerVSCalls.Step>, Result<set<string>>))
    ensures !Truthy(pool) && !Truthy(env) ==> r == ([], Err(SystemExit(1)))
    ensures PoolId(pool, env).Ok? ==>
              r == ([PowerVSCalls.Api(PowerVSClient.ListInstancesCall())],
                    Ok(PowerVSListVms(PoolId(pool, env).value, entries)))
    ensures r.1.Ok? ==> forall n :: n in r.1.value ==> n != ""
  {
    match PoolId(pool, env)
    case Err(e) => ([], Err(e))
    case Ok(poolId) =>
      PowerVSListVmsMembers(poolId, entries);
      ([PowerVSCalls.Api(PowerVSClient.ListInstancesCall())], Ok(PowerVSListVms(poolId, entries)))
  }

  // ---------------------------------------------------------------------
  // The deleting reports

  /** `"DELET" in status.upper() or "SHUTTING" in status.upper()` */
  predicate IsDeletingStatus(status: string) {
    Contains(Upper(status), "DELET") || Contains(Upper(status), "SHUTTING")
  }

  /** The PowerVS status check ignores case: a status and its upper-cased form agree. */
  lemma DeletingStatusIgnoresCase(status: string)
    ensures IsDeletingStatus(Upper(status)) == IsDeletingStatus(status)
  {
    UpperIdempotent(status);
  }

  /** `instance.get("status", "")`, upper-cased and matched against DELET and SHUTTING. */
  predicate IsDeletingPvm(e: PvmEntry) {
    IsDeletingStatus(e.status.GetOr(""))
  }

  lemma MissingStatusIsNotDeleting(e: PvmEntry)
    requires e.status.None?
    ensures !IsDeletingPvm(e)
  {
    assert !Contains("", "DELET") && !Contains("", "SHUTTING");
  }

  /** `f"{instance['pvmInstanceID']} {instance.get('serverName', 'unknown')}"` for an entry that has its id. */
  function PvmLine(e: PvmEntry): string {
    e.pvmInstanceId.GetOr("") + " " + e.serverName.GetOr("unknown")
  }

  /** A PowerVS line of an entry with its id splits back, at its spaces, into
      the id and the server name (`unknown` when absent) when neither holds
      a space. */
  lemma PvmLineFields(e: PvmEntry)
    ensures var id := e.pvmInstanceId.GetOr("");
            var name := e.serverName.GetOr("unknown");
            e.pvmInstanceId.Some? && ' ' !in id && ' ' !in name
            ==> Split(PvmLine(e), ' ') == [id, name]
  {
    var id := e.pvmInstanceId.GetOr("");
    var name := e.serverName.GetOr("unknown");
    if ' ' !in id && ' ' !in name {
      SplitConcat(id, name, ' ');
      SplitNoSeparator(id, ' ');
      SplitNoSeparator(name, ' ');
    }
  }

  /** The entries have what a line needs: `instance['pvmInstanceID']` raises KeyError otherwise. */
  predicate HasId(e: PvmEntry) {
    e.pvmInstanceId.Some?
  }

  /** A report loop over a listing: each element the filter keeps is printed,
      unless it lacks what its line needs, which stops the loop. */
  method ReportUntil<T>(keep: T -> bool, complete: T -> bool, line: T -> string, items: seq<T>)
    returns (lines: seq<string>, stop: Option<nat>)
    ensures stop.None? <==> forall i :: 0 <= i < |items| && keep(items[i]) ==> complete(items[i])
    ensures stop.None? ==> lines == Map(line, Filter(keep, items))
    ensures stop.Some? ==>
              && stop.value < |items| && keep(items[stop.value]) && !complete(items[stop.value])
              && lines == Map(line, Filter(keep, items[..stop.value]))
  {
    lines := [];
    var k := 0;
    while k < |items|
      invariant k <= |items|
      invariant lines == Map(line, Filter(keep, items[..k]))
      invariant forall i :: 0 <= i < k && keep(items[i]) ==> complete(items[i])
    {
      var x := items[k];
      if keep(x) && !complete(x) {
        return lines, Some(k);
      }
      assert forall i :: 0 <= i < k + 1 && keep(items[i]) ==> complete(items[i]) by {
        assert keep(items[k]) ==> complete(items[k]);
      }
      FilterMapPrefix(keep, line, items, k);
      if keep(x) {
        lines := lines + [line(x)];
      }
      k := k + 1;
    }
    assert items[..k] == items;
    stop := None;
  }

  /** A report loop that never stops early: one line per kept element, in order. */
  method ReportAll<T>(keep: T -> bool, line: T -> string, items: seq<T>) returns (lines: seq<string>)
    ensures lines == Map(line, Filter(keep, items))
  {
    lines := [];
    var k := 0;
    while k < |items|
      invariant k <= |items|
      invariant lines == Map(line, Filter(keep, items[..k]))
    {
      var x := items[k];
      FilterMapPrefix(keep, line, items, k);
      if keep(x) {
        lines := lines + [line(x)];
      }
      k := k + 1;
    }
    assert items[..k] == items;
  }

  /** `list_deleting_vms(client)`: the printed lines, and the KeyError raised
      by the first reported entry that has no `pvmInstanceID`. */
  method ListDeletingPvms(entries: seq<PvmEntry>) returns (lines: seq<string>, raised: Option<Exc>)
    ensures raised.None? <==>
              forall i :: 0 <= i < |entries| && IsDeletingPvm(entries[i]) ==> entries[i].pvmInstanceId.Some?
    ensures raised.None? ==> lines == Map(PvmLine, Filter(IsDeletingPvm, entries))
    ensures raised.Some? ==>
              && raised == Some(KeyError("pvmInstanceID"))
              && exists k :: && 0 <= k < |entries|
                             && IsDeletingPvm(entries[k]) && entries[k].pvmInstanceId.None?
                             && lines == Map(PvmLine, Filter(IsDeletingPvm, entries[..k]))
  {
    var stop;
    lines, stop := ReportUntil(IsDeletingPvm, HasId, PvmLine, entries);
    raised := if stop.Some? then Some(KeyError("pvmInstanceID")) else None;
  }

  /** Every reported PowerVS line is `"<id> <name>"` of a deleting entry, in listing order. */
  lemma PvmLinesAreDeletingEntries(entries: seq<PvmEntry>, i: nat)
    requires i < |Filter(IsDeletingPvm, entries)|
    ensures var e := Filter(IsDeletingPvm, entries)[i];
            && IsDeletingPvm(e) && e in entries
            && Map(PvmLine, Filter(IsDeletingPvm, entries))[i]
               == e.pvmInstanceId.GetOr("") + " " + e.serverName.GetOr("unknown")
  {
    FilterMembers(IsDeletingPvm, entries);
  }

  /** `server["status"] == "deleting"`: exact and case-sensitive. */
  predicate IsDeletingVpc(instance: VpcApi.Instance) {
    instance.status == "deleting"
  }

  /** `f"{server['id']} {server['name']}"` */
  function VpcLine(instance: VpcApi.Instance): string {
    instance.id + " " + instance.name
  }

  /** `ibm_cloud_list_deleting_vms.main`: one line per deleting instance, in listing order. */
  method ListDeletingVpcVms(instances: seq<VpcApi.Instance>) returns (lines: seq<string>)
    ensures lines == Map(VpcLine, Filter(IsDeletingVpc, instances))
  {
    lines := ReportAll(IsDeletingVpc, VpcLine, instances);
  }

  /** An instance is reported iff its status is exactly `deleting`; nothing
      else produces a line. */
  lemma VpcDeletingReport(instances: seq<VpcApi.Instance>)
    ensures forall i :: 0 <= i < |instances| && instances[i].status == "deleting"
              ==> instances[i].id + " " + instances[i].name in Map(VpcLine, Filter(IsDeletingVpc, instances))
    ensures forall j :: 0 <= j < |Filter(IsDeletingVpc, instances)| ==>
              var server := Filter(IsDeletingVpc, instances)[j];
              && server in instances && server.status == "deleting"
              && Map(VpcLine, Filter(IsDeletingVpc, instances))[j] == server.id + " " + server.name
    ensures (forall i :: 0 <= i < |instances| ==> instances[i].status != "deleting")
            ==> Map(VpcLine, Filter(IsDeletingVpc, instances)) == []
  {
    forall i | 0 <= i < |instances| && instances[i].status == "deleting"
      ensures VpcLine(instances[i]) in Map(VpcLine, Filter(IsDeletingVpc, instances))
    {
      KeptIsMapped(IsDeletingVpc, VpcLine, instances, i);
    }
  }

  /** The id of a reported VPC instance is the line up to its first space,
      when the id has none. */
  lemma VpcLineStartsWithId(instance: VpcApi.Instance)
    requires ' ' !in instance.id
    ensures var line := VpcLine(instance);
            && line[..|instance.id|] == instance.id && line[|instance.id|] == ' '
            && line[|instance.id| + 1..] == instance.name
  {
  }

  /** A VPC line splits back, at its spaces, into the id and the name when
      neither holds a space. */
  lemma VpcLineFields(instance: VpcApi.Instance)
    ensures ' ' !in instance.id && ' ' !in instance.name
            ==> Split(VpcLine(instance), ' ') == [instance.id, instance.name]
  {
    if ' ' !in instance.id && ' ' !in instance.name {
      SplitConcat(instance.id, instance.name, ' ');
      SplitNoSeparator(instance.id, ' ');
      SplitNoSeparator(instance.name, ' ');
    }
  }

  /** `volume["status"] in ["available"]`: the only status that is skipped. */
  predicate IsReportedVolume(volume: VpcApi.Volume) {
    volume.status != "available"
  }

  /** `f"{volume['id']} (name={volume['name']}) -> {volume['status']}"` */
  function VolumeLine(volume: VpcApi.Volume): string {
    volume.id + " (name=" + volume.name + ") -> " + volume.status
  }

  /** A volume line splits back, at its spaces, into the id, the
      parenthesised name, the arrow and the status when none of the three
      values holds a space. */
  lemma VolumeLineFields(volume: VpcApi.Volume)
    ensures ' ' !in volume.id && ' ' !in volume.name && ' ' !in volume.status
            ==> Split(VolumeLine(volume), ' ') == [volume.id, "(name=" + volume.name + ")", "->", volume.status]
  {
    if ' ' !in volume.id && ' ' !in volume.name && ' ' !in volume.status {
      var named := "(name=" + volume.name + ")";
      assert ' ' !in named by { assert forall x :: x in named ==> x in volume.name || x in "(name=)"; }
      var tail := "->" + [' '] + volume.status;
      var rest := named + [' '] + tail;
      assert VolumeLine(volume) == volume.id + [' '] + rest;
      SplitNoSeparator("->", ' ');
      SplitNoSeparator(volume.status, ' ');
      SplitConcat("->", volume.status, ' ');
      assert Split(tail, ' ') == ["->", volume.status];
      SplitNoSeparator(named, ' ');
      SplitConcat(named, tail, ' ');
      assert Split(rest, ' ') == [named, "->", volume.status];
      SplitNoSeparator(volume.id, ' ');
      SplitConcat(volume.id, rest, ' ');
    }
  }

  /** `list_deleting_volumes.main`: one line per volume that is not available, in listing order. */
  method ListDeletingVolumes(volumes: seq<VpcApi.Volume>) returns (lines: seq<string>)
    ensures lines == Map(VolumeLine, Filter(IsReportedVolume, volumes))
  {
    lines := ReportAll(IsReportedVolume, VolumeLine, volumes);
  }

  /** A volume is reported iff its status is not `available`, `failed` included. */
  lemma VolumeReport(volumes: seq<VpcApi.Volume>)
    ensures forall i :: 0 <= i < |volumes| && volumes[i].status != "available"
              ==> volumes[i].id + " (name=" + volumes[i].name + ") -> " + volumes[i].status
                  in Map(VolumeLine, Filter(IsReportedVolume, volumes))
    ensures forall j :: 0 <= j < |Filter(IsReportedVolume, volumes)| ==>
              Filter(IsReportedVolume, volumes)[j] in volumes
              && Filter(IsReportedVolume, volumes)[j].status != "available"
    ensures (forall i :: 0 <= i < |volumes| ==> volumes[i].status == "available")
            ==> Map(VolumeLine, Filter(IsReportedVolume, volumes)) == []
  {
    forall i | 0 <= i < |volumes| && volumes[i].status != "available"
      ensures VolumeLine(volumes[i]) in Map(VolumeLine, Filter(IsReportedVolume, volumes))
    {
      KeptIsMapped(IsReportedVolume, VolumeLine, volumes, i);
    }
  }

  /** A `failed` volume is reported, with its status at the end of the line. */
  lemma FailedVolumeIsReported(volume: VpcApi.Volume)
    requires volume.status == "failed"
    ensures Map(VolumeLine, Filter(IsReportedVolume, [volume]))
            == [volume.id + " (name=" + volume.name + ") -> failed"]
  {
    FilterMapSnoc(IsReportedVolume, VolumeLine, [], volume);
    assert [] + [volume] == [volume];
    assert IsReportedVolume(volume);
    assert Map(VolumeLine, Filter(IsReportedVolume, [])) == [];
    assert VolumeLine(volume) == volume.id + " (name=" + volume.name + ") -> failed" by {
      assert ") -> " + "failed" == ") -> failed";
    }
  }
}
