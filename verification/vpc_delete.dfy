/**
 Deleting a VPC instance by name. One attempt lists the instances and the
 floating IPs, deletes the last instance named exactly like the target and
 the last floating IP whose name starts with it, then lists the volumes and
 deletes those that start with the name, are not attached, and are
 `available` or `failed`. Every delete must answer 204. Up to five attempts
 are made; an attempt that raises RuntimeError is followed by another, any
 other exception ends the deletion. Separately, the sweep deletes every
 floating IP whose status is `available`.
 */
module VpcDelete {
  import opened Errors
  import opened Wrappers
  import opened Strings
  import opened Seqs
  import opened VpcApi

  /** `items[i]` matches, and nothing after it does. */
  predicate IsLastMatch<T>(items: seq<T>, matches: T -> bool, i: int) {
    0 <= i < |items| && matches(items[i]) && forall j :: i < j < |items| ==> !matches(items[j])
  }

  /** The loop `for item in items: if matches(item): found = key(item)`,
      started with `found = acc`. */
  function ScanLast<T>(items: seq<T>, matches: T -> bool, key: T -> string, acc: Option<string>)
    : (r: Option<string>)
    ensures (forall i :: 0 <= i < |items| ==> !matches(items[i])) ==> r == acc
    ensures (exists i :: 0 <= i < |items| && matches(items[i])) ==>
              exists i :: IsLastMatch(items, matches, i) && r == Some(key(items[i]))
    decreases |items|
  {
    if |items| == 0 then acc
    else
      var r := ScanLast(items[1..], matches, key, if matches(items[0]) then Some(key(items[0])) else acc);
      assert forall i :: 0 < i < |items| ==> items[i] == items[1..][i - 1];
      if exists i :: 0 < i < |items| && matches(items[i]) then
        var i :| 0 < i < |items| && matches(items[i]);
        assert matches(items[1..][i - 1]);
        var k :| IsLastMatch(items[1..], matches, k) && r == Some(key(items[1..][k]));
        assert IsLastMatch(items, matches, k + 1);
        r
      else
        if matches(items[0]) then
          assert IsLastMatch(items, matches, 0);
          r
        else r
  }

  function NamedExactly(name: string): Instance -> bool {
    (x: Instance) => x.name == name
  }

  function NamedAfter(name: string): FloatingIp -> bool {
    (f: FloatingIp) => StartsWith(f.name, name)
  }

  function InstanceId(x: Instance): string { x.id }

  function FloatingIpId(f: FloatingIp): string { f.id }

  function VolumeId(v: Volume): string { v.id }

  function VolumeDeletion(id: string): Deletion { DeleteVolume(id) }

  function AsCall(d: Deletion): Call { Delete(d) }

  function FloatingIpDeleteCall(id: string): Call { Delete(DeleteFloatingIp(id)) }

  predicate IsAvailable(f: FloatingIp) { f.status == "available" }

  /** The id of the instance to delete: the last one named exactly `name`. */
  function InstanceToDelete(name: string, instances: seq<Instance>): Option<string> {
    ScanLast(instances, NamedExactly(name), InstanceId, None)
  }

  /** The id of the floating IP to delete: the last one whose name starts with `name`. */
  function FloatingIpToDelete(name: string, fips: seq<FloatingIp>): Option<string> {
    ScanLast(fips, NamedAfter(name), FloatingIpId, None)
  }

  /** A volume the attempt removes by hand: it belongs to the instance by
      name, the cloud would not refuse the delete as attached, and it is in a
      deletable state. */
  predicate Deletable(name: string, v: Volume) {
    && StartsWith(v.name, name)
    && v.attachmentState != Some("attached")
    && (v.status == "available" || v.status == "failed")
  }

  function DeletableOf(name: string): Volume -> bool {
    (v: Volume) => Deletable(name, v)
  }

  function VolumesToDelete(name: string, volumes: seq<Volume>): seq<string> {
    Map(VolumeId, Filter(DeletableOf(name), volumes))
  }

  /** The deletions before the volume listing: the instance, then the floating
      IP, each only when an id was found and is not empty. */
  function EarlyDeletions(name: string, instances: seq<Instance>, fips: seq<FloatingIp>): seq<Deletion> {
    var inst := InstanceToDelete(name, instances);
    var fip := FloatingIpToDelete(name, fips);
    (if Truthy(inst) then [DeleteInstance(inst.value)] else [])
    + (if Truthy(fip) then [DeleteFloatingIp(fip.value)] else [])
  }

  function LateDeletions(name: string, volumes: seq<Volume>): seq<Deletion> {
    Map(VolumeDeletion, VolumesToDelete(name, volumes))
  }

  /** Everything one attempt deletes, over one snapshot of the three listings. */
  function PlanDeleteAttempt(name: string, instances: seq<Instance>, fips: seq<FloatingIp>, volumes: seq<Volume>)
    : (r: seq<Deletion>)
    ensures |r| <= 2 + |volumes|
    ensures forall i :: 1 <= i < |r| ==> !r[i].DeleteInstance?
    ensures forall i, j :: 0 <= i < j < |r| && r[i].DeleteVolume? ==> r[j].DeleteVolume?
  {
    EarlyDeletions(name, instances, fips) + LateDeletions(name, volumes)
  }

  /** A deletion that touches `name`'s resources only, as the attempt selects them. */
  ghost predicate Touches(name: string, instances: seq<Instance>, fips: seq<FloatingIp>, volumes: seq<Volume>,
                    d: Deletion) {
    match d
    case DeleteInstance(id) =>
      exists i :: IsLastMatch(instances, NamedExactly(name), i) && instances[i].id == id
    case DeleteFloatingIp(id) =>
      exists i :: IsLastMatch(fips, NamedAfter(name), i) && fips[i].id == id
    case DeleteVolume(id) =>
      exists i :: 0 <= i < |volumes| && Deletable(name, volumes[i]) && volumes[i].id == id
  }

  /** A delete attempt touches only the last instance named `name`, the last
      floating IP whose name starts with `name`, and the deletable volumes of
      `name`; the instance comes first, then the floating IP, then the
      volumes in listing order, and every deletable volume is included. */
  lemma PlanTouchesOnlyTarget(name: string, instances: seq<Instance>, fips: seq<FloatingIp>, volumes: seq<Volume>)
    ensures var plan := PlanDeleteAttempt(name, instances, fips, volumes);
            forall k :: 0 <= k < |plan| ==> Touches(name, instances, fips, volumes, plan[k])
    ensures var plan := PlanDeleteAttempt(name, instances, fips, volumes);
            forall k :: 0 <= k < |plan| && plan[k].DeleteInstance? ==> k == 0
    ensures var plan := PlanDeleteAttempt(name, instances, fips, volumes);
            forall k :: 0 <= k < |plan| && plan[k].DeleteFloatingIp? ==> k <= 1
    ensures var plan := PlanDeleteAttempt(name, instances, fips, volumes);
            forall i :: 0 <= i < |volumes| && Deletable(name, volumes[i]) ==> DeleteVolume(volumes[i].id) in plan
  {
    var early := EarlyDeletions(name, instances, fips);
    var late := LateDeletions(name, volumes);
    assert PlanDeleteAttempt(name, instances, fips, volumes) == early + late;
    EarlyTouches(name, instances, fips, volumes);
    LateTouches(name, instances, fips, volumes);
    PlanParts(early, late, d => Touches(name, instances, fips, volumes, d));
  }

  /** The order facts of a plan made of at most two early deletions, the
      instance first, followed by volume deletions; a property every part
      has, the whole plan has. */
  lemma PlanParts(early: seq<Deletion>, late: seq<Deletion>, p: Deletion -> bool)
    requires |early| <= 2
    requires forall k :: 0 <= k < |early| ==> p(early[k]) && !early[k].DeleteVolume?
    requires forall k :: 0 <= k < |early| && early[k].DeleteInstance? ==> k == 0
    requires forall k :: 0 <= k < |late| ==> p(late[k]) && late[k].DeleteVolume?
    ensures forall k :: 0 <= k < |early + late| ==> p((early + late)[k])
    ensures forall k :: 0 <= k < |early + late| && (early + late)[k].DeleteInstance? ==> k == 0
    ensures forall k :: 0 <= k < |early + late| && (early + late)[k].DeleteFloatingIp? ==> k <= 1
    ensures forall d :: d in late ==> d in early + late
  {
    forall k | 0 <= k < |early + late|
      ensures p((early + late)[k])
      ensures (early + late)[k].DeleteInstance? ==> k == 0
      ensures (early + late)[k].DeleteFloatingIp? ==> k <= 1
    {
      if k >= |early| {
        assert (early + late)[k] == late[k - |early|];
      } else {
        assert (early + late)[k] == early[k];
      }
    }
  }

  lemma EarlyTouches(name: string, instances: seq<Instance>, fips: seq<FloatingIp>, volumes: seq<Volume>)
    ensures var early := EarlyDeletions(name, instances, fips);
            && |early| <= 2
            && (forall k :: 0 <= k < |early| ==> Touches(name, instances, fips, volumes, early[k]))
            && (forall k :: 0 <= k < |early| && early[k].DeleteInstance? ==> k == 0)
            && (forall k :: 0 <= k < |early| ==> !early[k].DeleteVolume?)
  {
    var inst := InstanceToDelete(name, instances);
    var fip := FloatingIpToDelete(name, fips);
    if inst.Some? {
      assert exists i :: 0 <= i < |instances| && NamedExactly(name)(instances[i]);
    }
    if fip.Some? {
      assert exists i :: 0 <= i < |fips| && NamedAfter(name)(fips[i]);
    }
  }

  lemma LateTouches(name: string, instances: seq<Instance>, fips: seq<FloatingIp>, volumes: seq<Volume>)
    ensures var late := LateDeletions(name, volumes);
            && (forall k :: 0 <= k < |late| ==> late[k].DeleteVolume?)
            && (forall k :: 0 <= k < |late| ==> Touches(name, instances, fips, volumes, late[k]))
            && (forall i :: 0 <= i < |volumes| && Deletable(name, volumes[i]) ==> DeleteVolume(volumes[i].id) in late)
  {
    var vols := Filter(DeletableOf(name), volumes);
    FilterMembers(DeletableOf(name), volumes);
    var late := LateDeletions(name, volumes);
    forall k | 0 <= k < |late|
      ensures Touches(name, instances, fips, volumes, late[k])
    {
      assert late[k] == DeleteVolume(vols[k].id);
      assert vols[k] in volumes;
      var i :| 0 <= i < |volumes| && volumes[i] == vols[k];
    }
    forall i | 0 <= i < |volumes| && Deletable(name, volumes[i])
      ensures DeleteVolume(volumes[i].id) in late
    {
      assert DeletableOf(name)(volumes[i]);
      var j :| 0 <= j < |vols| && vols[j] == volumes[i];
      assert late[j] == DeleteVolume(volumes[i].id);
    }
  }

  /** With nothing of `name` listed, an attempt deletes nothing. */
  lemma NoMatchesPlanNothing(name: string, instances: seq<Instance>, fips: seq<FloatingIp>, volumes: seq<Volume>)
    requires forall i :: 0 <= i < |instances| ==> instances[i].name != name
    requires forall i :: 0 <= i < |fips| ==> !StartsWith(fips[i].name, name)
    requires forall i :: 0 <= i < |volumes| ==> !StartsWith(volumes[i].name, name)
    ensures PlanDeleteAttempt(name, instances, fips, volumes) == []
  {
    assert forall i :: 0 <= i < |volumes| ==> !Deletable(name, volumes[i]);
  }

  /** What one attempt sees: the three listings (each a result of its call)
      and the answers of its delete calls, in the order they are made. */
  datatype AttemptWorld = AttemptWorld(
    instances: Result<seq<Instance>>,
    fips: Result<seq<FloatingIp>>,
    volumes: Result<seq<Volume>>,
    deleteAnswers: seq<Result<int>>)

  /** `resp = service.delete_...(id); assert resp.status_code == 204` */
  function CheckedDelete(answer: Result<int>): (r: Option<Exc>)
    ensures r.None? <==> answer == Ok(204)
  {
    match answer
    case Ok(status) => if status == 204 then None else Some(AssertionError)
    case Err(e) => Some(e)
  }

  /** The delete answered by `answers[j]` went through. */
  predicate Delivered(answers: seq<Result<int>>, j: nat) {
    CheckedDelete(Answer(answers, j)).None?
  }

  /** Issue `deletions` in order, the `k`-th answered by `answers[from + k]`;
      stop at the first that fails. Returns how many were issued. */
  function IssueDeletions(deletions: seq<Deletion>, answers: seq<Result<int>>, from: nat)
    : (r: (nat, Option<Exc>))
    ensures r.0 <= |deletions|
    ensures r.1.None? ==> r.0 == |deletions|
    ensures r.1.Some? ==> r.0 >= 1 && CheckedDelete(Answer(answers, from + r.0 - 1)) == r.1
    ensures forall j :: from <= j < from + r.0 - 1 ==> Delivered(answers, j)
    ensures r.1.None? ==> forall j :: from <= j < from + r.0 ==> Delivered(answers, j)
    decreases |deletions|
  {
    if |deletions| == 0 then (0, None)
    else
      match CheckedDelete(Answer(answers, from))
      case Some(e) => (1, Some(e))
      case None =>
        var rest := IssueDeletions(deletions[1..], answers, from + 1);
        (rest.0 + 1, rest.1)
  }

  function Deletes(ds: seq<Deletion>): seq<Call> {
    Map(AsCall, ds)
  }

  /** `delete_instance_attempt`: the calls it makes and the exception it raises, if any. */
  function DeleteAttempt(name: string, w: AttemptWorld): (r: (seq<Call>, Option<Exc>))
    ensures |r.0| >= 1 && r.0[0] == ListInstances
    ensures w.instances.Err? ==> r == ([ListInstances], Some(w.instances.exc))
    ensures r.1.None? ==> w.instances.Ok? && w.fips.Ok? && w.volumes.Ok?
    ensures r.1.None? ==>
              r.0 == [ListInstances, ListFloatingIps]
                     + Deletes(EarlyDeletions(name, w.instances.value, w.fips.value))
                     + [ListVolumes]
                     + Deletes(LateDeletions(name, w.volumes.value))
  {
    match w.instances
    case Err(e) => ([ListInstances], Some(e))
    case Ok(instances) =>
      match w.fips
      case Err(e) => ([ListInstances, ListFloatingIps], Some(e))
      case Ok(fips) =>
        var early := EarlyDeletions(name, instances, fips);
        var issue := IssueDeletions(early, w.deleteAnswers, 0);
        var calls := [ListInstances, ListFloatingIps] + Deletes(early[..issue.0]);
        if issue.1.Some? then (calls, issue.1)
        else
          assert early[..issue.0] == early;
          match w.volumes
          case Err(e) => (calls + [ListVolumes], Some(e))
          case Ok(volumes) =>
            var late := LateDeletions(name, volumes);
            var issue2 := IssueDeletions(late, w.deleteAnswers, issue.0);
            assert issue2.1.None? ==> late[..issue2.0] == late;
            (calls + [ListVolumes] + Deletes(late[..issue2.0]), issue2.1)
  }

  /** Every delete an attempt issues is one the plan over its listings selects:
      the issued deletes are a prefix of the plan, all of it when the attempt
      does not raise. */
  lemma AttemptIssuesPlanPrefix(name: string, w: AttemptWorld)
    requires w.instances.Ok? && w.fips.Ok? && w.volumes.Ok?
    ensures var plan := PlanDeleteAttempt(name, w.instances.value, w.fips.value, w.volumes.value);
            var issued := Filter(IsDelete, DeleteAttempt(name, w).0);
            && |issued| <= |plan|
            && issued == Deletes(plan[..|issued|])
            && (DeleteAttempt(name, w).1.None? ==> issued == Deletes(plan))
  {
    var instances, fips, volumes := w.instances.value, w.fips.value, w.volumes.value;
    var early := EarlyDeletions(name, instances, fips);
    var late := LateDeletions(name, volumes);
    var plan := PlanDeleteAttempt(name, instances, fips, volumes);
    var issue := IssueDeletions(early, w.deleteAnswers, 0);
    var n, err := issue.0, issue.1;
    var issue2 := IssueDeletions(late, w.deleteAnswers, n);
    var m, err2 := issue2.0, issue2.1;
    AttemptTraceShape(name, w);
    if err.Some? {
      EarlyStopIssued(early, late, n);
    } else {
      LateStopIssued(early, late, m);
    }
  }

  /** The deletes of a trace stopped by the `n`-th early deletion are a prefix of the plan. */
  lemma EarlyStopIssued(early: seq<Deletion>, late: seq<Deletion>, n: nat)
    requires n <= |early|
    ensures var issued := Filter(IsDelete, [ListInstances, ListFloatingIps] + Deletes(early[..n]));
            |issued| <= |early + late| && issued == Deletes((early + late)[..|issued|])
  {
    ShortTraceDeletes(early[..n]);
    assert (early + late)[..n] == early[..n];
  }

  /** The deletes of a trace that issued `m` late deletions are a prefix of
      the plan, all of it when `m` covers the late part. */
  lemma LateStopIssued(early: seq<Deletion>, late: seq<Deletion>, m: nat)
    requires m <= |late|
    ensures var issued := Filter(IsDelete, [ListInstances, ListFloatingIps] + Deletes(early) + [ListVolumes]
                                           + Deletes(late[..m]));
            && |issued| <= |early + late| && issued == Deletes((early + late)[..|issued|])
            && (m == |late| ==> issued == Deletes(early + late))
  {
    FullTraceDeletes(early, late[..m]);
    assert (early + late)[..|early| + m] == early + late[..m];
    assert m == |late| ==> late[..m] == late;
  }

  /** The trace of an attempt whose three listings succeed, by where it stops. */
  lemma AttemptTraceShape(name: string, w: AttemptWorld)
    requires w.instances.Ok? && w.fips.Ok? && w.volumes.Ok?
    ensures var early := EarlyDeletions(name, w.instances.value, w.fips.value);
            var late := LateDeletions(name, w.volumes.value);
            var issue := IssueDeletions(early, w.deleteAnswers, 0);
            var issue2 := IssueDeletions(late, w.deleteAnswers, issue.0);
            && (issue.1.Some? ==> DeleteAttempt(name, w)
                                  == ([ListInstances, ListFloatingIps] + Deletes(early[..issue.0]), issue.1))
            && (issue.1.None? ==> DeleteAttempt(name, w)
                                  == ([ListInstances, ListFloatingIps] + Deletes(early) + [ListVolumes]
                                      + Deletes(late[..issue2.0]), issue2.1))
  {
    var early := EarlyDeletions(name, w.instances.value, w.fips.value);
    var issue := IssueDeletions(early, w.deleteAnswers, 0);
    if issue.1.None? {
      assert early[..issue.0] == early;
    }
  }

  /** The deletes of a trace cut short before the volume listing. */
  lemma ShortTraceDeletes(a: seq<Deletion>)
    ensures Filter(IsDelete, [ListInstances, ListFloatingIps] + Deletes(a)) == Deletes(a)
  {
    var heads := [ListInstances, ListFloatingIps];
    assert Filter(IsDelete, heads) == [];
    DeletesAreDeletes(a);
    FilterAppend(IsDelete, heads, Deletes(a));
  }

  /** The deletes of a trace that reached the volume listing. */
  lemma FullTraceDeletes(a: seq<Deletion>, b: seq<Deletion>)
    ensures Filter(IsDelete, [ListInstances, ListFloatingIps] + Deletes(a) + [ListVolumes] + Deletes(b))
            == Deletes(a + b)
  {
    var calls := [ListInstances, ListFloatingIps] + Deletes(a);
    ShortTraceDeletes(a);
    DeletesAreDeletes(b);
    var lv: seq<Call> := [ListVolumes];
    assert Filter(IsDelete, lv) == [];
    FilterAppend(IsDelete, calls, lv);
    assert Filter(IsDelete, calls + lv) == Deletes(a);
    FilterAppend(IsDelete, calls + lv, Deletes(b));
    assert Filter(IsDelete, calls + lv + Deletes(b)) == Deletes(a) + Deletes(b);
    MapAppend(AsCall, a, b);
  }

  lemma DeletesAreDeletes(ds: seq<Deletion>)
    ensures Filter(IsDelete, Deletes(ds)) == Deletes(ds)
  {
    assert forall i :: 0 <= i < |Deletes(ds)| ==> IsDelete(Deletes(ds)[i]);
  }

  /** Deleting an instance nobody has: three listings, no delete, no error. */
  lemma MissingInstanceIsNoError(name: string, instances: seq<Instance>, fips: seq<FloatingIp>, volumes: seq<Volume>,
                                 answers: seq<Result<int>>)
    requires forall i :: 0 <= i < |instances| ==> instances[i].name != name
    requires forall i :: 0 <= i < |fips| ==> !StartsWith(fips[i].name, name)
    requires forall i :: 0 <= i < |volumes| ==> !StartsWith(volumes[i].name, name)
    ensures DeleteAttempt(name, AttemptWorld(Ok(instances), Ok(fips), Ok(volumes), answers))
            == ([ListInstances, ListFloatingIps, ListVolumes], None)
  {
    NoMatchesPlanNothing(name, instances, fips, volumes);
    var none: seq<Deletion> := [];
    assert EarlyDeletions(name, instances, fips) == none;
    assert LateDeletions(name, volumes) == none;
    assert IssueDeletions(none, answers, 0) == (0, None);
    assert Deletes(none) == [];
    var w := AttemptWorld(Ok(instances), Ok(fips), Ok(volumes), answers);
    AttemptTraceShape(name, w);
    assert DeleteAttempt(name, w).0 == [ListInstances, ListFloatingIps] + [] + [ListVolumes] + [];
    assert DeleteAttempt(name, w).1 == None;
    assert DeleteAttempt(name, w).0 == [ListInstances, ListFloatingIps, ListVolumes];
  }

  /** Attempts the delete driver may make. */
  const MaxAttempts: nat := 5

  /** The world of the `k`-th attempt; attempts past the script see every call fail. */
  function WorldAt(worlds: seq<AttemptWorld>, k: nat): AttemptWorld {
    if k < |worlds| then worlds[k]
    else AttemptWorld(Err(Unscripted), Err(Unscripted), Err(Unscripted), [])
  }

  /** What each of the five attempts would do over its own snapshot, in
      order; the loop below consumes them only up to where it stops. */
  function AttemptOutcomes(name: string, worlds: seq<AttemptWorld>): (r: seq<(seq<Call>, Option<Exc>)>)
    ensures |r| == MaxAttempts
    ensures forall k :: 0 <= k < MaxAttempts ==> r[k] == DeleteAttempt(name, WorldAt(worlds, k))
  {
    seq(MaxAttempts, (k: int) requires 0 <= k => DeleteAttempt(name, WorldAt(worlds, k)))
  }

  /** An attempt that raised RuntimeError, so another one follows. */
  predicate Retried(outcome: (seq<Call>, Option<Exc>)) {
    outcome.1.Some? && IsRuntimeError(outcome.1.value)
  }

  /** Calls of the first `n` attempts, in order. */
  function CallsOf(outcomes: seq<(seq<Call>, Option<Exc>)>, n: nat): seq<Call>
    requires n <= |outcomes|
  {
    if n == 0 then [] else CallsOf(outcomes, n - 1) + outcomes[n - 1].0
  }

  /** Where the loop of `delete_instance` settles when attempt `k` is next:
      the number of attempts made in all and the exception that escapes. */
  function Settle(outcomes: seq<(seq<Call>, Option<Exc>)>, k: nat): (r: (nat, Option<Exc>))
    requires k < |outcomes|
    ensures k < r.0 <= |outcomes|
    ensures forall j :: k <= j < r.0 - 1 ==> Retried(outcomes[j])
    ensures r.0 < |outcomes| ==> !Retried(outcomes[r.0 - 1])
    ensures Retried(outcomes[r.0 - 1]) ==> r.0 == |outcomes| && r.1.None?
    ensures !Retried(outcomes[r.0 - 1]) ==> r.1 == outcomes[r.0 - 1].1
    decreases |outcomes| - k
  {
    if k == |outcomes| - 1 || !Retried(outcomes[k]) then
      (k + 1, if Retried(outcomes[k]) then None else outcomes[k].1)
    else Settle(outcomes, k + 1)
  }

  /** The loop of `delete_instance` over what its attempts do: RuntimeError
      is swallowed and the next attempt made, the first attempt that does not
      raise ends the loop, any other exception propagates at once, and after
      the last attempt the loop returns normally. */
  method RetryOnRuntimeError(outcomes: seq<(seq<Call>, Option<Exc>)>)
    returns (attempts: nat, calls: seq<Call>, err: Option<Exc>)
    requires |outcomes| == MaxAttempts
    ensures 1 <= attempts <= MaxAttempts
    ensures calls == CallsOf(outcomes, attempts)
    ensures forall k :: 0 <= k < attempts - 1 ==> Retried(outcomes[k])
    ensures attempts < MaxAttempts ==> !Retried(outcomes[attempts - 1])
    ensures err.Some? ==> err == outcomes[attempts - 1].1 && !IsRuntimeError(err.value)
    ensures err.None? ==> outcomes[attempts - 1].1.None? || attempts == MaxAttempts
    ensures (attempts, err) == Settle(outcomes, 0)
  {
    attempts := 0;
    calls := [];
    err := None;
    while attempts < MaxAttempts
      invariant attempts <= MaxAttempts
      invariant calls == CallsOf(outcomes, attempts)
      invariant forall k :: 0 <= k < attempts ==> Retried(outcomes[k])
      invariant attempts < MaxAttempts ==> Settle(outcomes, 0) == Settle(outcomes, attempts)
      invariant attempts == MaxAttempts ==> Settle(outcomes, 0) == (MaxAttempts, None)
    {
      var outcome := outcomes[attempts];
      calls := calls + outcome.0;
      attempts := attempts + 1;
      if outcome.1.None? {
        return;
      } else if !IsRuntimeError(outcome.1.value) {
        err := outcome.1;
        return;
      }
    }
  }

  /** `delete_instance(service, name, opts)`: the attempts of `delete_instance_attempt`
      over successive snapshots of the cloud, driven by the loop above. */
  method DeleteInstanceByName(name: string, worlds: seq<AttemptWorld>)
    returns (attempts: nat, calls: seq<Call>, err: Option<Exc>)
    ensures var outcomes := AttemptOutcomes(name, worlds);
            && 1 <= attempts <= MaxAttempts
            && calls == CallsOf(outcomes, attempts)
            && (forall k :: 0 <= k < attempts - 1 ==> Retried(outcomes[k]))
            && (attempts < MaxAttempts ==> !Retried(outcomes[attempts - 1]))
            && (err.Some? ==> err == outcomes[attempts - 1].1 && !IsRuntimeError(err.value))
            && (err.None? ==> outcomes[attempts - 1].1.None? || attempts == MaxAttempts)
            && (attempts, err) == Settle(outcomes, 0)
  {
    attempts, calls, err := RetryOnRuntimeError(AttemptOutcomes(name, worlds));
  }

  /** The driver never lets a RuntimeError out, and it stops after the first
      attempt that succeeds: an attempt that goes through on the first try is
      the only one made. */
  lemma FirstCleanAttemptIsLast(name: string, worlds: seq<AttemptWorld>, attempts: nat, calls: seq<Call>, err: Option<Exc>)
    requires |worlds| >= 1 && DeleteAttempt(name, worlds[0]).1.None?
    requires var outcomes := AttemptOutcomes(name, worlds);
             && 1 <= attempts <= MaxAttempts
             && calls == CallsOf(outcomes, attempts)
             && (forall k :: 0 <= k < attempts - 1 ==> Retried(outcomes[k]))
    ensures attempts == 1 && calls == DeleteAttempt(name, worlds[0]).0
  {
    var outcomes := AttemptOutcomes(name, worlds);
    assert !Retried(outcomes[0]);
  }

  /** `delete_all_ips`: which floating IPs the sweep deletes. */
  function SweepPlan(fips: seq<FloatingIp>): seq<string> {
    Map(FloatingIpId, Filter(IsAvailable, fips))
  }

  /** The sweep deletes exactly the `available` floating IPs, in listing order. */
  lemma SweepDeletesExactlyAvailable(fips: seq<FloatingIp>, more: seq<FloatingIp>)
    ensures forall i :: 0 <= i < |fips| && fips[i].status == "available" ==> fips[i].id in SweepPlan(fips)
    ensures forall id :: id in SweepPlan(fips) ==>
              exists i :: 0 <= i < |fips| && fips[i].status == "available" && fips[i].id == id
    ensures SweepPlan(fips + more) == SweepPlan(fips) + SweepPlan(more)
  {
    var kept := Filter(IsAvailable, fips);
    FilterMembers(IsAvailable, fips);
    forall i | 0 <= i < |fips| && fips[i].status == "available"
      ensures fips[i].id in SweepPlan(fips)
    {
      assert IsAvailable(fips[i]);
      var j :| 0 <= j < |kept| && kept[j] == fips[i];
      assert SweepPlan(fips)[j] == fips[i].id;
    }
    forall id | id in SweepPlan(fips)
      ensures exists i :: 0 <= i < |fips| && fips[i].status == "available" && fips[i].id == id
    {
      var j :| 0 <= j < |kept| && SweepPlan(fips)[j] == id;
      var i :| 0 <= i < |fips| && fips[i] == kept[j];
    }
    FilterAppend(IsAvailable, fips, more);
    MapAppend(FloatingIpId, kept, Filter(IsAvailable, more));
  }

  /** `delete_all_ips` run against a double: list, then delete each available
      IP in order, stopping at the first delete that raises (status codes are
      not checked here). */
  function DeleteAllIps(listed: Result<seq<FloatingIp>>, answers: seq<Result<int>>): (r: (seq<Call>, Option<Exc>))
    ensures |r.0| >= 1 && r.0[0] == ListFloatingIps
    ensures listed.Ok? && r.1.None? ==>
              r.0 == [ListFloatingIps] + Map(FloatingIpDeleteCall, SweepPlan(listed.value))
    ensures listed.Err? ==> r == ([ListFloatingIps], Some(listed.exc))
  {
    match listed
    case Err(e) => ([ListFloatingIps], Some(e))
    case Ok(fips) =>
      var ids := SweepPlan(fips);
      var (n, err) := SweepFrom(ids, answers, 0);
      assert err.None? ==> ids[..n] == ids;
      ([ListFloatingIps] + Map(FloatingIpDeleteCall, ids[..n]), err)
  }

  function SweepFrom(ids: seq<string>, answers: seq<Result<int>>, from: nat): (r: (nat, Option<Exc>))
    ensures r.0 <= |ids|
    ensures r.1.None? ==> r.0 == |ids|
    ensures r.1.Some? ==> r.0 >= 1 && Answer(answers, from + r.0 - 1) == Err(r.1.value)
    decreases |ids|
  {
    if |ids| == 0 then (0, None)
    else
      match Answer(answers, from)
      case Err(e) => (1, Some(e))
      case Ok(_) =>
        var (n, err) := SweepFrom(ids[1..], answers, from + 1);
        (n + 1, err)
  }
}
