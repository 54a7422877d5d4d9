/**
 Waiting for a new PowerVS instance: reading its address, the readiness
 gate (health status, or ssh when RMC is unavailable) and the polling loop
 with its 1200-second budget. Each poll is scripted: the elapsed time read
 before it, what `get_instance` returned, and what the ssh waiter did.
 */
module PowerVSWait {
  import opened Errors
  import opened Wrappers
  import opened Json
  import opened PowerVSClient
  import opened PowerVSCalls

  const NoNetworks: string := "Instance does not have any networks attached"
  const NoAddress: string := "No IP address found for the instance"

  /** `_extract_ip_address`: the `ip` of the first attached network, as the
      response holds it (a truthy value of any JSON type). */
  function ExtractIpAddress(instance: Json): (r: Result<Json>)
    ensures instance.JObj? && "networks" !in instance.fields ==> r == Err(NotFound(NoNetworks))
    ensures instance.JObj? && "networks" in instance.fields && !JTruthy(instance.fields["networks"])
            ==> r == Err(NotFound(NoNetworks))
    ensures !instance.JObj? ==> r.Err? && !r.exc.NotFound?
    ensures r.Ok? ==> JTruthy(r.value)
    ensures FirstNetworkIs(instance) ==>
              var first := instance.fields["networks"].items[0];
              && (r.Ok? <==> "ip" in first.fields && JTruthy(first.fields["ip"]))
              && (r.Ok? ==> r.value == first.fields["ip"])
              && (r.Err? ==> r.exc == NotFound(NoAddress))
  {
    var networks :- Get(instance, "networks", JArr([]));
    if !JTruthy(networks) then Err(NotFound(NoNetworks))
    else
      var first :- Item(networks, Index(0));
      var ip :- Get(first, "ip", JNull);
      if !JTruthy(ip) then Err(NotFound(NoAddress)) else Ok(ip)
  }

  /** An address as an argument of the `resalloc-wait-for-ssh` command line:
      `subprocess` accepts only strings there and raises TypeError for any
      other value before starting the command. */
  function SshArg(ip: Json): (r: Result<string>)
    ensures r.Ok? <==> ip.JStr?
    ensures r.Ok? ==> r.value == ip.s
    ensures r.Err? ==> r == Err(TypeError)
  {
    match ip
    case JStr(s) => Ok(s)
    case _ => Err(TypeError)
  }

  /** The address `wait_for_ssh` is run on: the extracted address when it is
      a string; the extraction's own error, or TypeError for an address of
      another type, otherwise. */
  function SshAddress(instance: Json): (r: Result<string>)
    ensures ExtractIpAddress(instance).Err? ==> r == Err(ExtractIpAddress(instance).exc)
    ensures ExtractIpAddress(instance).Ok? && !ExtractIpAddress(instance).value.JStr? ==> r == Err(TypeError)
    ensures ExtractIpAddress(instance).Ok? && ExtractIpAddress(instance).value.JStr?
            ==> r == Ok(ExtractIpAddress(instance).value.s)
    ensures r.Ok? ==> ExtractIpAddress(instance) == Ok(JStr(r.value))
    ensures r.Ok? ==> |r.value| > 0
  {
    var ip :- ExtractIpAddress(instance);
    SshArg(ip)
  }

  /** A truthy numeric `ip` is what `_extract_ip_address` returns, and the
      ssh step raises TypeError on it instead of running. */
  lemma NumericIpIsNoSshAddress()
    ensures var instance := JObj(map["networks" := JArr([JObj(map["ip" := JNum("5")])])]);
            && ExtractIpAddress(instance) == Ok(JNum("5"))
            && SshAddress(instance) == Err(TypeError)
  {
    var instance := JObj(map["networks" := JArr([JObj(map["ip" := JNum("5")])])]);
    assert FirstNetworkIs(instance);
    assert JTruthy(JNum("5"));
  }

  /** A string where the network list belongs is indexed as Python indexes a
      string: its first character has no `.get`, so AttributeError. */
  lemma StringNetworksRaiseAttributeError()
    ensures ExtractIpAddress(JObj(map["networks" := JStr("10.0.0.1")])) == Err(AttributeError("get"))
  {
    assert Item(JStr("10.0.0.1"), Index(0)) == Ok(JStr("1"));
  }

  /** The usual shape: a non-empty list of network objects. */
  predicate FirstNetworkIs(instance: Json) {
    && instance.JObj? && "networks" in instance.fields
    && instance.fields["networks"].JArr? && |instance.fields["networks"].items| > 0
    && instance.fields["networks"].items[0].JObj?
  }

  /** `instance.get("health", {}).get("status") == "OK"` on well-formed data. */
  predicate HealthOk(instance: Json) {
    && instance.JObj? && "health" in instance.fields
    && instance.fields["health"].JObj? && "status" in instance.fields["health"].fields
    && instance.fields["health"].fields["status"] == JStr("OK")
  }

  /** `_wait_for_health_or_ssh`: the readiness gate once the status is ACTIVE. */
  function Gate(instance: Json, noRmc: bool, ssh: Result<()>): (r: (seq<Step>, Result<bool>))
    ensures !noRmc ==> r.0 == []
    ensures !noRmc && instance.JObj? ==> (r.1 == Ok(true) <==> HealthOk(instance))
    ensures noRmc ==> (r.1 == Ok(false) <==> ExtractIpAddress(instance).Err? && ExtractIpAddress(instance).exc.NotFound?)
    ensures noRmc && r.1 == Ok(true) ==> SshAddress(instance).Ok? && ssh.Ok?
    ensures noRmc && SshAddress(instance).Ok? ==> r.0 == [WaitForSsh(SshAddress(instance).value, Timeout)]
    ensures noRmc && SshAddress(instance).Ok? && ssh.Err? && ssh.exc.CalledProcessError?
            ==> r.1 == Err(TimeoutError)
    ensures noRmc && ExtractIpAddress(instance).Ok? && SshAddress(instance).Err? ==> r == ([], Err(TypeError))
  {
    if noRmc then
      match SshAddress(instance)
      case Err(e) => ([], if e.NotFound? then Ok(false) else Err(e))
      case Ok(ip) =>
        ([WaitForSsh(ip, Timeout)],
         match ssh
         case Ok(_) => Ok(true)
         case Err(e) => Err(if e.CalledProcessError? then TimeoutError else e))
    else
      match Get(instance, "health", JObj(map[]))
      case Err(e) => ([], Err(e))
      case Ok(health) =>
        match Get(health, "status", JNull)
        case Err(e) => ([], Err(e))
        case Ok(status) => ([], Ok(status == JStr("OK")))
  }

  /** The wait budget of `_wait_for_instance_active`, in seconds. */
  const Timeout: int := 1200

  /** One round of the loop as scripted. */
  datatype Poll = Poll(elapsed: int, instance: Result<Json>, ssh: Result<()>)

  /** How one round ends. */
  datatype PollOutcome = Ready(instance: Json) | Pending | Raised(exc: Exc)

  /** `instance.get("status") == status` */
  predicate StatusIs(instance: Json, status: string) {
    instance.JObj? && "status" in instance.fields && instance.fields["status"] == JStr(status)
  }

  const FailedStatus: string := "Instance creation failed with status: "

  /** One round of `_wait_for_instance_active`. */
  function PollOnce(instanceId: string, noRmc: bool, p: Poll): (r: (seq<Step>, PollOutcome))
    ensures p.elapsed > Timeout ==> r == ([], Raised(TimeoutError))
    ensures p.elapsed <= Timeout ==> |r.0| >= 1 && r.0[0] == Api(GetInstanceCall(instanceId))
    ensures r.1.Ready? ==> && p.elapsed <= Timeout && p.instance == Ok(r.1.instance)
                           && StatusIs(r.1.instance, "ACTIVE")
                           && Gate(r.1.instance, noRmc, p.ssh).1 == Ok(true)
    ensures p.elapsed <= Timeout && p.instance.Ok? && StatusIs(p.instance.value, "ACTIVE")
            ==> (r.1.Ready? <==> Gate(p.instance.value, noRmc, p.ssh).1 == Ok(true))
    ensures p.elapsed <= Timeout && p.instance.Ok?
            && (StatusIs(p.instance.value, "ERROR") || StatusIs(p.instance.value, "FAILED"))
            ==> r == ([Api(GetInstanceCall(instanceId))],
                      Raised(RuntimeError(FailedStatus + p.instance.value.fields["status"].s)))
    ensures p.elapsed <= Timeout && p.instance.Err? ==> r == ([Api(GetInstanceCall(instanceId))], Raised(p.instance.exc))
  {
    if p.elapsed > Timeout then ([], Raised(TimeoutError))
    else
      var get := [Api(GetInstanceCall(instanceId))];
      match p.instance
      case Err(e) => (get, Raised(e))
      case Ok(instance) =>
        match Get(instance, "status", JNull)
        case Err(e) => (get, Raised(e))
        case Ok(status) =>
          if status == JStr("ACTIVE") then
            var gate := Gate(instance, noRmc, p.ssh);
            (get + gate.0,
             match gate.1
             case Err(e) => Raised(e)
             case Ok(ready) => if ready then Ready(instance) else Pending)
          else if status == JStr("ERROR") || status == JStr("FAILED") then
            (get, Raised(RuntimeError(FailedStatus + status.s)))
          else (get, Pending)
  }

  /** The whole wait from round `k` on: the steps, what it returns or raises,
      and the round that decided it (`|polls|` when the script ran out). */
  datatype WaitRun = WaitRun(steps: seq<Step>, result: Result<Json>, last: nat)

  /** Rounds run one after another while they stay pending, for any round function. */
  function RunFrom(round: Poll -> (seq<Step>, PollOutcome), polls: seq<Poll>, k: nat): (w: WaitRun)
    ensures k <= w.last
    ensures forall j :: k <= j < w.last && j < |polls| ==> round(polls[j]).1.Pending?
    ensures w.last >= |polls| ==> w.result == Err(Unscripted)
    ensures w.last < |polls| ==>
              var o := round(polls[w.last]).1;
              && !o.Pending?
              && (o.Ready? ==> w.result == Ok(o.instance))
              && (o.Raised? ==> w.result == Err(o.exc))
    decreases |polls| - k
  {
    if k >= |polls| then WaitRun([], Err(Unscripted), k)
    else
      var now := round(polls[k]);
      match now.1
      case Pending =>
        var rest := RunFrom(round, polls, k + 1);
        WaitRun(now.0 + rest.steps, rest.result, rest.last)
      case Ready(instance) => WaitRun(now.0, Ok(instance), k)
      case Raised(e) => WaitRun(now.0, Err(e), k)
  }

  /** The rounds of `_wait_for_instance_active(instance_id, no_rmc)`. */
  function Round(instanceId: string, noRmc: bool): Poll -> (seq<Step>, PollOutcome) {
    p => PollOnce(instanceId, noRmc, p)
  }

  function WaitFrom(instanceId: string, noRmc: bool, polls: seq<Poll>, k: nat): (w: WaitRun)
    ensures k <= w.last
    ensures forall j :: k <= j < w.last && j < |polls| ==> PollOnce(instanceId, noRmc, polls[j]).1.Pending?
    ensures w.last >= |polls| ==> w.result == Err(Unscripted)
    ensures w.last < |polls| ==>
              var o := PollOnce(instanceId, noRmc, polls[w.last]).1;
              && !o.Pending?
              && (o.Ready? ==> w.result == Ok(o.instance))
              && (o.Raised? ==> w.result == Err(o.exc))
  {
    RunFrom(Round(instanceId, noRmc), polls, k)
  }

  /** How the wait from round `k` continues from what that round did. */
  lemma WaitStep(instanceId: string, noRmc: bool, polls: seq<Poll>, k: nat)
    requires k < |polls|
    ensures var now := PollOnce(instanceId, noRmc, polls[k]);
            var w := WaitFrom(instanceId, noRmc, polls, k);
            var rest := WaitFrom(instanceId, noRmc, polls, k + 1);
            && (now.1.Pending? ==> w.steps == now.0 + rest.steps && w.result == rest.result)
            && (now.1.Ready? ==> w.steps == now.0 && w.result == Ok(now.1.instance))
            && (now.1.Raised? ==> w.steps == now.0 && w.result == Err(now.1.exc))
  {
    assert Round(instanceId, noRmc)(polls[k]) == PollOnce(instanceId, noRmc, polls[k]);
  }

  /** A loop over scripted rounds that stops at the first one not pending. */
  method RunRounds(round: Poll -> (seq<Step>, PollOutcome), polls: seq<Poll>)
    returns (steps: seq<Step>, r: Result<Json>)
    ensures steps == RunFrom(round, polls, 0).steps
    ensures r == RunFrom(round, polls, 0).result
  {
    steps := [];
    var k := 0;
    while k < |polls|
      invariant k <= |polls|
      invariant RunFrom(round, polls, 0).steps == steps + RunFrom(round, polls, k).steps
      invariant RunFrom(round, polls, 0).result == RunFrom(round, polls, k).result
      decreases |polls| - k
    {
      var now := round(polls[k]);
      steps := steps + now.0;
      match now.1 {
        case Ready(instance) =>
          r := Ok(instance);
          return;
        case Raised(e) =>
          r := Err(e);
          return;
        case Pending =>
          assert RunFrom(round, polls, k).steps == now.0 + RunFrom(round, polls, k + 1).steps;
          k := k + 1;
      }
    }
    r := Err(Unscripted);
  }

  /** `_wait_for_instance_active(instance_id, no_rmc)` as a loop over the scripted rounds. */
  method WaitForInstanceActive(instanceId: string, noRmc: bool, polls: seq<Poll>)
    returns (steps: seq<Step>, r: Result<Json>)
    ensures steps == WaitFrom(instanceId, noRmc, polls, 0).steps
    ensures r == WaitFrom(instanceId, noRmc, polls, 0).result
  {
    steps, r := RunRounds(Round(instanceId, noRmc), polls);
  }

  /** Rounds that stay pending until the clock, read before a round, is past
      the budget end the wait with TimeoutError and no further request. */
  lemma TimeoutEndsWait(instanceId: string, noRmc: bool, polls: seq<Poll>, k: nat)
    requires k < |polls| && polls[k].elapsed > Timeout
    requires forall j :: 0 <= j < k ==> PollOnce(instanceId, noRmc, polls[j]).1.Pending?
    ensures WaitFrom(instanceId, noRmc, polls, 0).result == Err(TimeoutError)
    ensures WaitFrom(instanceId, noRmc, polls, 0).last == k
  {
    var w := WaitFrom(instanceId, noRmc, polls, 0);
  }

  /** The wait never returns before a round has seen ACTIVE and the gate
      open; and an ERROR or FAILED round ends it with RuntimeError. */
  lemma WaitReturnsOnlyReady(instanceId: string, noRmc: bool, polls: seq<Poll>)
    requires WaitFrom(instanceId, noRmc, polls, 0).result.Ok?
    ensures var w := WaitFrom(instanceId, noRmc, polls, 0);
            && w.last < |polls|
            && polls[w.last].elapsed <= Timeout
            && polls[w.last].instance == w.result
            && StatusIs(w.result.value, "ACTIVE")
            && Gate(w.result.value, noRmc, polls[w.last].ssh).1 == Ok(true)
  {
    var w := WaitFrom(instanceId, noRmc, polls, 0);
    assert w.last < |polls|;
  }

  /** A failed status, seen before the budget is spent, ends the wait with RuntimeError. */
  lemma FailedStatusEndsWait(instanceId: string, noRmc: bool, polls: seq<Poll>, k: nat, status: string)
    requires k < |polls| && polls[k].elapsed <= Timeout && polls[k].instance.Ok?
    requires status == "ERROR" || status == "FAILED"
    requires StatusIs(polls[k].instance.value, status)
    requires forall j :: 0 <= j < k ==> PollOnce(instanceId, noRmc, polls[j]).1.Pending?
    ensures WaitFrom(instanceId, noRmc, polls, 0).result == Err(RuntimeError(FailedStatus + status))
  {
    var w := WaitFrom(instanceId, noRmc, polls, 0);
    var o := PollOnce(instanceId, noRmc, polls[k]);
    assert o.1 == Raised(RuntimeError(FailedStatus + status));
  }
}
