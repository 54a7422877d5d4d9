/**
 The VPC pre-create selection steps: splitting a `zone:subnet` pair,
 grouping the `--floating-ip-uuid-in-subnet` pairs per subnet, and deciding
 which floating IP the new instance will use.
 */
module VpcSelection {
  import opened Errors
  import opened Wrappers
  import opened Strings
  import opened Seqs
  import opened VpcApi

  /** `opts.zone, opts.subnet_id = pair.split(":")`: exactly two fields, or ValueError. */
  function ZoneAndSubnet(pair: string): (r: Result<(string, string)>)
    ensures r.Ok? <==> CountChar(pair, ':') == 1
    ensures r.Ok? ==> r.value.0 + ":" + r.value.1 == pair
    ensures r.Ok? ==> ':' !in r.value.0 && ':' !in r.value.1
    ensures r.Err? ==> r.exc == ValueError
  {
    var parts := Split(pair, ':');
    if |parts| == 2 then
      JoinSplit(pair, ':');
      assert Join(parts, ':') == parts[0] + [':'] + parts[1];
      Ok((parts[0], parts[1]))
    else Err(ValueError)
  }

  /** A pair written as `zone:subnet` from colon-free parts splits back into them. */
  lemma ZoneAndSubnetRoundTrip(zone: string, subnet: string)
    requires ':' !in zone && ':' !in subnet
    ensures ZoneAndSubnet(zone + ":" + subnet) == Ok((zone, subnet))
  {
    SplitJoin([zone, subnet], ':');
    assert Join([zone, subnet], ':') == zone + ":" + subnet;
  }

  /** `get_zone_and_subnet_id`: `random.choice` is the oracle `choice`, read
      modulo the length of the list; an empty list raises IndexError. */
  function GetZoneAndSubnet(subnetsIds: seq<string>, choice: nat): (r: Result<(string, string)>)
    ensures |subnetsIds| == 0 ==> r == Err(IndexError)
    ensures r.Ok? <==> |subnetsIds| > 0 && CountChar(subnetsIds[choice % |subnetsIds|], ':') == 1
    ensures r.Ok? ==> r.value.0 + ":" + r.value.1 in subnetsIds
  {
    if |subnetsIds| == 0 then Err(IndexError)
    else ZoneAndSubnet(subnetsIds[choice % |subnetsIds|])
  }

  /** The floating-IP ids paired with `subnet`, in input order. */
  function IpsFor(pairs: seq<(string, string)>, subnet: string): seq<string> {
    if |pairs| == 0 then []
    else
      var last := pairs[|pairs| - 1];
      IpsFor(pairs[..|pairs| - 1], subnet) + (if last.0 == subnet then [last.1] else [])
  }

  /** Pair `j` names `subnet`. */
  predicate PairedAt(pairs: seq<(string, string)>, subnet: string, j: int) {
    0 <= j < |pairs| && pairs[j].0 == subnet
  }

  /** Some pair names `subnet`. */
  predicate HasPair(pairs: seq<(string, string)>, subnet: string) {
    exists j | 0 <= j < |pairs| :: PairedAt(pairs, subnet, j)
  }

  lemma {:induction false} IpsForNonEmpty(pairs: seq<(string, string)>, subnet: string)
    ensures |IpsFor(pairs, subnet)| > 0 <==> HasPair(pairs, subnet)
  {
    if |pairs| > 0 {
      var init := pairs[..|pairs| - 1];
      IpsForNonEmpty(init, subnet);
      if pairs[|pairs| - 1].0 == subnet {
        assert PairedAt(pairs, subnet, |pairs| - 1);
      }
      if exists j :: PairedAt(init, subnet, j) {
        var j :| PairedAt(init, subnet, j);
        assert PairedAt(pairs, subnet, j);
      }
      if exists j :: PairedAt(pairs, subnet, j) {
        var j :| PairedAt(pairs, subnet, j);
        if j < |pairs| - 1 {
          assert PairedAt(init, subnet, j);
        }
      }
    }
  }

  lemma HasPairExtend(ps: seq<(string, string)>, i: nat, s: string)
    requires i < |ps|
    ensures HasPair(ps[..i + 1], s) <==> HasPair(ps[..i], s) || ps[i].0 == s
  {
    if HasPair(ps[..i], s) {
      var j :| 0 <= j < i && PairedAt(ps[..i], s, j);
      assert PairedAt(ps[..i + 1], s, j);
    }
    if ps[i].0 == s {
      assert PairedAt(ps[..i + 1], s, i);
    }
    if HasPair(ps[..i + 1], s) {
      var j :| 0 <= j < i + 1 && PairedAt(ps[..i + 1], s, j);
      if j < i {
        assert PairedAt(ps[..i], s, j);
      }
    }
  }

  /** `prepare_opts_floating_ip_uuid_map`: subnet id -> the IP ids given for it. */
  method PrepareFloatingIpMap(pairs: Option<seq<(string, string)>>)
    returns (m: map<string, seq<string>>)
    ensures !TruthyList(pairs) ==> m == map[]
    ensures pairs.Some? ==> forall s :: s in m <==> HasPair(pairs.value, s)
    ensures pairs.Some? ==> forall s :: s in m ==> m[s] == IpsFor(pairs.value, s)
  {
    m := map[];
    if !TruthyList(pairs) {
      return;
    }
    var ps := pairs.value;
    var i := 0;
    while i < |ps|
      invariant 0 <= i <= |ps|
      invariant forall s :: s in m <==> HasPair(ps[..i], s)
      invariant forall s :: s in m ==> m[s] == IpsFor(ps[..i], s)
    {
      var (subnet, ip) := ps[i];
      ghost var before := m;
      assert ps[..i + 1][..i] == ps[..i];
      if subnet !in m {
        IpsForNonEmpty(ps[..i], subnet);
        m := m[subnet := []];
      }
      m := m[subnet := m[subnet] + [ip]];
      forall s
        ensures s in m <==> HasPair(ps[..i + 1], s)
      {
        HasPairExtend(ps, i, s);
      }
      forall s | s in m
        ensures m[s] == IpsFor(ps[..i + 1], s)
      {
        assert IpsFor(ps[..i + 1], s) == IpsFor(ps[..i], s) + (if ps[i].0 == s then [ps[i].1] else []);
        if s != subnet {
          assert s in before;
        }
      }
      i := i + 1;
    }
    assert ps[..|ps|] == ps;
  }

  /** The floating-IP options `detect_floating_ip_uuid` reads. */
  datatype FipOptions = FipOptions(
    floatingIpUuid: Option<string>,
    floatingIpName: Option<string>,
    perSubnetMap: map<string, seq<string>>,
    subnetId: string)

  /** `fips[i]` carries the wanted name. */
  predicate NamedAt(fips: seq<FloatingIp>, name: string, i: int) {
    0 <= i < |fips| && fips[i].name == name
  }

  /** The scan of the name branch: the first match that is not `available`
      raises; otherwise the last match's id is kept (`acc` before any match). */
  function ScanByName(fips: seq<FloatingIp>, name: string, acc: Option<string>): (r: Result<Option<string>>)
    ensures r.Err? <==> exists i :: NamedAt(fips, name, i) && fips[i].status != "available"
    ensures r.Err? ==> r.exc.RuntimeError?
    ensures r.Ok? && !(exists i :: NamedAt(fips, name, i)) ==> r.value == acc
    ensures r.Ok? && (exists i :: NamedAt(fips, name, i)) ==>
              exists i :: NamedAt(fips, name, i) && r.value == Some(fips[i].id)
                          && forall j :: i < j < |fips| ==> fips[j].name != name
    decreases |fips|
  {
    if |fips| == 0 then Ok(acc)
    else
      var rest := fips[1..];
      assert forall i :: NamedAt(rest, name, i) ==> NamedAt(fips, name, i + 1);
      assert forall i :: NamedAt(fips, name, i) && i > 0 ==> NamedAt(rest, name, i - 1);
      if fips[0].name != name then
        var r := ScanByName(rest, name, acc);
        r
      else if fips[0].status != "available" then
        assert NamedAt(fips, name, 0);
        Err(RuntimeError("Floating IP " + name + " is used"))
      else
        var r := ScanByName(rest, name, Some(fips[0].id));
        assert NamedAt(fips, name, 0);
        r
  }

  /** The name branch of `detect_floating_ip_uuid`: checks that the IP named
      `name` exists and is free. */
  function CheckFloatingIpName(fips: seq<FloatingIp>, name: string): (r: Result<()>)
    ensures r.Ok? <==>
              (exists i :: NamedAt(fips, name, i))
              && forall i :: NamedAt(fips, name, i) ==> fips[i].status == "available"
  {
    var found :- ScanByName(fips, name, None);
    if found.None? then Err(RuntimeError("UUID for Floating IP " + name + " not found"))
    else Ok(())
  }

  /** `detect_floating_ip_uuid`. `listed` is the answer of `list_floating_ips`
      (asked only in the name branch); `idInPool` is what
      `int(os.environ.get("RESALLOC_ID_IN_POOL", -1))` produced. The result is
      the value `opts.floating_ip_uuid` holds afterwards. */
  function DetectFloatingIpUuid(opts: FipOptions, listed: Result<seq<FloatingIp>>, idInPool: Result<int>)
    : (r: Result<Option<string>>)
    // a preset UUID is kept
    ensures Truthy(opts.floatingIpUuid) ==> r == Ok(opts.floatingIpUuid)
    // the name branch only validates: it never sets the UUID
    ensures !Truthy(opts.floatingIpUuid) && Truthy(opts.floatingIpName) && |opts.perSubnetMap| == 0
            ==> (r.Ok? <==> listed.Ok? && CheckFloatingIpName(listed.value, opts.floatingIpName.value).Ok?)
                && (r.Ok? ==> r.value == opts.floatingIpUuid)
    // the map branch needs the pool index and picks the entry of the chosen subnet
    ensures !Truthy(opts.floatingIpUuid) && !Truthy(opts.floatingIpName) && |opts.perSubnetMap| > 0
            ==> (idInPool == Ok(-1) ==> r.Err? && r.exc.RuntimeError?)
                && (idInPool.Ok? && idInPool.value != -1 && opts.subnetId in opts.perSubnetMap
                    ==> r == (var u :- PyIndex(opts.perSubnetMap[opts.subnetId], idInPool.value); Ok(Some(u))))
                && (opts.subnetId !in opts.perSubnetMap && idInPool.Ok? && idInPool.value != -1 ==> r.Err?)
    // with none of the three options the UUID stays unset
    ensures !Truthy(opts.floatingIpUuid) && !Truthy(opts.floatingIpName) && |opts.perSubnetMap| == 0
            ==> r == Ok(opts.floatingIpUuid)
  {
    if Truthy(opts.floatingIpUuid) then Ok(opts.floatingIpUuid)
    else
      var _ :- if Truthy(opts.floatingIpName) then
                 (var fips :- listed; CheckFloatingIpName(fips, opts.floatingIpName.value))
               else Ok(());
      if |opts.perSubnetMap| > 0 then
        var index :- idInPool;
        if index == -1 then
          Err(RuntimeError("--floating-ip-uuid-in-pool requires $RESALLOC_ID_IN_POOL var in environment"))
        else if opts.subnetId !in opts.perSubnetMap then Err(KeyError(opts.subnetId))
        else
          var uuid :- PyIndex(opts.perSubnetMap[opts.subnetId], index);
          Ok(Some(uuid))
      else Ok(opts.floatingIpUuid)
  }

  /** Without a preset UUID, a name that matches an IP in use fails the
      whole detection, whichever match comes first and whether or not a
      per-subnet map is given: the name check runs before the map branch. */
  lemma NameInUseFails(opts: FipOptions, fips: seq<FloatingIp>, idInPool: Result<int>, i: int)
    requires !Truthy(opts.floatingIpUuid) && Truthy(opts.floatingIpName)
    requires NamedAt(fips, opts.floatingIpName.value, i) && fips[i].status != "available"
    ensures DetectFloatingIpUuid(opts, Ok(fips), idInPool).Err?
    ensures DetectFloatingIpUuid(opts, Ok(fips), idInPool).exc.RuntimeError?
  {
    assert ScanByName(fips, opts.floatingIpName.value, None).Err?;
  }
}
