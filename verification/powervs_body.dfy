/**
 The PowerVS request bodies built from the command-line options: the base
 instance body and the volume specifications `name:size[:diskType]`.
 Options are read with `getattr(options, name, default)`, so each optional
 one is either missing from the namespace, present as None, or set.
 */
module PowerVSBody {
  import opened Errors
  import opened Wrappers
  import opened Strings
  import opened Seqs
  import opened Json

  /** An attribute of the options namespace. */
  datatype Attr<+T> = Missing | PyNone | Has(value: T)

  /** `getattr(options, name, None) is not None` */
  predicate IsSet<T>(a: Attr<T>) {
    a.Has?
  }

  /** The options the body builder and `create_vm` read. `processors` and
      `ram` are the parsed numbers, passed through untouched. `pinPolicyAttr`
      is an attribute literally named `pinPolicy`; `pinPolicy` is `pin_policy`. */
  datatype PowerVSOptions = PowerVSOptions(
    imageUuid: string,
    processors: Json,
    processorType: string,
    ram: Json,
    networkId: Option<seq<string>>,
    systemType: string,
    sshKeyName: string,
    tags: Attr<seq<string>>,
    pinPolicyAttr: Attr<Json>,
    pinPolicy: Attr<Json>,
    storageType: Attr<string>,
    volumes: Attr<seq<string>>,
    noRmc: Attr<bool>,
    playbook: string)

  /** `network_id and network_id.strip()` */
  predicate NonBlank(networkId: string) {
    networkId != "" && Strip(networkId) != ""
  }

  /** A network id is kept iff it has a character that is not whitespace. */
  lemma NonBlankIffVisible(networkId: string)
    ensures NonBlank(networkId) <==> exists i :: 0 <= i < |networkId| && !IsSpace(networkId[i])
  {
    StripEmptyIffAllSpace(networkId);
  }

  /** The `networks` of the body: the non-blank ids, in order; each is sent
      as `{"networkID": id}`. */
  function Networks(ids: seq<string>): (r: seq<string>)
    ensures |r| <= |ids|
    ensures forall i :: 0 <= i < |r| ==> NonBlank(r[i]) && r[i] in ids
    ensures forall i :: 0 <= i < |ids| && NonBlank(ids[i]) ==> ids[i] in r
  {
    FilterMembers(NonBlank, ids);
    Filter(NonBlank, ids)
  }

  /** An id made of Unicode spaces only, such as the ideographic space
      U+3000, is blank like an ASCII one and is dropped. */
  lemma UnicodeSpaceIdIsDropped()
    ensures Networks(["\U{3000}", "\U{2003}\U{00A0}"]) == []
  {
    var ids := ["\U{3000}", "\U{2003}\U{00A0}"];
    StripEmptyIffAllSpace(ids[0]);
    StripEmptyIffAllSpace(ids[1]);
    assert !NonBlank(ids[0]) && !NonBlank(ids[1]);
  }

  /** The networks of two id lists given one after the other are the networks
      of each, in that order; so one more id adds itself iff it is not blank. */
  lemma NetworksAppend(ids: seq<string>, more: seq<string>)
    ensures Networks(ids + more) == Networks(ids) + Networks(more)
  {
    FilterAppend(NonBlank, ids, more);
  }

  /** The instance body `_build_instance_base_body` returns, one field per
      key; the optional keys are present iff their field is `Some`.
      `volumeIds` is the `volumeIDs` key `create_vm` adds afterwards. */
  datatype InstanceBody = InstanceBody(
    serverName: string,
    imageId: string,
    processors: Json,
    procType: string,
    memory: Json,
    networks: seq<string>,
    sysType: string,
    keyPairName: string,
    userTags: Option<seq<string>>,
    pinPolicy: Option<Json>,
    storageType: Option<string>,
    volumeIds: Option<seq<Json>>)

  /** `_build_instance_base_body`. Iterating a missing `network_id` (None)
      raises TypeError; reading `pin_policy` when it was never set raises
      AttributeError. */
  function BuildInstanceBody(name: string, opts: PowerVSOptions): (r: Result<InstanceBody>)
    ensures r.Ok? <==> opts.networkId.Some? && (IsSet(opts.pinPolicyAttr) ==> !opts.pinPolicy.Missing?)
    ensures opts.networkId.None? ==> r == Err(TypeError)
    ensures r.Err? && opts.networkId.Some? ==> r == Err(AttributeError("pin_policy"))
    ensures r.Ok? ==> r.value.serverName == name && r.value.imageId == opts.imageUuid
    ensures r.Ok? ==> r.value.processors == opts.processors && r.value.procType == opts.processorType
                      && r.value.memory == opts.ram
    ensures r.Ok? ==> r.value.sysType == opts.systemType && r.value.keyPairName == opts.sshKeyName
    ensures r.Ok? ==> r.value.networks == Networks(opts.networkId.value)
    ensures r.Ok? ==> (r.value.userTags.Some? <==> IsSet(opts.tags))
    ensures r.Ok? && IsSet(opts.tags) ==> r.value.userTags == Some(opts.tags.value)
    ensures r.Ok? ==> (r.value.storageType.Some? <==> IsSet(opts.storageType))
    ensures r.Ok? && IsSet(opts.storageType) ==> r.value.storageType == Some(opts.storageType.value)
    ensures r.Ok? ==> (r.value.pinPolicy.Some? <==> IsSet(opts.pinPolicyAttr))
    ensures r.Ok? && IsSet(opts.pinPolicyAttr) && opts.pinPolicy.Has? ==> r.value.pinPolicy == Some(opts.pinPolicy.value)
    ensures r.Ok? && IsSet(opts.pinPolicyAttr) && opts.pinPolicy.PyNone? ==> r.value.pinPolicy == Some(JNull)
    ensures r.Ok? ==> r.value.volumeIds.None?
  {
    match opts.networkId
    case None => Err(TypeError)
    case Some(ids) =>
      var pin :- if !IsSet(opts.pinPolicyAttr) then Ok(None)
                 else match opts.pinPolicy
                      case Missing => Err(AttributeError("pin_policy"))
                      case PyNone => Ok(Some(JNull))
                      case Has(v) => Ok(Some(v));
      Ok(InstanceBody(
        name, opts.imageUuid, opts.processors, opts.processorType, opts.ram, Networks(ids),
        opts.systemType, opts.sshKeyName,
        if IsSet(opts.tags) then Some(opts.tags.value) else None,
        pin,
        if IsSet(opts.storageType) then Some(opts.storageType.value) else None,
        None))
  }

  /** The eight keys every instance body has. */
  const FixedBodyKeys: set<string> :=
    {"serverName", "imageID", "processors", "procType", "memory", "networks", "sysType", "keyPairName"}

  /** The keys of the sent object: the fixed ones and each optional one that is set. */
  function BodyKeys(b: InstanceBody): set<string> {
    FixedBodyKeys
    + (if b.userTags.Some? then {"userTags"} else {})
    + (if b.pinPolicy.Some? then {"pinPolicy"} else {})
    + (if b.storageType.Some? then {"storageType"} else {})
    + (if b.volumeIds.Some? then {"volumeIDs"} else {})
  }

  /** The JSON object the body is sent as. Lemma `BodyJsonFields` gives every key and its value. */
  function BodyJson(b: InstanceBody): (j: Json)
    ensures j.JObj? && "serverName" in j.fields && j.fields["serverName"] == JStr(b.serverName)
  {
    var base := map[
      "serverName" := JStr(b.serverName), "imageID" := JStr(b.imageId),
      "processors" := b.processors, "procType" := JStr(b.procType), "memory" := b.memory,
      "networks" := JArr(Map(NetworkEntry, b.networks)),
      "sysType" := JStr(b.sysType), "keyPairName" := JStr(b.keyPairName)];
    var tagged := if b.userTags.Some? then base["userTags" := StrArr(b.userTags.value)] else base;
    var pinned := if b.pinPolicy.Some? then tagged["pinPolicy" := b.pinPolicy.value] else tagged;
    var stored := if b.storageType.Some? then pinned["storageType" := JStr(b.storageType.value)] else pinned;
    JObj(if b.volumeIds.Some? then stored["volumeIDs" := JArr(b.volumeIds.value)] else stored)
  }

  /** The object has exactly the eight fixed keys and the optional keys that are set. */
  lemma BodyJsonKeys(b: InstanceBody)
    ensures BodyJson(b).fields.Keys == BodyKeys(b)
  {
    OptionalKeysAreNew();
  }

  /** Each fixed field is sent under its API key. */
  lemma BodyJsonFields(b: InstanceBody)
    ensures var f := BodyJson(b).fields;
            && f["serverName"] == JStr(b.serverName) && f["imageID"] == JStr(b.imageId)
            && f["processors"] == b.processors && f["procType"] == JStr(b.procType)
            && f["memory"] == b.memory
            && f["sysType"] == JStr(b.sysType) && f["keyPairName"] == JStr(b.keyPairName)
  {
    OptionalKeysAreNew();
  }

  /** Each network is sent as `{"networkID": id}` and each tag as a string, in order. */
  lemma BodyJsonLists(b: InstanceBody)
    ensures var f := BodyJson(b).fields;
            && "networks" in f && f["networks"].JArr? && |f["networks"].items| == |b.networks|
            && forall i :: 0 <= i < |b.networks| ==>
                 f["networks"].items[i] == JObj(map["networkID" := JStr(b.networks[i])])
    ensures var f := BodyJson(b).fields;
            b.userTags.Some? ==>
              && "userTags" in f && f["userTags"].JArr? && |f["userTags"].items| == |b.userTags.value|
              && forall i :: 0 <= i < |b.userTags.value| ==> f["userTags"].items[i] == JStr(b.userTags.value[i])
  {
    OptionalKeysAreNew();
  }

  /** The four optional keys are distinct from each other and from the fixed ones. */
  lemma OptionalKeysAreNew()
    ensures "userTags" !in FixedBodyKeys && "pinPolicy" !in FixedBodyKeys
    ensures "storageType" !in FixedBodyKeys && "volumeIDs" !in FixedBodyKeys
    ensures "userTags" != "pinPolicy" && "userTags" != "storageType" && "userTags" != "volumeIDs"
    ensures "pinPolicy" != "storageType" && "pinPolicy" != "volumeIDs" && "storageType" != "volumeIDs"
  {
  }

  /** `{"networkID": id}` */
  function NetworkEntry(networkId: string): Json {
    JObj(map["networkID" := JStr(networkId)])
  }

  /** The optional keys of the sent object are exactly the fields that are set. */
  lemma BodyJsonOptionalKeys(b: InstanceBody)
    ensures "userTags" in BodyJson(b).fields <==> b.userTags.Some?
    ensures "pinPolicy" in BodyJson(b).fields <==> b.pinPolicy.Some?
    ensures "storageType" in BodyJson(b).fields <==> b.storageType.Some?
    ensures "volumeIDs" in BodyJson(b).fields <==> b.volumeIds.Some?
    ensures b.volumeIds.Some? ==> BodyJson(b).fields["volumeIDs"] == JArr(b.volumeIds.value)
    ensures b.pinPolicy.Some? ==> BodyJson(b).fields["pinPolicy"] == b.pinPolicy.value
    ensures b.storageType.Some? ==> BodyJson(b).fields["storageType"] == JStr(b.storageType.value)
  {
    OptionalKeysAreNew();
  }

  /** The option the argument parser defines is `pin_policy`, never an
      attribute named `pinPolicy`, so a pin policy given there never reaches
      the body. */
  lemma PinPolicyOptionIsIgnored(name: string, opts: PowerVSOptions)
    requires opts.networkId.Some? && opts.pinPolicyAttr.Missing?
    ensures BuildInstanceBody(name, opts).Ok?
    ensures BuildInstanceBody(name, opts).value.pinPolicy == None
  {
  }

  /** One parsed volume specification. The size is kept as its text. */
  datatype VolumeSpec = VolumeSpec(name: string, size: string, diskType: Option<string>)

  /** One specification string: fewer than two colon fields is skipped;
      a third field is the disk type; further fields are ignored. */
  function ParseVolume(spec: string): (r: Option<VolumeSpec>)
    ensures r.Some? <==> CountChar(spec, ':') >= 1
    ensures r.Some? ==> r.value.name == Split(spec, ':')[0] && r.value.size == Split(spec, ':')[1]
    ensures r.Some? ==> (r.value.diskType.Some? <==> CountChar(spec, ':') >= 2)
    ensures r.Some? && r.value.diskType.Some? ==> r.value.diskType.value == Split(spec, ':')[2]
  {
    var parts := Split(spec, ':');
    if |parts| < 2 then None
    else Some(VolumeSpec(parts[0], parts[1], if |parts| > 2 then Some(parts[2]) else None))
  }

  /** A specification `_parse_volumes` accepts. */
  predicate IsVolumeSpec(spec: string) {
    ParseVolume(spec).Some?
  }

  /** `_parse_volumes`: the well-formed specifications, parsed, in order. */
  function ParseVolumes(specs: seq<string>): (r: seq<VolumeSpec>)
    ensures |r| <= |specs|
    ensures (forall i :: 0 <= i < |specs| ==> IsVolumeSpec(specs[i])) ==> |r| == |specs|
    ensures (forall i :: 0 <= i < |specs| ==> !IsVolumeSpec(specs[i])) ==> r == []
    decreases |specs|
  {
    if |specs| == 0 then []
    else
      var rest := ParseVolumes(specs[1..]);
      assert forall i :: 1 <= i < |specs| ==> specs[i] == specs[1..][i - 1];
      match ParseVolume(specs[0])
      case None => rest
      case Some(v) => [v] + rest
  }

  /** A single specification parses to itself or to nothing. */
  lemma ParseOneVolume(spec: string)
    ensures ParseVolumes([spec]) == if IsVolumeSpec(spec) then [ParseVolume(spec).value] else []
  {
    assert [spec][1..] == [];
  }

  /** Specifications parse one by one: the parse of a list followed by more
      is the parse of each part, in order. */
  lemma {:induction false} ParseVolumesAppend(specs: seq<string>, more: seq<string>)
    ensures ParseVolumes(specs + more) == ParseVolumes(specs) + ParseVolumes(more)
    decreases |specs|
  {
    if |specs| == 0 {
      assert specs + more == more;
    } else {
      assert (specs + more)[1..] == specs[1..] + more;
      ParseVolumesAppend(specs[1..], more);
    }
  }

  /** The text of a specification, `name:size` or `name:size:diskType`. */
  function SpecText(v: VolumeSpec): string
    requires ':' !in v.name && ':' !in v.size
    requires v.diskType.Some? ==> ':' !in v.diskType.value
  {
    if v.diskType.Some? then Join([v.name, v.size, v.diskType.value], ':')
    else Join([v.name, v.size], ':')
  }

  /** Writing a volume as its specification text and parsing it gives it back. */
  lemma ParseSpecText(v: VolumeSpec)
    requires ':' !in v.name && ':' !in v.size
    requires v.diskType.Some? ==> ':' !in v.diskType.value
    ensures ParseVolume(SpecText(v)) == Some(v)
  {
    if v.diskType.Some? {
      SplitJoin([v.name, v.size, v.diskType.value], ':');
    } else {
      SplitJoin([v.name, v.size], ':');
    }
  }

  /** A field past the third is ignored, a bare name is skipped. */
  lemma ParseVolumeExtremes(name: string, size: string, disk: string, extra: string)
    requires ':' !in name && ':' !in size && ':' !in disk && ':' !in extra
    ensures ParseVolume(Join([name, size, disk, extra], ':')) == Some(VolumeSpec(name, size, Some(disk)))
    ensures ParseVolume(name) == None
  {
    SplitJoin([name, size, disk, extra], ':');
    SplitJoin([name], ':');
  }

  /** The body of `create_volume` for one parsed volume; `userTags` is added
      when the tag list is non-empty. */
  function VolumeBody(v: VolumeSpec, tags: Option<seq<string>>): (body: Json)
    ensures body.JObj?
    ensures "name" in body.fields && body.fields["name"] == JStr(v.name)
    ensures "size" in body.fields && body.fields["size"] == JNum(v.size)
    ensures "diskType" in body.fields <==> v.diskType.Some?
    ensures "userTags" in body.fields <==> TruthyList(tags)
  {
    var base := map["name" := JStr(v.name), "size" := JNum(v.size)];
    var typed := if v.diskType.Some? then base["diskType" := JStr(v.diskType.value)] else base;
    JObj(if TruthyList(tags) then typed["userTags" := StrArr(tags.value)] else typed)
  }

  /** The specifications `create_vm` parses: `getattr(options, "volumes", [])`;
      a None there cannot be iterated. */
  function VolumesOf(opts: PowerVSOptions): (r: Result<seq<VolumeSpec>>)
    ensures opts.volumes.Missing? ==> r == Ok([])
    ensures opts.volumes.PyNone? ==> r == Err(TypeError)
    ensures opts.volumes.Has? ==> r == Ok(ParseVolumes(opts.volumes.value))
  {
    match opts.volumes
    case Missing => Ok([])
    case PyNone => Err(TypeError)
    case Has(specs) => Ok(ParseVolumes(specs))
  }

  /** `getattr(options, "tags", None)` */
  function TagsOf(opts: PowerVSOptions): Option<seq<string>> {
    if opts.tags.Has? then Some(opts.tags.value) else None
  }
}
