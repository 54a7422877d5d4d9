# resalloc-ibm-cloud, modelled in Dafny

resalloc-ibm-cloud holds the scripts Resalloc uses to start, delete and list
machines in IBM Cloud. There are two families:

- **VPC virtual servers** (`resalloc-ibm-cloud-vm`, built on the VPC SDK).
  `create` builds an instance prototype and checks its name fields. It then
  creates the instance, tags it, and gets an address: it polls for a private
  IP, binds a preset floating IP or allocates a new one. It waits for ssh and
  runs the playbook. On a failure after the create call it rolls the machine
  back through `delete`. `delete` makes up to five delete attempts, each
  over a fresh listing of instances, floating IPs and volumes. It retries
  only on `RuntimeError`.
- **PowerVS instances** (`resalloc-ibm-cloud-powervs-vm`, built on a small
  REST client). `create` builds the instance body and creates the tagged
  data volumes. It then creates the instance and waits until it is ACTIVE
  and ready. When that raises, it deletes the volumes it just made. `main`
  then runs `delete_vm` for the same name. `delete_vm` finds the instance by
  its exact server name. It detaches and deletes its data volumes and
  deletes the instance. The client retries server errors with a time
  budget and scopes every path to the workspace named in the CRN.
- **Listers**: the machines of a pool (VPC and PowerVS), and the reports of
  VPC instances, PowerVS instances and VPC volumes stuck deleting. The
  three VPC listers, as written, stop before they list anything (see "Left
  out"); the model states what their filters and lines would give.

The model is pure Dafny. The cloud, the subprocesses and the clock are
replaced by *worlds*: scripted answers, one per call the code makes. A
call past the end of a script raises the dedicated exception `Unscripted`.
Every operation returns the trace of calls it made, in order, together with
its result or the exception it raises. Python exceptions are one datatype,
`Errors.Exc`. The model keeps the hierarchy facts the code relies on:
which exceptions are `RequestException`, `RuntimeError` or `Exception`, and
that `SystemExit` is none of these.

Modules follow the source files:

| module | models |
|---|---|
| `Names` | the VPC name mangling and the PowerVS 46-character name |
| `Credentials`, `PowerVSClient`, `Retry` | `powervs/credentials.py`, `powervs/client.py`, the `backoff.on_exception` decorator |
| `VpcSelection`, `VpcCreate`, `VpcDelete` | `ibm_cloud_vm.py` |
| `PowerVSCalls`, `PowerVSBody`, `PowerVSWait`, `PowerVSCreate`, `PowerVSDelete`, `PowerVSMain` | `powervs/powervs_vm.py` |
| `Listers` | the five listing scripts |
| `Errors`, `Wrappers`, `Json`, `Strings`, `Seqs` | the Python values and string operations the code uses |

Where the code departs from what its docstrings or option names suggest,
the model follows the code:

- A PowerVS volume-creation failure leaves the volumes created before it in
  place. `create_volume` raises before the `try` that guards the clean-up,
  so only a failure of the instance creation or of the wait deletes volumes.
- The argument parser defines neither `--no-rmc` nor `--pin-policy`.
  `options.no_rmc` is therefore an attribute that may be missing, and reading
  it raises `AttributeError`. The body builder tests for an attribute named
  `pinPolicy`, which no option defines.
- The floating-IP *name* branch of `detect_floating_ip_uuid` only validates
  the IP. It never stores the UUID it found.

## Model

| member | source | states |
|---|---|---|
| Names.MangleName | resalloc_ibm_cloud/ibm_cloud_vm.py:23-28 | every `_` becomes `-`, every other character stays, the length is kept, and the result has no `_` |
| Names.MangleKeepsPlainNames | resalloc_ibm_cloud/ibm_cloud_vm.py:23-28 | a name without `_` is already an IBM Cloud name and is left alone |
| Names.KindOf | resalloc_ibm_cloud/ibm_cloud_vm.py:369-372 | the instance is `production` exactly when `-prod-` occurs in the mangled name |
| Names.UnderscoreProdIsProduction | resalloc_ibm_cloud/ibm_cloud_vm.py:369-372 | because the name is mangled before the check, a Resalloc name containing `_prod_` is classified as production |
| Names.PowervsName | resalloc_ibm_cloud/helpers.py:83-90 | the PowerVS name is the last min(len, 46) characters of the name |
| Names.PowervsNameKeepsShortNames | resalloc_ibm_cloud/helpers.py:83-90 | names of at most 46 characters pass through unchanged |
| Names.PowervsNameIdempotent | resalloc_ibm_cloud/helpers.py:83-90 | shortening an already shortened name changes nothing |
| Names.PowervsNameCollides | resalloc_ibm_cloud/helpers.py:83-90 | two long names with the same last 46 characters get the same PowerVS name |
| Credentials.CrnField | resalloc_ibm_cloud/powervs/credentials.py:20-28 | field k of the CRN exists iff the CRN has at least k colons; it is the k-th colon-separated piece and has no colon; otherwise IndexError |
| Credentials.CloudInstanceId | resalloc_ibm_cloud/powervs/credentials.py:20-23 | the cloud-instance id exists iff the CRN has at least seven colons; it is the eighth colon-separated field and has no colon; otherwise IndexError |
| Credentials.Region | resalloc_ibm_cloud/powervs/credentials.py:25-28 | the region exists iff the CRN has at least five colons; it is the sixth colon-separated field and has no colon; otherwise IndexError |
| Credentials.IaasUrl | resalloc_ibm_cloud/powervs/credentials.py:30-33 | the IaaS URL exists iff the region field does, and is `https://<region>.power-iaas.cloud.ibm.com` |
| Credentials.ServiceUrl | resalloc_ibm_cloud/powervs/credentials.py:35-38 | the service URL is the IaaS URL followed by `/pcloud/v1`, and fails exactly when it fails |
| Credentials.BrokerUrl | resalloc_ibm_cloud/powervs/credentials.py:40-43 | the broker URL is the IaaS URL followed by `/broker/v1`, and fails exactly when it fails |
| Credentials.Headers | resalloc_ibm_cloud/powervs/credentials.py:45-53 | exactly four headers: the bearer token, the CRN and JSON for both content types |
| Credentials.CrnFieldsRoundTrip | resalloc_ibm_cloud/powervs/credentials.py:20-28 | a CRN joined from colon-free fields gives back field 5 as the region and field 7 as the cloud-instance id |
| Credentials.ShortCrnHasNoUrls | resalloc_ibm_cloud/powervs/credentials.py:25-43 | a CRN of at most five fields has no region (IndexError) and hence neither a service nor a broker URL |
| PowerVSClient.NewClient | resalloc_ibm_cloud/powervs/client.py:21-23 | constructing the client succeeds iff the CRN has a cloud-instance field, and then stores that id with the credentials |
| PowerVSClient.IsServerError | resalloc_ibm_cloud/powervs/client.py:25-38 | a server error is always a request exception; no 4xx answer and no other request exception is one |
| PowerVSClient.GiveUp | resalloc_ibm_cloud/powervs/client.py:40-45 | what is not given up is a request exception the decorator catches; an HTTP answer is given up iff its status is not 5xx; connection failures and timeouts are retried |
| PowerVSClient.ScopePath | resalloc_ibm_cloud/powervs/client.py:91-99 | broker paths are kept; every other path ends up under `/cloud-instances/<id>`, and the prefix is added only when it is not already there |
| PowerVSClient.ScopePathIdempotent | resalloc_ibm_cloud/powervs/client.py:95-99 | scoping a scoped path again changes nothing |
| PowerVSClient.BaseUrl | resalloc_ibm_cloud/powervs/client.py:91-93 | a broker request uses the broker URL and any other request the service URL |
| PowerVSClient.RequestUrl | resalloc_ibm_cloud/powervs/client.py:91-101 | a request URL exists iff the CRN has a region; a broker URL is the broker base followed by the path as given; any other starts with the service URL followed by the client's workspace |
| PowerVSClient.ConstructedClientHasUrls | resalloc_ibm_cloud/powervs/client.py:21-23 | a client that could be constructed can always form a request URL, because its CRN is long enough to have a region |
| PowerVSClient.ServiceRequestsAreScoped | resalloc_ibm_cloud/powervs/client.py:91-101 | every non-broker request URL starts with the service URL followed by the client's own workspace |
| PowerVSClient.DecodeBody | resalloc_ibm_cloud/powervs/client.py:117-122 | an empty response reads as `{}` and any other response as its JSON |
| PowerVSClient.InstanceCallUrls | resalloc_ibm_cloud/powervs/client.py:157-173 | deleting an instance and detaching its volume are both DELETEs under the instance's scoped URL; only the instance delete carries `delete_data_volumes` |
| PowerVSClient.InstanceCollectionUrls | resalloc_ibm_cloud/powervs/client.py:124-183 | `create_instance` POSTs its body to the workspace's `pvm-instances` collection, `list_instances` GETs that collection and `get_instance` GETs one member of it, both without a body |
| PowerVSClient.VolumeCallUrls | resalloc_ibm_cloud/powervs/client.py:185-266 | `create_volume` POSTs its body to the workspace's `volumes` collection and `list_volumes` GETs it; `update_volume` PUTs its body and `delete_volume` DELETEs one member of it |
| PowerVSClient.UnscopedWrapperPath | resalloc_ibm_cloud/powervs/client.py:124-266 | every wrapper path starts with `/p` or `/v`, so `request` always prepends the workspace prefix |
| PowerVSClient.ListInstancesResult | resalloc_ibm_cloud/powervs/client.py:175-183 | the listing is the response's `pvmInstances`, or `[]` when the key is absent |
| PowerVSClient.ListVolumesResult | resalloc_ibm_cloud/powervs/client.py:259-266 | the listing is the response's `volumes`, or `[]` when the key is absent |
| PowerVSClient.EmptyResponseListsNothing | resalloc_ibm_cloud/powervs/client.py:117-122 | an empty response lists no instances and no volumes |
| PowerVSClient.Request | resalloc_ibm_cloud/powervs/client.py:40-122 | the URL is the scoped one and a constructed client always has it; without a region IndexError escapes before any request is sent; otherwise every try but the last failed with a server error inside the 300 s budget, and the call returns the last try's decoded body or raises its exception, which is then a non-server error or came after the budget |
| PowerVSClient.ClientErrorIsNotRetried | resalloc_ibm_cloud/powervs/client.py:25-46 | when the first try answers 4xx, the decorator makes exactly that one try and raises its HTTP error |
| Retry.AttemptAt | resalloc_ibm_cloud/powervs/client.py:40-58 | the k-th try is the scripted one, and a try past the script raises `Unscripted` |
| Retry.Run | resalloc_ibm_cloud/powervs/client.py:40-58 | the decorator keeps trying exactly while a try raises a request exception that is not given up inside the budget; the call ends with the first other try's outcome |
| Retry.OnException | resalloc_ibm_cloud/powervs/client.py:40-58 | the loop makes at least one try; every try before the last was retried, the last was not, and the result is the last try's outcome, as `Retry.Run` defines it |
| Retry.FirstRejectedEndsCall | resalloc_ibm_cloud/powervs/client.py:40-58 | when every try before the k-th was retried and the k-th is not, the call makes exactly k+1 tries and ends with the k-th try's outcome |
| VpcSelection.ZoneAndSubnet | resalloc_ibm_cloud/ibm_cloud_vm.py:85 | a pair splits iff it has exactly one colon, into two colon-free parts that join back to it; otherwise ValueError |
| VpcSelection.ZoneAndSubnetRoundTrip | resalloc_ibm_cloud/ibm_cloud_vm.py:85 | `zone:subnet` built from colon-free parts splits back into them |
| VpcSelection.GetZoneAndSubnet | resalloc_ibm_cloud/ibm_cloud_vm.py:79-85 | an empty list raises IndexError; otherwise the chosen entry splits iff it has one colon, and the pair found is one of the given entries |
| VpcSelection.IpsForNonEmpty | resalloc_ibm_cloud/ibm_cloud_vm.py:347-357 | a subnet gets a non-empty list of IPs iff some pair names it |
| VpcSelection.PrepareFloatingIpMap | resalloc_ibm_cloud/ibm_cloud_vm.py:347-357 | no pairs give an empty map; otherwise the keys are exactly the subnets named, each mapped to its IPs in input order |
| VpcSelection.ScanByName | resalloc_ibm_cloud/ibm_cloud_vm.py:320-333 | the name scan raises RuntimeError iff some floating IP of that name is not `available` |
| VpcSelection.CheckFloatingIpName | resalloc_ibm_cloud/ibm_cloud_vm.py:320-333 | the name branch passes iff an IP of that name exists and every IP of that name is `available` |
| VpcSelection.DetectFloatingIpUuid | resalloc_ibm_cloud/ibm_cloud_vm.py:310-344 | a preset UUID is kept; the name branch only validates; the map branch needs `RESALLOC_ID_IN_POOL` and picks that index of the subnet's list; with no option the UUID stays unset |
| VpcSelection.NameInUseFails | resalloc_ibm_cloud/ibm_cloud_vm.py:314-334 | without a preset UUID, any match of the name that is not `available` fails the detection with RuntimeError, with or without a per-subnet map |
| VpcCreate.Prototype | resalloc_ibm_cloud/ibm_cloud_vm.py:116-163 | the prototype is an object, and carries `resource_group` iff a resource group id is given |
| VpcCreate.CheckFieldLen | resalloc_ibm_cloud/ibm_cloud_vm.py:101-113 | the check passes iff the path resolves to a value with a length of at most the maximum; a failing lookup raises its own error; a longer value exits with status 1 when every path element is a field name, and raises TypeError from `".".join` when the path holds a list index |
| VpcCreate.CheckPrototypeFields | resalloc_ibm_cloud/ibm_cloud_vm.py:165-170 | the three checks pass iff all three fields fit; otherwise the outcome is that of the first check that fails |
| VpcCreate.SwapCheckWouldRaiseTypeError | resalloc_ibm_cloud/ibm_cloud_vm.py:108-113 | with a name over 58 characters the root-volume check exits with status 1, but the swap-volume path holds the index `0`, so its check would raise TypeError instead |
| VpcCreate.PrototypeNameFields | resalloc_ibm_cloud/ibm_cloud_vm.py:116-160 | the three checked fields hold the name, `<name>-root` and `<name>-swap` |
| VpcCreate.FieldChecksPassIffShortName | resalloc_ibm_cloud/ibm_cloud_vm.py:165-170 | the three length checks pass iff the name has at most 58 characters, leaving room for `-root` and `-swap` within 63; otherwise exit 1 |
| VpcCreate.PollPrivateIp | resalloc_ibm_cloud/ibm_cloud_vm.py:88-98 | at most five polls; every poll before the last saw `0.0.0.0`; a returned address is the last poll's and is not `0.0.0.0`; five unassigned polls raise TimeoutError |
| VpcCreate.PollFindsFirstAddress | resalloc_ibm_cloud/ibm_cloud_vm.py:88-98 | the first real address within five polls is returned after exactly that poll |
| VpcCreate.StrAt | resalloc_ibm_cloud/ibm_cloud_vm.py:179-197 | a string found at the path is read as it is; a missing key fails the same way the lookup does |
| VpcCreate.AcquireAddress | resalloc_ibm_cloud/ibm_cloud_vm.py:191-197 | without floating IPs the address comes from polling; a preset UUID only binds that IP; otherwise only an IP named after the machine is allocated |
| VpcCreate.AfterCreate | resalloc_ibm_cloud/ibm_cloud_vm.py:179-202 | the steps after the create call never list or delete; on success they end with the ssh wait and the playbook on the address; tags are assigned only when given |
| VpcCreate.CreateWithRollback | resalloc_ibm_cloud/ibm_cloud_vm.py:165-207 | failed checks make no call; a failed create call is not rolled back; the rollback runs iff the create call returned, a later step raised and the name is non-empty, and the original exception is raised unless the rollback raised its own |
| VpcCreate.RollbackListsInstances | resalloc_ibm_cloud/ibm_cloud_vm.py:203-207 | a rollback always shows in the trace as an instance listing |
| VpcDelete.ScanLast | resalloc_ibm_cloud/ibm_cloud_vm.py:259-269 | the loop keeps the key of the last matching item, or the start value when nothing matches |
| VpcDelete.PlanDeleteAttempt | resalloc_ibm_cloud/ibm_cloud_vm.py:254-307 | an attempt plans at most the instance, one floating IP and one deletion per listed volume; only its first deletion can be the instance, and every deletion after a volume deletion is a volume deletion |
| VpcDelete.PlanTouchesOnlyTarget | resalloc_ibm_cloud/ibm_cloud_vm.py:254-307 | an attempt deletes only the last instance named exactly `name`, the last floating IP whose name starts with it, and unattached volumes whose name starts with it and whose status is `available` or `failed`; every such volume is deleted |
| VpcDelete.EarlyTouches | resalloc_ibm_cloud/ibm_cloud_vm.py:259-279 | the deletions before the volume listing are the selected instance and floating IP |
| VpcDelete.LateTouches | resalloc_ibm_cloud/ibm_cloud_vm.py:283-307 | the volume deletions are exactly the selected volumes |
| VpcDelete.NoMatchesPlanNothing | resalloc_ibm_cloud/ibm_cloud_vm.py:254-307 | with nothing of `name` listed, an attempt deletes nothing |
| VpcDelete.CheckedDelete | resalloc_ibm_cloud/ibm_cloud_vm.py:271-279 | a delete passes iff it answered 204 |
| VpcDelete.IssueDeletions | resalloc_ibm_cloud/ibm_cloud_vm.py:271-307 | deletions are issued in order up to the first that fails; every earlier one was delivered, and the failure is that delete's |
| VpcDelete.DeleteAttempt | resalloc_ibm_cloud/ibm_cloud_vm.py:254-307 | an attempt always begins by listing instances; a failed listing ends it; a clean attempt issued every planned deletion after listing all three resources |
| VpcDelete.AttemptIssuesPlanPrefix | resalloc_ibm_cloud/ibm_cloud_vm.py:254-307 | the deletes an attempt issues are a prefix of the plan over its listings, and all of it when it ends cleanly |
| VpcDelete.AttemptTraceShape | resalloc_ibm_cloud/ibm_cloud_vm.py:254-307 | an attempt lists instances and floating IPs, deletes the early targets, then lists volumes and deletes them, stopping at the first failure |
| VpcDelete.MissingInstanceIsNoError | resalloc_ibm_cloud/ibm_cloud_vm.py:254-307 | deleting a machine that does not exist makes the three listings and no delete, and raises nothing |
| VpcDelete.Settle | resalloc_ibm_cloud/ibm_cloud_vm.py:241-251 | every attempt before the last made raised RuntimeError; the loop stops at the first attempt that does not, with that attempt's outcome, or after the fifth attempt, with no exception when that one raised RuntimeError too |
| VpcDelete.RetryOnRuntimeError | resalloc_ibm_cloud/ibm_cloud_vm.py:241-251 | exactly the attempts before the last raised RuntimeError; a RuntimeError never escapes; after five failures the function returns silently |
| VpcDelete.DeleteInstanceByName | resalloc_ibm_cloud/ibm_cloud_vm.py:241-251 | the calls are those of the attempts made, as the retry loop settles over them |
| VpcDelete.FirstCleanAttemptIsLast | resalloc_ibm_cloud/ibm_cloud_vm.py:241-251 | a clean first attempt is the only attempt |
| VpcDelete.SweepDeletesExactlyAvailable | resalloc_ibm_cloud/ibm_cloud_vm.py:229-238 | the sweep deletes exactly the `available` floating IPs, in listing order |
| VpcDelete.DeleteAllIps | resalloc_ibm_cloud/ibm_cloud_vm.py:229-238 | the sweep lists first; a failed listing ends it; a clean sweep deleted the available IPs |
| VpcDelete.SweepFrom | resalloc_ibm_cloud/ibm_cloud_vm.py:233-238 | deletes stop at the first that raises, and that exception is the one reported |
| PowerVSCalls.Items | resalloc_ibm_cloud/powervs/powervs_vm.py:165-185 | iterating a value succeeds iff it is a list, a string or an object; a list yields its items, a string its characters and an object each of its keys; anything else raises TypeError |
| PowerVSCalls.EmptyContainersYieldNothing | resalloc_ibm_cloud/powervs/powervs_vm.py:165-185 | an empty object and an empty string are iterable and yield nothing |
| PowerVSCalls.DeleteVolumeWithBackoff | resalloc_ibm_cloud/powervs/powervs_vm.py:143-151 | one DELETE per try; every try but the last raised a request exception within 120 s; a request exception that escapes came after the budget |
| PowerVSCalls.DeleteVolumeFirstTry | resalloc_ibm_cloud/powervs/powervs_vm.py:143-151 | a delete that succeeds on its first try is one DELETE |
| PowerVSBody.NonBlankIffVisible | resalloc_ibm_cloud/powervs/powervs_vm.py:38-42 | a network id is kept iff it has a character that is not Python whitespace, Unicode spaces such as U+3000 included |
| PowerVSBody.Networks | resalloc_ibm_cloud/powervs/powervs_vm.py:38-42 | exactly the network ids with a non-whitespace character are kept, in order |
| PowerVSBody.NetworksAppend | resalloc_ibm_cloud/powervs/powervs_vm.py:38-42 | ids are filtered one by one, keeping their order |
| PowerVSBody.UnicodeSpaceIdIsDropped | resalloc_ibm_cloud/powervs/powervs_vm.py:38-42 | ids made only of an ideographic space, an em space or a no-break space are dropped, as `str.strip` strips them |
| PowerVSBody.BuildInstanceBody | resalloc_ibm_cloud/powervs/powervs_vm.py:31-57 | a missing network list raises TypeError, and a `pinPolicy` attribute without `pin_policy` raises AttributeError; otherwise the body carries the name, image, processors, processor type, memory, system type, key pair and the non-blank networks, has tags and storage type iff those options are set, and a pin policy iff the `pinPolicy` attribute exists, `null` when `pin_policy` is None |
| PowerVSBody.BodyJson | resalloc_ibm_cloud/powervs/powervs_vm.py:31-57 | the body is sent as a JSON object carrying the server name |
| PowerVSBody.BodyJsonKeys | resalloc_ibm_cloud/powervs/powervs_vm.py:31-57 | the object has exactly the eight fixed keys plus the optional keys whose fields are set |
| PowerVSBody.BodyJsonFields | resalloc_ibm_cloud/powervs/powervs_vm.py:33-46 | the scalar fixed keys hold the server name, image, processors, processor type, memory, system type and key pair |
| PowerVSBody.BodyJsonLists | resalloc_ibm_cloud/powervs/powervs_vm.py:38-50 | `networks` holds one `{"networkID": id}` object per kept id, in order, and `userTags` one string per tag |
| PowerVSBody.BodyJsonOptionalKeys | resalloc_ibm_cloud/powervs/powervs_vm.py:48-55 | the optional keys of the object are present iff their fields are set; `volumeIDs` holds the ids, and `pinPolicy` and `storageType` hold their values |
| PowerVSBody.PinPolicyOptionIsIgnored | resalloc_ibm_cloud/powervs/powervs_vm.py:51-52 | with no attribute literally named `pinPolicy`, no pin policy reaches the body |
| PowerVSBody.ParseVolume | resalloc_ibm_cloud/powervs/powervs_vm.py:197-220 | a specification parses iff it has a colon; name and size are its first two fields, and the disk type is the third when there is one |
| PowerVSBody.ParseVolumes | resalloc_ibm_cloud/powervs/powervs_vm.py:197-220 | never more volumes than specifications; all valid ones give one each; all invalid ones give none |
| PowerVSBody.ParseOneVolume | resalloc_ibm_cloud/powervs/powervs_vm.py:197-220 | one specification parses to itself or is skipped |
| PowerVSBody.ParseVolumesAppend | resalloc_ibm_cloud/powervs/powervs_vm.py:197-220 | specifications parse independently, in order |
| PowerVSBody.ParseSpecText | resalloc_ibm_cloud/powervs/powervs_vm.py:197-220 | writing a volume as `name:size[:type]` and parsing it gives it back |
| PowerVSBody.ParseVolumeExtremes | resalloc_ibm_cloud/powervs/powervs_vm.py:197-220 | fields past the third are ignored and a bare name is skipped |
| PowerVSBody.VolumeBody | resalloc_ibm_cloud/powervs/powervs_vm.py:59-76 | the volume body has the name and size, a disk type iff one is given, and `userTags` iff the tag list is non-empty |
| PowerVSBody.VolumesOf | resalloc_ibm_cloud/powervs/powervs_vm.py:115 | no `volumes` attribute means no volumes; `None` cannot be iterated; a list is parsed |
| PowerVSWait.ExtractIpAddress | resalloc_ibm_cloud/powervs/powervs_vm.py:89-100 | no networks or an empty list raise NotFound; on a list of network objects the address is the first one's `ip`, of whatever JSON type, and it is truthy; a string where the list belongs is indexed as a string, so its first character has no `.get` |
| PowerVSWait.SshAddress | resalloc_ibm_cloud/helpers.py:37-53 | `wait_for_ssh` runs on the extracted address iff it is a string; a failed extraction keeps its error, and an address of another type raises TypeError from `subprocess` before the command starts |
| PowerVSWait.NumericIpIsNoSshAddress | resalloc_ibm_cloud/powervs/powervs_vm.py:95-100 | a numeric `ip` such as `5` is returned as it is, and the ssh step raises TypeError on it |
| PowerVSWait.StringNetworksRaiseAttributeError | resalloc_ibm_cloud/powervs/powervs_vm.py:91-95 | `{"networks": "10.0.0.1"}` gives AttributeError: item 0 of the string is `"1"`, which has no `.get` |
| PowerVSWait.Gate | resalloc_ibm_cloud/powervs/powervs_vm.py:250-266 | with RMC, readiness is health `OK` and nothing is run; without RMC, ssh is waited for on the address, a missing address means not ready, an address that is not a string raises TypeError with nothing run, and ready means ssh answered |
| PowerVSWait.PollOnce | resalloc_ibm_cloud/powervs/powervs_vm.py:222-243 | past the budget TimeoutError with no request; otherwise one GET of the instance; ready only when ACTIVE and the gate passed; ERROR or FAILED raise RuntimeError |
| PowerVSWait.RunFrom | resalloc_ibm_cloud/powervs/powervs_vm.py:222-243 | rounds run while pending; the wait ends with the first round that is not |
| PowerVSWait.WaitFrom | resalloc_ibm_cloud/powervs/powervs_vm.py:222-243 | the wait is the run of its rounds, each round as `PowerVSWait.PollOnce` defines it |
| PowerVSWait.RunRounds | resalloc_ibm_cloud/powervs/powervs_vm.py:222-243 | the loop does what `PowerVSWait.RunFrom` defines from the first round |
| PowerVSWait.WaitForInstanceActive | resalloc_ibm_cloud/powervs/powervs_vm.py:222-243 | the loop makes exactly the steps and returns exactly the result `PowerVSWait.WaitFrom` defines |
| PowerVSWait.TimeoutEndsWait | resalloc_ibm_cloud/powervs/powervs_vm.py:225-230 | once the clock is past the budget before a round, the wait raises TimeoutError at that round |
| PowerVSWait.WaitReturnsOnlyReady | resalloc_ibm_cloud/powervs/powervs_vm.py:237-239 | a wait that returns saw ACTIVE in its last round, and the gate passed there |
| PowerVSWait.FailedStatusEndsWait | resalloc_ibm_cloud/powervs/powervs_vm.py:240-241 | ERROR or FAILED seen within the budget ends the wait with RuntimeError |
| PowerVSCreate.CreateVolumes | resalloc_ibm_cloud/powervs/powervs_vm.py:59-76 | one POST per volume in order; on success one id per volume, in order; the first failure stops creation and is raised, with nothing undone |
| PowerVSCreate.ShiftedAnswers | resalloc_ibm_cloud/powervs/powervs_vm.py:59-76 | the answers after the first are answered in order |
| PowerVSCreate.VolumeRequestsCarryTags | resalloc_ibm_cloud/powervs/powervs_vm.py:69-70 | every volume request carries `userTags` iff the tag list is non-empty |
| PowerVSCreate.Cleanup | resalloc_ibm_cloud/powervs/powervs_vm.py:122-131 | the clean-up only deletes, starts with the first id and never lists; only a non-`Exception` escapes it |
| PowerVSCreate.RestTries | resalloc_ibm_cloud/powervs/powervs_vm.py:124-130 | the tries of later deletes shift by one |
| PowerVSCreate.CleanupTouchesOnlyIds | resalloc_ibm_cloud/powervs/powervs_vm.py:124-130 | the clean-up deletes only the volumes it was given |
| PowerVSCreate.CleanupCoversEveryId | resalloc_ibm_cloud/powervs/powervs_vm.py:124-130 | a clean-up that runs to its end asks to delete every volume |
| PowerVSCreate.NoRmcOf | resalloc_ibm_cloud/powervs/powervs_vm.py:121 | a missing `no_rmc` raises AttributeError, `None` is false |
| PowerVSCreate.LaunchInstance | resalloc_ibm_cloud/powervs/powervs_vm.py:78-87 | the launch starts with the create request for the body; it never deletes, lists or runs the playbook |
| Json.Item | resalloc_ibm_cloud/powervs/powervs_vm.py:81 | `x[k]` as Python does it: a dict by key (KeyError when absent); a list or a string by an in-range index, negative ones from the end, a string giving a one-character string; IndexError out of range; TypeError for a field name on a list or string and for any other value |
| PowerVSCreate.StringCreateResponse | resalloc_ibm_cloud/powervs/powervs_vm.py:79-81 | a string create response is indexed as a string: an empty one raises IndexError, any other TypeError, and nothing is waited for |
| PowerVSCreate.WaitStepsAreReads | resalloc_ibm_cloud/powervs/powervs_vm.py:222-266 | the wait only reads the instance and waits for ssh |
| PowerVSCreate.Finish | resalloc_ibm_cloud/powervs/powervs_vm.py:133-138 | after a successful launch only subprocess steps follow, no request; an address that is not a string raises TypeError before any step; an address is returned only when it is the string `ip` and ssh and the playbook succeeded |
| PowerVSCreate.Prepare | resalloc_ibm_cloud/powervs/powervs_vm.py:113-118 | the body and the volumes are prepared before the instance is created, and the ids are the created volumes' ids |
| PowerVSCreate.CreateVm | resalloc_ibm_cloud/powervs/powervs_vm.py:102-138 | a failed preparation is raised with its steps; `create_vm` returns an address only when preparation and launch succeeded, ssh answered and the playbook ran, and the address is the launched instance's first network `ip`, a string |
| PowerVSCreate.CreateVmNeverLists | resalloc_ibm_cloud/powervs/powervs_vm.py:102-138 | `create_vm` never lists instances |
| PowerVSCreate.CreateRequestFollowsVolumes | resalloc_ibm_cloud/powervs/powervs_vm.py:113-121 | the instance is requested right after all the volume requests |
| PowerVSCreate.CreateBodyCarriesVolumeIds | resalloc_ibm_cloud/powervs/powervs_vm.py:113-118 | the instance body lists the created volume ids as `volumeIDs`, one per parsed volume, in creation order |
| PowerVSCreate.CleanupIffLaunchFails | resalloc_ibm_cloud/powervs/powervs_vm.py:120-131 | `create_vm` deletes something iff the launch raised an `Exception` and some volume was created |
| PowerVSCreate.CleanupReRaises | resalloc_ibm_cloud/powervs/powervs_vm.py:124-131 | when the clean-up runs to its end, every created volume was asked to be deleted and the launch's exception is re-raised |
| PowerVSCreate.CleanupTail | resalloc_ibm_cloud/powervs/powervs_vm.py:124-130 | appending the clean-up adds a delete iff there is a volume to delete |
| PowerVSCreate.FinishTail | resalloc_ibm_cloud/powervs/powervs_vm.py:133-138 | the finishing steps add no delete |
| PowerVSCreate.CleanupCoversIds | resalloc_ibm_cloud/powervs/powervs_vm.py:124-130 | a clean-up that runs to its end asks to delete every id, whatever came before it |
| PowerVSCreate.NoDeleteBeforeCleanup | resalloc_ibm_cloud/powervs/powervs_vm.py:113-121 | neither volume creation nor the launch deletes anything |
| PowerVSDelete.FindInstanceId | resalloc_ibm_cloud/powervs/powervs_vm.py:162-168 | the id of the first instance named exactly `name`, `None` when no instance is, KeyError for an unnamed one met first |
| PowerVSDelete.FirstMatchWins | resalloc_ibm_cloud/powervs/powervs_vm.py:165-168 | a later instance of the same name is never chosen |
| PowerVSDelete.TeardownVolume | resalloc_ibm_cloud/powervs/powervs_vm.py:179-185 | a volume is detached, then deleted with retries only if the detach succeeded; an HTTP error skips the volume and any other error stops `delete_vm` |
| PowerVSDelete.Teardown | resalloc_ibm_cloud/powervs/powervs_vm.py:179-185 | the volume loop touches only the instance's volumes and, unless stopped, detaches every one |
| PowerVSDelete.DeleteVm | resalloc_ibm_cloud/powervs/powervs_vm.py:153-195 | `delete_vm` lists first; with no such instance it stops there without error; a successful deletion ends by deleting the found instance with its data volumes |
| PowerVSDelete.DeleteVmTouchesOnlyFound | resalloc_ibm_cloud/powervs/powervs_vm.py:153-195 | after the listing, every step reads the found instance, touches one of its volumes, or deletes it |
| PowerVSDelete.StepsAfterListing | resalloc_ibm_cloud/powervs/powervs_vm.py:174-190 | the volume steps and the final delete all concern the found instance |
| PowerVSDelete.DeleteVmDetachesEveryVolume | resalloc_ibm_cloud/powervs/powervs_vm.py:179-190 | a deletion that reaches the instance delete detached every one of its volumes first |
| PowerVSDelete.DetachesBeforeLast | resalloc_ibm_cloud/powervs/powervs_vm.py:179-190 | detaches in the volume loop come before the final instance delete |
| PowerVSDelete.HttpErrorSkipsVolume | resalloc_ibm_cloud/powervs/powervs_vm.py:179-185 | an HTTP error on one volume's detach moves on to the next volume |
| PowerVSMain.CreateBranch | resalloc_ibm_cloud/powervs/powervs_vm.py:286-305 | a successful create prints the address and exits 0 with exactly the create steps |
| PowerVSMain.ExitStatus | resalloc_ibm_cloud/powervs/powervs_vm.py:307-309 | any `Exception` reaching the outer handler exits 1; only `sys.exit(0)` gives status 0; a `SystemExit` keeps its code |
| PowerVSMain.Main | resalloc_ibm_cloud/powervs/powervs_vm.py:269-309 | a credential or client failure exits before any request; an unknown subcommand exits 1; only `create` prints, and then exits 0 |
| PowerVSMain.RollbackIffCreateRaised | resalloc_ibm_cloud/powervs/powervs_vm.py:286-298 | `delete_vm` runs for the same name iff `create_vm` raised an `Exception`; its steps follow the create steps, and the run exits 1 unless the clean-up itself exited |
| Listers.PoolId | resalloc_ibm_cloud/ibm_cloud_list_vms.py:23-26 | `--pool`, else `$RESALLOC_POOL_ID`; exit 1 when both are empty; the id is never empty |
| Listers.Normalise | resalloc_ibm_cloud/ibm_cloud_list_vms.py:36 | every `-` becomes `_`, other characters are kept |
| Listers.NormaliseInvertsMangle | resalloc_ibm_cloud/ibm_cloud_list_vms.py:36 | for a Resalloc name without `-`, normalising undoes the create-side mangling |
| Listers.VolumeMachine | resalloc_ibm_cloud/ibm_cloud_list_vms.py:43-45 | the machine of a volume is a prefix of its normalised name, cut before the last `_` |
| Listers.InstanceNamesMembers | resalloc_ibm_cloud/ibm_cloud_list_vms.py:33-38 | a name is listed from the instances iff some instance's normalised name is that name and starts with the pool id |
| Listers.VolumeNamesMembers | resalloc_ibm_cloud/ibm_cloud_list_vms.py:40-46 | a name is listed from the volumes iff some volume's normalised name starts with the pool id and stands for that machine |
| Listers.ListVpcResources | resalloc_ibm_cloud/ibm_cloud_list_vms.py:32-46 | the loops collect the instance names and the volume machines, and no listed name has a `-` |
| Listers.VpcListVms | resalloc_ibm_cloud/ibm_cloud_list_vms.py:23-51 | no pool id means exit 1 before anything is listed; otherwise the pool's machine names are printed |
| Listers.NormaliseAppend | resalloc_ibm_cloud/ibm_cloud_list_vms.py:36 | normalising works character by character |
| Listers.MangledVolumeMachine | resalloc_ibm_cloud/ibm_cloud_list_vms.py:43-45 | a volume `<mangled name>-<suffix>` stands for the Resalloc name it was created for |
| Listers.CreatedVolumeListed | resalloc_ibm_cloud/ibm_cloud_list_vms.py:43-46 | such a volume passes the pool filter whenever its machine does |
| Listers.CreatedMachineCollapses | resalloc_ibm_cloud/ibm_cloud_list_vms.py:32-46 | a machine created from the pool, with its `-root` and `-swap` volumes, is listed once, under its Resalloc name |
| Listers.OneMachineListed | resalloc_ibm_cloud/ibm_cloud_list_vms.py:32-46 | an instance and two volumes that stand for one name list just that name |
| Listers.PoolNamedVolumeLeavesPool | resalloc_ibm_cloud/ibm_cloud_list_vms.py:43-45 | a volume named exactly after a pool id that contains `_` passes the filter but is listed as a shorter name outside the pool |
| Listers.SingleVolumeListed | resalloc_ibm_cloud/ibm_cloud_list_vms.py:40-46 | a single kept volume lists its machine |
| Listers.PowerVSListVmsMembers | resalloc_ibm_cloud/powervs/powervs_list_vms.py:24-31 | a name is listed iff some instance's server name is exactly that name and starts with the pool id |
| Listers.NamelessEntryIsNotListed | resalloc_ibm_cloud/powervs/powervs_list_vms.py:27-28 | an instance without a server name adds nothing for a non-empty pool id |
| Listers.DuplicatesCollapse | resalloc_ibm_cloud/powervs/powervs_list_vms.py:24-31 | a machine listed twice is reported once |
| Listers.PowerVSListMain | resalloc_ibm_cloud/powervs/powervs_list_vms.py:38-49 | no pool id means exit 1 before the listing request; no empty name is printed |
| Listers.DeletingStatusIgnoresCase | resalloc_ibm_cloud/powervs/powervs_list_deleting_vms.py:20-21 | the deleting check gives the same answer for a status and its upper-cased form |
| Listers.MissingStatusIsNotDeleting | resalloc_ibm_cloud/powervs/powervs_list_deleting_vms.py:20 | an instance without a status is never reported |
| Listers.ReportUntil | resalloc_ibm_cloud/powervs/powervs_list_deleting_vms.py:17-24 | the report completes iff every kept entry has what its line needs, and then prints one line per kept entry, in order; otherwise it stops at the first kept entry that lacks it |
| Listers.ReportAll | resalloc_ibm_cloud/ibm_cloud_list_deleting_vms.py:22-25 | one line per kept element, in listing order |
| Listers.ListDeletingPvms | resalloc_ibm_cloud/powervs/powervs_list_deleting_vms.py:17-24 | one `<id> <name>` line per deleting instance, in order; KeyError iff a deleting instance has no id, after the lines of those before it |
| Listers.PvmLinesAreDeletingEntries | resalloc_ibm_cloud/powervs/powervs_list_deleting_vms.py:20-24 | each reported line is the line of a deleting entry with its id, in listing order |
| Listers.PvmLineFields | resalloc_ibm_cloud/powervs/powervs_list_deleting_vms.py:22-24 | the line of an entry with its id splits at its spaces back into the id and the server name, `unknown` when absent, when neither holds a space |
| Listers.ListDeletingVpcVms | resalloc_ibm_cloud/ibm_cloud_list_deleting_vms.py:21-25 | one `<id> <name>` line per instance whose status is `deleting`, in listing order |
| Listers.VpcDeletingReport | resalloc_ibm_cloud/ibm_cloud_list_deleting_vms.py:24 | an instance is reported iff its status is exactly `deleting` |
| Listers.VpcLineStartsWithId | resalloc_ibm_cloud/ibm_cloud_list_deleting_vms.py:25 | a reported line gives back the instance id up to its first space |
| Listers.VpcLineFields | resalloc_ibm_cloud/ibm_cloud_list_deleting_vms.py:25 | the line splits at its spaces back into the id and the name when neither holds a space |
| Listers.ListDeletingVolumes | resalloc_ibm_cloud/list_deleting_volumes.py:21-25 | one line per volume that is not `available`, in listing order |
| Listers.VolumeLineFields | resalloc_ibm_cloud/list_deleting_volumes.py:25 | the line splits at its spaces back into the id, `(name=<name>)`, `->` and the status when none of the three holds a space |
| Listers.VolumeReport | resalloc_ibm_cloud/list_deleting_volumes.py:22-25 | a volume is reported iff its status is not `available` |
| Listers.FailedVolumeIsReported | resalloc_ibm_cloud/list_deleting_volumes.py:25 | a `failed` volume is reported, with its status at the end of the line |

## Left out

- Building the SDK service and exchanging the API key for an IAM token
  (`helpers.py:11-34`, `powervs/credentials.py:56-72`) is I/O. It is not
  modelled: the manager receives credentials, or the error reading them
  raised.
- Sourcing the token file in a shell is I/O, and is not modelled.
- `wait_for_ssh` and `run_playbook` are subprocesses. They appear as trace
  steps whose outcome comes from the world.
- Clocks and sleeps are not modelled: each poll or try carries the elapsed
  time it starts at. Backoff jitter and the exponential waits are not
  modelled.
- `random.choice` is an index given to `VpcSelection.GetZoneAndSubnet`.
- `float(parts[1])` is not modelled: the volume size is kept as its text,
  so the ValueError `float` raises on a non-numeric size such as the one
  in `data:big` is not raised. JSON numbers are kept as their decimal text.
- Logging, `print` to stderr and the argument parsers are not modelled. The
  options arrive as datatypes, with attributes that may be missing or
  `None` where the parser leaves them so.
- `int(os.environ.get("RESALLOC_ID_IN_POOL", -1))` arrives as its result:
  `Ok(-1)` when the variable is missing, which then raises RuntimeError,
  or a ValueError when it is not an integer.
- Upper-casing is modelled for ASCII letters only.
- Python truthiness of JSON numbers counts only `0` and `0.0` as false.
- `str()` of JSON lists and objects is a placeholder; the code only formats
  ids, which are strings or numbers.
- Listers.VpcListVms: `ibm_cloud_list_vms.py:8` imports `default_arg_parser`,
  which `helpers.py` does not define, so the script fails with ImportError
  before it lists anything. The model states the pool-id check and the two
  filters as the script's `main` would apply them.
- Listers.ListDeletingVpcVms: `ibm_cloud_list_deleting_vms.py:5` imports the
  same missing `default_arg_parser`, with the same ImportError. The model
  states the report the loop would print.
- Listers.ListDeletingVolumes: `list_deleting_volumes.py:19` calls
  `get_service(cmd, opts)`, but `helpers.py:11` takes one argument, so the
  script raises TypeError before listing; the source marks the call with a
  TODO. The model states the report the loop would print.
- Listers.PowerVSListVms and Listers.ListDeletingPvms: a `pvmInstances`
  entry keeps `serverName` and `status` only as strings or absent. A `null`
  or non-string value cannot be represented, so the AttributeError that
  `name.startswith` (`powervs/powervs_list_vms.py:28`) or `.upper()`
  (`powervs/powervs_list_deleting_vms.py:20`) would raise on it is not
  modelled.
- The order in which a set of names is printed is not modelled: the listers
  return the set.
- `main` of the VPC manager is not modelled: it parses arguments and
  dispatches to create or delete. The create and delete drivers it calls
  are modelled.
- `assign_user_tags`, `bind_floating_ip` and `allocate_and_assign_ip` are
  modelled as steps with a scripted answer; what the SDK does inside them is
  not.
- The PowerVS client wrappers are modelled as the method, path and body
  they send. `update_volume` is never called by the manager.
- PowerVSWait.WaitForInstanceActive: its own contract states equality with
  `PowerVSWait.WaitFrom`. That the wait returns only an ACTIVE, ready
  instance is stated by `PowerVSWait.WaitReturnsOnlyReady`.
- PowerVSCalls.Items: an object's keys are taken in ascending order.
  Python iterates a dict in insertion order, which the model's JSON objects
  do not keep.
- VpcCreate.StrAt: a non-string `id` or `crn` raises TypeError in the model.
  The source passes such a value on to SDK calls that are not part of this
  model.
