/**
 What the VPC scripts see of the cloud: listing records as the SDK returns
 them, and the calls they issue, in the order they issue them.
 */
module VpcApi {
  import opened Wrappers
  import opened Json

  datatype Instance = Instance(id: string, name: string, status: string)

  datatype FloatingIp = FloatingIp(id: string, name: string, status: string)

  /** `attachmentState` is `volume.get('attachment_state')`. */
  datatype Volume = Volume(id: string, name: string, status: string, attachmentState: Option<string>)

  /** The deleting calls of a delete attempt. */
  datatype Deletion =
    | DeleteInstance(instanceId: string)
    | DeleteFloatingIp(floatingIpId: string)
    | DeleteVolume(volumeId: string)

  /** Every call the VPC scripts make, including the two subprocess collaborators. */
  datatype Call =
    | ListInstances
    | ListFloatingIps
    | ListVolumes
    | Delete(deletion: Deletion)
    | CreateInstance(prototype: Json)
    | AssignUserTags(crn: string, tags: seq<string>)
    | GetInstance(instanceId: string)
    | BindFloatingIp(instanceId: string, networkInterfaceId: string, floatingIpId: string)
    | AllocateFloatingIp(name: string, networkInterfaceId: string)
    | WaitForSsh(address: string)
    | RunPlaybook(address: string, playbook: string)

  predicate IsDelete(c: Call) {
    c.Delete?
  }
}
