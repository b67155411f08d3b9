/** The Kubernetes and KubeVirt objects the virtual-machine store reads and writes,
    the results of collaborator calls, and the read caches. */
module Objects {

  datatype Option<+T> = None | Some(value: T)

  /** The failure of a collaborator call. NotFound is the API server's answer for a
      missing object; every other failure is a bare error code. */
  datatype Error = NotFound | Failure(code: nat)

  datatype Result<+T, +E> = Ok(value: T) | Err(error: E)

  /** The result of a call that returns nothing but an error. */
  datatype Outcome = Pass | Fail(error: Error)

  /** Objects are identified by namespace and name. */
  datatype ObjectKey = ObjectKey(namespace: string, name: string)

  /** The kind KubeVirt gives to a virtual machine in an owner reference. */
  const VirtualMachineKind: string := "VirtualMachine"

  datatype OwnerReference = OwnerReference(apiVersion: string, kind: string, name: string, uid: string)

  /** A DataVolume: its owner list and, as one uninterpreted value, everything else in the object. */
  datatype DataVolume = DataVolume(ownerReferences: seq<OwnerReference>, spec: string)

  /** A volume attachment of a VM template; `dataVolume` names the DataVolume backing it, if any. */
  datatype Volume = Volume(name: string, dataVolume: Option<string>)

  /** A virtual machine; `template` holds the volume attachments of its template, when it has one. */
  datatype VirtualMachine = VirtualMachine(namespace: string, name: string, template: Option<seq<Volume>>)

  /** The volume attachments of a VM; none when it has no template. */
  function Volumes(vm: VirtualMachine): seq<Volume>
  {
    if vm.template.Some? then vm.template.value else []
  }

  /** A watch-populated read cache: the snapshots it holds and the keys whose read fails
      with an error other than NotFound. It is never written by this store. */
  datatype Cache<T> = Cache(snapshots: map<ObjectKey, T>, failures: map<ObjectKey, nat>)
  {
    function Get(key: ObjectKey): Result<T, Error>
    {
      if key in failures then Err(Failure(failures[key]))
      else if key in snapshots then Ok(snapshots[key])
      else Err(NotFound)
    }
  }
}
