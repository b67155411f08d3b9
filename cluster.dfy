/** The state the store acts on, every collaborator call as a step on that state, and the
    deletion cascade with its two helpers as functions of the state before the call. */
module Cluster {
  import opened Objects
  import opened OwnerRefs
  import opened Partition

  /** A mutating call issued to the API server. */
  datatype Call =
    | DvUpdate(key: ObjectKey, dv: DataVolume)   // DataVolume client Update
    | VmDelete(key: ObjectKey)                   // generic object store Delete of the VM
    | DvDelete(key: ObjectKey)                   // DataVolume client Delete

  /** The failures the API server answers, per object, for each kind of mutating call. */
  datatype Faults = Faults(update: map<ObjectKey, nat>, delete: map<ObjectKey, nat>, store: map<ObjectKey, nat>)

  /** What the store reads but never writes: its two caches and the server's failures. */
  datatype Env = Env(vmCache: Cache<VirtualMachine>, dataVolumeCache: Cache<DataVolume>, faults: Faults)

  /** The objects behind the DataVolume client and the generic store, and every mutating call issued so far. */
  datatype World = World(dataVolumes: map<ObjectKey, DataVolume>, virtualMachines: map<ObjectKey, VirtualMachine>, log: seq<Call>)

  datatype Step = Step(outcome: Outcome, world: World)

  datatype StoreReply = StoreReply(result: Result<VirtualMachine, Error>, world: World)

  /** Which stage of Delete failed, and the collaborator's error. */
  datatype DeleteError =
    | GetVmFailed(cause: Error)
    | OwnerRefsFailed(cause: Error)
    | VmDeleteFailed(cause: Error)
    | DataVolumeDeleteFailed(cause: Error)

  datatype Response = Response(result: Result<VirtualMachine, DeleteError>, world: World)

  function Issue(w: World, c: Call): World
  {
    w.(log := w.log + [c])
  }

  /** DataVolume client Update: replaces the stored object; a missing object is NotFound. */
  function ClientUpdate(env: Env, w: World, key: ObjectKey, dv: DataVolume): Step
  {
    var issued := Issue(w, DvUpdate(key, dv));
    if key in env.faults.update then Step(Fail(Failure(env.faults.update[key])), issued)
    else if key !in w.dataVolumes then Step(Fail(NotFound), issued)
    else Step(Pass, issued.(dataVolumes := w.dataVolumes[key := dv]))
  }

  /** DataVolume client Delete: removes the stored object; a missing object is NotFound. */
  function ClientDelete(env: Env, w: World, key: ObjectKey): Step
  {
    var issued := Issue(w, DvDelete(key));
    if key in env.faults.delete then Step(Fail(Failure(env.faults.delete[key])), issued)
    else if key !in w.dataVolumes then Step(Fail(NotFound), issued)
    else Step(Pass, issued.(dataVolumes := w.dataVolumes - {key}))
  }

  /** The generic store's Delete: removes the VM and returns the deleted object. */
  function StoreDelete(env: Env, w: World, key: ObjectKey): StoreReply
  {
    var issued := Issue(w, VmDelete(key));
    if key in env.faults.store then StoreReply(Err(Failure(env.faults.store[key])), issued)
    else if key !in w.virtualMachines then StoreReply(Err(NotFound), issued)
    else StoreReply(Ok(w.virtualMachines[key]), issued.(virtualMachines := w.virtualMachines - {key}))
  }

  /** One turn of the owner-reference loop: read the volume from the cache (skip it when it
      is not found), and write a copy with the filtered owner list only when the list shrank. */
  function DetachOwnerRef(env: Env, w: World, vmNamespace: string, vmName: string, volume: string): Step
  {
    var key := ObjectKey(vmNamespace, volume);
    match env.dataVolumeCache.Get(key)
    case Err(NotFound) => Step(Pass, w)
    case Err(e) => Step(Fail(e), w)
    case Ok(dv) =>
      var updated := WithoutVmOwner(dv.ownerReferences, vmName);
      if |updated| != |dv.ownerReferences| then ClientUpdate(env, w, key, dv.(ownerReferences := updated))
      else Step(Pass, w)
  }

  /** removeVMDataVolumeOwnerRef: the saved volumes in order, stopping at the first error. */
  function DetachAll(env: Env, w: World, vmNamespace: string, vmName: string, volumes: seq<string>): Step
    decreases |volumes|
  {
    if volumes == [] then Step(Pass, w)
    else
      var s := DetachOwnerRef(env, w, vmNamespace, vmName, volumes[0]);
      if s.outcome.Fail? then s else DetachAll(env, s.world, vmNamespace, vmName, volumes[1..])
  }

  /** deleteDataVolumes: the removed volumes in order; NotFound counts as deleted, any other
      error stops the loop. */
  function DeleteAll(env: Env, w: World, namespace: string, names: seq<string>): Step
    decreases |names|
  {
    if names == [] then Step(Pass, w)
    else
      var s := ClientDelete(env, w, ObjectKey(namespace, names[0]));
      if s.outcome.Fail? && s.outcome.error != NotFound then s
      else DeleteAll(env, s.world, namespace, names[1..])
  }

  /** vmStore.Delete: read the VM, split its volumes, detach the saved ones, delete the VM
      through the generic store, then delete the removed volumes; each failure ends the call. */
  function DeleteCascade(env: Env, w: World, namespace: string, name: string, removedDisks: seq<string>): Response
  {
    var key := ObjectKey(namespace, name);
    match env.vmCache.Get(key)
    case Err(e) => Response(Err(GetVmFailed(e)), w)
    case Ok(vm) =>
      var volumes := Volumes(vm);
      var d := DetachAll(env, w, vm.namespace, vm.name, SavedDataVolumes(volumes, removedDisks));
      if d.outcome.Fail? then Response(Err(OwnerRefsFailed(d.outcome.error)), d.world)
      else
        var g := StoreDelete(env, d.world, key);
        if g.result.Err? then Response(Err(VmDeleteFailed(g.result.error)), g.world)
        else
          var x := DeleteAll(env, g.world, vm.namespace, RemovedDataVolumes(volumes, removedDisks));
          if x.outcome.Fail? then Response(Err(DataVolumeDeleteFailed(x.outcome.error)), x.world)
          else Response(Ok(g.result.value), x.world)
  }
}
