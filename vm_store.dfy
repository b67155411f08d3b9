/** The virtual-machine store: its caches, the DataVolume client and the generic object
    store it wraps, and the deletion cascade written as the sequence of calls it issues. */
module VmApi {
  import opened Objects
  import opened OwnerRefs
  import opened Partition
  import opened Cluster
  import CascadeProperties

  class VmStore {
    const vmCache: Cache<VirtualMachine>
    const dataVolumesCache: Cache<DataVolume>
    const faults: Faults
    /** The DataVolumes the DataVolume client writes. */
    var dataVolumes: map<ObjectKey, DataVolume>
    /** The virtual machines the generic object store holds. */
    var virtualMachines: map<ObjectKey, VirtualMachine>
    /** Every mutating call issued, in order, including the ones that failed. */
    var log: seq<Call>

    function Environment(): Env
    {
      Env(vmCache, dataVolumesCache, faults)
    }

    function State(): World
      reads this
    {
      World(dataVolumes, virtualMachines, log)
    }

    constructor (vmCache: Cache<VirtualMachine>, dataVolumesCache: Cache<DataVolume>, faults: Faults,
                 dataVolumes: map<ObjectKey, DataVolume>, virtualMachines: map<ObjectKey, VirtualMachine>)
      ensures Environment() == Env(vmCache, dataVolumesCache, faults)
      ensures State() == World(dataVolumes, virtualMachines, [])
    {
      this.vmCache := vmCache;
      this.dataVolumesCache := dataVolumesCache;
      this.faults := faults;
      this.dataVolumes := dataVolumes;
      this.virtualMachines := virtualMachines;
      this.log := [];
    }

    /** The DataVolume client's Update. */
    method UpdateDataVolume(key: ObjectKey, dv: DataVolume) returns (o: Outcome)
      modifies this
      ensures Step(o, State()) == ClientUpdate(Environment(), old(State()), key, dv)
    {
      log := log + [DvUpdate(key, dv)];
      if key in faults.update {
        o := Fail(Failure(faults.update[key]));
      } else if key !in dataVolumes {
        o := Fail(NotFound);
      } else {
        dataVolumes := dataVolumes[key := dv];
        o := Pass;
      }
    }

    /** The DataVolume client's Delete. */
    method DeleteDataVolume(key: ObjectKey) returns (o: Outcome)
      modifies this
      ensures Step(o, State()) == ClientDelete(Environment(), old(State()), key)
    {
      log := log + [DvDelete(key)];
      if key in faults.delete {
        o := Fail(Failure(faults.delete[key]));
      } else if key !in dataVolumes {
        o := Fail(NotFound);
      } else {
        dataVolumes := dataVolumes - {key};
        o := Pass;
      }
    }

    /** The generic object store's Delete. */
    method StoreDeleteVm(key: ObjectKey) returns (r: Result<VirtualMachine, Error>)
      modifies this
      ensures StoreReply(r, State()) == StoreDelete(Environment(), old(State()), key)
    {
      log := log + [VmDelete(key)];
      if key in faults.store {
        r := Err(Failure(faults.store[key]));
      } else if key !in virtualMachines {
        r := Err(NotFound);
      } else {
        r := Ok(virtualMachines[key]);
        virtualMachines := virtualMachines - {key};
      }
    }

    /** Strips this VM's owner reference from each saved DataVolume, in order. */
    method RemoveVmDataVolumeOwnerRef(vmNamespace: string, vmName: string, savedDataVolumes: seq<string>) returns (o: Outcome)
      modifies this
      ensures Step(o, State()) == DetachAll(Environment(), old(State()), vmNamespace, vmName, savedDataVolumes)
    {
      var i := 0;
      while i < |savedDataVolumes|
        invariant 0 <= i <= |savedDataVolumes|
        invariant DetachAll(Environment(), old(State()), vmNamespace, vmName, savedDataVolumes)
               == DetachAll(Environment(), State(), vmNamespace, vmName, savedDataVolumes[i..])
      {
        assert savedDataVolumes[i..][1..] == savedDataVolumes[i + 1..];
        var key := ObjectKey(vmNamespace, savedDataVolumes[i]);
        var got := dataVolumesCache.Get(key);
        if got.Err? {
          if got.error == NotFound {
            i := i + 1;
            continue;
          }
          return Fail(got.error);
        }
        var dv := got.value;
        var updated := FilterOwnerReferences(dv.ownerReferences, vmName);
        if |updated| != |dv.ownerReferences| {
          var copy := dv.(ownerReferences := updated);
          var u := UpdateDataVolume(key, copy);
          if u.Fail? {
            return u;
          }
        }
        i := i + 1;
      }
      return Pass;
    }

    /** Deletes the named DataVolumes in order; NotFound counts as deleted. */
    method DeleteDataVolumes(namespace: string, names: seq<string>) returns (o: Outcome)
      modifies this
      ensures Step(o, State()) == DeleteAll(Environment(), old(State()), namespace, names)
    {
      var i := 0;
      while i < |names|
        invariant 0 <= i <= |names|
        invariant DeleteAll(Environment(), old(State()), namespace, names)
               == DeleteAll(Environment(), State(), namespace, names[i..])
      {
        assert names[i..][1..] == names[i + 1..];
        var d := DeleteDataVolume(ObjectKey(namespace, names[i]));
        if d.Fail? && d.error != NotFound {
          return d;
        }
        i := i + 1;
      }
      return Pass;
    }

    /** Deletes the VM namespace/name; the attachments named in removedDisks lose their
        DataVolumes, the other DataVolumes only lose this VM's owner reference. */
    method Delete(namespace: string, name: string, removedDisks: seq<string>) returns (r: Result<VirtualMachine, DeleteError>)
      modifies this
      ensures Response(r, State()) == DeleteCascade(Environment(), old(State()), namespace, name, removedDisks)
      ensures old(log) <= log && CascadeProperties.PhaseOrdered(log[|old(log)|..])
    {
      var key := ObjectKey(namespace, name);
      var got := vmCache.Get(key);
      if got.Err? {
        r := Err(GetVmFailed(got.error));
        CascadeProperties.DeleteCascadeOrder(Environment(), old(State()), namespace, name, removedDisks);
        return;
      }
      var vm := got.value;
      var saved, removed := SplitDataVolumes(Volumes(vm), removedDisks);

      var d := RemoveVmDataVolumeOwnerRef(vm.namespace, vm.name, saved);
      if d.Fail? {
        r := Err(OwnerRefsFailed(d.error));
        CascadeProperties.DeleteCascadeOrder(Environment(), old(State()), namespace, name, removedDisks);
        return;
      }

      var obj := StoreDeleteVm(key);
      if obj.Err? {
        r := Err(VmDeleteFailed(obj.error));
        CascadeProperties.DeleteCascadeOrder(Environment(), old(State()), namespace, name, removedDisks);
        return;
      }

      var x := DeleteDataVolumes(vm.namespace, removed);
      if x.Fail? {
        r := Err(DataVolumeDeleteFailed(x.error));
      } else {
        r := Ok(obj.value);
      }
      CascadeProperties.DeleteCascadeOrder(Environment(), old(State()), namespace, name, removedDisks);
    }
  }
}
