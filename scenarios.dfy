/** Worked cases of the deletion cascade: one VM with two DataVolume-backed disks. */
module Scenarios {
  import opened Objects
  import opened OwnerRefs
  import opened Partition
  import opened Cluster

  const Vm1Ref := OwnerReference("kubevirt.io/v1", VirtualMachineKind, "vm1", "uid-1")
  const Vm2Ref := OwnerReference("kubevirt.io/v1", VirtualMachineKind, "vm2", "uid-2")
  /** Same name as the VM being deleted, but another kind: it must survive. */
  const InstanceRef := OwnerReference("kubevirt.io/v1", "VirtualMachineInstance", "vm1", "uid-3")

  const VmKey := ObjectKey("ns", "vm1")
  const DvA := ObjectKey("ns", "dvA")
  const DvB := ObjectKey("ns", "dvB")

  /** ns/vm1 with diskA backed by dvA, diskB backed by dvB and a disk with no DataVolume. */
  const Vm1 := VirtualMachine("ns", "vm1", Some([Volume("diskA", Some("dvA")), Volume("cloudinit", None), Volume("diskB", Some("dvB"))]))

  /** dvA is shared with vm2; dvB belongs to vm1 alone. */
  const Volumes0 := map[DvA := DataVolume([Vm1Ref, InstanceRef, Vm2Ref], "a"), DvB := DataVolume([Vm1Ref], "b")]

  const NoFaults := Faults(map[], map[], map[])

  function Synced(faults: Faults): Env
  {
    Env(Cache(map[VmKey := Vm1], map[]), Cache(Volumes0, map[]), faults)
  }

  const World0 := World(Volumes0, map[VmKey := Vm1], [])

  /** diskA's dvA is saved and diskB's dvB removed; the attachment without a DataVolume is ignored. */
  lemma SplitOfVm1()
    ensures SavedDataVolumes(Volumes(Vm1), ["diskB"]) == ["dvA"]
    ensures RemovedDataVolumes(Volumes(Vm1), ["diskB"]) == ["dvB"]
  {
    var vs := Volumes(Vm1);
    assert "diskA" !in ["diskB"] && "cloudinit" !in ["diskB"] && "diskB" in ["diskB"];
    assert vs[..1][..0] == [] && vs[..2][..1] == vs[..1] && vs[..3][..2] == vs[..2] && vs[..3] == vs;
    assert Classified(vs[..1], ["diskB"], false) == ["dvA"];
    assert Classified(vs[..1], ["diskB"], true) == [];
    assert Classified(vs[..2], ["diskB"], false) == ["dvA"];
    assert Classified(vs[..2], ["diskB"], true) == [];
  }

  lemma StripVm1FromDvA()
    ensures WithoutVmOwner([Vm1Ref, InstanceRef, Vm2Ref], "vm1") == [InstanceRef, Vm2Ref]
  {
    var refs := [Vm1Ref, InstanceRef, Vm2Ref];
    assert "VirtualMachineInstance" != VirtualMachineKind && "vm2" != "vm1";
    assert refs[..1][..0] == [] && refs[..2][..1] == refs[..1] && refs[..3][..2] == refs[..2] && refs[..3] == refs;
    assert WithoutVmOwner(refs[..1], "vm1") == [];
    assert WithoutVmOwner(refs[..2], "vm1") == [InstanceRef];
  }

  /** Deleting vm1 with diskB removed: dvA loses only vm1's reference, the VM goes, then dvB goes. */
  lemma SharedVolumeIsDetached()
    ensures DeleteCascade(Synced(NoFaults), World0, "ns", "vm1", ["diskB"]) ==
      Response(Ok(Vm1),
               World(map[DvA := DataVolume([InstanceRef, Vm2Ref], "a")], map[],
                     [DvUpdate(DvA, DataVolume([InstanceRef, Vm2Ref], "a")), VmDelete(VmKey), DvDelete(DvB)]))
  {
    SplitOfVm1();
    StripVm1FromDvA();
    assert Volumes0[DvA := DataVolume([InstanceRef, Vm2Ref], "a")] - {DvB} == map[DvA := DataVolume([InstanceRef, Vm2Ref], "a")];
  }

  /** dvB was deleted out of band: its delete answers NotFound and Delete still succeeds. */
  lemma RemovedVolumeAlreadyGone()
    ensures DeleteCascade(Synced(NoFaults), World0.(dataVolumes := Volumes0 - {DvB}), "ns", "vm1", ["diskB"]).result == Ok(Vm1)
  {
    SplitOfVm1();
    StripVm1FromDvA();
  }

  /** The VM read fails: nothing is issued and the read error is reported. */
  lemma VmReadFailureIssuesNothing()
    ensures DeleteCascade(Env(Cache(map[], map[VmKey := 7]), Cache(Volumes0, map[]), NoFaults), World0, "ns", "vm1", ["diskB"])
         == Response(Err(GetVmFailed(Failure(7))), World0)
  {
  }

  /** The owner-reference update of dvA is refused: neither the VM nor dvB is deleted. */
  lemma DetachFailureStopsCascade()
    ensures DeleteCascade(Synced(Faults(map[DvA := 9], map[], map[])), World0, "ns", "vm1", ["diskB"]) ==
      Response(Err(OwnerRefsFailed(Failure(9))), World0.(log := [DvUpdate(DvA, DataVolume([InstanceRef, Vm2Ref], "a"))]))
  {
    SplitOfVm1();
    StripVm1FromDvA();
  }

  /** Deleting dvB is refused after the VM is gone: the error is reported and the VM stays deleted. */
  lemma VolumeDeleteFailureKeepsVmDeleted()
    ensures var r := DeleteCascade(Synced(Faults(map[], map[DvB := 4], map[])), World0, "ns", "vm1", ["diskB"]);
      r.result == Err(DataVolumeDeleteFailed(Failure(4))) && VmKey !in r.world.virtualMachines && DvB in r.world.dataVolumes
  {
    SplitOfVm1();
    StripVm1FromDvA();
  }
}
