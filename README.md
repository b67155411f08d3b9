# Virtual-machine deletion cascade

A Dafny model of how the Harvester virtual-machine API store deletes a VM
(`vmStore.Delete` and its two helpers in `pkg/api/vm/store.go`).

A VM's template lists volume attachments. Some of them are backed by a
DataVolume. The caller names, in the `removedDisks` query, the attachments
whose DataVolumes must be destroyed. `Delete` does four things in order:

1. It reads the VM from the VM cache.
2. It splits the DataVolume names into a *saved* list and a *removed* list.
3. It strips this VM's owner reference from every saved DataVolume. The
   object written is a copy of the cached one, and it is written only when
   the owner list actually shrank.
4. It deletes the VM through the generic object store, then hard-deletes
   every removed DataVolume. A DataVolume delete that answers NotFound counts
   as done; a NotFound from the VM delete is an error.

Every failure ends the call at once.

Files and modules:

- `objects.dfy` (`Objects`): owner references, DataVolumes, attachments,
  VMs, error and result types, and the read caches.
- `owner_refs.dfy` (`OwnerRefs`): the owner-list filter. It is a function,
  the loop that builds the list, and lemmas on both.
- `partition.dfy` (`Partition`): the saved/removed split. It is a function,
  the loop that builds both lists, and lemmas on both.
- `cluster.dfy` (`Cluster`): the state the store acts on. This state is the
  DataVolumes behind the DataVolume client, the VMs behind the generic
  store, and a log of every mutating call issued. The file also has each
  collaborator call and each of the three operations as a function of the
  state before the call.
- `cascade_properties.dfy` (`CascadeProperties`): what the three
  operations guarantee.
- `vm_store.dfy` (`VmApi`): class `VmStore`. Its fields are the two caches,
  the failures the API server answers, the DataVolume client's objects, the
  generic store's objects and the call log. Its imperative methods are
  proved equal to the functions of `Cluster`.
- `scenarios.dfy` (`Scenarios`): worked cases on one VM with a shared
  DataVolume, an exclusively owned one, and an attachment without a
  DataVolume.

Collaborators are modelled as follows:

- The two caches are values that the store never writes. Each is a map
  from object key to snapshot, plus a map of keys whose read fails with an
  error other than NotFound.
- The DataVolume client's `Update`/`Delete` and the generic store's
  `Delete` act on maps. A missing object answers NotFound. Any other
  failure comes from a fixed `Faults` record, per call kind and per object.
- Every call that is issued is appended to the log, including calls that
  fail. This makes "no write", "nothing after the failure" and ordering
  statable.

## Model

| member | source | states |
|---|---|---|
| OwnerRefs.FilterOwnerReferences | pkg/api/vm/store.go:87-93 | the loop's result is the owner list with this VM's references dropped, other entries in order |
| OwnerRefs.WithoutVmOwnerMembers | pkg/api/vm/store.go:88-92 | a reference survives iff it is not (Kind VirtualMachine and Name vmName); a same-name owner of another kind and every other owner are kept |
| OwnerRefs.WithoutVmOwnerAppend | pkg/api/vm/store.go:88-93 | filtering distributes over concatenation, so kept references keep their relative order |
| OwnerRefs.WithoutVmOwnerLength | pkg/api/vm/store.go:95 | the filtered list is never longer; it is shorter exactly when the list held this VM's reference, and otherwise equals the original |
| OwnerRefs.WithoutVmOwnerIdempotent | pkg/api/vm/store.go:87-97 | the filtered list holds no reference of this VM, and filtering it again changes nothing |
| Partition.SplitDataVolumes | pkg/api/vm/store.go:45-59 | the loop produces exactly the saved and removed DataVolume name lists of the template, in template order |
| Partition.ClassifiedMembers | pkg/api/vm/store.go:49-57 | a name is in the removed (saved) list iff some DataVolume-backed attachment with that DataVolume has its own name in (not in) removedDisks; attachments without a DataVolume contribute nothing |
| Partition.ClassifiedAppend | pkg/api/vm/store.go:48-58 | both lists distribute over concatenation of the attachments, so each keeps template order |
| Partition.SplitCoversDataVolumes | pkg/api/vm/store.go:47-59 | every DataVolume-backed attachment lands in exactly one list: the two lists together are a permutation of all DataVolume names |
| CascadeProperties.DetachOwnerRefCases | pkg/api/vm/store.go:78-101 | per saved volume: NotFound in the cache is skipped with no call; another read error is returned with no call; an update carrying the cached copy with the filtered owner list is issued exactly when that list held this VM's reference, else nothing is issued |
| CascadeProperties.DetachOwnerRefEffects | pkg/api/vm/store.go:78-101 | one turn issues at most one call, an owner-reference write of that volume, and changes no VM and no other DataVolume |
| CascadeProperties.DetachAllAppend | pkg/api/vm/store.go:77-102 | detaching a + b is detaching a and, only if that succeeded, then b: after a failure no later saved volume is read or written |
| CascadeProperties.DetachAllEffects | pkg/api/vm/store.go:76-105 | the detach phase only issues updates, each the stripped cached copy of a saved volume that held this VM's reference; VMs and the set of DataVolumes are unchanged, and every changed DataVolume is such a copy |
| CascadeProperties.DetachAllIssuesUpdates | pkg/api/vm/store.go:76-105 | the owner-reference stage issues only updates, changes no VM and keeps the same set of stored DataVolumes, whatever its outcome |
| CascadeProperties.DetachAllPassWrites | pkg/api/vm/store.go:95-101 | after a successful detach every saved volume whose cached owner list held this VM's reference is stored as that copy with only this VM's reference removed |
| CascadeProperties.DetachAllNoWrite | pkg/api/vm/store.go:77-95 | when every saved volume is missing from the cache or no longer owned by this VM, detach issues no call and succeeds |
| CascadeProperties.DetachTwiceWritesOnce | pkg/api/vm/store.go:95-101 | starting from a cache that reflects the stored objects, a second detach of the same volumes after a successful one, once the cache caught up, issues no write and changes nothing |
| CascadeProperties.DeleteAllFrame | pkg/api/vm/store.go:107-114 | the executor issues only deletes, of the given names in the given namespace, and touches no VM |
| CascadeProperties.DeleteAllAppend | pkg/api/vm/store.go:108-112 | deleting a + b is deleting a and, only if that did not fail, then b |
| CascadeProperties.DeleteAllPass | pkg/api/vm/store.go:107-114 | on success exactly one delete per name was issued, in list order, and none of the named DataVolumes remains (NotFound counted as success) |
| CascadeProperties.DeleteAllFailFast | pkg/api/vm/store.go:108-111 | on failure the error is not NotFound, it is the i-th name's, deletes were issued for exactly names 0..i, and only names before i are gone |
| CascadeProperties.DeleteAllSparesOthers | pkg/api/vm/store.go:107-114 | the delete loop issues no delete for, and does not remove, a DataVolume it was not given |
| CascadeProperties.DeleteCascadeOrder | pkg/api/vm/store.go:61-72 | all calls Delete issues are ordered: owner-reference updates, then the VM delete, then DataVolume deletes |
| CascadeProperties.DeleteCascadeReadFails | pkg/api/vm/store.go:40-43 | Delete fails at the VM read exactly when the cache read fails (NotFound included); it then returns that error and leaves the state unchanged, with no call issued |
| CascadeProperties.DeleteCascadeDetachFails | pkg/api/vm/store.go:61-63 | when the owner-reference stage fails, only owner-reference updates were issued, so no delete of any kind was, and the VMs are unchanged |
| CascadeProperties.DeleteCascadeVmDeleteFails | pkg/api/vm/store.go:65-68 | when the VM delete fails, it is the last call issued and no DataVolume delete was issued |
| CascadeProperties.DeleteCascadeNoRollback | pkg/api/vm/store.go:65-72 | once the VM delete succeeded, the VM stays deleted whether or not the DataVolume deletes then fail |
| CascadeProperties.DeleteCascadeSucceeds | pkg/api/vm/store.go:65-73 | on success the result is exactly the object the generic store deleted, that VM is gone, and every removed DataVolume is gone |
| CascadeProperties.DeleteCascadeKeepsSavedVolumes | pkg/api/vm/store.go:45-72 | a DataVolume no removedDisks attachment refers to is never deleted, whatever fails: no delete is issued for it and it still exists |
| VmApi.VmStore.RemoveVmDataVolumeOwnerRef | pkg/api/vm/store.go:76-105 | the loop's outcome and new state are those of the detach phase over the saved list |
| VmApi.VmStore.DeleteDataVolumes | pkg/api/vm/store.go:107-114 | the loop's outcome and new state are those of the fail-fast executor over the names |
| VmApi.VmStore.Delete | pkg/api/vm/store.go:38-74 | the result and new state are those of the cascade, and the calls it issued are in phase order |
| VmApi.VmStore.UpdateDataVolume | pkg/api/vm/store.go:98 | the client update logs the call and replaces the stored object, or fails with the injected fault or NotFound |
| VmApi.VmStore.DeleteDataVolume | pkg/api/vm/store.go:109 | the client delete logs the call and removes the object, or fails with the injected fault or NotFound |
| VmApi.VmStore.StoreDeleteVm | pkg/api/vm/store.go:65 | the generic store's delete logs the call, removes the VM and returns it, or fails |
| VmApi.VmStore.constructor | pkg/api/vm/store.go:20-26 | a store over the given caches, faults and objects, with no call issued yet |
| Scenarios.SharedVolumeIsDetached | pkg/api/vm/store.go:38-105 | deleting vm1 with diskB removed: dvA keeps vm2's and a same-name VirtualMachineInstance's references and only loses vm1's; the calls are update dvA, delete vm1, delete dvB |
| Scenarios.RemovedVolumeAlreadyGone | pkg/api/vm/store.go:107-114 | a removed DataVolume already deleted out of band does not make Delete fail |
| Scenarios.VmReadFailureIssuesNothing | pkg/api/vm/store.go:40-43 | a VM read error is reported and no call is issued |
| Scenarios.DetachFailureStopsCascade | pkg/api/vm/store.go:61-63 | a refused owner-reference update stops Delete before the VM or any DataVolume is deleted |
| Scenarios.VolumeDeleteFailureKeepsVmDeleted | pkg/api/vm/store.go:70-72 | a refused DataVolume delete is reported after the VM was deleted, and the VM is not restored |

NotFound is tolerated in exactly two places: the DataVolume cache read in
the owner-reference loop (store.go:80-82), which skips the volume, and the
DataVolume delete in `deleteDataVolumes` (store.go:109), which counts the
volume as gone. A NotFound from the DataVolume client's `Update`
(store.go:98-99), which a stale cache can cause, is returned to the caller;
in the model it is `OwnerRefsFailed(NotFound)`.

## Left out

- `Create`, `Update` and `setHTTPSourceDVTemplates` (store.go:28-36, 116-122): they only pass the document to a transform, and that transform is not part of this model.
- Error message text, the API error wrapping and logging are left out. `Delete` returns a `DeleteError` that names the failing stage and carries the collaborator's error.
- The real Kubernetes and KubeVirt clients and the watch caches are not modelled. Each call is one atomic step on a map. The caches do not change during a call, so they can be stale, but concurrent requests racing on the same VM are not modelled.
- The generic store's schema validation and persistence are not modelled. Its `Delete` is "remove the VM and return it, or fail".
- The generic store is addressed by the request's namespace and name. The source passes the request `id`, which is assumed to name the same VM.
- Optimistic-concurrency conflicts on `Update` are not modelled as version checks. They appear only as injected failures. When two saved attachments share one DataVolume, the cache does not catch up within the call, so two updates of it are issued. In the cluster the second would carry a stale resource version and would likely be refused with a conflict, failing `Delete`. In the model it succeeds, and per-object faults cannot refuse only the second update.
- `DeepCopy` has no counterpart: DataVolumes are values, so writing a modified copy cannot alter the cached snapshot.
- The DataVolume object carries no name of its own. The client's `Update` is given the key explicitly.
- DeleteCascadeKeepsSavedVolumes: the cluster's garbage collection by owner reference, which deleting the VM sets off, is not modelled; the lemma covers only the deletes `Delete` itself issues. A saved DataVolume the owner-reference loop skipped (the stale cache answered NotFound, or showed no reference from this VM) may still carry this VM's reference in the cluster, and the collector would then delete it.
