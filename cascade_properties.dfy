/** What the deletion cascade and its two helpers guarantee about the calls they issue
    and the objects they leave behind. */
module CascadeProperties {
  import opened Objects
  import opened OwnerRefs
  import opened Partition
  import opened Cluster

  /** Owner-reference updates come first, then the VM delete, then the DataVolume deletes. */
  function Phase(c: Call): nat
  {
    match c
    case DvUpdate(_, _) => 0
    case VmDelete(_) => 1
    case DvDelete(_) => 2
  }

  predicate PhaseOrdered(calls: seq<Call>)
  {
    forall i, j :: 0 <= i < j < |calls| ==> Phase(calls[i]) <= Phase(calls[j])
  }

  /** A copy of the volume whose owner list has lost this VM's references. */
  function Stripped(dv: DataVolume, vmName: string): DataVolume
  {
    dv.(ownerReferences := WithoutVmOwner(dv.ownerReferences, vmName))
  }

  /** dv is the object the owner-reference loop writes for key: the cached snapshot of one of
      the saved volumes, which did hold this VM's reference, with that reference stripped. */
  predicate IsDetachWrite(env: Env, vmNamespace: string, vmName: string, volumes: seq<string>, key: ObjectKey, dv: DataVolume)
  {
    && key.namespace == vmNamespace
    && key.name in volumes
    && env.dataVolumeCache.Get(key).Ok?
    && HasVmOwner(env.dataVolumeCache.Get(key).value.ownerReferences, vmName)
    && dv == Stripped(env.dataVolumeCache.Get(key).value, vmName)
  }

  /** Running the owner-reference loop over a + b is running it over a and, unless that
      failed, then over b: a failure leaves every later volume untouched. */
  lemma {:induction false} DetachAllAppend(env: Env, w: World, vmNamespace: string, vmName: string, a: seq<string>, b: seq<string>)
    ensures DetachAll(env, w, vmNamespace, vmName, a + b) ==
      var s := DetachAll(env, w, vmNamespace, vmName, a);
      if s.outcome.Fail? then s else DetachAll(env, s.world, vmNamespace, vmName, b)
    decreases |a|
  {
    if a == [] {
      assert a + b == b;
    } else {
      assert (a + b)[0] == a[0];
      assert (a + b)[1..] == a[1..] + b;
      var s := DetachOwnerRef(env, w, vmNamespace, vmName, a[0]);
      if s.outcome.Pass? {
        DetachAllAppend(env, s.world, vmNamespace, vmName, a[1..], b);
      }
    }
  }

  /** One turn of the loop: a volume missing from the cache is skipped, any other read error
      is returned without a call, and an update carrying the stripped copy is issued exactly
      when the cached owner list held this VM's reference. */
  lemma DetachOwnerRefCases(env: Env, w: World, vmNamespace: string, vmName: string, volume: string)
    ensures var key := ObjectKey(vmNamespace, volume);
      var s := DetachOwnerRef(env, w, vmNamespace, vmName, volume);
      match env.dataVolumeCache.Get(key)
      case Err(e) => s == (if e == NotFound then Step(Pass, w) else Step(Fail(e), w))
      case Ok(dv) =>
        if HasVmOwner(dv.ownerReferences, vmName) then s == ClientUpdate(env, w, key, Stripped(dv, vmName))
        else s == Step(Pass, w)
  {
    var got := env.dataVolumeCache.Get(ObjectKey(vmNamespace, volume));
    if got.Ok? {
      WithoutVmOwnerLength(got.value.ownerReferences, vmName);
    }
  }

  /** One turn of the loop issues at most one call, an owner-reference write, and changes
      no object except the one it writes. */
  lemma DetachOwnerRefEffects(env: Env, w: World, vmNamespace: string, vmName: string, volumes: seq<string>, n: string)
    requires n in volumes
    ensures var s := DetachOwnerRef(env, w, vmNamespace, vmName, n);
      && w.log <= s.world.log
      && (forall c :: c in s.world.log[|w.log|..] ==> c.DvUpdate? && IsDetachWrite(env, vmNamespace, vmName, volumes, c.key, c.dv))
      && (forall c :: c in s.world.log[|w.log|..] ==> c.key == ObjectKey(vmNamespace, n))
      && s.world.virtualMachines == w.virtualMachines
      && |s.world.log| <= |w.log| + 1
      && s.world.dataVolumes.Keys == w.dataVolumes.Keys
      && (forall k :: k in w.dataVolumes && k != ObjectKey(vmNamespace, n) ==> s.world.dataVolumes[k] == w.dataVolumes[k])
      && (forall k :: k in w.dataVolumes ==>
            s.world.dataVolumes[k] == w.dataVolumes[k] || IsDetachWrite(env, vmNamespace, vmName, volumes, k, s.world.dataVolumes[k]))
  {
    var key := ObjectKey(vmNamespace, n);
    var got := env.dataVolumeCache.Get(key);
    if got.Ok? {
      WithoutVmOwnerLength(got.value.ownerReferences, vmName);
    }
  }

  /** The owner-reference loop writes only stripped copies of cached saved volumes that held
      this VM's reference, issues no delete, and never touches a VM or any other object;
      every other owner of a written volume is kept. */
  lemma {:induction false} DetachAllEffects(env: Env, w: World, vmNamespace: string, vmName: string, volumes: seq<string>)
    ensures var s := DetachAll(env, w, vmNamespace, vmName, volumes);
      && w.log <= s.world.log
      && (forall c :: c in s.world.log[|w.log|..] ==> c.DvUpdate? && IsDetachWrite(env, vmNamespace, vmName, volumes, c.key, c.dv))
      && s.world.virtualMachines == w.virtualMachines
      && s.world.dataVolumes.Keys == w.dataVolumes.Keys
      && (forall k :: k in w.dataVolumes ==>
            s.world.dataVolumes[k] == w.dataVolumes[k] || IsDetachWrite(env, vmNamespace, vmName, volumes, k, s.world.dataVolumes[k]))
    decreases |volumes|
  {
    if volumes != [] {
      var s1 := DetachOwnerRef(env, w, vmNamespace, vmName, volumes[0]);
      DetachOwnerRefEffects(env, w, vmNamespace, vmName, volumes, volumes[0]);
      if s1.outcome.Pass? {
        var rest := volumes[1..];
        var s := DetachAll(env, s1.world, vmNamespace, vmName, rest);
        DetachAllEffects(env, s1.world, vmNamespace, vmName, rest);
        assert forall x :: x in rest ==> x in volumes;
        assert s.world.log[|w.log|..] == s1.world.log[|w.log|..] + s.world.log[|s1.world.log|..];
      }
    }
  }

  /** The detach phase only appends owner-reference updates to the log and touches no VM. */
  lemma DetachAllIssuesUpdates(env: Env, w: World, vmNamespace: string, vmName: string, volumes: seq<string>)
    ensures var s := DetachAll(env, w, vmNamespace, vmName, volumes);
      && w.log <= s.world.log
      && s.world.virtualMachines == w.virtualMachines
      && s.world.dataVolumes.Keys == w.dataVolumes.Keys
      && forall c :: c in s.world.log[|w.log|..] ==> c.DvUpdate?
  {
    DetachAllEffects(env, w, vmNamespace, vmName, volumes);
  }

  /** After a successful loop, every saved volume whose cached snapshot held this VM's
      reference is stored as that snapshot with the reference stripped. */
  lemma {:induction false} DetachAllPassWrites(env: Env, w: World, vmNamespace: string, vmName: string, volumes: seq<string>)
    requires DetachAll(env, w, vmNamespace, vmName, volumes).outcome.Pass?
    ensures var s := DetachAll(env, w, vmNamespace, vmName, volumes);
      forall n :: n in volumes ==> var key := ObjectKey(vmNamespace, n);
        env.dataVolumeCache.Get(key).Ok? && HasVmOwner(env.dataVolumeCache.Get(key).value.ownerReferences, vmName) ==>
          key in s.world.dataVolumes && s.world.dataVolumes[key] == Stripped(env.dataVolumeCache.Get(key).value, vmName)
    decreases |volumes|
  {
    if volumes != [] {
      var s1 := DetachOwnerRef(env, w, vmNamespace, vmName, volumes[0]);
      var rest := volumes[1..];
      var s := DetachAll(env, s1.world, vmNamespace, vmName, rest);
      var key0 := ObjectKey(vmNamespace, volumes[0]);
      var got := env.dataVolumeCache.Get(key0);
      if got.Ok? {
        WithoutVmOwnerLength(got.value.ownerReferences, vmName);
      }
      DetachAllPassWrites(env, s1.world, vmNamespace, vmName, rest);
      DetachAllEffects(env, s1.world, vmNamespace, vmName, rest);
      assert volumes == [volumes[0]] + rest;
    }
  }

  /** Nothing to detach: when every saved volume is missing from the cache or no longer
      held by this VM, the loop issues no call and changes nothing. */
  lemma {:induction false} DetachAllNoWrite(env: Env, w: World, vmNamespace: string, vmName: string, volumes: seq<string>)
    requires forall n :: n in volumes ==>
      match env.dataVolumeCache.Get(ObjectKey(vmNamespace, n))
      case Ok(dv) => !HasVmOwner(dv.ownerReferences, vmName)
      case Err(e) => e == NotFound
    ensures DetachAll(env, w, vmNamespace, vmName, volumes) == Step(Pass, w)
    decreases |volumes|
  {
    if volumes != [] {
      var got := env.dataVolumeCache.Get(ObjectKey(vmNamespace, volumes[0]));
      if got.Ok? {
        WithoutVmOwnerLength(got.value.ownerReferences, vmName);
      }
      assert forall x :: x in volumes[1..] ==> x in volumes;
      DetachAllNoWrite(env, w, vmNamespace, vmName, volumes[1..]);
    }
  }

  /** Detaching is idempotent: starting from a cache that reflects the stored objects, a
      successful detach followed, once the cache has caught up, by a second detach of the
      same volumes issues no second write and leaves the objects as the first one did. */
  lemma DetachTwiceWritesOnce(env: Env, w: World, vmNamespace: string, vmName: string, volumes: seq<string>)
    requires env.dataVolumeCache == Cache(w.dataVolumes, map[])
    requires DetachAll(env, w, vmNamespace, vmName, volumes).outcome.Pass?
    ensures var s := DetachAll(env, w, vmNamespace, vmName, volumes);
      DetachAll(env.(dataVolumeCache := Cache(s.world.dataVolumes, map[])), s.world, vmNamespace, vmName, volumes)
        == Step(Pass, s.world)
  {
    var s := DetachAll(env, w, vmNamespace, vmName, volumes);
    var env2 := env.(dataVolumeCache := Cache(s.world.dataVolumes, map[]));
    DetachAllEffects(env, w, vmNamespace, vmName, volumes);
    DetachAllPassWrites(env, w, vmNamespace, vmName, volumes);
    forall n | n in volumes
      ensures match env2.dataVolumeCache.Get(ObjectKey(vmNamespace, n))
        case Ok(dv) => !HasVmOwner(dv.ownerReferences, vmName)
        case Err(e) => e == NotFound
    {
      var key := ObjectKey(vmNamespace, n);
      if key in s.world.dataVolumes {
        var snap := w.dataVolumes[key];
        WithoutVmOwnerIdempotent(snap.ownerReferences, vmName);
        if !HasVmOwner(snap.ownerReferences, vmName) {
          WithoutVmOwnerLength(snap.ownerReferences, vmName);
        }
      }
    }
    DetachAllNoWrite(env2, s.world, vmNamespace, vmName, volumes);
  }

  /** The delete calls the executor issues for names, in order. */
  function DeleteCalls(namespace: string, names: seq<string>): seq<Call>
  {
    if names == [] then [] else [DvDelete(ObjectKey(namespace, names[0]))] + DeleteCalls(namespace, names[1..])
  }

  function KeysIn(namespace: string, names: seq<string>): set<ObjectKey>
  {
    set n | n in names :: ObjectKey(namespace, n)
  }

  /** Running the executor over a + b is running it over a and, unless that failed, then over b. */
  lemma {:induction false} DeleteAllAppend(env: Env, w: World, namespace: string, a: seq<string>, b: seq<string>)
    ensures DeleteAll(env, w, namespace, a + b) ==
      var s := DeleteAll(env, w, namespace, a);
      if s.outcome.Fail? then s else DeleteAll(env, s.world, namespace, b)
    decreases |a|
  {
    if a == [] {
      assert a + b == b;
    } else {
      assert (a + b)[0] == a[0];
      assert (a + b)[1..] == a[1..] + b;
      var s := ClientDelete(env, w, ObjectKey(namespace, a[0]));
      if !(s.outcome.Fail? && s.outcome.error != NotFound) {
        DeleteAllAppend(env, s.world, namespace, a[1..], b);
      }
    }
  }

  /** The executor issues only deletes of the names it was given and never touches a VM. */
  lemma {:induction false} DeleteAllFrame(env: Env, w: World, namespace: string, names: seq<string>)
    ensures var s := DeleteAll(env, w, namespace, names);
      && s.world.virtualMachines == w.virtualMachines
      && w.log <= s.world.log
      && (forall c :: c in s.world.log[|w.log|..] ==> c.DvDelete? && c.key.namespace == namespace && c.key.name in names)
    decreases |names|
  {
    var s := DeleteAll(env, w, namespace, names);
    if names == [] {
      assert s.world.log[|w.log|..] == [];
    } else {
      var key := ObjectKey(namespace, names[0]);
      var s1 := ClientDelete(env, w, key);
      var rest := names[1..];
      if !(s1.outcome.Fail? && s1.outcome.error != NotFound) {
        DeleteAllFrame(env, s1.world, namespace, rest);
        assert s.world.log[|w.log|..] == [DvDelete(key)] + s.world.log[|s1.world.log|..];
        assert forall x :: x in rest ==> x in names;
      } else {
        assert s.world.log[|w.log|..] == [DvDelete(key)];
      }
    }
  }

  /** On success the executor has issued one delete per name, in list order, and no named
      volume remains, whether it was deleted now or was already gone. */
  lemma {:induction false} DeleteAllPass(env: Env, w: World, namespace: string, names: seq<string>)
    requires DeleteAll(env, w, namespace, names).outcome.Pass?
    ensures var s := DeleteAll(env, w, namespace, names);
      && s.world.log == w.log + DeleteCalls(namespace, names)
      && s.world.dataVolumes == w.dataVolumes - KeysIn(namespace, names)
    decreases |names|
  {
    if names != [] {
      var key := ObjectKey(namespace, names[0]);
      var s1 := ClientDelete(env, w, key);
      var rest := names[1..];
      DeleteAllPass(env, s1.world, namespace, rest);
      assert KeysIn(namespace, names) == {key} + KeysIn(namespace, rest);
    }
  }

  /** The executor, run from w over names, stopped at the i-th name: its delete was refused
      and that refusal is the outcome, deletes were issued for exactly the names up to and
      including it, and only the names before it are gone. */
  predicate StoppedAt(env: Env, w: World, s: Step, namespace: string, names: seq<string>, i: int)
  {
    && 0 <= i < |names|
    && ObjectKey(namespace, names[i]) in env.faults.delete
    && s.outcome == Fail(Failure(env.faults.delete[ObjectKey(namespace, names[i])]))
    && s.world.log == w.log + DeleteCalls(namespace, names[..i + 1])
    && s.world.dataVolumes == w.dataVolumes - KeysIn(namespace, names[..i])
  }

  /** On failure the error is not NotFound and the executor stopped at the first name
      whose delete was refused: no delete was issued for any later name. */
  lemma {:induction false} DeleteAllFailFast(env: Env, w: World, namespace: string, names: seq<string>)
    requires DeleteAll(env, w, namespace, names).outcome.Fail?
    ensures DeleteAll(env, w, namespace, names).outcome.error.Failure?
    ensures exists i :: StoppedAt(env, w, DeleteAll(env, w, namespace, names), namespace, names, i)
    decreases |names|
  {
    var s := DeleteAll(env, w, namespace, names);
    var key := ObjectKey(namespace, names[0]);
    var s1 := ClientDelete(env, w, key);
    var rest := names[1..];
    if key in env.faults.delete {
      PrefixCons(namespace, names, 0);
      assert s == s1;
      assert StoppedAt(env, w, s, namespace, names, 0);
    } else {
      assert s1.world == World(w.dataVolumes - {key}, w.virtualMachines, w.log + [DvDelete(key)]);
      assert s == DeleteAll(env, s1.world, namespace, rest);
      DeleteAllFailFast(env, s1.world, namespace, rest);
      var j :| StoppedAt(env, s1.world, s, namespace, rest, j);
      StoppedAtCons(env, w, s, namespace, names, j);
    }
  }

  /** A stop at rest[j] after the first name was deleted (or already gone) is a stop at names[j + 1]. */
  lemma StoppedAtCons(env: Env, w: World, s: Step, namespace: string, names: seq<string>, j: int)
    requires names != []
    requires StoppedAt(env, World(w.dataVolumes - {ObjectKey(namespace, names[0])}, w.virtualMachines,
                                  w.log + [DvDelete(ObjectKey(namespace, names[0]))]), s, namespace, names[1..], j)
    ensures StoppedAt(env, w, s, namespace, names, j + 1)
  {
    var key := ObjectKey(namespace, names[0]);
    var rest := names[1..];
    PrefixCons(namespace, names, j + 1);
    assert names[j + 1] == rest[j];
    assert s.world.log == w.log + DeleteCalls(namespace, names[..j + 2]);
    assert (w.dataVolumes - {key}) - KeysIn(namespace, rest[..j]) == w.dataVolumes - ({key} + KeysIn(namespace, rest[..j]));
  }

  /** The delete calls and keys of a prefix of names, split at its first name. */
  lemma PrefixCons(namespace: string, names: seq<string>, i: nat)
    requires i < |names|
    ensures DeleteCalls(namespace, names[..i + 1]) == [DvDelete(ObjectKey(namespace, names[0]))] + DeleteCalls(namespace, names[1..][..i])
    ensures KeysIn(namespace, names[..i]) == if i == 0 then {} else {ObjectKey(namespace, names[0])} + KeysIn(namespace, names[1..][..i - 1])
  {
    assert names[..i + 1][0] == names[0];
    assert names[..i + 1][1..] == names[1..][..i];
    if i > 0 {
      assert names[..i] == [names[0]] + names[1..][..i - 1];
    }
  }

  /** Updates, then VM deletes, then DataVolume deletes: that order is phase order. */
  lemma StagesOrdered(updates: seq<Call>, vmDeletes: seq<Call>, dvDeletes: seq<Call>)
    requires forall c :: c in updates ==> c.DvUpdate?
    requires forall c :: c in vmDeletes ==> c.VmDelete?
    requires forall c :: c in dvDeletes ==> c.DvDelete?
    ensures PhaseOrdered(updates + vmDeletes + dvDeletes)
  {
    var all := updates + vmDeletes + dvDeletes;
    forall k | 0 <= k < |all|
      ensures Phase(all[k]) == if k < |updates| then 0 else if k < |updates| + |vmDeletes| then 1 else 2
    {
      if k < |updates| {
        assert all[k] == updates[k] && updates[k] in updates;
      } else if k < |updates| + |vmDeletes| {
        assert all[k] == vmDeletes[k - |updates|] && vmDeletes[k - |updates|] in vmDeletes;
      } else {
        assert all[k] == dvDeletes[k - |updates| - |vmDeletes|] && dvDeletes[k - |updates| - |vmDeletes|] in dvDeletes;
      }
    }
  }

  /** Logs grown by updates only, then one VM delete, then DataVolume deletes only, are in
      phase order from the starting point. */
  lemma LogPhases(l0: seq<Call>, l1: seq<Call>, l2: seq<Call>, l3: seq<Call>, key: ObjectKey)
    requires l0 <= l1 && l2 == l1 + [VmDelete(key)] && l2 <= l3
    requires forall c :: c in l1[|l0|..] ==> c.DvUpdate?
    requires forall c :: c in l3[|l2|..] ==> c.DvDelete?
    ensures l0 <= l3 && PhaseOrdered(l3[|l0|..])
  {
    StagesOrdered(l1[|l0|..], [VmDelete(key)], l3[|l2|..]);
    assert l3[|l0|..] == l1[|l0|..] + [VmDelete(key)] + l3[|l2|..];
  }

  /** A log grown by updates only is in phase order from the starting point. */
  lemma UpdatePhase(l0: seq<Call>, l1: seq<Call>)
    requires l0 <= l1
    requires forall c :: c in l1[|l0|..] ==> c.DvUpdate?
    ensures PhaseOrdered(l1[|l0|..])
  {
    StagesOrdered(l1[|l0|..], [], []);
    assert l1[|l0|..] + [] + [] == l1[|l0|..];
  }

  /** The three mutating phases of Delete happen in order: every owner-reference update
      comes before the VM delete, which comes before every DataVolume delete. */
  lemma DeleteCascadeOrder(env: Env, w: World, namespace: string, name: string, removedDisks: seq<string>)
    ensures var r := DeleteCascade(env, w, namespace, name, removedDisks);
      && w.log <= r.world.log
      && PhaseOrdered(r.world.log[|w.log|..])
  {
    var key := ObjectKey(namespace, name);
    var r := DeleteCascade(env, w, namespace, name, removedDisks);
    if env.vmCache.Get(key).Err? {
      assert r.world == w;
      assert r.world.log[|w.log|..] == [];
    } else {
      var vm := env.vmCache.Get(key).value;
      var volumes := Volumes(vm);
      var d := DetachAll(env, w, vm.namespace, vm.name, SavedDataVolumes(volumes, removedDisks));
      DetachAllIssuesUpdates(env, w, vm.namespace, vm.name, SavedDataVolumes(volumes, removedDisks));
      if d.outcome.Fail? {
        assert r.world == d.world;
        UpdatePhase(w.log, d.world.log);
      } else {
        var g := StoreDelete(env, d.world, key);
        assert g.world.log == d.world.log + [VmDelete(key)];
        if g.result.Err? {
          assert r.world == g.world;
          LogPhases(w.log, d.world.log, g.world.log, g.world.log, key);
        } else {
          var x := DeleteAll(env, g.world, vm.namespace, RemovedDataVolumes(volumes, removedDisks));
          assert r.world == x.world;
          DeleteAllFrame(env, g.world, vm.namespace, RemovedDataVolumes(volumes, removedDisks));
          LogPhases(w.log, d.world.log, g.world.log, x.world.log, key);
        }
      }
    }
  }

  /** A failed VM read, NotFound included, is reported as such and issues nothing; it is
      the only way Delete reports a read failure. */
  lemma DeleteCascadeReadFails(env: Env, w: World, namespace: string, name: string, removedDisks: seq<string>)
    ensures var r := DeleteCascade(env, w, namespace, name, removedDisks);
      var got := env.vmCache.Get(ObjectKey(namespace, name));
      && (got.Err? <==> r.result.Err? && r.result.error.GetVmFailed?)
      && (got.Err? ==> r == Response(Err(GetVmFailed(got.error)), w))
  {
  }

  /** A failed detach issues no delete at all: only owner-reference updates were issued. */
  lemma DeleteCascadeDetachFails(env: Env, w: World, namespace: string, name: string, removedDisks: seq<string>)
    requires var r := DeleteCascade(env, w, namespace, name, removedDisks);
      r.result.Err? && r.result.error.OwnerRefsFailed?
    ensures var r := DeleteCascade(env, w, namespace, name, removedDisks);
      && w.log <= r.world.log
      && r.world.virtualMachines == w.virtualMachines
      && forall c :: c in r.world.log[|w.log|..] ==> c.DvUpdate?
  {
    var vm := env.vmCache.Get(ObjectKey(namespace, name)).value;
    DetachAllIssuesUpdates(env, w, vm.namespace, vm.name, SavedDataVolumes(Volumes(vm), removedDisks));
  }

  /** A failed VM delete is the last call issued, and no DataVolume delete was issued. */
  lemma DeleteCascadeVmDeleteFails(env: Env, w: World, namespace: string, name: string, removedDisks: seq<string>)
    requires var r := DeleteCascade(env, w, namespace, name, removedDisks);
      r.result.Err? && r.result.error.VmDeleteFailed?
    ensures var r := DeleteCascade(env, w, namespace, name, removedDisks);
      && w.log < r.world.log
      && r.world.log[|r.world.log| - 1] == VmDelete(ObjectKey(namespace, name))
      && forall c :: c in r.world.log[|w.log|..] ==> !c.DvDelete?
  {
    var key := ObjectKey(namespace, name);
    var r := DeleteCascade(env, w, namespace, name, removedDisks);
    var vm := env.vmCache.Get(key).value;
    var saved := SavedDataVolumes(Volumes(vm), removedDisks);
    var d := DetachAll(env, w, vm.namespace, vm.name, saved);
    var g := StoreDelete(env, d.world, key);
    assert d.outcome.Pass? && g.result.Err? && r.world == g.world;
    assert w.log <= d.world.log by {
      DetachAllIssuesUpdates(env, w, vm.namespace, vm.name, saved);
    }
    var updates := d.world.log[|w.log|..];
    assert w.log + updates == d.world.log && forall c :: c in updates ==> c.DvUpdate? by {
      DetachAllIssuesUpdates(env, w, vm.namespace, vm.name, saved);
    }
    assert g.world.log == d.world.log + [VmDelete(key)];
    assert g.world.log[|w.log|..] == updates + [VmDelete(key)];
    assert forall c :: c in updates + [VmDelete(key)] ==> !c.DvDelete?;
  }

  /** Once the VM delete succeeded it is never undone: on success, and when a DataVolume
      delete fails afterwards, the VM delete was issued and the VM is gone. */
  lemma DeleteCascadeNoRollback(env: Env, w: World, namespace: string, name: string, removedDisks: seq<string>)
    requires var r := DeleteCascade(env, w, namespace, name, removedDisks);
      r.result.Ok? || r.result.error.DataVolumeDeleteFailed?
    ensures var r := DeleteCascade(env, w, namespace, name, removedDisks);
      && w.log <= r.world.log
      && VmDelete(ObjectKey(namespace, name)) in r.world.log[|w.log|..]
      && ObjectKey(namespace, name) !in r.world.virtualMachines
  {
    var key := ObjectKey(namespace, name);
    var vm := env.vmCache.Get(key).value;
    var volumes := Volumes(vm);
    var saved := SavedDataVolumes(volumes, removedDisks);
    var d := DetachAll(env, w, vm.namespace, vm.name, saved);
    DetachAllIssuesUpdates(env, w, vm.namespace, vm.name, saved);
    var g := StoreDelete(env, d.world, key);
    var x := DeleteAll(env, g.world, vm.namespace, RemovedDataVolumes(volumes, removedDisks));
    DeleteAllFrame(env, g.world, vm.namespace, RemovedDataVolumes(volumes, removedDisks));
    assert x.world.log[|w.log|..] == d.world.log[|w.log|..] + [VmDelete(key)] + x.world.log[|g.world.log|..];
  }

  /** On success Delete returns exactly the object the generic store deleted, the VM is gone,
      and so is every DataVolume of an attachment named in removedDisks. */
  lemma DeleteCascadeSucceeds(env: Env, w: World, namespace: string, name: string, removedDisks: seq<string>)
    requires DeleteCascade(env, w, namespace, name, removedDisks).result.Ok?
    ensures var r := DeleteCascade(env, w, namespace, name, removedDisks);
      var key := ObjectKey(namespace, name);
      && key in w.virtualMachines
      && r.result.value == w.virtualMachines[key]
      && r.world.virtualMachines == w.virtualMachines - {key}
      && env.vmCache.Get(key).Ok?
      && var vm := env.vmCache.Get(key).value;
         forall n :: n in RemovedDataVolumes(Volumes(vm), removedDisks) ==> ObjectKey(vm.namespace, n) !in r.world.dataVolumes
  {
    var key := ObjectKey(namespace, name);
    var vm := env.vmCache.Get(key).value;
    var volumes := Volumes(vm);
    var d := DetachAll(env, w, vm.namespace, vm.name, SavedDataVolumes(volumes, removedDisks));
    DetachAllIssuesUpdates(env, w, vm.namespace, vm.name, SavedDataVolumes(volumes, removedDisks));
    var g := StoreDelete(env, d.world, key);
    DeleteAllFrame(env, g.world, vm.namespace, RemovedDataVolumes(volumes, removedDisks));
    DeleteAllPass(env, g.world, vm.namespace, RemovedDataVolumes(volumes, removedDisks));
  }

  /** The executor neither deletes nor issues a delete for a name it was not given. */
  lemma {:induction false} DeleteAllSparesOthers(env: Env, w: World, namespace: string, names: seq<string>, n: string)
    requires n !in names
    ensures var s := DeleteAll(env, w, namespace, names);
      && w.log <= s.world.log
      && DvDelete(ObjectKey(namespace, n)) !in s.world.log[|w.log|..]
      && (ObjectKey(namespace, n) in w.dataVolumes ==> ObjectKey(namespace, n) in s.world.dataVolumes)
    decreases |names|
  {
    var s := DeleteAll(env, w, namespace, names);
    if names == [] {
      assert s.world.log[|w.log|..] == [];
    } else {
      var key := ObjectKey(namespace, names[0]);
      var s1 := ClientDelete(env, w, key);
      assert names[0] != n;
      assert s1.world.log == w.log + [DvDelete(key)];
      if s1.outcome.Fail? && s1.outcome.error != NotFound {
        assert s == s1;
        assert s.world.log[|w.log|..] == [DvDelete(key)];
      } else {
        assert n !in names[1..];
        DeleteAllSparesOthers(env, s1.world, namespace, names[1..], n);
        assert s.world.log[|w.log|..] == [DvDelete(key)] + s.world.log[|s1.world.log|..];
      }
    }
  }

  /** A DataVolume that no attachment named in removedDisks refers to is never deleted by
      Delete, whatever happens: no delete is issued for it and, if it existed, it still does. */
  lemma DeleteCascadeKeepsSavedVolumes(env: Env, w: World, namespace: string, name: string, removedDisks: seq<string>,
                                       vm: VirtualMachine, n: string)
    requires env.vmCache.Get(ObjectKey(namespace, name)) == Ok(vm)
    requires forall i :: 0 <= i < |Volumes(vm)| && Volumes(vm)[i].dataVolume == Some(n) ==> Volumes(vm)[i].name !in removedDisks
    ensures var r := DeleteCascade(env, w, namespace, name, removedDisks);
      && |w.log| <= |r.world.log|
      && DvDelete(ObjectKey(vm.namespace, n)) !in r.world.log[|w.log|..]
      && (ObjectKey(vm.namespace, n) in w.dataVolumes ==> ObjectKey(vm.namespace, n) in r.world.dataVolumes)
  {
    var key := ObjectKey(namespace, name);
    var r := DeleteCascade(env, w, namespace, name, removedDisks);
    var volumes := Volumes(vm);
    var removed := RemovedDataVolumes(volumes, removedDisks);
    assert n !in removed by {
      ClassifiedMembers(volumes, removedDisks, true, n);
    }
    var d := DetachAll(env, w, vm.namespace, vm.name, SavedDataVolumes(volumes, removedDisks));
    DetachAllIssuesUpdates(env, w, vm.namespace, vm.name, SavedDataVolumes(volumes, removedDisks));
    if d.outcome.Fail? {
      assert r.world == d.world;
    } else {
      var g := StoreDelete(env, d.world, key);
      assert g.world.log[|w.log|..] == d.world.log[|w.log|..] + [VmDelete(key)];
      if g.result.Err? {
        assert r.world == g.world;
      } else {
        var x := DeleteAll(env, g.world, vm.namespace, removed);
        assert r.world == x.world;
        DeleteAllSparesOthers(env, g.world, vm.namespace, removed, n);
        assert x.world.log[|w.log|..] == g.world.log[|w.log|..] + x.world.log[|g.world.log|..];
      }
    }
  }
}
