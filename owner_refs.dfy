/** Removing a virtual machine's reference from a DataVolume's owner list. */
module OwnerRefs {
  import opened Objects

  /** The reference a virtual machine named vmName holds: matched on kind and name only. */
  predicate IsVmOwner(owner: OwnerReference, vmName: string)
  {
    owner.name == vmName && owner.kind == VirtualMachineKind
  }

  predicate HasVmOwner(refs: seq<OwnerReference>, vmName: string)
  {
    exists i :: 0 <= i < |refs| && IsVmOwner(refs[i], vmName)
  }

  /** The owner list with every reference of the virtual machine vmName dropped. */
  function WithoutVmOwner(refs: seq<OwnerReference>, vmName: string): seq<OwnerReference>
  {
    if refs == [] then []
    else
      var rest := WithoutVmOwner(refs[..|refs| - 1], vmName);
      var last := refs[|refs| - 1];
      if IsVmOwner(last, vmName) then rest else rest + [last]
  }

  /** The loop that builds the updated owner list by appending every other reference. */
  method FilterOwnerReferences(refs: seq<OwnerReference>, vmName: string) returns (updated: seq<OwnerReference>)
    ensures updated == WithoutVmOwner(refs, vmName)
  {
    updated := [];
    var i := 0;
    while i < |refs|
      invariant 0 <= i <= |refs|
      invariant updated == WithoutVmOwner(refs[..i], vmName)
    {
      assert refs[..i + 1][..i] == refs[..i];
      if !IsVmOwner(refs[i], vmName) {
        updated := updated + [refs[i]];
      }
      i := i + 1;
    }
    assert refs[..i] == refs;
  }

  /** A reference survives exactly when it is not this VM's: other owners, and owners
      of another kind with the same name, are all kept. */
  lemma {:induction false} WithoutVmOwnerMembers(refs: seq<OwnerReference>, vmName: string, o: OwnerReference)
    ensures o in WithoutVmOwner(refs, vmName) <==> o in refs && !IsVmOwner(o, vmName)
  {
    if refs != [] {
      var init := refs[..|refs| - 1];
      WithoutVmOwnerMembers(init, vmName, o);
      assert refs == init + [refs[|refs| - 1]];
    }
  }

  /** Filtering distributes over concatenation: the kept references stay in their original order. */
  lemma {:induction false} WithoutVmOwnerAppend(a: seq<OwnerReference>, b: seq<OwnerReference>, vmName: string)
    ensures WithoutVmOwner(a + b, vmName) == WithoutVmOwner(a, vmName) + WithoutVmOwner(b, vmName)
    decreases |b|
  {
    if b == [] {
      assert a + b == a;
    } else {
      var init := b[..|b| - 1];
      WithoutVmOwnerAppend(a, init, vmName);
      assert (a + b)[..|a + b| - 1] == a + init;
    }
  }

  /** The list gets shorter exactly when it held a reference of this VM; otherwise it is unchanged. */
  lemma {:induction false} WithoutVmOwnerLength(refs: seq<OwnerReference>, vmName: string)
    ensures |WithoutVmOwner(refs, vmName)| <= |refs|
    ensures |WithoutVmOwner(refs, vmName)| < |refs| <==> HasVmOwner(refs, vmName)
    ensures !HasVmOwner(refs, vmName) ==> WithoutVmOwner(refs, vmName) == refs
  {
    if refs != [] {
      var init := refs[..|refs| - 1];
      WithoutVmOwnerLength(init, vmName);
      if HasVmOwner(refs, vmName) && !IsVmOwner(refs[|refs| - 1], vmName) {
        var i :| 0 <= i < |refs| && IsVmOwner(refs[i], vmName);
        assert init[i] == refs[i];
      }
      if HasVmOwner(init, vmName) {
        var i :| 0 <= i < |init| && IsVmOwner(init[i], vmName);
        assert refs[i] == init[i];
      }
      assert refs == init + [refs[|refs| - 1]];
    }
  }

  /** The filtered list holds no reference of this VM, so filtering it again changes nothing. */
  lemma WithoutVmOwnerIdempotent(refs: seq<OwnerReference>, vmName: string)
    ensures !HasVmOwner(WithoutVmOwner(refs, vmName), vmName)
    ensures WithoutVmOwner(WithoutVmOwner(refs, vmName), vmName) == WithoutVmOwner(refs, vmName)
  {
    var r := WithoutVmOwner(refs, vmName);
    forall i | 0 <= i < |r|
      ensures !IsVmOwner(r[i], vmName)
    {
      WithoutVmOwnerMembers(refs, vmName, r[i]);
    }
    WithoutVmOwnerLength(r, vmName);
  }
}
