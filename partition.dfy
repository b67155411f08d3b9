/** Splitting a VM's DataVolume-backed attachments into volumes to keep and volumes to delete. */
module Partition {
  import opened Objects

  /** The attachment is backed by a DataVolume and goes to the removed list (toRemove)
      or to the saved list (!toRemove): removed exactly when the attachment's own name,
      not its DataVolume's, is among removedDisks. */
  predicate Routed(v: Volume, removedDisks: seq<string>, toRemove: bool)
  {
    v.dataVolume.Some? && (v.name in removedDisks) == toRemove
  }

  /** The DataVolume names of the attachments routed to one list, in template order. */
  function Classified(volumes: seq<Volume>, removedDisks: seq<string>, toRemove: bool): seq<string>
  {
    if volumes == [] then []
    else
      var rest := Classified(volumes[..|volumes| - 1], removedDisks, toRemove);
      var v := volumes[|volumes| - 1];
      if Routed(v, removedDisks, toRemove) then rest + [v.dataVolume.value] else rest
  }

  function SavedDataVolumes(volumes: seq<Volume>, removedDisks: seq<string>): seq<string>
  {
    Classified(volumes, removedDisks, false)
  }

  function RemovedDataVolumes(volumes: seq<Volume>, removedDisks: seq<string>): seq<string>
  {
    Classified(volumes, removedDisks, true)
  }

  /** The DataVolume names of all DataVolume-backed attachments, in template order. */
  function DataVolumeNames(volumes: seq<Volume>): seq<string>
  {
    if volumes == [] then []
    else
      var rest := DataVolumeNames(volumes[..|volumes| - 1]);
      var v := volumes[|volumes| - 1];
      if v.dataVolume.Some? then rest + [v.dataVolume.value] else rest
  }

  /** The loop over the template's attachments that appends each DataVolume name to one of two lists. */
  method SplitDataVolumes(volumes: seq<Volume>, removedDisks: seq<string>) returns (saved: seq<string>, removed: seq<string>)
    ensures saved == SavedDataVolumes(volumes, removedDisks)
    ensures removed == RemovedDataVolumes(volumes, removedDisks)
  {
    saved, removed := [], [];
    var i := 0;
    while i < |volumes|
      invariant 0 <= i <= |volumes|
      invariant saved == SavedDataVolumes(volumes[..i], removedDisks)
      invariant removed == RemovedDataVolumes(volumes[..i], removedDisks)
    {
      assert volumes[..i + 1][..i] == volumes[..i];
      var vol := volumes[i];
      if vol.dataVolume.None? {
        i := i + 1;
        continue;
      }
      if vol.name in removedDisks {
        removed := removed + [vol.dataVolume.value];
      } else {
        saved := saved + [vol.dataVolume.value];
      }
      i := i + 1;
    }
    assert volumes[..i] == volumes;
  }

  /** A name is in a list exactly when some attachment routed to that list is backed by it;
      attachments without a DataVolume contribute nothing. */
  lemma {:induction false} ClassifiedMembers(volumes: seq<Volume>, removedDisks: seq<string>, toRemove: bool, x: string)
    ensures x in Classified(volumes, removedDisks, toRemove) <==>
      exists i :: 0 <= i < |volumes| && volumes[i].dataVolume == Some(x) && Routed(volumes[i], removedDisks, toRemove)
  {
    if volumes != [] {
      var init := volumes[..|volumes| - 1];
      ClassifiedMembers(init, removedDisks, toRemove, x);
      if exists i :: 0 <= i < |init| && init[i].dataVolume == Some(x) && Routed(init[i], removedDisks, toRemove) {
        var i :| 0 <= i < |init| && init[i].dataVolume == Some(x) && Routed(init[i], removedDisks, toRemove);
        assert volumes[i] == init[i];
      }
      if exists i :: 0 <= i < |volumes| && volumes[i].dataVolume == Some(x) && Routed(volumes[i], removedDisks, toRemove) {
        var i :| 0 <= i < |volumes| && volumes[i].dataVolume == Some(x) && Routed(volumes[i], removedDisks, toRemove);
        if i < |init| {
          assert init[i] == volumes[i];
        }
      }
    }
  }

  /** Splitting distributes over concatenation: both lists keep template order. */
  lemma {:induction false} ClassifiedAppend(a: seq<Volume>, b: seq<Volume>, removedDisks: seq<string>, toRemove: bool)
    ensures Classified(a + b, removedDisks, toRemove) == Classified(a, removedDisks, toRemove) + Classified(b, removedDisks, toRemove)
    decreases |b|
  {
    if b == [] {
      assert a + b == a;
    } else {
      var init := b[..|b| - 1];
      ClassifiedAppend(a, init, removedDisks, toRemove);
      assert (a + b)[..|a + b| - 1] == a + init;
    }
  }

  /** Every DataVolume-backed attachment lands in exactly one list: the two lists together
      hold each DataVolume name as often as the template does. */
  lemma {:induction false} SplitCoversDataVolumes(volumes: seq<Volume>, removedDisks: seq<string>)
    ensures multiset(SavedDataVolumes(volumes, removedDisks)) + multiset(RemovedDataVolumes(volumes, removedDisks))
         == multiset(DataVolumeNames(volumes))
    ensures |SavedDataVolumes(volumes, removedDisks)| + |RemovedDataVolumes(volumes, removedDisks)| == |DataVolumeNames(volumes)|
  {
    if volumes != [] {
      SplitCoversDataVolumes(volumes[..|volumes| - 1], removedDisks);
    }
  }
}
