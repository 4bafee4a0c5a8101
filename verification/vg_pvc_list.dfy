/**
 The persistent-volume-claim list of a volume group (volume-group-operator/controllers/
 utils/volumegroup.go): membership and removal, both matching a claim by name and namespace
 only.
 */
module VolumeGroupPVCs {
  import opened Wrappers

  /** The claim fields the helpers look at, and the ones they ignore. */
  datatype PVC = PVC(name: string, namespace: string, labels: map<string, string>, phase: string)

  /** Same name and same namespace; no other field takes part. */
  predicate SameClaim(a: PVC, b: PVC) {
    a.name == b.name && a.namespace == b.namespace
  }

  /** Position of the first entry matching `pvc`, or |list| when none does. */
  function FirstMatch(pvc: PVC, list: seq<PVC>): (i: nat)
    ensures i <= |list|
    ensures i < |list| ==> SameClaim(list[i], pvc)
    ensures forall j :: 0 <= j < i ==> !SameClaim(list[j], pvc)
  {
    if |list| == 0 then 0 else if SameClaim(list[0], pvc) then 0 else 1 + FirstMatch(pvc, list[1..])
  }

  /** IsPVCPartOfVG: a search that stops at the first entry with the claim's name and
      namespace. */
  method IsPVCPartOfVG(pvc: PVC, pvcListInVG: seq<PVC>) returns (found: bool)
    ensures found <==> exists i :: 0 <= i < |pvcListInVG| && SameClaim(pvcListInVG[i], pvc)
  {
    for i := 0 to |pvcListInVG|
      invariant forall j :: 0 <= j < i ==> !SameClaim(pvcListInVG[j], pvc)
    {
      if pvcListInVG[i].name == pvc.name && pvcListInVG[i].namespace == pvc.namespace {
        return true;
      }
    }
    return false;
  }

  /** removeByIndexFromPersistentVolumeClaimList: the list without its entry at `index`,
      the others in order. */
  function RemoveByIndex(list: seq<PVC>, index: nat): (r: seq<PVC>)
    requires index < |list|
    ensures |r| == |list| - 1
    ensures forall j :: 0 <= j < index ==> r[j] == list[j]
    ensures forall j :: index <= j < |r| ==> r[j] == list[j + 1]
  {
    list[..index] + list[index + 1..]
  }

  /** removePersistentVolumeClaimFromVolumeGroupPVCList: the first matching entry is
      removed and the search stops there. */
  method RemoveFromPVCList(pvc: PVC, pvcListInVG: seq<PVC>) returns (r: seq<PVC>)
    ensures FirstMatch(pvc, pvcListInVG) == |pvcListInVG| ==> r == pvcListInVG
    ensures FirstMatch(pvc, pvcListInVG) < |pvcListInVG| ==>
              r == RemoveByIndex(pvcListInVG, FirstMatch(pvc, pvcListInVG))
  {
    for index := 0 to |pvcListInVG|
      invariant forall j :: 0 <= j < index ==> !SameClaim(pvcListInVG[j], pvc)
    {
      if pvcListInVG[index].name == pvc.name && pvcListInVG[index].namespace == pvc.namespace {
        return RemoveByIndex(pvcListInVG, index);
      }
    }
    return pvcListInVG;
  }

  /** The removal takes out exactly one entry, a matching one, when some entry matches:
      what is left is the list with that entry cut out, so in particular a claim listed
      once is no longer part of the group afterwards. */
  lemma RemovedOnce(pvc: PVC, list: seq<PVC>)
    requires FirstMatch(pvc, list) < |list|
    ensures var i := FirstMatch(pvc, list);
            && list == RemoveByIndex(list, i)[..i] + [list[i]] + RemoveByIndex(list, i)[i..]
            && SameClaim(list[i], pvc)
            && forall j :: 0 <= j < i ==> !SameClaim(RemoveByIndex(list, i)[j], pvc)
  {
    var i := FirstMatch(pvc, list);
    PutBack(list, i);
  }

  /** The removed entry put back at its index gives the list again. */
  lemma PutBack(list: seq<PVC>, i: nat)
    requires i < |list|
    ensures list == RemoveByIndex(list, i)[..i] + [list[i]] + RemoveByIndex(list, i)[i..]
  {
    var r := RemoveByIndex(list, i);
    var t := r[..i] + [list[i]] + r[i..];
    assert |t| == |list|;
    forall j | 0 <= j < |list|
      ensures t[j] == list[j]
    {
      if j < i {
        assert t[j] == r[j];
      } else if j > i {
        assert t[j] == r[j - 1];
      }
    }
  }

  /** A claim listed at most once is not part of the group after its removal. */
  lemma RemovedNotPart(pvc: PVC, list: seq<PVC>)
    requires forall a, b :: 0 <= a < b < |list| ==> !(SameClaim(list[a], pvc) && SameClaim(list[b], pvc))
    ensures var i := FirstMatch(pvc, list);
            var r := if i < |list| then RemoveByIndex(list, i) else list;
            forall j :: 0 <= j < |r| ==> !SameClaim(r[j], pvc)
  {
    var i := FirstMatch(pvc, list);
    if i < |list| {
      var r := RemoveByIndex(list, i);
      forall j | 0 <= j < |r|
        ensures !SameClaim(r[j], pvc)
      {
        if j >= i {
          assert r[j] == list[j + 1];
        }
      }
    }
  }

  /** Membership and removal agree on what a match is: the claim is part of the group iff
      the removal shortens the list. */
  lemma PartIffRemoved(pvc: PVC, list: seq<PVC>)
    ensures (exists i :: 0 <= i < |list| && SameClaim(list[i], pvc)) <==> FirstMatch(pvc, list) < |list|
  {
  }

  /** A volume group's status, whose claim list RemovePVCFromVG replaces. */
  class VolumeGroupStatus {
    var pvcList: seq<PVC>

    constructor (pvcList: seq<PVC>)
      ensures this.pvcList == pvcList
    {
      this.pvcList := pvcList;
    }

    /** RemovePVCFromVG: the reduced list is written into the status before the status
        update, whose outcome (an error or none) is a parameter and is returned. */
    method RemovePVCFromVG(pvc: PVC, updateError: Option<string>) returns (err: Option<string>)
      modifies this
      ensures FirstMatch(pvc, old(pvcList)) == |old(pvcList)| ==> pvcList == old(pvcList)
      ensures FirstMatch(pvc, old(pvcList)) < |old(pvcList)| ==>
                pvcList == RemoveByIndex(old(pvcList), FirstMatch(pvc, old(pvcList)))
      ensures err == updateError
    {
      pvcList := RemoveFromPVCList(pvc, pvcList);
      err := updateError;
    }
  }
}
