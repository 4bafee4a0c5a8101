/**
 The event filters of the controllers: CreateDeletePredicate, CreatePredicate and
 NodePredicate of pkg/controller/predicate/predicate.go, and the claim watch filter
 pvcPredicate of volume-group-operator/controllers/persistentvolumeclaim/settings.go.

 A filter answers, per event, whether the controller reconciles it. The filters embed
 controller-runtime's predicate.Funcs (every event it is not told about is accepted) or
 ResourceVersionChangedPredicate (an update is accepted iff the resource version changed;
 every other event is accepted); those two library behaviours are written out below.
 reflect.DeepEqual tells a nil slice or map from an empty one, so nil is None here.
 */
module EventFilters {
  import opened Wrappers
  import opened NodeAddresses

  datatype Object =
    | NodeObject(resourceVersion: string, addresses: Option<seq<NodeAddress>>)
    | PVCObject(resourceVersion: string, labels: Option<map<string, string>>, phase: string)
    | OtherObject(resourceVersion: string)

  datatype Event =
    | Create(obj: Object)
    | Update(objOld: Object, objNew: Object)
    | Delete(obj: Object)
    | Generic(obj: Object)

  /** CreateDeletePredicate: no update and no generic events. */
  predicate CreateDeleteAccepts(e: Event) {
    match e
    case Update(_, _) => false
    case Generic(_) => false
    case _ => true
  }

  /** CreatePredicate: no update, delete or generic events. */
  predicate CreateAccepts(e: Event) {
    match e
    case Update(_, _) => false
    case Delete(_) => false
    case Generic(_) => false
    case _ => true
  }

  /** ResourceVersionChangedPredicate.Update. */
  predicate ResourceVersionChanged(objOld: Object, objNew: Object) {
    objNew.resourceVersion != objOld.resourceVersion
  }

  /** NodePredicate: a node created with addresses, an update of a node's addresses under a
      new resource version, or any delete. */
  predicate NodeAccepts(e: Event) {
    match e
    case Create(obj) =>
      obj.NodeObject? && obj.addresses.Some? && |obj.addresses.value| > 0
    case Update(objOld, objNew) =>
      if !ResourceVersionChanged(objOld, objNew) then false
      else if !objOld.NodeObject? then false
      else if !objNew.NodeObject? then false
      else objOld.addresses != objNew.addresses
    case Delete(_) => true
    case Generic(_) => false
  }

  /** The claim watch only sees claims; a type assertion on anything else panics. */
  predicate PVCWatched(e: Event) {
    e.Update? ==> e.objOld.PVCObject? && e.objNew.PVCObject?
  }

  predicate IsLabelsChanged(objOld: Object, objNew: Object)
    requires objOld.PVCObject? && objNew.PVCObject?
  {
    objOld.labels != objNew.labels
  }

  predicate IsPhaseChanged(objOld: Object, objNew: Object)
    requires objOld.PVCObject? && objNew.PVCObject?
  {
    objOld.phase != objNew.phase
  }

  /** pvcPredicate. */
  predicate PVCAccepts(e: Event)
    requires PVCWatched(e)
  {
    match e
    case Create(_) => true
    case Delete(_) => false
    case Update(objOld, objNew) => IsLabelsChanged(objOld, objNew) || IsPhaseChanged(objOld, objNew)
    case Generic(_) => false
  }

  /** CreatePredicate accepts exactly the create events, CreateDeletePredicate exactly the
      create and delete events, so the first accepts no more than the second. */
  lemma CreateFiltersMeaning(e: Event)
    ensures CreateAccepts(e) <==> e.Create?
    ensures CreateDeleteAccepts(e) <==> e.Create? || e.Delete?
    ensures CreateAccepts(e) ==> CreateDeleteAccepts(e)
  {
  }

  /** A node update is reconciled iff its resource version changed, both objects are
      nodes, and the address lists differ. */
  lemma NodeUpdateMeaning(objOld: Object, objNew: Object)
    ensures NodeAccepts(Update(objOld, objNew)) <==>
              && objOld.resourceVersion != objNew.resourceVersion
              && objOld.NodeObject? && objNew.NodeObject?
              && objOld.addresses != objNew.addresses
  {
  }

  /** Whatever else changed, an update under the same resource version or with the same
      address list is not reconciled, and neither is a generic event. */
  lemma NodeIgnores(objOld: Object, objNew: Object)
    requires objOld.NodeObject? && objNew.NodeObject?
    requires objOld.resourceVersion == objNew.resourceVersion || objOld.addresses == objNew.addresses
    ensures !NodeAccepts(Update(objOld, objNew))
    ensures !NodeAccepts(Generic(objNew))
  {
  }

  /** A created object is reconciled iff it is a node with at least one address. */
  lemma NodeCreateMeaning(obj: Object)
    ensures NodeAccepts(Create(obj)) <==> obj.NodeObject? && obj.addresses.Some? && obj.addresses.value != []
  {
  }

  /** A claim update is reconciled iff its labels or its phase changed; every other field
      (the resource version included) is ignored. */
  lemma PVCUpdateMeaning(objOld: Object, objNew: Object)
    requires objOld.PVCObject? && objNew.PVCObject?
    ensures PVCAccepts(Update(objOld, objNew)) <==>
              objOld.labels != objNew.labels || objOld.phase != objNew.phase
    ensures objOld.labels == objNew.labels && objOld.phase == objNew.phase ==>
              !PVCAccepts(Update(objOld, objNew))
  {
  }

  /** Claim creations are always reconciled, deletions and generic events never. */
  lemma PVCOtherEvents(obj: Object)
    ensures PVCAccepts(Create(obj)) && !PVCAccepts(Delete(obj)) && !PVCAccepts(Generic(obj))
  {
  }

  /** Labels going from nil to an empty map count as a change. */
  lemma NilLabelsDifferFromEmpty(rv: string, phase: string)
    ensures PVCAccepts(Update(PVCObject(rv, None, phase), PVCObject(rv, Some(map[]), phase)))
  {
  }
}
