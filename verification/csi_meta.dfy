/**
 The annotations and images of the earlier IBMBlockCSI wrapper (pkg/internal/ibmblockcsi/
 ibmblockcsi.go). Unlike the host definer's helpers, the resource's own annotations
 override the four fixed keys here. The controller and node annotations are written into
 the resource's own label map (GetLabels hands out that map, not a copy) and then
 returned; writing into a nil map is a Go panic, modelled as no result.

 The driver version is a parameter.
 */
module CsiMeta {
  import opened Wrappers
  import opened CrCommon

  const ProductName := "ibm-block-csi-driver"
  const OperatorName := "ibm-block-csi-operator"
  const ComponentKey := "app.kubernetes.io/component"
  const CSIController := "csi-controller"
  const CSINode := "csi-node"

  function FixedAnnotations(name: string, version: string): map<string, string> {
    map["app.kubernetes.io/name" := ProductName,
        "app.kubernetes.io/instance" := name,
        "app.kubernetes.io/version" := version,
        "app.kubernetes.io/managed-by" := OperatorName]
  }

  /** GetComponentAnnotations. */
  function ComponentAnnotations(component: string): map<string, string> {
    map[ComponentKey := component]
  }

  /** The resource's own annotations copied over `fixed`, overriding it. */
  method CopyOver(fixed: map<string, string>, annotations: Option<map<string, string>>)
    returns (labels: map<string, string>)
    ensures labels == fixed + annotations.GetOr(map[])
  {
    labels := fixed;
    if annotations.Some? {
      var a := annotations.value;
      var rest := a.Keys;
      while rest != {}
        invariant rest <= a.Keys
        invariant labels == fixed + map k | k in a.Keys - rest :: a[k]
        decreases rest
      {
        var k :| k in rest;
        labels := labels[k := a[k]];
        rest := rest - {k};
      }
      assert (map k | k in a.Keys - rest :: a[k]) == a;
    }
  }

  class IBMBlockCSI {
    const name: string
    const annotations: Option<map<string, string>>
    const controllerRepository: string
    const controllerTag: string
    const nodeRepository: string
    const nodeTag: string
    var labels: Option<map<string, string>>

    constructor (name: string, labels: Option<map<string, string>>, annotations: Option<map<string, string>>,
                 controllerRepository: string, controllerTag: string, nodeRepository: string, nodeTag: string)
      ensures this.name == name && this.labels == labels && this.annotations == annotations
      ensures this.controllerRepository == controllerRepository && this.controllerTag == controllerTag
      ensures this.nodeRepository == nodeRepository && this.nodeTag == nodeTag
    {
      this.name, this.labels, this.annotations := name, labels, annotations;
      this.controllerRepository, this.controllerTag := controllerRepository, controllerTag;
      this.nodeRepository, this.nodeTag := nodeRepository, nodeTag;
    }

    method GetAnnotations(version: string) returns (result: map<string, string>)
      ensures result == FixedAnnotations(name, version) + annotations.GetOr(map[])
    {
      result := CopyOver(FixedAnnotations(name, version), annotations);
    }

    /** The component key written into the resource's labels, which are then returned. */
    method ComponentLabels(component: string) returns (result: Option<map<string, string>>)
      modifies this
      ensures old(labels).None? ==> result.None? && labels == old(labels)
      ensures old(labels).Some? ==> labels == Some(old(labels).value[ComponentKey := component])
      ensures old(labels).Some? ==> result == labels
    {
      if labels.None? {
        return None;
      }
      var l := labels.value;
      var extra := ComponentAnnotations(component);
      var rest := extra.Keys;
      while rest != {}
        invariant rest <= extra.Keys
        invariant l == labels.value + map k | k in extra.Keys - rest :: extra[k]
        decreases rest
      {
        var k :| k in rest;
        l := l[k := extra[k]];
        rest := rest - {k};
      }
      assert (map k | k in extra.Keys - rest :: extra[k]) == extra;
      assert l == labels.value[ComponentKey := component];
      labels := Some(l);
      return labels;
    }

    method GetCSIControllerAnnotations() returns (result: Option<map<string, string>>)
      modifies this
      ensures old(labels).None? ==> result.None? && labels == old(labels)
      ensures old(labels).Some? ==> labels == Some(old(labels).value[ComponentKey := CSIController])
      ensures old(labels).Some? ==> result == labels
    {
      result := ComponentLabels(CSIController);
    }

    method GetCSINodeAnnotations() returns (result: Option<map<string, string>>)
      modifies this
      ensures old(labels).None? ==> result.None? && labels == old(labels)
      ensures old(labels).Some? ==> labels == Some(old(labels).value[ComponentKey := CSINode])
      ensures old(labels).Some? ==> result == labels
    {
      result := ComponentLabels(CSINode);
    }

    function GetCSIControllerImage(): string
      reads this
    {
      ImageName(controllerRepository, controllerTag)
    }

    function GetCSINodeImage(): string
      reads this
    {
      ImageName(nodeRepository, nodeTag)
    }
  }

  /** The annotations hold the four fixed keys and every annotation of the resource, and
      the resource's value wins on a shared key. */
  lemma AnnotationsMeaning(name: string, version: string, annotations: map<string, string>, k: string)
    ensures var a := FixedAnnotations(name, version) + annotations;
            && (k in a <==> k in FixedAnnotations(name, version) || k in annotations)
            && (k in annotations ==> a[k] == annotations[k])
            && (k !in annotations && k in FixedAnnotations(name, version) ==> a[k] == FixedAnnotations(name, version)[k])
            && "app.kubernetes.io/instance" in a
            && ("app.kubernetes.io/instance" !in annotations ==> a["app.kubernetes.io/instance"] == name)
  {
  }

  /** The component annotations are the single component key. */
  lemma ComponentAnnotationsMeaning(component: string)
    ensures ComponentAnnotations(component).Keys == {ComponentKey}
    ensures ComponentAnnotations(component)[ComponentKey] == component
  {
  }

  /** The component key wins over a label of the resource, every other label is kept,
      and the controller and node get different component values. */
  lemma ComponentLabelsMeaning(labels: map<string, string>, component: string, k: string)
    ensures var l := labels + ComponentAnnotations(component);
            && ComponentKey in l && l[ComponentKey] == component
            && (k != ComponentKey ==> (k in l <==> k in labels))
            && (k != ComponentKey && k in labels ==> l[k] == labels[k])
    ensures (labels + ComponentAnnotations(CSIController))[ComponentKey]
              != (labels + ComponentAnnotations(CSINode))[ComponentKey]
  {
  }

  /** The controller's image reference names its repository and tag and gives both back
      when the tag holds no colon. */
  lemma ControllerImageMeaning(c: IBMBlockCSI)
    requires c.controllerTag != ""
    requires forall j :: 0 <= j < |c.controllerTag| ==> c.controllerTag[j] != ':'
    ensures c.GetCSIControllerImage() == c.controllerRepository + ":" + c.controllerTag
    ensures SplitImage(c.GetCSIControllerImage()) == (c.controllerRepository, c.controllerTag)
  {
    ImageNameRoundTrip(c.controllerRepository, c.controllerTag);
  }
}
