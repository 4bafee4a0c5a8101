/**
 The labels, annotations and image of the host definer's resources (controllers/internal/
 hostdefiner/hostdefiner.go; controllers/internal/hostdefinition/hostdefinition.go is the
 same code for the host definition). The operator's fixed keys come first and the
 resource's own labels or annotations only fill in keys the fixed ones leave free.

 The driver version and the selector labels (built by a helper that is not part of this
 model) are parameters. Go ranges over a map in an unspecified order; the loops pick each
 next key with `:|`, so what is proved holds for every order.
 */
module HostDefinerMeta {
  import opened Wrappers
  import opened CrCommon

  const ProductName := "ibm-block-csi-driver"
  const OperatorName := "ibm-block-csi-operator"

  /** The parts of a HostDefiner resource these helpers read. */
  datatype HostDefinerResource = HostDefinerResource(name: string, labels: Option<map<string, string>>,
                                                     annotations: Option<map<string, string>>,
                                                     repository: string, tag: string)

  /** The seven labels every resource of the host definer carries. */
  function FixedLabels(name: string, version: string): map<string, string> {
    map["app.kubernetes.io/name" := ProductName,
        "app.kubernetes.io/instance" := name,
        "app.kubernetes.io/version" := version,
        "app.kubernetes.io/managed-by" := OperatorName,
        "csi" := "ibm",
        "product" := ProductName,
        "release" := "v" + version]
  }

  /** The three product annotations. */
  function FixedAnnotations(version: string): map<string, string> {
    map["productID" := ProductName, "productName" := ProductName, "productVersion" := version]
  }

  /** `fixed` with the entries of `user` whose keys it does not have. */
  function FixedWins(fixed: map<string, string>, user: Option<map<string, string>>): map<string, string> {
    var u := user.GetOr(map[]);
    map k | k in fixed.Keys + u.Keys :: if k in fixed then fixed[k] else u[k]
  }

  /** labels.Merge: the union, the second map winning on a shared key. */
  function Merge(a: map<string, string>, b: map<string, string>): map<string, string> {
    a + b
  }

  /** GetAnnotations as a value: the product annotations, the resource's annotations on
      the free keys, and the restart annotation when its key is set and still free. */
  function Annotations(annotations: Option<map<string, string>>, version: string,
                       restartedKey: string, restartedValue: string): map<string, string> {
    var a := FixedWins(FixedAnnotations(version), annotations);
    if restartedKey !in a && restartedKey != "" then a[restartedKey := restartedValue] else a
  }

  /** Copies into `labels` the entries of `user` whose keys it lacks. */
  method FillFree(labels0: map<string, string>, user: Option<map<string, string>>) returns (labels: map<string, string>)
    ensures labels == FixedWins(labels0, user)
  {
    labels := labels0;
    if user.Some? {
      var u := user.value;
      var rest := u.Keys;
      while rest != {}
        invariant rest <= u.Keys
        invariant labels == map k | k in labels0.Keys + (u.Keys - rest) :: if k in labels0 then labels0[k] else u[k]
        decreases rest
      {
        var k :| k in rest;
        if k !in labels {
          labels := labels[k := u[k]];
        }
        rest := rest - {k};
      }
    }
  }

  method GetLabels(c: HostDefinerResource, version: string) returns (labels: map<string, string>)
    ensures labels == FixedWins(FixedLabels(c.name, version), c.labels)
  {
    labels := FillFree(FixedLabels(c.name, version), c.labels);
  }

  method GetAnnotations(c: HostDefinerResource, version: string, restartedKey: string, restartedValue: string)
    returns (labels: map<string, string>)
    ensures labels == Annotations(c.annotations, version, restartedKey, restartedValue)
  {
    labels := FillFree(FixedAnnotations(version), c.annotations);
    if restartedKey !in labels && restartedKey != "" {
      labels := labels[restartedKey := restartedValue];
    }
  }

  method GetPodLabels(c: HostDefinerResource, version: string, selectorLabels: map<string, string>)
    returns (labels: map<string, string>)
    ensures labels == Merge(FixedWins(FixedLabels(c.name, version), c.labels), selectorLabels)
  {
    var own := GetLabels(c, version);
    labels := Merge(own, selectorLabels);
  }

  /** The image of the host definer's pods. */
  function GetImage(c: HostDefinerResource): string {
    ImageName(c.repository, c.tag)
  }

  /** The merged map has exactly the keys of both maps; a fixed key keeps its fixed value,
      and a free key takes the resource's value. */
  lemma FixedWinsMeaning(fixed: map<string, string>, user: map<string, string>, k: string)
    ensures k in FixedWins(fixed, Some(user)) <==> k in fixed || k in user
    ensures k in fixed ==> FixedWins(fixed, Some(user))[k] == fixed[k]
    ensures k !in fixed && k in user ==> FixedWins(fixed, Some(user))[k] == user[k]
    ensures FixedWins(fixed, None) == fixed
  {
  }

  /** Whatever labels the resource carries, the seven fixed keys are there with their
      fixed values, and every label of the resource on another key is kept. */
  lemma LabelsKeepFixedKeys(c: HostDefinerResource, version: string)
    ensures var l := FixedWins(FixedLabels(c.name, version), c.labels);
            && l["app.kubernetes.io/name"] == ProductName
            && l["app.kubernetes.io/instance"] == c.name
            && l["app.kubernetes.io/version"] == version
            && l["app.kubernetes.io/managed-by"] == OperatorName
            && l["csi"] == "ibm"
            && l["product"] == ProductName
            && l["release"] == "v" + version
            && (c.labels.Some? ==> forall k :: k in c.labels.value && k !in FixedLabels(c.name, version) ==>
                                     k in l && l[k] == c.labels.value[k])
  {
  }

  /** The product annotations cannot be overridden, and the restart annotation appears
      with its value exactly when its key is set and neither fixed nor the resource's. */
  lemma AnnotationsMeaning(annotations: Option<map<string, string>>, version: string,
                           restartedKey: string, restartedValue: string)
    ensures var a := Annotations(annotations, version, restartedKey, restartedValue);
            && a["productID"] == ProductName && a["productName"] == ProductName
            && a["productVersion"] == version
            && (restartedKey != "" ==> restartedKey in a)
            && (restartedKey != "" && restartedKey !in FixedAnnotations(version)
                && (annotations.None? || restartedKey !in annotations.value)
                ==> a[restartedKey] == restartedValue)
            && (annotations.Some? && restartedKey in annotations.value && restartedKey !in FixedAnnotations(version)
                ==> a[restartedKey] == annotations.value[restartedKey])
            && ("" in a <==> "" in annotations.GetOr(map[]))
  {
  }

  /** On the pods the selector labels win over the labels of the resource. */
  lemma PodLabelsMeaning(c: HostDefinerResource, version: string, selectorLabels: map<string, string>)
    ensures var l := Merge(FixedWins(FixedLabels(c.name, version), c.labels), selectorLabels);
            && (forall k :: k in selectorLabels ==> k in l && l[k] == selectorLabels[k])
            && (forall k :: k in FixedLabels(c.name, version) && k !in selectorLabels ==>
                  k in l && l[k] == FixedLabels(c.name, version)[k])
            && l.Keys == FixedLabels(c.name, version).Keys + c.labels.GetOr(map[]).Keys + selectorLabels.Keys
  {
  }

  /** The image reference names the repository and, when there is one, the tag after a
      colon; both come back from it when the tag holds no colon. */
  lemma ImageMeaning(c: HostDefinerResource)
    requires c.tag != ""
    requires forall j :: 0 <= j < |c.tag| ==> c.tag[j] != ':'
    ensures GetImage(c) == c.repository + ":" + c.tag
    ensures SplitImage(GetImage(c)) == (c.repository, c.tag)
  {
    ImageNameRoundTrip(c.repository, c.tag);
  }
}
