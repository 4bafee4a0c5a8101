/**
 GetNameForResource of pkg/config/resources.go: the Kubernetes object name of each resource
 the operator creates for a CSI driver, `<driver>-<resource>`, where the controller, the
 node and their two service accounts drop the `csi-` of their resource name.
 */
module Resources {
  import opened Strings

  const CSIController := "csi-controller"
  const CSINode := "csi-node"
  const CSIControllerServiceAccount := "csi-controller-sa"
  const CSINodeServiceAccount := "csi-node-sa"

  /** Every resource name the operator declares. */
  const AllResources: seq<string> := [
    CSIController, CSINode, "call-home", "ibm-node-agent",
    CSIControllerServiceAccount, CSINodeServiceAccount, "call-home-sa",
    "external-provisioner-clusterrole", "external-provisioner-clusterrolebinding",
    "external-attacher-clusterrole", "external-attacher-clusterrolebinding",
    "external-snapshotter-clusterrole", "external-snapshotter-clusterrolebinding",
    "external-resizer-clusterrole", "external-resizer-clusterrolebinding",
    "csi-addons-replicator-clusterrole", "csi-addons-replicator-clusterrolebinding",
    "csi-controller-scc-clusterrole", "csi-controller-scc-clusterrolebinding",
    "csi-node-scc-clusterrole", "call-home-scc-clusterrole",
    "csi-node-scc-clusterrolebinding", "call-home-scc-clusterrolebinding"
  ]

  /** The four names whose object name leaves out their `csi-` prefix. */
  predicate IsComponent(name: string) {
    name == CSIController || name == CSINode
    || name == CSIControllerServiceAccount || name == CSINodeServiceAccount
  }

  function GetNameForResource(name: string, driverName: string): (r: string)
    ensures HasPrefix(r, driverName + "-")
    ensures IsComponent(name) ==> HasPrefix(name, "csi-") && r == driverName + "-" + name[4..]
    ensures !IsComponent(name) ==> r == driverName + "-" + name
  {
    if name == CSIController then driverName + "-controller"
    else if name == CSINode then driverName + "-node"
    else if name == CSIControllerServiceAccount then driverName + "-controller-sa"
    else if name == CSINodeServiceAccount then driverName + "-node-sa"
    else driverName + "-" + name
  }

  /** What follows `<driver>-` in an object name. */
  function Suffix(name: string): string {
    if IsComponent(name) then name[4..] else name
  }

  /** The object name is `<driver>-` followed by the suffix, so the suffix is recovered
      from the object name alone. */
  lemma SuffixOfName(name: string, driverName: string)
    ensures GetNameForResource(name, driverName)[|driverName| + 1..] == Suffix(name)
  {
    var r := GetNameForResource(name, driverName);
    assert r == (driverName + "-") + Suffix(name);
  }

  /** No declared resource name has `o` as its second character. */
  lemma DeclaredSecondChar(name: string)
    requires name in AllResources
    ensures |name| > 1 && name[1] != 'o'
  {
  }

  /** The suffix of every component name (`controller`, `node`, ...) has `o` as its
      second character. */
  lemma ComponentSecondChar(name: string)
    requires IsComponent(name)
    ensures |Suffix(name)| > 1 && Suffix(name)[1] == 'o'
  {
  }

  /** No two declared resources of one driver get the same object name. */
  lemma NamesDistinct(a: string, b: string, driverName: string)
    requires a in AllResources && b in AllResources && a != b
    ensures GetNameForResource(a, driverName) != GetNameForResource(b, driverName)
  {
    SuffixOfName(a, driverName);
    SuffixOfName(b, driverName);
    DeclaredSecondChar(a);
    DeclaredSecondChar(b);
    if IsComponent(a) {
      ComponentSecondChar(a);
    }
    if IsComponent(b) {
      ComponentSecondChar(b);
    }
    if IsComponent(a) && IsComponent(b) {
      assert Suffix(a) != Suffix(b);
    }
  }
}
