/**
 The defaulting of the earlier IBMBlockCSI resource (pkg/internal/ibmblockcsi/
 default_setter.go): a component whose repository is empty gets the default repository and
 tag (a tag of the user's is overwritten); a component with a repository is left alone.

 ControllerTag and NodeTag are "1.0.0" (pkg/config/settings.go); the default repositories
 are operator settings and are the object's constants here.
 */
module LegacyCsiDefaults {
  const ControllerTag := "1.0.0"
  const NodeTag := "1.0.0"

  datatype Image = Image(repository: string, tag: string)

  datatype CsiSpec = CsiSpec(controller: Image, node: Image)

  /** One component: an empty repository brings the defaults. */
  function ComponentDefault(c: Image, repository: string, tag: string): Image {
    if c.repository == "" then Image(repository, tag) else c
  }

  /** SetDefaults: the new spec and the "changed" answer. */
  function SetDefaultsResult(controllerRepository: string, nodeRepository: string, s: CsiSpec): (CsiSpec, bool) {
    (CsiSpec(ComponentDefault(s.controller, controllerRepository, ControllerTag),
             ComponentDefault(s.node, nodeRepository, NodeTag)),
     s.controller.repository == "" || s.node.repository == "")
  }

  class IBMBlockCSI {
    const controllerRepository: string
    const nodeRepository: string
    var spec: CsiSpec

    constructor (controllerRepository: string, nodeRepository: string, spec: CsiSpec)
      ensures this.controllerRepository == controllerRepository && this.nodeRepository == nodeRepository
      ensures this.spec == spec
    {
      this.controllerRepository, this.nodeRepository := controllerRepository, nodeRepository;
      this.spec := spec;
    }

    method SetDefaults() returns (changed: bool)
      modifies this
      ensures (spec, changed) == SetDefaultsResult(controllerRepository, nodeRepository, old(spec))
    {
      changed := false;
      if spec.controller.repository == "" {
        spec := spec.(controller := Image(controllerRepository, ControllerTag));
        changed := true;
      }
      if spec.node.repository == "" {
        spec := spec.(node := Image(nodeRepository, NodeTag));
        changed := true;
      }
    }
  }

  /** Each component is defaulted iff its repository is empty; one with a repository keeps
      its tag, even an empty one. */
  lemma ComponentRule(controllerRepository: string, nodeRepository: string, s: CsiSpec)
    ensures var r := SetDefaultsResult(controllerRepository, nodeRepository, s).0;
            && (s.controller.repository == "" ==> r.controller == Image(controllerRepository, "1.0.0"))
            && (s.controller.repository != "" ==> r.controller == s.controller)
            && (s.node.repository == "" ==> r.node == Image(nodeRepository, "1.0.0"))
            && (s.node.repository != "" ==> r.node == s.node)
  {
  }

  /** The answer is true iff some repository was empty; with non-empty default
      repositories that is exactly when the spec changed, and a second call answers false
      and changes nothing. */
  lemma ChangedAndSecondCall(controllerRepository: string, nodeRepository: string, s: CsiSpec)
    requires controllerRepository != "" && nodeRepository != ""
    ensures var (r, changed) := SetDefaultsResult(controllerRepository, nodeRepository, s);
            && (changed <==> s.controller.repository == "" || s.node.repository == "")
            && (changed <==> r != s)
            && SetDefaultsResult(controllerRepository, nodeRepository, r) == (r, false)
  {
  }
}
