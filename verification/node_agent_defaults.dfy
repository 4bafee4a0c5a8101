/**
 The defaulting of the older Config custom resource (old_pkg/internal/config/
 default_setter.go): the node agent's repository is mandatory, so when it is empty both the
 repository and the tag are set to the defaults (a tag of the user's is overwritten); an
 empty port gets the default port. The answer says whether any default was applied.

 NodeAgentRepository, NodeAgentTag and NodeAgentPort are operator settings; here they are
 the object's constants.
 */
module ConfigDefaults {
  datatype NodeAgentSpec = NodeAgentSpec(repository: string, tag: string, port: string)

  datatype ConfigSpec = ConfigSpec(nodeAgent: NodeAgentSpec, defineHost: bool)

  /** SetDefaults: the new spec and the "changed" answer. */
  function SetDefaultsResult(repository: string, tag: string, port: string, s: ConfigSpec): (ConfigSpec, bool) {
    var a := s.nodeAgent;
    var a1 := if a.repository == "" then a.(repository := repository, tag := tag) else a;
    var a2 := if a1.port == "" then a1.(port := port) else a1;
    (s.(nodeAgent := a2), a.repository == "" || a.port == "")
  }

  class Config {
    const nodeAgentRepository: string
    const nodeAgentTag: string
    const nodeAgentPort: string
    var spec: ConfigSpec

    constructor (nodeAgentRepository: string, nodeAgentTag: string, nodeAgentPort: string, spec: ConfigSpec)
      ensures this.nodeAgentRepository == nodeAgentRepository && this.nodeAgentTag == nodeAgentTag
      ensures this.nodeAgentPort == nodeAgentPort && this.spec == spec
    {
      this.nodeAgentRepository, this.nodeAgentTag, this.nodeAgentPort := nodeAgentRepository, nodeAgentTag, nodeAgentPort;
      this.spec := spec;
    }

    method SetDefaults() returns (changed: bool)
      modifies this
      ensures (spec, changed) == SetDefaultsResult(nodeAgentRepository, nodeAgentTag, nodeAgentPort, old(spec))
    {
      changed := false;
      if spec.nodeAgent.repository == "" {
        spec := spec.(nodeAgent := spec.nodeAgent.(repository := nodeAgentRepository, tag := nodeAgentTag));
        changed := true;
      }
      if spec.nodeAgent.port == "" {
        spec := spec.(nodeAgent := spec.nodeAgent.(port := nodeAgentPort));
        changed := true;
      }
    }
  }

  /** An empty repository brings the default repository and tag, whatever the tag was; a
      set repository is kept with its tag, even an empty one. */
  lemma RepositoryRule(repository: string, tag: string, port: string, s: ConfigSpec)
    ensures var r := SetDefaultsResult(repository, tag, port, s).0.nodeAgent;
            && (s.nodeAgent.repository == "" ==> r.repository == repository && r.tag == tag)
            && (s.nodeAgent.repository != "" ==> r.repository == s.nodeAgent.repository && r.tag == s.nodeAgent.tag)
  {
  }

  /** An empty port becomes the default port, a set one is kept, and DefineHost is never
      touched. */
  lemma PortRule(repository: string, tag: string, port: string, s: ConfigSpec)
    ensures var r := SetDefaultsResult(repository, tag, port, s).0;
            && (s.nodeAgent.port == "" ==> r.nodeAgent.port == port)
            && (s.nodeAgent.port != "" ==> r.nodeAgent.port == s.nodeAgent.port)
            && r.defineHost == s.defineHost
  {
  }

  /** The answer is true iff a default was applied, that is iff the repository or the port
      was empty; with non-empty defaults this is exactly when the spec changed. */
  lemma ChangedIffDefaultApplied(repository: string, tag: string, port: string, s: ConfigSpec)
    requires repository != "" && port != ""
    ensures var (r, changed) := SetDefaultsResult(repository, tag, port, s);
            && (changed <==> s.nodeAgent.repository == "" || s.nodeAgent.port == "")
            && (changed <==> r != s)
  {
  }

  /** With non-empty defaults a second call answers false and changes nothing. */
  lemma SecondCallNoOp(repository: string, tag: string, port: string, s: ConfigSpec)
    requires repository != "" && port != ""
    ensures var (r, _) := SetDefaultsResult(repository, tag, port, s);
            SetDefaultsResult(repository, tag, port, r) == (r, false)
  {
  }
}
