/**
 The defaulting of an IBMBlockCSI custom resource (controllers/internal/crutils/
 default_setter.go). SetDefaults fills the nil lists of the spec, then, unless some image
 comes from an unofficial registry, moves the controller, the node and the sidecars to the
 images of the operator's default resource; it answers whether the images changed, which
 tells the caller to write the resource back.

 The default resource, the sidecar table built from it and the set of official registry
 users are read from files when the operator starts; here they are a `Defaults` value.
 */
module CsiDefaults {
  import opened Wrappers
  import opened CrCommon

  datatype Sidecar = Sidecar(name: string, repository: string, tag: string, imagePullPolicy: string)

  datatype ControllerSpec = ControllerSpec(repository: string, tag: string, tolerations: Option<seq<Toleration>>)

  datatype NodeSpec = NodeSpec(repository: string, tag: string, tolerations: Option<seq<Toleration>>,
                               memoryRequirements: string)

  datatype CsiSpec = CsiSpec(controller: ControllerSpec, node: NodeSpec, sidecars: seq<Sidecar>,
                             imagePullSecrets: Option<seq<string>>, enableCallHome: string)

  /** DefaultIBMBlockCSICr's images, DefaultSidecarsByName and OfficialRegistriesUsernames. */
  datatype Defaults = Defaults(controllerRepository: string, controllerTag: string,
                               nodeRepository: string, nodeTag: string,
                               sidecars: seq<Sidecar>, sidecarsByName: map<string, Sidecar>,
                               officialRegistries: set<string>)

  /** The sidecar table is built from the default sidecars: each is found under its name. */
  predicate Consistent(d: Defaults) {
    forall i :: 0 <= i < |d.sidecars| ==>
      d.sidecars[i].name in d.sidecarsByName && d.sidecarsByName[d.sidecars[i].name] == d.sidecars[i]
  }

  const DefaultMemoryRequirements := "40m,1000m,40Mi,400Mi"

  /** setDefaultForNilSliceFields. */
  function WithSliceDefaults(s: CsiSpec): CsiSpec {
    s.(imagePullSecrets := Filled(s.imagePullSecrets),
       controller := s.controller.(tolerations := Filled(s.controller.tolerations)),
       node := s.node.(tolerations := Filled(s.node.tolerations),
                       memoryRequirements := if s.node.memoryRequirements == "" then DefaultMemoryRequirements
                                             else s.node.memoryRequirements),
       enableCallHome := if s.enableCallHome == "" then "true" else s.enableCallHome)
  }

  /** isAnyUnofficialRepo. */
  predicate AnyUnofficial(d: Defaults, s: CsiSpec) {
    || UnofficialRepo(d.officialRegistries, s.controller.repository)
    || UnofficialRepo(d.officialRegistries, s.node.repository)
    || exists i :: 0 <= i < |s.sidecars| && UnofficialRepo(d.officialRegistries, s.sidecars[i].repository)
  }

  /** A sidecar the table does not know, or one that differs from the table's entry. */
  predicate Mismatch(d: Defaults, sc: Sidecar) {
    sc.name !in d.sidecarsByName || sc != d.sidecarsByName[sc.name]
  }

  /** When setDefaultSidecars replaces the sidecars. */
  predicate SidecarsDiffer(d: Defaults, sidecars: seq<Sidecar>) {
    |d.sidecars| != |sidecars| || exists i :: 0 <= i < |sidecars| && Mismatch(d, sidecars[i])
  }

  /** The controller's or the node's image differs from the default. */
  predicate ControllerDiffers(d: Defaults, s: CsiSpec) {
    s.controller.repository != d.controllerRepository || s.controller.tag != d.controllerTag
  }

  predicate NodeDiffers(d: Defaults, s: CsiSpec) {
    s.node.repository != d.nodeRepository || s.node.tag != d.nodeTag
  }

  /** setDefaults: the controller and node images become the defaults, the sidecars are
      replaced when they differ, and the flag says whether anything differed. */
  function ComponentDefaults(d: Defaults, s: CsiSpec): (CsiSpec, bool) {
    (s.(controller := s.controller.(repository := d.controllerRepository, tag := d.controllerTag),
        node := s.node.(repository := d.nodeRepository, tag := d.nodeTag),
        sidecars := if SidecarsDiffer(d, s.sidecars) then d.sidecars else s.sidecars),
     ControllerDiffers(d, s) || NodeDiffers(d, s) || SidecarsDiffer(d, s.sidecars))
  }

  /** SetDefaults: the new spec and the "changed" answer. */
  function SetDefaultsResult(d: Defaults, s: CsiSpec): (CsiSpec, bool) {
    var t := WithSliceDefaults(s);
    if AnyUnofficial(d, t) then (t, false) else ComponentDefaults(d, t)
  }

  class IBMBlockCSI {
    const defaults: Defaults
    var spec: CsiSpec

    constructor (defaults: Defaults, spec: CsiSpec)
      ensures this.defaults == defaults && this.spec == spec
    {
      this.defaults := defaults;
      this.spec := spec;
    }

    method SetDefaults() returns (changed: bool)
      modifies this
      ensures (spec, changed) == SetDefaultsResult(defaults, old(spec))
    {
      SetDefaultForNilSliceFields();
      var unofficial := IsAnyUnofficialRepo();
      if unofficial {
        return false;
      }
      changed := SetComponentDefaults();
    }

    method IsAnyUnofficialRepo() returns (unofficial: bool)
      ensures unofficial == AnyUnofficial(defaults, spec)
    {
      unofficial := IsUnofficialRepo(spec.controller.repository);
      if unofficial {
        return true;
      }
      unofficial := IsUnofficialRepo(spec.node.repository);
      if unofficial {
        return true;
      }
      for i := 0 to |spec.sidecars|
        invariant forall j :: 0 <= j < i ==> !UnofficialRepo(defaults.officialRegistries, spec.sidecars[j].repository)
      {
        unofficial := IsUnofficialRepo(spec.sidecars[i].repository);
        if unofficial {
          return true;
        }
      }
      return false;
    }

    method IsUnofficialRepo(repo: string) returns (unofficial: bool)
      ensures unofficial == UnofficialRepo(defaults.officialRegistries, repo)
    {
      if repo != "" {
        var registryUsername := Dir(repo);
        if registryUsername !in defaults.officialRegistries {
          return true;
        }
      }
      return false;
    }

    method SetComponentDefaults() returns (changed: bool)
      modifies this
      ensures (spec, changed) == ComponentDefaults(defaults, old(spec))
    {
      changed := false;
      if spec.controller.repository != defaults.controllerRepository || spec.controller.tag != defaults.controllerTag {
        spec := spec.(controller := spec.controller.(repository := defaults.controllerRepository,
                                                     tag := defaults.controllerTag));
        changed := true;
      }
      if spec.node.repository != defaults.nodeRepository || spec.node.tag != defaults.nodeTag {
        spec := spec.(node := spec.node.(repository := defaults.nodeRepository, tag := defaults.nodeTag));
        changed := true;
      }
      var sidecarsChanged := SetDefaultSidecars();
      changed := sidecarsChanged || changed;
    }

    method SetDefaultForNilSliceFields()
      modifies this
      ensures spec == WithSliceDefaults(old(spec))
    {
      if spec.imagePullSecrets.None? {
        spec := spec.(imagePullSecrets := Some([]));
      }
      if spec.controller.tolerations.None? {
        spec := spec.(controller := spec.controller.(tolerations := Some([])));
      }
      if spec.node.tolerations.None? {
        spec := spec.(node := spec.node.(tolerations := Some([])));
      }
      if spec.node.memoryRequirements == "" {
        spec := spec.(node := spec.node.(memoryRequirements := DefaultMemoryRequirements));
      }
      if spec.enableCallHome == "" {
        spec := spec.(enableCallHome := "true");
      }
    }

    method SetDefaultSidecars() returns (change: bool)
      modifies this
      ensures change == SidecarsDiffer(defaults, old(spec.sidecars))
      ensures spec == old(spec).(sidecars := if change then defaults.sidecars else old(spec.sidecars))
    {
      change := false;
      var defaultSidecars := defaults.sidecars;
      if |defaultSidecars| == |spec.sidecars| {
        for i := 0 to |spec.sidecars|
          invariant change <==> exists j :: 0 <= j < i && Mismatch(defaults, spec.sidecars[j])
        {
          var sidecar := spec.sidecars[i];
          if sidecar.name in defaults.sidecarsByName {
            var defaultSidecar := defaults.sidecarsByName[sidecar.name];
            if sidecar != defaultSidecar {
              change := true;
            }
          } else {
            change := true;
          }
        }
      } else {
        change := true;
      }
      if change {
        spec := spec.(sidecars := defaultSidecars);
      }
    }
  }

  /** After the nil lists are filled no list is nil, an empty call-home setting reads
      "true", an empty memory setting gets the default, set values and every image are
      kept, and filling again changes nothing. */
  lemma SliceDefaultsMeaning(s: CsiSpec)
    ensures var t := WithSliceDefaults(s);
            && t.imagePullSecrets.Some? && t.controller.tolerations.Some? && t.node.tolerations.Some?
            && (s.imagePullSecrets.Some? ==> t.imagePullSecrets == s.imagePullSecrets)
            && (s.controller.tolerations.Some? ==> t.controller.tolerations == s.controller.tolerations)
            && (s.node.tolerations.Some? ==> t.node.tolerations == s.node.tolerations)
            && t.enableCallHome != "" && (s.enableCallHome != "" ==> t.enableCallHome == s.enableCallHome)
            && t.node.memoryRequirements != ""
            && (s.node.memoryRequirements != "" ==> t.node.memoryRequirements == s.node.memoryRequirements)
            && t.controller.repository == s.controller.repository && t.controller.tag == s.controller.tag
            && t.node.repository == s.node.repository && t.node.tag == s.node.tag
            && t.sidecars == s.sidecars
            && WithSliceDefaults(t) == t
  {
  }

  /** An unofficial controller, node or sidecar repository blocks the defaulting: the
      answer is false and the images stay as they were, although the nil lists are still
      filled. */
  lemma UnofficialBlocks(d: Defaults, s: CsiSpec)
    requires AnyUnofficial(d, s)
    ensures var (r, changed) := SetDefaultsResult(d, s);
            && !changed
            && r == WithSliceDefaults(s)
            && r.controller.repository == s.controller.repository && r.controller.tag == s.controller.tag
            && r.node.repository == s.node.repository && r.node.tag == s.node.tag
            && r.sidecars == s.sidecars
  {
    SliceDefaultsMeaning(s);
  }

  /** With every repository official, the controller and node end on the default images,
      the sidecars on the defaults or on an equivalent list, and the answer is true iff
      the controller's, the node's or the sidecars' image differed. */
  lemma DefaultsApplied(d: Defaults, s: CsiSpec)
    requires !AnyUnofficial(d, s)
    ensures var (r, changed) := SetDefaultsResult(d, s);
            && r.controller.repository == d.controllerRepository && r.controller.tag == d.controllerTag
            && r.node.repository == d.nodeRepository && r.node.tag == d.nodeTag
            && (SidecarsDiffer(d, s.sidecars) ==> r.sidecars == d.sidecars)
            && (!SidecarsDiffer(d, s.sidecars) ==> r.sidecars == s.sidecars)
            && (changed <==> ControllerDiffers(d, s) || NodeDiffers(d, s) || SidecarsDiffer(d, s.sidecars))
  {
    SliceDefaultsMeaning(s);
  }

  /** A tag set without a repository is overwritten: with empty repositories and no
      sidecars every image ends at the defaults. */
  lemma TagWithoutRepositoryOverwritten(d: Defaults, s: CsiSpec)
    requires s.controller.repository == "" && s.node.repository == "" && s.sidecars == []
    ensures var (r, _) := SetDefaultsResult(d, s);
            && r.controller.repository == d.controllerRepository && r.controller.tag == d.controllerTag
            && r.node.repository == d.nodeRepository && r.node.tag == d.nodeTag
            && r.sidecars == d.sidecars
  {
    DefaultsApplied(d, s);
  }

  /** The default sidecars themselves are never replaced. */
  lemma DefaultSidecarsKept(d: Defaults)
    requires Consistent(d)
    ensures !SidecarsDiffer(d, d.sidecars)
  {
    forall i | 0 <= i < |d.sidecars|
      ensures !Mismatch(d, d.sidecars[i])
    {
    }
  }

  /** A second call changes nothing and answers false. */
  lemma SecondCallNoOp(d: Defaults, s: CsiSpec)
    requires Consistent(d)
    ensures var (r, _) := SetDefaultsResult(d, s);
            SetDefaultsResult(d, r) == (r, false)
  {
    var t := WithSliceDefaults(s);
    SliceDefaultsMeaning(s);
    var (r, _) := SetDefaultsResult(d, s);
    SliceDefaultsMeaning(r);
    if !AnyUnofficial(d, t) {
      DefaultSidecarsKept(d);
      assert !SidecarsDiffer(d, r.sidecars);
      assert ComponentDefaults(d, r).0 == r;
    }
  }

  /** The answer is true iff the call changed an image: the sidecar table being built from
      the default list, a replacement never leaves the sidecars as they were. */
  lemma ChangedIffImagesChanged(d: Defaults, s: CsiSpec)
    requires Consistent(d)
    ensures var (r, changed) := SetDefaultsResult(d, s);
            changed <==> r != WithSliceDefaults(s)
  {
    var t := WithSliceDefaults(s);
    if !AnyUnofficial(d, t) && SidecarsDiffer(d, t.sidecars) && d.sidecars == t.sidecars {
      DefaultSidecarsKept(d);
    }
  }

  /** Duplicates go unnoticed: a list of the right length whose entries each match the
      table is kept even when it repeats one default and leaves another out. */
  lemma DuplicateSidecarsKept(d: Defaults)
    requires Consistent(d)
    requires |d.sidecars| == 2 && d.sidecars[0] != d.sidecars[1]
    ensures !SidecarsDiffer(d, [d.sidecars[0], d.sidecars[0]])
    ensures [d.sidecars[0], d.sidecars[0]] != d.sidecars
  {
    var sc := [d.sidecars[0], d.sidecars[0]];
    assert !Mismatch(d, d.sidecars[0]);
    assert forall i :: 0 <= i < |sc| ==> sc[i] == d.sidecars[0];
  }
}
