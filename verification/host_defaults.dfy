/**
 The defaulting of a HostDefiner custom resource (controllers/internal/hostdefiner/
 default_setter.go). The HostDefinition setter of controllers/internal/hostdefinition/
 default_setter.go is the same code over its own spec field and default resource, so one
 model serves both: fill the nil lists, then, unless the repository is unofficial, move
 the image to the default one and answer whether it differed.
 */
module HostDefaults {
  import opened Wrappers
  import opened CrCommon

  datatype ImageSpec = ImageSpec(repository: string, tag: string, tolerations: Option<seq<Toleration>>)

  datatype HostSpec = HostSpec(hostDefiner: ImageSpec, imagePullSecrets: Option<seq<string>>)

  /** The default resource's image and OfficialRegistriesUsernames. */
  datatype Defaults = Defaults(repository: string, tag: string, officialRegistries: set<string>)

  /** setDefaultForNilSliceFields. */
  function WithSliceDefaults(s: HostSpec): HostSpec {
    s.(imagePullSecrets := Filled(s.imagePullSecrets),
       hostDefiner := s.hostDefiner.(tolerations := Filled(s.hostDefiner.tolerations)))
  }

  predicate ImageDiffers(d: Defaults, s: HostSpec) {
    s.hostDefiner.repository != d.repository || s.hostDefiner.tag != d.tag
  }

  /** SetDefaults: the new spec and the "changed" answer. */
  function SetDefaultsResult(d: Defaults, s: HostSpec): (HostSpec, bool) {
    var t := WithSliceDefaults(s);
    if UnofficialRepo(d.officialRegistries, t.hostDefiner.repository) then (t, false)
    else (t.(hostDefiner := t.hostDefiner.(repository := d.repository, tag := d.tag)), ImageDiffers(d, t))
  }

  class HostDefiner {
    const defaults: Defaults
    var spec: HostSpec

    constructor (defaults: Defaults, spec: HostSpec)
      ensures this.defaults == defaults && this.spec == spec
    {
      this.defaults := defaults;
      this.spec := spec;
    }

    method SetDefaults() returns (changed: bool)
      modifies this
      ensures (spec, changed) == SetDefaultsResult(defaults, old(spec))
    {
      SetDefaultForNilSliceFields();
      var unofficial := IsUnofficialRepo(spec.hostDefiner.repository);
      if unofficial {
        return false;
      }
      changed := SetImageDefaults();
    }

    method SetDefaultForNilSliceFields()
      modifies this
      ensures spec == WithSliceDefaults(old(spec))
    {
      if spec.imagePullSecrets.None? {
        spec := spec.(imagePullSecrets := Some([]));
      }
      if spec.hostDefiner.tolerations.None? {
        spec := spec.(hostDefiner := spec.hostDefiner.(tolerations := Some([])));
      }
    }

    method IsUnofficialRepo(repo: string) returns (unofficial: bool)
      ensures unofficial == UnofficialRepo(defaults.officialRegistries, repo)
    {
      if repo != "" {
        var registryUsername := Dir(repo);
        if registryUsername !in defaults.officialRegistries {
          return true;
        }
      }
      return false;
    }

    method SetImageDefaults() returns (changed: bool)
      modifies this
      ensures changed == ImageDiffers(defaults, old(spec))
      ensures spec == old(spec).(hostDefiner := old(spec).hostDefiner.(repository := defaults.repository,
                                                                        tag := defaults.tag))
    {
      changed := false;
      if spec.hostDefiner.repository != defaults.repository || spec.hostDefiner.tag != defaults.tag {
        spec := spec.(hostDefiner := spec.hostDefiner.(repository := defaults.repository, tag := defaults.tag));
        changed := true;
      }
    }
  }

  /** Nil lists become empty on every call, present lists and the image are kept by the
      filling, and filling again changes nothing. */
  lemma SliceDefaultsMeaning(s: HostSpec)
    ensures var t := WithSliceDefaults(s);
            && t.imagePullSecrets.Some? && t.hostDefiner.tolerations.Some?
            && (s.imagePullSecrets.Some? ==> t.imagePullSecrets == s.imagePullSecrets)
            && (s.hostDefiner.tolerations.Some? ==> t.hostDefiner.tolerations == s.hostDefiner.tolerations)
            && t.hostDefiner.repository == s.hostDefiner.repository && t.hostDefiner.tag == s.hostDefiner.tag
            && WithSliceDefaults(t) == t
  {
  }

  /** An unofficial repository answers false and leaves the repository and tag alone. */
  lemma UnofficialBlocks(d: Defaults, s: HostSpec)
    requires UnofficialRepo(d.officialRegistries, s.hostDefiner.repository)
    ensures var (r, changed) := SetDefaultsResult(d, s);
            && !changed
            && r.hostDefiner.repository == s.hostDefiner.repository && r.hostDefiner.tag == s.hostDefiner.tag
            && r == WithSliceDefaults(s)
  {
  }

  /** Otherwise the repository and tag end at the defaults, together, and the answer says
      whether either differed. */
  lemma DefaultsApplied(d: Defaults, s: HostSpec)
    requires !UnofficialRepo(d.officialRegistries, s.hostDefiner.repository)
    ensures var (r, changed) := SetDefaultsResult(d, s);
            && r.hostDefiner.repository == d.repository && r.hostDefiner.tag == d.tag
            && (changed <==> s.hostDefiner.repository != d.repository || s.hostDefiner.tag != d.tag)
            && (changed <==> r != WithSliceDefaults(s))
  {
  }

  /** Only a tag set: both the repository and the tag end at the defaults. */
  lemma TagOnlyGetsDefaults(d: Defaults, s: HostSpec)
    requires s.hostDefiner.repository == "" && s.hostDefiner.tag != ""
    ensures var (r, _) := SetDefaultsResult(d, s);
            r.hostDefiner.repository == d.repository && r.hostDefiner.tag == d.tag
  {
  }

  /** A second call changes nothing and answers false. */
  lemma SecondCallNoOp(d: Defaults, s: HostSpec)
    ensures var (r, _) := SetDefaultsResult(d, s);
            SetDefaultsResult(d, r) == (r, false)
  {
  }
}
