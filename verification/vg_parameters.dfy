/**
 The reserved volume-group class parameters (volume-group-operator/controllers/utils/
 parameters.go, and the same two functions in volume-group-operator/controllers/
 parameters.go). Keys starting with `volumegroup.storage.ibm.io/` are meant for the operator
 and are filtered out before the parameters go to the driver; validation accepts only the
 two secret keys among them, each with a non-empty value.

 Go ranges over a map in an unspecified order; the loops below pick each next key with `:|`,
 so what is proved holds for every order.
 */
module VolumeGroupParameters {
  import opened Wrappers
  import opened Strings

  const VolumeGroupAsPrefix := "volumegroup.storage.ibm.io/"
  const SecretNameKey := VolumeGroupAsPrefix + "secret-name"
  const SecretNamespaceKey := VolumeGroupAsPrefix + "secret-namespace"

  /** The entries whose key does not start with `prefix`. */
  function Unprefixed(prefix: string, param: map<string, string>): map<string, string> {
    map k | k in param && !HasPrefix(k, prefix) :: param[k]
  }

  /** FilterPrefixedParameters: a new map filled with every entry whose key lacks the prefix. */
  method FilterPrefixedParameters(prefix: string, param: map<string, string>) returns (newParam: map<string, string>)
    ensures newParam == Unprefixed(prefix, param)
  {
    newParam := map[];
    var rest := param.Keys;
    while rest != {}
      invariant rest <= param.Keys
      invariant newParam == map k | k in param.Keys - rest && !HasPrefix(k, prefix) :: param[k]
      decreases rest
    {
      var k :| k in rest;
      if !HasPrefix(k, prefix) {
        newParam := newParam[k := param[k]];
      }
      rest := rest - {k};
    }
  }

  /** The filter keeps exactly the unprefixed keys, each with its value. */
  lemma UnprefixedMeaning(prefix: string, param: map<string, string>, k: string)
    ensures k in Unprefixed(prefix, param) <==> k in param && !HasPrefix(k, prefix)
    ensures k in Unprefixed(prefix, param) ==> Unprefixed(prefix, param)[k] == param[k]
  {
  }

  /** The result is part of the input, and filtering it again changes nothing. */
  lemma UnprefixedSubmapIdempotent(prefix: string, param: map<string, string>)
    ensures Unprefixed(prefix, param).Keys <= param.Keys
    ensures Unprefixed(prefix, Unprefixed(prefix, param)) == Unprefixed(prefix, param)
  {
  }

  /** The three rejections of ValidatePrefixedParameters. */
  datatype ParamError = EmptySecretName | EmptySecretNamespace | UnknownReservedKey(key: string)

  /** What validation reports about one entry: nothing for an unprefixed key or a secret
      key with a value, an error otherwise. */
  function EntryError(k: string, v: string): Option<ParamError> {
    if !HasPrefix(k, VolumeGroupAsPrefix) then None
    else if k == SecretNameKey then (if v == "" then Some(EmptySecretName) else None)
    else if k == SecretNamespaceKey then (if v == "" then Some(EmptySecretNamespace) else None)
    else Some(UnknownReservedKey(k))
  }

  /** ValidatePrefixedParameters: the first entry met (in the map's order) that is
      rejected decides the error. */
  method ValidatePrefixedParameters(param: map<string, string>) returns (err: Option<ParamError>)
    ensures err.None? <==> forall k :: k in param ==> EntryError(k, param[k]).None?
    ensures err.Some? ==> exists k :: k in param && EntryError(k, param[k]) == err
  {
    var rest := param.Keys;
    while rest != {}
      invariant rest <= param.Keys
      invariant forall k :: k in param.Keys - rest ==> EntryError(k, param[k]).None?
      decreases rest
    {
      var k :| k in rest;
      var v := param[k];
      if HasPrefix(k, VolumeGroupAsPrefix) {
        if k == SecretNameKey {
          if v == "" {
            return Some(EmptySecretName);
          }
        } else if k == SecretNamespaceKey {
          if v == "" {
            return Some(EmptySecretNamespace);
          }
        } else {
          return Some(UnknownReservedKey(k));
        }
      }
      rest := rest - {k};
    }
    return None;
  }

  /** Keys without the reserved prefix never make validation fail. */
  lemma UnprefixedNeverRejected(k: string, v: string)
    requires !HasPrefix(k, VolumeGroupAsPrefix)
    ensures EntryError(k, v).None?
  {
  }

  /** A reserved key is accepted iff it is one of the two secret keys with a non-empty
      value. */
  lemma ReservedAccepted(k: string, v: string)
    requires HasPrefix(k, VolumeGroupAsPrefix)
    ensures EntryError(k, v).None? <==> (k == SecretNameKey || k == SecretNamespaceKey) && v != ""
  {
  }

  /** The two secret keys carry the reserved prefix, so they are filtered out before the
      parameters reach the driver. */
  lemma SecretKeysFiltered(param: map<string, string>)
    ensures SecretNameKey !in Unprefixed(VolumeGroupAsPrefix, param)
    ensures SecretNamespaceKey !in Unprefixed(VolumeGroupAsPrefix, param)
  {
    assert HasPrefix(SecretNameKey, VolumeGroupAsPrefix) by {
      assert SecretNameKey[..|VolumeGroupAsPrefix|] == VolumeGroupAsPrefix;
    }
    assert HasPrefix(SecretNamespaceKey, VolumeGroupAsPrefix) by {
      assert SecretNamespaceKey[..|VolumeGroupAsPrefix|] == VolumeGroupAsPrefix;
    }
  }

  /** A filtered map holds no reserved key, so it always passes validation. */
  lemma FilteredValidates(param: map<string, string>)
    ensures forall k :: k in Unprefixed(VolumeGroupAsPrefix, param) ==>
              EntryError(k, Unprefixed(VolumeGroupAsPrefix, param)[k]).None?
  {
  }
}
