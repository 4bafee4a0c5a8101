/**
 The optional-boolean helpers of pkg/util/boolptr/boolptr.go. A Go `*bool` is an optional
 boolean here: nil is None and a pointer to `v` is Some(v); pointer identity plays no part
 in any of the helpers.
 */
module BoolPtr {
  import opened Wrappers

  type BoolPtr = Option<bool>

  predicate IsTrue(b: BoolPtr) {
    b.Some? && b.value == true
  }

  predicate IsFalse(b: BoolPtr) {
    b.Some? && b.value == false
  }

  function True(): (b: BoolPtr)
    ensures IsTrue(b) && !IsFalse(b)
  {
    Some(true)
  }

  function False(): (b: BoolPtr)
    ensures IsFalse(b) && !IsTrue(b)
  {
    Some(false)
  }

  /** Both set and equal. */
  predicate Equal(a: BoolPtr, b: BoolPtr) {
    if a.None? || b.None? then false else a.value == b.value
  }

  /** Both nil, or both set and equal. */
  predicate NilOrEqual(a: BoolPtr, b: BoolPtr) {
    if a.None? && b.None? then true
    else if a.None? || b.None? then false
    else a.value == b.value
  }

  /** IsTrue and IsFalse never hold together, and one of them holds iff the value is set (not nil). */
  lemma TrueFalseExclusive(b: BoolPtr)
    ensures !(IsTrue(b) && IsFalse(b))
    ensures IsTrue(b) || IsFalse(b) <==> b.Some?
  {
  }

  /** Equal is equality of set values: false whenever a side is nil. */
  lemma EqualMeaning(a: BoolPtr, b: BoolPtr)
    ensures Equal(a, b) <==> a.Some? && a == b
    ensures Equal(a, b) == Equal(b, a)
  {
  }

  /** NilOrEqual is plain equality of the optional values, so it is implied by Equal and
      differs from it exactly on two nils. */
  lemma NilOrEqualMeaning(a: BoolPtr, b: BoolPtr)
    ensures NilOrEqual(a, b) <==> a == b
    ensures NilOrEqual(a, b) == NilOrEqual(b, a)
    ensures Equal(a, b) ==> NilOrEqual(a, b)
    ensures NilOrEqual(a, b) && !Equal(a, b) <==> a.None? && b.None?
  {
  }
}
