/**
 The finalizer-list helpers Contains and Remove of old_pkg/controller/util/datastructures.go.
 A Go nil slice and an empty slice are both the empty sequence here.
 */
module DataStructures {

  /** The elements of `list` other than `s`, in their order. */
  function Without(list: seq<string>, s: string): seq<string> {
    if |list| == 0 then []
    else Without(list[..|list| - 1], s) + (if list[|list| - 1] != s then [list[|list| - 1]] else [])
  }

  /** Contains: a search that stops at the first element equal to `s`. */
  method Contains(list: seq<string>, s: string) returns (found: bool)
    ensures found <==> s in list
  {
    for i := 0 to |list|
      invariant s !in list[..i]
    {
      if list[i] == s {
        return true;
      }
    }
    assert list[..|list|] == list;
    return false;
  }

  /** Remove: a new list built by appending every element other than `s`. */
  method Remove(list: seq<string>, s: string) returns (newList: seq<string>)
    ensures newList == Without(list, s)
  {
    newList := [];
    for i := 0 to |list|
      invariant newList == Without(list[..i], s)
    {
      assert list[..i + 1][..i] == list[..i];
      if list[i] != s {
        newList := newList + [list[i]];
      }
    }
    assert list[..|list|] == list;
  }

  /** An element survives the removal iff it was in the list and is not `s`; in particular
      the removed string is no longer contained. */
  lemma {:induction false} WithoutMembers(list: seq<string>, s: string, x: string)
    ensures x in Without(list, s) <==> x in list && x != s
    decreases |list|
  {
    if |list| > 0 {
      var init := list[..|list| - 1];
      WithoutMembers(init, s, x);
      assert list == init + [list[|list| - 1]];
    }
  }

  /** Removal keeps the order: it distributes over concatenation. */
  lemma {:induction false} WithoutAppend(a: seq<string>, b: seq<string>, s: string)
    ensures Without(a + b, s) == Without(a, s) + Without(b, s)
    decreases |b|
  {
    if |b| > 0 {
      var b' := b[..|b| - 1];
      assert (a + b)[..|a + b| - 1] == a + b';
      assert (a + b)[|a + b| - 1] == b[|b| - 1];
      WithoutAppend(a, b', s);
    } else {
      assert a + b == a;
    }
  }

  /** Exactly the occurrences of `s` are dropped: the result is the input minus them. */
  lemma {:induction false} WithoutCount(list: seq<string>, s: string)
    ensures multiset(Without(list, s)) == multiset(list)[s := 0]
    ensures |Without(list, s)| == |list| - multiset(list)[s]
    decreases |list|
  {
    if |list| > 0 {
      var init := list[..|list| - 1];
      WithoutCount(init, s);
      assert list == init + [list[|list| - 1]];
    }
  }

  /** Removing a string the list does not hold keeps every element. */
  lemma {:induction false} WithoutAbsent(list: seq<string>, s: string)
    requires s !in list
    ensures Without(list, s) == list
    decreases |list|
  {
    if |list| > 0 {
      var init := list[..|list| - 1];
      assert list == init + [list[|list| - 1]];
      WithoutAbsent(init, s);
    }
  }

  /** Removing twice is removing once. */
  lemma RemoveIdempotent(list: seq<string>, s: string)
    ensures Without(Without(list, s), s) == Without(list, s)
  {
    forall x ensures x !in Without(list, s) || x != s {
      WithoutMembers(list, s, x);
    }
    WithoutMembers(list, s, s);
    WithoutAbsent(Without(list, s), s);
  }
}
