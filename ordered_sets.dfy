/**
 * JavaScript's `Set` keeps its elements in insertion order and holds each
 * element once. It is modelled as a sequence without duplicates.
 */
module OrderedSets {

  ghost predicate Distinct<T>(s: seq<T>)
  {
    forall i, j :: 0 <= i < j < |s| ==> s[i] != s[j]
  }

  /** Appending an absent element keeps the elements distinct. */
  lemma DistinctAppend<T>(s: seq<T>, x: T)
    requires Distinct(s) && x !in s
    ensures Distinct(s + [x])
  {
  }

  /** `set.add(x)`: appends `x` unless it is already there. */
  function Add<T(==)>(s: seq<T>, x: T): (r: seq<T>)
    ensures x in r
    ensures |r| == if x in s then |s| else |s| + 1
  {
    if x in s then s else s + [x]
  }

  /** After `add(x)` the set holds `x` and what it held before, and nothing else. */
  lemma AddContents<T>(s: seq<T>, x: T)
    ensures x in Add(s, x)
    ensures forall i :: 0 <= i < |s| ==> s[i] in Add(s, x)
    ensures forall i :: 0 <= i < |Add(s, x)| ==> Add(s, x)[i] in s || Add(s, x)[i] == x
    ensures Distinct(s) ==> Distinct(Add(s, x))
    ensures x in s ==> Add(s, x) == s
    ensures x !in s ==> Add(s, x)[..|s|] == s && Add(s, x)[|s|] == x
  {
  }

  /** `add` keeps the elements distinct. */
  lemma AddDistinct<T>(s: seq<T>, x: T)
    requires Distinct(s)
    ensures Distinct(Add(s, x))
  {
    if x !in s {
      DistinctAppend(s, x);
    }
  }

  /** `set.delete(x)`: removes `x` and keeps the order of the others. */
  function Remove<T(==)>(s: seq<T>, x: T): (r: seq<T>)
    ensures x !in r
    ensures |r| <= |s|
    decreases |s|
  {
    if s == [] then []
    else if s[0] == x then Remove(s[1..], x)
    else [s[0]] + Remove(s[1..], x)
  }

  /** After `delete(x)` the set holds what it held before except `x`. */
  lemma {:induction false} RemoveContents<T>(s: seq<T>, x: T)
    ensures x !in Remove(s, x)
    ensures forall i :: 0 <= i < |s| && s[i] != x ==> s[i] in Remove(s, x)
    ensures forall i :: 0 <= i < |Remove(s, x)| ==> Remove(s, x)[i] in s
    ensures x !in s ==> Remove(s, x) == s
    decreases |s|
  {
    if s != [] {
      RemoveContents(s[1..], x);
      forall i | 0 <= i < |s| && s[i] != x ensures s[i] in Remove(s, x) {
        if i > 0 {
          assert s[i] == s[1..][i - 1];
        }
      }
    }
  }

  /** `delete(x)` keeps the elements distinct and, when `x` was present, shrinks the set by one. */
  lemma {:induction false} RemoveDistinct<T>(s: seq<T>, x: T)
    requires Distinct(s)
    ensures Distinct(Remove(s, x))
    ensures x in s ==> |Remove(s, x)| == |s| - 1
    decreases |s|
  {
    if s != [] {
      RemoveDistinct(s[1..], x);
      RemoveContents(s[1..], x);
      if s[0] != x {
        assert s[0] !in s[1..];
        assert s[0] !in Remove(s[1..], x);
      }
    }
  }

  /** Adding and then removing an element that was absent gives back the set. */
  lemma {:induction false} RemoveAfterAdd<T>(s: seq<T>, x: T)
    requires x !in s
    ensures Remove(Add(s, x), x) == s
    decreases |s|
  {
    if s == [] {
      assert Add(s, x) == [x];
    } else {
      assert Add(s, x) == [s[0]] + Add(s[1..], x);
      assert Add(s, x)[1..] == Add(s[1..], x);
      RemoveAfterAdd(s[1..], x);
    }
  }
}
