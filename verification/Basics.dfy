/** Small functions on numbers and sequences that several modules use. */
module Basics {

  function Max(a: nat, b: nat): nat {
    if a < b then b else a
  }

  lemma OneMore(k: nat, n: nat)
    ensures (k + 1) * n == k * n + n
  {
  }

  lemma SmallModulo(i: nat, n: nat)
    requires i < n
    ensures i % n == i
  {
  }

  /** The first place of `c`, or the length when there is none. */
  function FirstOf<T(==)>(s: seq<T>, c: T): (i: nat)
    ensures i <= |s| && c !in s[..i] && (i < |s| ==> s[i] == c)
    ensures i < |s| <==> c in s
  {
    if s == [] || s[0] == c then 0 else
      assert s[..1 + FirstOf(s[1..], c)] == [s[0]] + s[1..][..FirstOf(s[1..], c)];
      1 + FirstOf(s[1..], c)
  }

  /** The list without its `i`-th element. */
  function Without<T>(list: seq<T>, i: nat): (r: seq<T>)
    requires i < |list|
    ensures |r| == |list| - 1 && forall s | s in r :: s in list
  {
    list[..i] + list[i + 1..]
  }

  lemma WithoutPermutes<T>(list: seq<T>, i: nat)
    requires i < |list|
    ensures multiset(Without(list, i)) + multiset{list[i]} == multiset(list)
  {
    assert list == list[..i] + [list[i]] + list[i + 1..];
  }

  /** Distinct elements of a finite set are no more than the set has. */
  lemma {:induction false} NoRepeatsFit<T>(list: seq<T>, universe: set<T>)
    requires NoRepeats(list) && Within(list, universe)
    ensures |list| <= |universe|
  {
    if list != [] {
      var last := list[|list| - 1];
      assert last in list;
      forall s | s in list[..|list| - 1] ensures s in universe - {last} {
        assert s in list;
      }
      NoRepeatsFit(list[..|list| - 1], universe - {last});
    }
  }

  ghost predicate NoRepeats<T>(list: seq<T>) {
    forall i, j | 0 <= i < j < |list| :: list[i] != list[j]
  }

  ghost predicate Within<T>(list: seq<T>, universe: set<T>) {
    forall s | s in list :: s in universe
  }
}
