/** Walks from place to place under a deterministic rule. */
module Walks {
  import opened Basics
  import opened Bytes

  type Rule = nat -> Option<nat>

  /** The places of the first `steps` steps. */
  function Walk(next: Rule, place: nat, steps: nat): (v: seq<nat>)
    ensures |v| <= steps && (steps > 0 ==> v != [] && v[0] == place)
    decreases steps, 0
  {
    if steps == 0 then [] else [place] + Onward(next, place, steps - 1)
  }

  function Onward(next: Rule, place: nat, steps: nat): (v: seq<nat>)
    ensures |v| <= steps
    decreases steps, 1
  {
    match next(place)
    case None => []
    case Some(n) => Walk(next, n, steps)
  }

  /** More steps only prolong the walk, and not even that once it has ended. */
  lemma {:induction false} WalkPrefix(next: Rule, place: nat, steps: nat, more: nat)
    requires steps <= more
    ensures Walk(next, place, steps) <= Walk(next, place, more)
    ensures |Walk(next, place, steps)| < steps ==> Walk(next, place, steps) == Walk(next, place, more)
    decreases steps
  {
    if steps > 0 && next(place).Some? {
      WalkPrefix(next, next(place).value, steps - 1, more - 1);
    }
  }

  /** From any place on it, the walk goes on as if it had begun there. */
  lemma {:induction false} WalkSuffix(next: Rule, place: nat, steps: nat, k: nat)
    requires k < |Walk(next, place, steps)|
    ensures Walk(next, place, steps)[k..] == Walk(next, Walk(next, place, steps)[k], steps - k)
    decreases k
  {
    if k > 0 {
      var rest := Onward(next, place, steps - 1);
      assert ([place] + rest)[k..] == rest[k - 1..];
      WalkSuffix(next, next(place).value, steps - 1, k - 1);
    }
  }

  /** A walk that ends never comes back to a place: from there it would take as long again. */
  lemma PlacesDiffer(next: Rule, place: nat, steps: nat, i: nat, j: nat)
    requires i < j < |Walk(next, place, steps)| < steps
    ensures Walk(next, place, steps)[i] != Walk(next, place, steps)[j]
  {
    var v := Walk(next, place, steps);
    WalkSuffix(next, place, steps, i);
    WalkSuffix(next, place, steps, j);
    WalkPrefix(next, v[j], steps - j, steps - i);
    assert |v[i..]| != |v[j..]|;
  }

  /** The first part of a walk that ends within some number of steps has no place twice. */
  lemma EndingWalk(next: Rule, place: nat, steps: nat, enough: nat)
    requires |Walk(next, place, enough)| < enough && steps <= enough
    ensures NoRepeats(Walk(next, place, steps))
  {
    WalkPrefix(next, place, steps, enough);
    forall i, j | 0 <= i < j < |Walk(next, place, steps)| ensures Walk(next, place, steps)[i] != Walk(next, place, steps)[j] {
      PlacesDiffer(next, place, enough, i, j);
    }
  }

  /** The places up to `n`. */
  function UpTo(n: nat): (r: set<nat>)
    ensures |r| == n + 1 && forall i: nat :: i in r <==> i <= n
  {
    if n == 0 then {0} else UpTo(n - 1) + {n}
  }
}
