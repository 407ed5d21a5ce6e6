/** Picking the elements of a sequence that satisfy a condition, in order. */
module Sequences {
  /** `sub` is `s` without the elements that are not kept: `at` lists where the kept ones stand. */
  ghost predicate Picks<T>(at: seq<nat>, s: seq<T>, sub: seq<T>, keep: T -> bool) {
    && |at| == |sub|
    && (forall i :: 0 <= i < |at| ==> at[i] < |s| && sub[i] == s[at[i]])
    && (forall i, j :: 0 <= i < j < |at| ==> at[i] < at[j])
    && (forall j :: 0 <= j < |s| ==> (j in at <==> keep(s[j])))
  }

  lemma PicksSnoc<T>(at: seq<nat>, s: seq<T>, sub: seq<T>, keep: T -> bool, x: T)
    requires Picks(at, s, sub, keep)
    ensures if keep(x) then Picks(at + [|s|], s + [x], sub + [x], keep) else Picks(at, s + [x], sub, keep)
  {
    assert forall i :: 0 <= i < |at| ==> at[i] in at;
  }
}
