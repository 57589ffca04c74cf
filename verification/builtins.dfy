/**
 The three Python built-ins the link rule is written with: `str.startswith`,
 substring containment (`sub in s`) and `all` over a list of booleans.
 Strings are sequences of characters; nothing here folds case.
 */
module Builtins {

  /** `s.startswith(prefix)`: the first |prefix| characters of `s` are `prefix`. */
  predicate StartsWith(s: string, prefix: string)
  {
    |prefix| <= |s| && s[..|prefix|] == prefix
  }

  /** `sub` stands in `s` starting at index `i`. */
  ghost predicate OccursAt(sub: string, s: string, i: int)
  {
    0 <= i <= |s| - |sub| && s[i..i + |sub|] == sub
  }

  /** Reference definition of `sub in s`: `sub` occurs at some position of `s`. */
  ghost predicate OccursIn(sub: string, s: string)
  {
    exists i :: OccursAt(sub, s, i)
  }

  /** `sub in s`, computed by trying each start position from the left. */
  predicate Contains(s: string, sub: string)
    decreases |s|
  {
    if StartsWith(s, sub) then true
    else if |s| == 0 then false
    else Contains(s[1..], sub)
  }

  /** The scanning definition agrees with the reference one, in both directions. */
  lemma {:induction false} ContainsIffOccurs(s: string, sub: string)
    ensures Contains(s, sub) <==> OccursIn(sub, s)
    decreases |s|
  {
    // a match at index 0 is exactly a prefix
    assert OccursAt(sub, s, 0) <==> StartsWith(s, sub);
    if !StartsWith(s, sub) {
      if |s| != 0 {
        ContainsIffOccurs(s[1..], sub);
        if OccursIn(sub, s[1..]) {
          var i :| OccursAt(sub, s[1..], i);
          assert s[1..][i..i + |sub|] == s[i + 1..i + 1 + |sub|];
          assert OccursAt(sub, s, i + 1);
        }
        if OccursIn(sub, s) {
          var i :| OccursAt(sub, s, i);
          assert s[1..][i - 1..i - 1 + |sub|] == s[i..i + |sub|];
          assert OccursAt(sub, s[1..], i - 1);
        }
      }
    }
  }

  /** Python's `all(conditions)`: true exactly when no condition is false (so true on []). */
  function All(conditions: seq<bool>): (r: bool)
    ensures r <==> forall i :: 0 <= i < |conditions| ==> conditions[i]
  {
    if conditions == [] then true
    else
      assert forall i :: 1 <= i < |conditions| ==> conditions[i] == conditions[1..][i - 1];
      conditions[0] && All(conditions[1..])
  }
}
