/** Occurrences of one text in another. */
module Text {
  import opened Common

  predicate TextAt(text: string, s: string, i: nat) {
    i + |text| <= |s| && forall k | 0 <= k < |text| :: s[i + k] == text[k]
  }

  /** The first occurrence of `c` in `s` from `i` on. */
  function Find(c: string, s: string, i: nat): (r: Option<nat>)
    ensures r.Some? ==> i <= r.value && TextAt(c, s, r.value) && forall j | i <= j < r.value :: !TextAt(c, s, j)
    ensures r.None? ==> forall j: nat | i <= j :: !TextAt(c, s, j)
    decreases |s| - i
  {
    if TextAt(c, s, i) then Some(i) else if i >= |s| then None else Find(c, s, i + 1)
  }

  /** Where a text lies wholly in one part of a concatenation it lies in that part. */
  lemma {:induction false} TextInConcat(c: string, a: string, b: string, i: nat)
    ensures i + |c| <= |a| ==> (TextAt(c, a + b, i) <==> TextAt(c, a, i))
    ensures i >= |a| ==> (TextAt(c, a + b, i) <==> TextAt(c, b, i - |a|))
  {
    var s := a + b;
    if i + |c| <= |a| {
      assert s[..|a|] == a;
    } else if i >= |a| {
      assert s[|a|..] == b;
    }
  }
}
