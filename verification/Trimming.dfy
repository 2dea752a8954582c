/** Trimming white space from the start of a text; what counts as white space is a parameter. */
module Trimming {
  function TrimStart(s: string, space: char -> bool): string {
    if s != [] && space(s[0]) then TrimStart(s[1..], space) else s
  }

  /** Trimming takes exactly the leading white space. */
  lemma {:induction false} TrimStartTakesSpace(s: string, space: char -> bool)
    ensures var r := TrimStart(s, space);
            && |r| <= |s| && r == s[|s| - |r|..] && (r != [] ==> !space(r[0]))
            && forall k :: 0 <= k < |s| - |r| ==> space(s[k])
  {
    if s != [] && space(s[0]) {
      TrimStartTakesSpace(s[1..], space);
      var r := TrimStart(s, space);
      assert r == TrimStart(s[1..], space) && s[1..][|s| - 1 - |r|..] == s[|s| - |r|..];
      forall k | 0 <= k < |s| - |r| ensures space(s[k]) {
        assert k > 0 ==> s[k] == s[1..][k-1];
      }
    }
  }
}
