/** String helpers of the JavaScript runtime. */
module JsText {

  predicate IsWhiteSpace(c: char) {
    || '\t' <= c <= '\r' || c == ' ' || c == '\U{A0}' || c == '\U{1680}' || '\U{2000}' <= c <= '\U{200A}'
    || c == '\U{2028}' || c == '\U{2029}' || c == '\U{202F}' || c == '\U{205F}' || c == '\U{3000}' || c == '\U{FEFF}'
  }

  /** String.prototype.trim. */
  function Trim(s: string): string {
    if s == "" then ""
    else if IsWhiteSpace(s[0]) then Trim(s[1..])
    else if IsWhiteSpace(s[|s| - 1]) then Trim(s[..|s| - 1])
    else s
  }

  /** White space and line terminators, by code point. */
  lemma WhiteSpaceCharacters(c: char)
    ensures IsWhiteSpace(c) <==>
              || 9 <= c as int <= 13 || c as int in {32, 160, 5760, 8232, 8233, 8239, 8287, 12288, 65279}
              || 8192 <= c as int <= 8202
  {
  }

  /** What trimming takes off either end is white space, and it takes all of it. */
  lemma {:induction false} TrimTakesWhiteSpace(s: string) returns (from: nat, to: nat)
    ensures from <= to <= |s| && Trim(s) == s[from..to]
    ensures forall i :: 0 <= i < from || to <= i < |s| ==> IsWhiteSpace(s[i])
    ensures Trim(s) != "" ==> !IsWhiteSpace(s[from]) && !IsWhiteSpace(s[to - 1])
  {
    if s == "" {
      from, to := 0, 0;
    } else if IsWhiteSpace(s[0]) {
      var lo, hi := TrimTakesWhiteSpace(s[1..]);
      from, to := lo + 1, hi + 1;
      assert s[1..][lo..hi] == s[from..to];
      assert forall i :: 0 < i < |s| ==> s[i] == s[1..][i - 1];
    } else if IsWhiteSpace(s[|s| - 1]) {
      var lo, hi := TrimTakesWhiteSpace(s[..|s| - 1]);
      from, to := lo, hi;
      assert s[..|s| - 1][lo..hi] == s[from..to];
      assert forall i :: 0 <= i < |s| - 1 ==> s[i] == s[..|s| - 1][i];
    } else {
      from, to := 0, |s|;
      assert s[0..|s|] == s;
    }
  }
}
