/**
 * Whitespace stripping. pydantic's `strip_whitespace` trims the characters of
 * the Unicode White_Space property from both ends, and Python's `int()` skips
 * the same set around its digits, so both use `IsSpace` below.
 */
module Text {

  /** The Unicode White_Space property. */
  predicate IsSpace(c: char) {
    || ('\t' <= c <= '\r')
    || c == ' '
    || c == '\U{85}'
    || c == '\U{A0}'
    || c == '\U{1680}'
    || ('\U{2000}' <= c <= '\U{200A}')
    || c == '\U{2028}'
    || c == '\U{2029}'
    || c == '\U{202F}'
    || c == '\U{205F}'
    || c == '\U{3000}'
  }

  predicate AllSpace(s: string) {
    forall k | 0 <= k < |s| :: IsSpace(s[k])
  }

  /** Neither end of `s` is whitespace, so stripping has nothing to remove. */
  predicate IsStripped(s: string) {
    |s| == 0 || (!IsSpace(s[0]) && !IsSpace(s[|s| - 1]))
  }

  /** Index of the first non-space character (|s| when there is none). */
  function FirstNonSpace(s: string): (i: nat)
    ensures i <= |s|
    ensures forall k | 0 <= k < i :: IsSpace(s[k])
    ensures i < |s| ==> !IsSpace(s[i])
  {
    if |s| == 0 || !IsSpace(s[0]) then 0 else 1 + FirstNonSpace(s[1..])
  }

  /** One past the last non-space character (0 when there is none). */
  function EndOfNonSpace(s: string): (j: nat)
    ensures j <= |s|
    ensures forall k | j <= k < |s| :: IsSpace(s[k])
    ensures 0 < j ==> !IsSpace(s[j - 1])
  {
    if |s| == 0 || !IsSpace(s[|s| - 1]) then |s| else EndOfNonSpace(s[..|s| - 1])
  }

  /** pydantic's `strip_whitespace` (Rust's `str::trim()`): remove White_Space from both ends. */
  function Strip(s: string): (r: string)
    ensures IsStripped(r)
    ensures |r| <= |s|
    ensures AllSpace(s) ==> r == []
  {
    var i := FirstNonSpace(s);
    var j := EndOfNonSpace(s);
    if i < j then s[i..j] else []
  }

  /** Strip removes only whitespace, and only from the two ends: it returns a slice of `s`. */
  lemma StripSlice(s: string) returns (i: nat, j: nat)
    ensures i <= j <= |s|
    ensures Strip(s) == s[i..j]
    ensures forall k | 0 <= k < i :: IsSpace(s[k])
    ensures forall k | j <= k < |s| :: IsSpace(s[k])
  {
    i := FirstNonSpace(s);
    j := EndOfNonSpace(s);
    if j <= i {
      j := i;
    }
  }

  /**
   * Strip is characterised by the decomposition it finds: surrounding a
   * stripped string with whitespace on either side and stripping gives it back.
   */
  lemma {:induction false} StripDecomposition(a: string, m: string, b: string)
    requires AllSpace(a) && AllSpace(b) && IsStripped(m)
    ensures Strip(a + m + b) == m
  {
    var s := a + m + b;
    var i := FirstNonSpace(s);
    var j := EndOfNonSpace(s);
    if |m| == 0 {
      assert s == a + b;
      assert AllSpace(s) by {
        forall k | 0 <= k < |s| ensures IsSpace(s[k]) {
          if k < |a| { assert s[k] == a[k]; } else { assert s[k] == b[k - |a|]; }
        }
      }
    } else {
      assert s[|a|] == m[0];
      assert s[|a| + |m| - 1] == m[|m| - 1];
      forall k | 0 <= k < |a| ensures IsSpace(s[k]) {
        assert s[k] == a[k];
      }
      forall k | |a| + |m| <= k < |s| ensures IsSpace(s[k]) {
        assert s[k] == b[k - |a| - |m|];
      }
      assert i == |a|;
      assert j == |a| + |m|;
      assert s[i..j] == m;
    }
  }

  /** Stripping a stripped string changes nothing. */
  lemma StripOfStripped(m: string)
    requires IsStripped(m)
    ensures Strip(m) == m
  {
    StripDecomposition([], m, []);
    assert [] + m + [] == m;
  }

  /** Stripping is idempotent. */
  lemma StripIdempotent(s: string)
    ensures Strip(Strip(s)) == Strip(s)
  {
    StripOfStripped(Strip(s));
  }
}
