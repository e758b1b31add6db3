/**
 * Python's `int(text)` as the handlers apply it to the `{id}` path segment,
 * restricted to ASCII: surrounding whitespace, an optional `+` or `-`, then
 * decimal digits where a single `_` may separate two digits. Anything else
 * raises `ValueError`, modelled as `None`.
 */
module IntParse {
  import opened Wrappers
  import opened Text

  predicate IsDigit(c: char) {
    '0' <= c <= '9'
  }

  /** A character that can occur anywhere in a string `int()` accepts. */
  predicate IsIntChar(c: char) {
    IsDigit(c) || c == '_' || c == '+' || c == '-' || IsSpace(c)
  }

  /** Digits with single underscores between them: `1_000` but not `_1`, `1_` or `1__0`. */
  predicate IsGrouped(s: string) {
    && |s| > 0
    && IsDigit(s[0])
    && IsDigit(s[|s| - 1])
    && (forall i | 0 <= i < |s| :: IsDigit(s[i]) || s[i] == '_')
    && (forall i | 0 <= i < |s| - 1 :: s[i] == '_' ==> IsDigit(s[i + 1]))
  }

  function DigitValue(c: char): nat
    requires IsDigit(c)
  {
    (c as int) - ('0' as int)
  }

  /** The decimal value of the digits of `s`, most significant first, underscores skipped. */
  function GroupedValue(s: string): nat
    requires forall i | 0 <= i < |s| :: IsDigit(s[i]) || s[i] == '_'
  {
    if |s| == 0 then 0
    else if s[|s| - 1] == '_' then GroupedValue(s[..|s| - 1])
    else 10 * GroupedValue(s[..|s| - 1]) + DigitValue(s[|s| - 1])
  }

  function ParseInt(s: string): (r: Option<int>)
    ensures r.Some? ==> forall k | 0 <= k < |s| :: IsIntChar(s[k])
    ensures (forall k | 0 <= k < |s| :: !IsDigit(s[k])) ==> r.None?
  {
    var t := Strip(s);
    var signed := |t| > 0 && (t[0] == '+' || t[0] == '-');
    var digits := if signed then t[1..] else t;
    if IsGrouped(digits) then
      var n: int := GroupedValue(digits);
      StripCharacters(s, signed);
      Some(if signed && t[0] == '-' then -n else n)
    else
      None
  }

  /** What the body of ParseInt needs about the characters of the stripped text. */
  lemma StripCharacters(s: string, signed: bool)
    requires var t := Strip(s); signed == (|t| > 0 && (t[0] == '+' || t[0] == '-'))
    requires IsGrouped(if signed then Strip(s)[1..] else Strip(s))
    ensures forall k | 0 <= k < |s| :: IsIntChar(s[k])
    ensures exists k | 0 <= k < |s| :: IsDigit(s[k])
  {
    var t := Strip(s);
    var i, j := StripSlice(s);
    var digits := if signed then t[1..] else t;
    forall k | 0 <= k < |s| ensures IsIntChar(s[k]) {
      if i <= k < j {
        assert s[k] == t[k - i];
        if signed && k == i {
        } else {
          var d := if signed then k - i - 1 else k - i;
          assert s[k] == digits[d];
        }
      }
    }
    var w := if signed then i + 1 else i;
    assert s[w] == digits[0];
  }

  /** Python's `str(n)` for a non-negative integer. */
  function NatToDecimal(n: nat): (s: string)
    ensures |s| > 0
    ensures forall i | 0 <= i < |s| :: IsDigit(s[i])
  {
    var last := ['0' + ((n % 10) as char)];
    if n < 10 then last else NatToDecimal(n / 10) + last
  }

  /** Python's `str(n)`, the form in which an id appears in a URL path. */
  function IntToDecimal(n: int): string {
    if n < 0 then "-" + NatToDecimal(-n) else NatToDecimal(n)
  }

  lemma {:induction false} GroupedValueOfDecimal(n: nat)
    ensures GroupedValue(NatToDecimal(n)) == n
  {
    var s := NatToDecimal(n);
    if n >= 10 {
      GroupedValueOfDecimal(n / 10);
      assert s[..|s| - 1] == NatToDecimal(n / 10);
    }
  }

  /** Parsing the decimal rendering of any integer gives the integer back. */
  lemma ParseIntOfDecimal(n: int)
    ensures ParseInt(IntToDecimal(n)) == Some(n)
  {
    var s := IntToDecimal(n);
    var m := if n < 0 then -n else n;
    var ds := NatToDecimal(m);
    GroupedValueOfDecimal(m);
    assert IsStripped(s);
    StripOfStripped(s);
    if n < 0 {
      assert s[1..] == ds;
    }
    assert IsGrouped(ds);
  }

  /** `"-1"` is an integer, so a request for id -1 reaches the store. */
  lemma MinusOneParses()
    ensures ParseInt("-1") == Some(-1)
  {
    ParseIntOfDecimal(-1);
    assert IntToDecimal(-1) == "-1";
  }

  /** A string holding a character `int()` never accepts is refused. */
  lemma RejectsForeignChar(s: string, k: nat)
    requires k < |s| && !IsIntChar(s[k])
    ensures ParseInt(s) == None
  {
  }

  /** Path segments that are not integers to Python: special floats, decimals, exponents, non-ASCII letters. */
  const NonIntegerIds: seq<string> := [
    "-inf", "inf", "NaN", "1e+2", "1e-2", "0.1", "_",
    "\U{FF35}\U{FF2E}\U{FF29}\U{FF23}\U{FF2F}\U{FF24}\U{FF25}"
  ]

  /** Each of them is refused, so the handlers answer 400 for them. */
  lemma NonIntegerIdsRejected(k: nat)
    requires k < |NonIntegerIds|
    ensures ParseInt(NonIntegerIds[k]) == None
  {
    var s := NonIntegerIds[k];
    if k == 0 || k == 3 || k == 4 || k == 5 {
      RejectsForeignChar(s, 1);
    } else if k == 6 {
      assert !IsDigit(s[0]);
    } else {
      RejectsForeignChar(s, 0);
    }
  }
}
