/** The few pieces of Python's `str` behaviour the model relies on. */
module Text {

  /** The ASCII digit character for `d`. */
  function DigitChar(d: nat): (c: char)
    requires d < 10
    ensures '0' <= c <= '9'
    ensures c as int - '0' as int == d
  {
    (d + '0' as int) as char
  }

  /** `str(n)` for a non-negative Python int: decimal digits without leading zeros. */
  function DecimalString(n: nat): (s: string)
    ensures |s| >= 1
    ensures forall i :: 0 <= i < |s| ==> '0' <= s[i] <= '9'
    ensures s[0] == '0' <==> n == 0
    ensures n < 10 <==> |s| == 1
  {
    if n < 10 then [DigitChar(n)] else DecimalString(n / 10) + [DigitChar(n % 10)]
  }

  /** Distinct numbers have distinct decimal strings, so a lookup keyed by `str(id)` is keyed by `id`. */
  lemma {:induction false} DecimalStringInjective(a: nat, b: nat)
    requires DecimalString(a) == DecimalString(b)
    ensures a == b
  {
    var s := DecimalString(a);
    if a < 10 {
      assert DigitChar(a) == s[0] == DigitChar(b);
    } else {
      assert b >= 10;
      var n := |s|;
      assert DigitChar(a % 10) == s[n - 1] == DigitChar(b % 10);
      assert DecimalString(a / 10) == s[..n - 1] == DecimalString(b / 10);
      DecimalStringInjective(a / 10, b / 10);
    }
  }

  /** Python's `str.isspace` for one character (the Unicode whitespace it recognises). */
  predicate IsSpace(c: char) {
    var n := c as int;
    (9 <= n <= 13) || (28 <= n <= 32) || n == 0x85 || n == 0xA0 || n == 0x1680
    || (0x2000 <= n <= 0x200A) || n == 0x2028 || n == 0x2029 || n == 0x202F
    || n == 0x205F || n == 0x3000
  }

  /** `s.lstrip()`: `s` without its leading whitespace. */
  function StripStart(s: string): (r: string)
    ensures |r| <= |s|
  {
    if s != [] && IsSpace(s[0]) then StripStart(s[1..]) else s
  }

  /** `s.rstrip()`: `s` without its trailing whitespace. */
  function StripEnd(s: string): (r: string)
    ensures |r| <= |s|
  {
    if s != [] && IsSpace(s[|s| - 1]) then StripEnd(s[..|s| - 1]) else s
  }

  /** `s.strip()`: the part of `s` between its leading and its trailing whitespace. */
  function Strip(s: string): (r: string)
    ensures |r| <= |s|
  {
    StripEnd(StripStart(s))
  }

  /** `lstrip` removes exactly a run of leading whitespace and stops at the first visible character. */
  lemma {:induction false} StripStartRemovesLeadingSpace(s: string)
    ensures var r := StripStart(s);
      && r == s[|s| - |r|..]
      && (forall i :: 0 <= i < |s| - |r| ==> IsSpace(s[i]))
      && (r == [] || !IsSpace(r[0]))
  {
    if s != [] && IsSpace(s[0]) {
      StripStartRemovesLeadingSpace(s[1..]);
    }
  }

  /** `rstrip` removes exactly a run of trailing whitespace and stops at the last visible character. */
  lemma {:induction false} StripEndRemovesTrailingSpace(s: string)
    ensures var r := StripEnd(s);
      && r == s[..|r|]
      && (forall i :: |r| <= i < |s| ==> IsSpace(s[i]))
      && (r == [] || !IsSpace(r[|r| - 1]))
  {
    if s != [] && IsSpace(s[|s| - 1]) {
      StripEndRemovesTrailingSpace(s[..|s| - 1]);
    }
  }

  /**
   * `strip` keeps a contiguous part of `s` that neither starts nor ends with
   * whitespace, and everything it drops is whitespace; it yields "" exactly
   * when `s` is all whitespace.
   */
  lemma StripSpec(s: string)
    ensures var r := Strip(s);
      && (r == [] || (!IsSpace(r[0]) && !IsSpace(r[|r| - 1])))
      && (r == [] <==> forall i :: 0 <= i < |s| ==> IsSpace(s[i]))
      && var lo := |s| - |StripStart(s)|;
         && lo + |r| <= |s| && r == s[lo..lo + |r|]
         && (forall i :: 0 <= i < lo ==> IsSpace(s[i]))
         && (forall i :: lo + |r| <= i < |s| ==> IsSpace(s[i]))
  {
    var t := StripStart(s);
    StripStartRemovesLeadingSpace(s);
    StripEndRemovesTrailingSpace(t);
    var r := StripEnd(t);
    var lo := |s| - |t|;
    assert r != [] ==> r[0] == t[0];
    assert r == [] ==> t == [];
    assert r == s[lo..lo + |r|];
  }

  /** When `s` starts with a visible character, `strip` only removes trailing whitespace. */
  lemma StripKeepsVisibleFront(s: string)
    requires s != [] && !IsSpace(s[0])
    ensures Strip(s) == StripEnd(s)
  {
  }

  /**
   * A prefix starting with a visible character survives `strip` when some
   * visible character lies at or after its end.
   */
  lemma StripKeepsVisiblePrefix(s: string, h: string, j: nat)
    requires h != [] && h <= s && !IsSpace(h[0])
    requires |h| <= j < |s| && !IsSpace(s[j])
    ensures h <= Strip(s)
  {
    StripKeepsVisibleFront(s);
    StripEndRemovesTrailingSpace(s);
    var r := StripEnd(s);
    assert |r| > j;
    assert h == s[..|h|] == r[..|h|];
  }

  /** Stripping text that ends in a visible character followed by a blank line drops exactly the newlines. */
  lemma StripDropsTrailingNewlines(x: string)
    requires x != [] && !IsSpace(x[0]) && !IsSpace(x[|x| - 1])
    ensures Strip(x + "\n\n") == x
  {
    var s := x + "\n\n";
    assert s[..|s| - 1] == x + "\n";
    assert (x + "\n")[..|x|] == x;
    assert StripEnd(x) == x;
    assert StripEnd(x + "\n") == x;
  }
}
