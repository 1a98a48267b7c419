/** The JavaScript string operations the search boxes and drop-downs rely on:
    `toLowerCase` (ASCII letters only), `includes`, `Number.prototype.toString`
    for integers, and `parseInt` on decimal text. */
module Text {
  import opened Wrappers

  function LowerChar(c: char): char
  {
    if 'A' <= c <= 'Z' then (c as int + 32) as char else c
  }

  /** `s.toLowerCase()`: upper-case ASCII letters become lower case, every other
      character is kept. */
  function Lower(s: string): (r: string)
    ensures |r| == |s|
    ensures forall i :: 0 <= i < |s| ==> r[i] == LowerChar(s[i])
    decreases |s|
  {
    if |s| == 0 then "" else [LowerChar(s[0])] + Lower(s[1..])
  }

  /** Lower-casing twice is lower-casing once. */
  lemma LowerIdempotent(s: string)
    ensures Lower(Lower(s)) == Lower(s)
  {
    var l := Lower(s);
    assert forall i :: 0 <= i < |l| ==> LowerChar(l[i]) == l[i];
  }

  /** `hay.includes(needle)`, written as a scan: either `needle` starts `hay`
      or it occurs in the rest. */
  predicate Includes(hay: string, needle: string)
    decreases |hay|
  {
    needle <= hay || (|hay| > 0 && Includes(hay[1..], needle))
  }

  /** `needle` occupies positions `i .. i + |needle|` of `hay`. */
  predicate OccursAt(hay: string, needle: string, i: int)
  {
    0 <= i && i + |needle| <= |hay| && hay[i..i + |needle|] == needle
  }

  /** The scan agrees with the definition of a substring, in both directions. */
  lemma {:induction false} IncludesIff(hay: string, needle: string)
    ensures Includes(hay, needle) <==> exists i :: OccursAt(hay, needle, i)
    decreases |hay|
  {
    if Includes(hay, needle) {
      if needle <= hay {
        assert OccursAt(hay, needle, 0);
      } else {
        IncludesIff(hay[1..], needle);
        var i :| OccursAt(hay[1..], needle, i);
        TailSlice(hay, i, i + |needle|);
        assert OccursAt(hay, needle, i + 1);
      }
    }
    if exists i :: OccursAt(hay, needle, i) {
      var i :| OccursAt(hay, needle, i);
      if i > 0 {
        TailSlice(hay, i - 1, i - 1 + |needle|);
        IncludesIff(hay[1..], needle);
        assert OccursAt(hay[1..], needle, i - 1);
      } else {
        assert hay[..|needle|] == needle;
      }
    }
  }

  /** A slice of the tail is the slice of the whole one position later. */
  lemma TailSlice(s: string, i: int, j: int)
    requires 0 <= i <= j < |s|
    ensures s[1..][i..j] == s[i + 1..j + 1]
  {
    forall k | 0 <= k < j - i ensures s[1..][i..j][k] == s[i + 1..j + 1][k] {
    }
  }

  /** Every string includes the empty string. */
  lemma IncludesEmpty(hay: string)
    ensures Includes(hay, "")
  {
    assert "" <= hay;
  }

  predicate IsDigit(c: char) { '0' <= c <= '9' }

  predicate AllDigits(s: string) { forall i :: 0 <= i < |s| ==> IsDigit(s[i]) }

  function Digit(d: nat): (c: char)
    requires d < 10
    ensures IsDigit(c) && c as int - '0' as int == d
  {
    (d + '0' as int) as char
  }

  /** `n.toString()` for a natural number: its decimal digits, no leading zero. */
  function NatToString(n: nat): (s: string)
    ensures |s| >= 1 && AllDigits(s)
    ensures |s| > 1 ==> s[0] != '0'
    decreases n
  {
    if n < 10 then [Digit(n)] else NatToString(n / 10) + [Digit(n % 10)]
  }

  /** `n.toString()` for an integer: a minus sign before the digits of `-n` when negative. */
  function IntToString(n: int): string
  {
    if n < 0 then "-" + NatToString(-n) else NatToString(n)
  }

  /** The longest prefix of `s` made of decimal digits. */
  function LeadingDigits(s: string): (r: string)
    ensures r <= s && AllDigits(r)
    ensures |r| == |s| || !IsDigit(s[|r|])
    decreases |s|
  {
    if |s| > 0 && IsDigit(s[0]) then [s[0]] + LeadingDigits(s[1..]) else ""
  }

  /** The number a string of decimal digits denotes. */
  function DigitsValue(s: string): nat
    requires AllDigits(s)
    decreases |s|
  {
    if |s| == 0 then 0
    else DigitsValue(s[..|s| - 1]) * 10 + (s[|s| - 1] as int - '0' as int)
  }

  /** `parseInt(s)`: an optional sign, then the leading run of decimal digits;
      `None` stands for `NaN`, the result when there is no digit. */
  function ParseInt(s: string): Option<int>
  {
    var signed := |s| > 0 && (s[0] == '-' || s[0] == '+');
    var digits := LeadingDigits(if signed then s[1..] else s);
    var value: int := if |digits| == 0 then 0 else DigitsValue(digits);
    if |digits| == 0 then None
    else if signed && s[0] == '-' then Some(-value)
    else Some(value)
  }

  lemma {:induction false} DigitsOfNat(n: nat)
    ensures DigitsValue(NatToString(n)) == n
    decreases n
  {
    var s := NatToString(n);
    if n >= 10 {
      DigitsOfNat(n / 10);
      assert s[..|s| - 1] == NatToString(n / 10);
    }
  }

  lemma {:induction false} LeadingDigitsOfDigits(s: string)
    requires AllDigits(s)
    ensures LeadingDigits(s) == s
    decreases |s|
  {
    if |s| > 0 {
      LeadingDigitsOfDigits(s[1..]);
      assert [s[0]] + s[1..] == s;
    }
  }

  /** `parseInt` reads back what `toString` wrote, for every integer: the
      drop-down values built from numbers select exactly those numbers. */
  lemma ParseIntToString(n: int)
    ensures ParseInt(IntToString(n)) == Some(n)
  {
    var m := if n < 0 then -n else n;
    var digits := NatToString(m);
    DigitsOfNat(m);
    LeadingDigitsOfDigits(digits);
    if n < 0 {
      assert ("-" + digits)[1..] == digits;
    } else {
      assert digits[0] != '-' && digits[0] != '+';
    }
  }

  /** A word with no leading sign or digit, such as "all", parses to `NaN`. */
  lemma ParseIntNoDigits(s: string)
    requires |s| > 0 && !IsDigit(s[0]) && s[0] != '-' && s[0] != '+'
    ensures ParseInt(s) == None
  {
  }
}
