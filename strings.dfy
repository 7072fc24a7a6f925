/** String operations with the JavaScript semantics the content scripts rely on. */
module Strings {

  /** `haystack.includes(needle)`: some window of `haystack` equals `needle`. */
  function Contains(haystack: string, needle: string): (r: bool)
    decreases |haystack|
    ensures r ==> |needle| <= |haystack|
    ensures needle == [] ==> r
  {
    if |needle| > |haystack| then false
    else if haystack[..|needle|] == needle then true
    else Contains(haystack[1..], needle)
  }

  /** `needle` occurs in `haystack` starting at index `i`. */
  ghost predicate OccursAt(haystack: string, needle: string, i: int)
  {
    0 <= i && i + |needle| <= |haystack| && haystack[i..i + |needle|] == needle
  }

  /** The window search finds an occurrence exactly when there is one. */
  lemma {:induction false} ContainsIffOccurs(haystack: string, needle: string)
    ensures Contains(haystack, needle) <==> exists i :: OccursAt(haystack, needle, i)
    decreases |haystack|
  {
    if |needle| > |haystack| {
    } else if haystack[..|needle|] == needle {
      assert OccursAt(haystack, needle, 0);
    } else {
      var tail := haystack[1..];
      ContainsIffOccurs(tail, needle);
      if exists i :: OccursAt(tail, needle, i) {
        var i :| OccursAt(tail, needle, i);
        assert haystack[i + 1..i + 1 + |needle|] == tail[i..i + |needle|];
        assert OccursAt(haystack, needle, i + 1);
      }
      if exists i :: OccursAt(haystack, needle, i) {
        var i :| OccursAt(haystack, needle, i);
        assert i != 0;
        assert tail[i - 1..i - 1 + |needle|] == haystack[i..i + |needle|];
        assert OccursAt(tail, needle, i - 1);
      }
    }
  }

  /** The empty string is contained in every string. */
  lemma EmptyIsContained(haystack: string)
    ensures Contains(haystack, "")
  {
    assert OccursAt(haystack, "", 0);
    ContainsIffOccurs(haystack, "");
  }

  /** Every string contains itself. */
  lemma ContainsItself(s: string)
    ensures Contains(s, s)
  {
    assert s[..|s|] == s;
  }

  /** Containment survives putting text before and after the haystack. */
  lemma ContainsInContext(before: string, haystack: string, after: string, needle: string)
    requires Contains(haystack, needle)
    ensures Contains(before + haystack + after, needle)
  {
    ContainsIffOccurs(haystack, needle);
    var i :| OccursAt(haystack, needle, i);
    var whole := before + haystack + after;
    assert whole[|before| + i..|before| + i + |needle|] == haystack[i..i + |needle|];
    assert OccursAt(whole, needle, |before| + i);
    ContainsIffOccurs(whole, needle);
  }

  /** A needle holding a character the haystack lacks is not contained. */
  lemma {:induction false} MissingCharacter(haystack: string, needle: string, c: char)
    requires c in needle && c !in haystack
    ensures !Contains(haystack, needle)
    decreases |haystack|
  {
    if |needle| <= |haystack| {
      assert c !in haystack[..|needle|];
      MissingCharacter(haystack[1..], needle, c);
    }
  }

  predicate IsDigit(c: char)
  {
    '0' <= c <= '9'
  }

  predicate AllDigits(s: string)
  {
    forall i :: 0 <= i < |s| ==> IsDigit(s[i])
  }

  function DigitChar(d: nat): (c: char)
    requires d < 10
    ensures IsDigit(c) && c as int - '0' as int == d
  {
    ('0' as int + d) as char
  }

  /** The number a string of decimal digits denotes; leading zeros add nothing. */
  function DigitsValue(s: string): nat
    requires AllDigits(s)
  {
    if s == [] then 0 else 10 * DigitsValue(s[..|s| - 1]) + (s[|s| - 1] as int - '0' as int)
  }

  /** `${n}` for a whole non-negative number: its shortest decimal spelling. */
  function Decimal(n: nat): (r: string)
    ensures |r| >= 1 && AllDigits(r)
    ensures |r| > 1 ==> r[0] != '0'
  {
    if n < 10 then [DigitChar(n)] else Decimal(n / 10) + [DigitChar(n % 10)]
  }

  /** Reading back the decimal spelling gives the number. */
  lemma {:induction false} DecimalValue(n: nat)
    ensures DigitsValue(Decimal(n)) == n
  {
    if n >= 10 {
      DecimalValue(n / 10);
      var s := Decimal(n);
      assert s[..|s| - 1] == Decimal(n / 10);
    }
  }

  /** A number below 10 is spelled with one digit, and one of 10 or more with at least two. */
  lemma DecimalLength(n: nat)
    ensures n < 10 <==> |Decimal(n)| == 1
  {
  }

  /** `s.padStart(width, fill)` with a one-character `fill`. */
  function PadStart(s: string, width: nat, fill: char): (r: string)
    ensures |r| == if |s| >= width then |s| else width
    ensures r[|r| - |s|..] == s
    ensures forall i :: 0 <= i < |r| - |s| ==> r[i] == fill
  {
    if |s| >= width then s else seq(width - |s|, _ => fill) + s
  }

  /** Zeros put in front of a digit string do not change the number it denotes. */
  lemma {:induction false} LeadingZerosValue(zeros: nat, s: string)
    requires AllDigits(s)
    ensures AllDigits(seq(zeros, _ => '0') + s)
    ensures DigitsValue(seq(zeros, _ => '0') + s) == DigitsValue(s)
    decreases |s|
  {
    var z: string := seq(zeros, _ => '0');
    if s == [] {
      assert z + s == z;
      AllZeros(zeros);
    } else {
      var init := s[..|s| - 1];
      LeadingZerosValue(zeros, init);
      assert (z + s)[..|z + s| - 1] == z + init;
    }
  }

  lemma {:induction false} AllZeros(n: nat)
    ensures AllDigits(seq(n, _ => '0'))
    ensures DigitsValue(seq(n, _ => '0')) == 0
  {
    if n > 0 {
      var z: string := seq(n, _ => '0');
      assert z[..n - 1] == seq(n - 1, _ => '0');
      AllZeros(n - 1);
    }
  }

  /** ASCII lower-casing of one character: `A`-`Z` become `a`-`z`, everything else is kept. */
  function LowerAscii(c: char): char
  {
    if 'A' <= c <= 'Z' then (c as int + ('a' as int - 'A' as int)) as char else c
  }

  /** `s.toLowerCase()` restricted to ASCII letters. */
  function ToLowerAscii(s: string): (r: string)
    ensures |r| == |s|
    ensures forall i :: 0 <= i < |s| ==> r[i] == LowerAscii(s[i])
  {
    seq(|s|, i requires 0 <= i < |s| => LowerAscii(s[i]))
  }

  /** Lower-casing twice is lower-casing once. */
  lemma LowerIdempotent(s: string)
    ensures ToLowerAscii(ToLowerAscii(s)) == ToLowerAscii(s)
  {
  }
}
