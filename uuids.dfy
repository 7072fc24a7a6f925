/**
 * Task ids: 128-bit UUIDs, held as their 32 hexadecimal digits (most significant
 * first). `str(uuid)` writes them in the canonical 8-4-4-4-12 lower-case form and
 * `UUID(text)` reads them back, ignoring hyphens and accepting either letter case.
 */
module Uuids {
  import opened Common
  import opened Seqs

  datatype Uuid = Uuid(digits: seq<int>)

  predicate IsUuid(u: Uuid)
  {
    |u.digits| == 32 && forall i :: 0 <= i < 32 ==> 0 <= u.digits[i] < 16
  }

  /** The lower-case hexadecimal digit for `d`. */
  function HexChar(d: int): (c: char)
    requires 0 <= d < 16
    ensures HexValue(c) == Some(d)
    ensures IsLowerHexDigit(c)
  {
    if d < 10 then ('0' as int + d) as char else ('a' as int + d - 10) as char
  }

  /** The value of a hexadecimal digit in either case, as `int(text, 16)` reads it. */
  function HexValue(c: char): (r: Option<int>)
    ensures r.Some? ==> 0 <= r.value < 16
  {
    if '0' <= c <= '9' then Some(c as int - '0' as int)
    else if 'a' <= c <= 'f' then Some(c as int - 'a' as int + 10)
    else if 'A' <= c <= 'F' then Some(c as int - 'A' as int + 10)
    else None
  }

  function HexString(ds: seq<int>): (r: string)
    requires forall i :: 0 <= i < |ds| ==> 0 <= ds[i] < 16
    ensures |r| == |ds|
    ensures forall i :: 0 <= i < |r| ==> r[i] == HexChar(ds[i])
  {
    seq(|ds|, i requires 0 <= i < |ds| => HexChar(ds[i]))
  }

  /** `str(uuid)`: five hyphen-separated groups of 8, 4, 4, 4 and 12 lower-case digits. */
  function Format(u: Uuid): (r: string)
    requires IsUuid(u)
    ensures |r| == 36
  {
    var d := u.digits;
    HexString(d[..8]) + "-" + HexString(d[8..12]) + "-" + HexString(d[12..16]) + "-"
      + HexString(d[16..20]) + "-" + HexString(d[20..])
  }

  predicate NotHyphen(c: char)
  {
    c != '-'
  }

  /** `UUID(text)`: drop every hyphen; what is left must be 32 hexadecimal digits. */
  function Parse(text: string): (r: Option<Uuid>)
    ensures r.Some? ==> IsUuid(r.value)
  {
    var hex := Filter(text, NotHyphen);
    if |hex| == 32 && forall i :: 0 <= i < 32 ==> HexValue(hex[i]).Some? then
      Some(Uuid(seq(32, i requires 0 <= i < 32 => HexValue(hex[i]).value)))
    else
      None
  }

  /** A character `str(uuid)` may use for a digit: `0`-`9` or `a`-`f`. */
  predicate IsLowerHexDigit(c: char)
  {
    '0' <= c <= '9' || 'a' <= c <= 'f'
  }

  /** Hyphens sit at offsets 8, 13, 18 and 23 of the canonical form, and every other character is a lower-case digit. */
  lemma FormatShape(u: Uuid)
    requires IsUuid(u)
    ensures |Format(u)| == 36
    ensures var r := Format(u);
      forall i :: 0 <= i < 36 ==> (r[i] == '-' <==> i in {8, 13, 18, 23})
    ensures var r := Format(u);
      forall i :: 0 <= i < 36 && i !in {8, 13, 18, 23} ==> IsLowerHexDigit(r[i])
  {
    var r := Format(u);
    forall i | 0 <= i < 36
      ensures r[i] == '-' <==> i in {8, 13, 18, 23}
      ensures i !in {8, 13, 18, 23} ==> IsLowerHexDigit(r[i])
    {
      if i !in {8, 13, 18, 23} {
        var d := u.digits;
        var k := if i < 8 then i else if i < 13 then i - 1 else if i < 18 then i - 2 else if i < 23 then i - 3 else i - 4;
        assert r[i] == HexChar(d[k]) by {
          if i < 8 { assert r[i] == HexChar(d[i]); }
          else if i < 13 { assert r[i] == HexChar(d[i - 1]); }
          else if i < 18 { assert r[i] == HexChar(d[i - 2]); }
          else if i < 23 { assert r[i] == HexChar(d[i - 3]); }
          else { assert r[i] == HexChar(d[i - 4]); }
        }
      }
    }
  }

  /** Digits alone pass the hyphen filter unchanged. */
  lemma HexStringKept(ds: seq<int>)
    requires forall i :: 0 <= i < |ds| ==> 0 <= ds[i] < 16
    ensures Filter(HexString(ds), NotHyphen) == HexString(ds)
  {
    var h := HexString(ds);
    forall i | 0 <= i < |h|
      ensures NotHyphen(h[i])
    {
      assert HexValue(h[i]).Some?;
    }
    FilterAllKept(h, NotHyphen);
  }

  lemma HyphenDropped()
    ensures Filter("-", NotHyphen) == []
  {
    assert "-"[1..] == [];
  }

  /** Dropping hyphens from `x`, a hyphen and a group of digits keeps the group whole. */
  lemma DropHyphen(x: string, ds: seq<int>)
    requires forall i :: 0 <= i < |ds| ==> 0 <= ds[i] < 16
    ensures Filter(x + "-" + HexString(ds), NotHyphen) == Filter(x, NotHyphen) + HexString(ds)
  {
    var h := HexString(ds);
    var y := x + "-";
    assert Filter(y, NotHyphen) == Filter(x, NotHyphen) by {
      FilterAppend(x, "-", NotHyphen);
      HyphenDropped();
    }
    assert Filter(h, NotHyphen) == h by {
      HexStringKept(ds);
    }
    FilterAppend(y, h, NotHyphen);
  }

  lemma HexStringAppend(a: seq<int>, b: seq<int>)
    requires forall i :: 0 <= i < |a| ==> 0 <= a[i] < 16
    requires forall i :: 0 <= i < |b| ==> 0 <= b[i] < 16
    ensures HexString(a) + HexString(b) == HexString(a + b)
  {
  }

  /** Dropping the hyphens of the canonical form leaves the 32 digits. */
  lemma FormatDigits(u: Uuid)
    requires IsUuid(u)
    ensures Filter(Format(u), NotHyphen) == HexString(u.digits)
  {
    var d := u.digits;
    var x1 := HexString(d[..8]);
    var x2 := x1 + "-" + HexString(d[8..12]);
    var x3 := x2 + "-" + HexString(d[12..16]);
    var x4 := x3 + "-" + HexString(d[16..20]);
    var x5 := x4 + "-" + HexString(d[20..]);
    assert x5 == Format(u);
    HexStringKept(d[..8]);
    DropHyphen(x1, d[8..12]);
    HexStringAppend(d[..8], d[8..12]);
    assert d[..8] + d[8..12] == d[..12];
    DropHyphen(x2, d[12..16]);
    HexStringAppend(d[..12], d[12..16]);
    assert d[..12] + d[12..16] == d[..16];
    DropHyphen(x3, d[16..20]);
    HexStringAppend(d[..16], d[16..20]);
    assert d[..16] + d[16..20] == d[..20];
    DropHyphen(x4, d[20..]);
    HexStringAppend(d[..20], d[20..]);
    assert d[..20] + d[20..] == d;
  }

  /** `UUID(str(u)) == u`. */
  lemma ParseFormat(u: Uuid)
    requires IsUuid(u)
    ensures Parse(Format(u)) == Some(u)
  {
    FormatDigits(u);
    var hex := HexString(u.digits);
    assert forall i :: 0 <= i < 32 ==> HexValue(hex[i]) == Some(u.digits[i]);
    assert seq(32, i requires 0 <= i < 32 => HexValue(hex[i]).value) == u.digits;
  }
}
