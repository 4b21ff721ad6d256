/** Hexadecimal text as used by MongoDB object ids: `parseInt(s, 16)` on the way in,
    lower-case fixed-width digits on the way out. */
module Hex {

  predicate IsHexDigit(c: char) {
    '0' <= c <= '9' || 'a' <= c <= 'f' || 'A' <= c <= 'F'
  }

  predicate IsLowerHexDigit(c: char) {
    '0' <= c <= '9' || 'a' <= c <= 'f'
  }

  predicate AllHex(s: string) {
    forall i :: 0 <= i < |s| ==> IsHexDigit(s[i])
  }

  /** The canonical text of an object id: 24 lower-case hex digits (12 bytes). */
  predicate IsObjectIdHex(s: string) {
    |s| == 24 && forall i :: 0 <= i < |s| ==> IsLowerHexDigit(s[i])
  }

  function DigitValue(c: char): (v: nat)
    requires IsHexDigit(c)
    ensures v < 16
  {
    if '0' <= c <= '9' then c as int - '0' as int
    else if 'a' <= c <= 'f' then c as int - 'a' as int + 10
    else c as int - 'A' as int + 10
  }

  /** The lower-case digit for `v`; it reads back as `v`. */
  function LowerDigit(v: nat): (c: char)
    requires v < 16
    ensures IsLowerHexDigit(c) && DigitValue(c) == v
  {
    if v < 10 then ('0' as int + v) as char else ('a' as int + v - 10) as char
  }

  /** The same digit in lower case. */
  function ToLowerDigit(c: char): (d: char)
    requires IsHexDigit(c)
    ensures IsLowerHexDigit(d) && DigitValue(d) == DigitValue(c)
    ensures IsLowerHexDigit(c) ==> d == c
  {
    if 'A' <= c <= 'F' then (c as int - 'A' as int + 'a' as int) as char else c
  }

  /** `parseInt(s, 16)` on a string made only of hex digits (most significant first). */
  function ParseHex(s: string): (r: nat)
    requires AllHex(s)
  {
    if |s| == 0 then 0 else 16 * ParseHex(s[..|s| - 1]) + DigitValue(s[|s| - 1])
  }

  function Pow16(n: nat): (r: nat) {
    if n == 0 then 1 else 16 * Pow16(n - 1)
  }

  /** `n` written with exactly `width` lower-case hex digits, zero-padded on the left
      (digits above the width are dropped). */
  function Encode(n: nat, width: nat): (s: string)
    ensures |s| == width
    ensures forall i :: 0 <= i < |s| ==> IsLowerHexDigit(s[i])
  {
    if width == 0 then [] else Encode(n / 16, width - 1) + [LowerDigit(n % 16)]
  }

  /** Reading back a fixed-width encoding gives the number, as long as it fits. */
  lemma {:induction false} ParseEncode(n: nat, width: nat)
    requires n < Pow16(width)
    ensures ParseHex(Encode(n, width)) == n
  {
    if width > 0 {
      var s := Encode(n, width);
      assert s[..|s| - 1] == Encode(n / 16, width - 1);
      ParseEncode(n / 16, width - 1);
    }
  }

  /** A parsed hex string of `k` digits is below `16^k`. */
  lemma {:induction false} ParseBound(s: string)
    requires AllHex(s)
    ensures ParseHex(s) < Pow16(|s|)
  {
    if |s| > 0 {
      ParseBound(s[..|s| - 1]);
    }
  }

  /** Lower-casing each digit. */
  function LowerAll(s: string): (r: string)
    requires AllHex(s)
    ensures |r| == |s|
    ensures forall i :: 0 <= i < |s| ==> r[i] == ToLowerDigit(s[i])
  {
    seq(|s|, i requires 0 <= i < |s| => ToLowerDigit(s[i]))
  }

  /** Lower-casing does not change the number a hex string denotes. */
  lemma {:induction false} ParseLowerAll(s: string)
    requires AllHex(s)
    ensures AllHex(LowerAll(s)) && ParseHex(LowerAll(s)) == ParseHex(s)
  {
    if |s| > 0 {
      var p := s[..|s| - 1];
      ParseLowerAll(p);
      assert LowerAll(s)[..|s| - 1] == LowerAll(p);
    }
  }
}
