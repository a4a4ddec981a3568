/** `BigInt.prototype.toString(16)` and its inverse. */
module Hex {
  import opened Text

  predicate IsLowerHexDigit(c: char) { IsDigit(c) || 'a' <= c <= 'f' }

  predicate AllLowerHex(s: String) { forall i :: 0 <= i < |s| ==> IsLowerHexDigit(s[i]) }

  function HexChar(d: nat): (c: char)
    requires d < 16
    ensures IsLowerHexDigit(c)
  {
    if d < 10 then DigitChar(d) else ('a' as int + d - 10) as char
  }

  function HexDigitValue(c: char): (d: nat)
    requires IsHexDigit(c)
    ensures d < 16
  {
    if IsDigit(c) then DigitValue(c)
    else if 'a' <= c <= 'f' then c as int - 'a' as int + 10
    else c as int - 'A' as int + 10
  }

  function Pow16(n: nat): (r: nat)
    ensures r >= 1
  {
    if n == 0 then 1 else 16 * Pow16(n - 1)
  }

  /** `n.toString(16)`: lower-case digits, no leading zeros, "0" for zero. */
  function NatToHex(n: nat): (r: String)
    ensures |r| >= 1 && AllLowerHex(r) && AllHex(r)
  {
    if n < 16 then [HexChar(n)] else NatToHex(n / 16) + [HexChar(n % 16)]
  }

  /** The number a string of hexadecimal digits denotes (either case). */
  function HexValue(s: String): nat
    requires AllHex(s)
  {
    if |s| == 0 then 0 else 16 * HexValue(s[..|s| - 1]) + HexDigitValue(s[|s| - 1])
  }

  lemma HexCharValue(d: nat)
    requires d < 16
    ensures IsHexDigit(HexChar(d)) && HexDigitValue(HexChar(d)) == d
  {
  }

  /** Printing in base 16 and reading back gives the number again. */
  lemma {:induction false} NatToHexValue(n: nat)
    ensures HexValue(NatToHex(n)) == n
  {
    var r := NatToHex(n);
    if n < 16 {
      HexCharValue(n);
      assert r[..0] == [];
    } else {
      assert r[..|r| - 1] == NatToHex(n / 16);
      HexCharValue(n % 16);
      NatToHexValue(n / 16);
    }
  }

  /** A number below 16^k needs at most k hexadecimal digits. */
  lemma {:induction false} NatToHexLength(n: nat, k: nat)
    requires k >= 1 && n < Pow16(k)
    ensures |NatToHex(n)| <= k
  {
    if n >= 16 {
      assert Pow16(1) == 16;
      assert n / 16 < Pow16(k - 1);
      NatToHexLength(n / 16, k - 1);
    }
  }

  lemma {:induction false} HexValueAppend(s: String, t: String)
    requires AllHex(s) && AllHex(t)
    ensures HexValue(s + t) == HexValue(s) * Pow16(|t|) + HexValue(t)
  {
    if |t| == 0 {
      assert s + t == s;
    } else {
      var t' := t[..|t| - 1];
      assert (s + t)[..|s + t| - 1] == s + t';
      HexValueAppend(s, t');
      var a, p, v, d := HexValue(s), Pow16(|t'|), HexValue(t'), HexDigitValue(t[|t| - 1]);
      assert HexValue(s + t) == 16 * HexValue(s + t') + d;
      assert HexValue(t) == 16 * v + d;
      ScaleStep(a, p, v, d, 16);
    }
  }

  lemma ScaleStep(a: int, p: int, v: int, d: int, b: int)
    ensures b * (a * p + v) + d == a * (b * p) + (b * v + d)
  {
  }

  lemma {:induction false} HexZerosValue(n: nat)
    ensures AllHex(Repeat('0', n)) && HexValue(Repeat('0', n)) == 0
  {
    if n > 0 {
      var z := Repeat('0', n);
      assert z[..n - 1] == Repeat('0', n - 1);
      HexZerosValue(n - 1);
    }
  }

  /** Lower-casing leaves lower-case hexadecimal text alone. */
  lemma LowerHexUnchanged(s: String)
    requires AllLowerHex(s)
    ensures ToLower(s) == s
  {
  }

  /** Left padding with '0' keeps the value. */
  lemma HexLeadingZeros(n: nat, t: String)
    requires AllHex(t)
    ensures AllHex(Repeat('0', n) + t)
    ensures HexValue(Repeat('0', n) + t) == HexValue(t)
  {
    HexZerosValue(n);
    HexValueAppend(Repeat('0', n), t);
  }
}
