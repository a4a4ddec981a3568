/** The JavaScript string built-ins the parsers and encoders use, on `seq<char>`:
    `trim`, `padStart`, `padEnd`, `startsWith`, `endsWith`, ASCII `toLowerCase`,
    the `\d` character class and `BigInt` of a digit string. */
module Text {

  type String = seq<char>

  predicate IsDigit(c: char) { '0' <= c <= '9' }

  predicate IsHexDigit(c: char) {
    IsDigit(c) || 'a' <= c <= 'f' || 'A' <= c <= 'F'
  }

  predicate AllDigits(s: String) { forall i :: 0 <= i < |s| ==> IsDigit(s[i]) }

  predicate AllHex(s: String) { forall i :: 0 <= i < |s| ==> IsHexDigit(s[i]) }

  predicate AllChar(s: String, c: char) { forall i :: 0 <= i < |s| ==> s[i] == c }

  /** The WhiteSpace and LineTerminator code points that `String.prototype.trim` removes. */
  predicate IsJsSpace(c: char) {
    || c == '\t' || c == '\n' || c == '\U{B}' || c == '\U{C}' || c == '\r' || c == ' '
    || c == '\U{A0}' || c == '\U{1680}' || ('\U{2000}' <= c <= '\U{200A}')
    || c == '\U{2028}' || c == '\U{2029}' || c == '\U{202F}' || c == '\U{205F}'
    || c == '\U{3000}' || c == '\U{FEFF}'
  }

  /** Drops leading white space: the result is a suffix of `s` that does not start with a space. */
  function TrimStart(s: String): (r: String)
    ensures |r| <= |s|
    ensures |r| > 0 ==> !IsJsSpace(r[0])
    decreases |s|
  {
    if |s| > 0 && IsJsSpace(s[0]) then TrimStart(s[1..]) else s
  }

  /** What `TrimStart` removes is a run of white space at the front. */
  lemma {:induction false} TrimStartRemovesSpaces(s: String)
    ensures TrimStart(s) == s[|s| - |TrimStart(s)|..]
    ensures forall i :: 0 <= i < |s| - |TrimStart(s)| ==> IsJsSpace(s[i])
    decreases |s|
  {
    if |s| > 0 && IsJsSpace(s[0]) {
      TrimStartRemovesSpaces(s[1..]);
    }
  }

  /** Drops trailing white space: the result is a prefix of `s` that does not end with a space. */
  function TrimEnd(s: String): (r: String)
    ensures |r| <= |s|
    ensures |r| > 0 ==> !IsJsSpace(r[|r| - 1])
    decreases |s|
  {
    if |s| > 0 && IsJsSpace(s[|s| - 1]) then TrimEnd(s[..|s| - 1]) else s
  }

  /** What `TrimEnd` removes is a run of white space at the back. */
  lemma {:induction false} TrimEndRemovesSpaces(s: String)
    ensures TrimEnd(s) == s[..|TrimEnd(s)|]
    ensures forall i :: |TrimEnd(s)| <= i < |s| ==> IsJsSpace(s[i])
    decreases |s|
  {
    if |s| > 0 && IsJsSpace(s[|s| - 1]) {
      TrimEndRemovesSpaces(s[..|s| - 1]);
    }
  }

  /** `String.prototype.trim`. */
  function Trim(s: String): (r: String)
    ensures |r| > 0 ==> !IsJsSpace(r[0]) && !IsJsSpace(r[|r| - 1])
  {
    TrimEndRemovesSpaces(TrimStart(s));
    TrimEnd(TrimStart(s))
  }

  lemma TrimOfTrimmed(s: String)
    requires |s| > 0 ==> !IsJsSpace(s[0]) && !IsJsSpace(s[|s| - 1])
    ensures Trim(s) == s
  {
  }

  /** Trimming twice is trimming once. */
  lemma TrimIdempotent(s: String)
    ensures Trim(Trim(s)) == Trim(s)
  {
    TrimOfTrimmed(Trim(s));
  }

  function Repeat(c: char, n: nat): (r: String)
    ensures |r| == n && AllChar(r, c)
  {
    if n == 0 then [] else [c] + Repeat(c, n - 1)
  }

  /** `s.padStart(n, c)`: left-pads with `c` up to length `n`; never truncates. */
  function PadStart(s: String, n: nat, c: char): (r: String)
    ensures |s| >= n ==> r == s
    ensures |s| < n ==> |r| == n
    ensures r[|r| - |s|..] == s
    ensures AllChar(r[..|r| - |s|], c)
  {
    if |s| >= n then s else Repeat(c, n - |s|) + s
  }

  /** `s.padEnd(n, c)`: right-pads with `c` up to length `n`; never truncates. */
  function PadEnd(s: String, n: nat, c: char): (r: String)
    ensures |s| >= n ==> r == s
    ensures |s| < n ==> |r| == n
    ensures r[..|s|] == s
    ensures AllChar(r[|s|..], c)
  {
    if |s| >= n then s else s + Repeat(c, n - |s|)
  }

  function LowerChar(c: char): char {
    if 'A' <= c <= 'Z' then (c as int + 32) as char else c
  }

  /** `toLowerCase` restricted to ASCII letters. */
  function ToLower(s: String): (r: String)
    ensures |r| == |s|
    ensures forall i :: 0 <= i < |s| ==> r[i] == LowerChar(s[i])
  {
    if |s| == 0 then [] else [LowerChar(s[0])] + ToLower(s[1..])
  }

  lemma ToLowerAppend(a: String, b: String)
    ensures ToLower(a + b) == ToLower(a) + ToLower(b)
  {
    assert forall i :: 0 <= i < |a + b| ==> ToLower(a + b)[i] == (ToLower(a) + ToLower(b))[i];
  }

  predicate StartsWith(s: String, p: String) { |p| <= |s| && s[..|p|] == p }

  predicate EndsWith(s: String, p: String) { |p| <= |s| && s[|s| - |p|..] == p }

  function DigitValue(c: char): nat
    requires IsDigit(c)
  {
    c as int - '0' as int
  }

  function DigitChar(d: nat): (c: char)
    requires d < 10
    ensures IsDigit(c) && DigitValue(c) == d
  {
    ('0' as int + d) as char
  }

  function Pow10(n: nat): (r: nat)
    ensures r >= 1
  {
    if n == 0 then 1 else 10 * Pow10(n - 1)
  }

  /** `BigInt(s)` for a string of decimal digits (the empty string denotes 0). */
  function DigitsValue(s: String): nat
    requires AllDigits(s)
  {
    if |s| == 0 then 0 else 10 * DigitsValue(s[..|s| - 1]) + DigitValue(s[|s| - 1])
  }

  /** A digit string of length n denotes a number below 10^n. */
  lemma {:induction false} DigitsValueBound(s: String)
    requires AllDigits(s)
    ensures DigitsValue(s) < Pow10(|s|)
  {
    if |s| > 0 {
      DigitsValueBound(s[..|s| - 1]);
    }
  }

  /** Place value: appending `t` shifts `s` left by |t| decimal places. */
  lemma {:induction false} DigitsValueAppend(s: String, t: String)
    requires AllDigits(s) && AllDigits(t)
    ensures DigitsValue(s + t) == DigitsValue(s) * Pow10(|t|) + DigitsValue(t)
  {
    if |t| == 0 {
      assert s + t == s;
    } else {
      var t' := t[..|t| - 1];
      assert (s + t)[..|s + t| - 1] == s + t';
      DigitsValueAppend(s, t');
      var a, p, d, c := DigitsValue(s), Pow10(|t'|), DigitsValue(t'), DigitValue(t[|t| - 1]);
      assert (s + t)[|s + t| - 1] == t[|t| - 1];
      assert t[..|t| - 1] == t';
      assert DigitsValue(s + t) == 10 * (a * p + d) + c;
      ScaleByTen(a, p);
    }
  }

  lemma ScaleByTen(a: nat, p: nat)
    ensures a * (10 * p) == 10 * (a * p)
  {
  }

  lemma {:induction false} ZerosValue(n: nat)
    ensures AllDigits(Repeat('0', n)) && DigitsValue(Repeat('0', n)) == 0
  {
    if n > 0 {
      var z := Repeat('0', n);
      assert z[..n - 1] == Repeat('0', n - 1);
      ZerosValue(n - 1);
    }
  }

  /** Leading zeros do not change the value, which is what makes left padding harmless. */
  lemma LeadingZeros(n: nat, t: String)
    requires AllDigits(t)
    ensures AllDigits(Repeat('0', n) + t)
    ensures DigitsValue(Repeat('0', n) + t) == DigitsValue(t)
  {
    ZerosValue(n);
    DigitsValueAppend(Repeat('0', n), t);
  }

  /** Trailing zeros scale by a power of ten. */
  lemma TrailingZeros(s: String, n: nat)
    requires AllDigits(s)
    ensures AllDigits(s + Repeat('0', n))
    ensures DigitsValue(s + Repeat('0', n)) == DigitsValue(s) * Pow10(n)
  {
    ZerosValue(n);
    DigitsValueAppend(s, Repeat('0', n));
  }

  /** The shortest decimal numeral of `n` (what `String(n)` prints for a BigInt). */
  function NatToDecimal(n: nat): (r: String)
    ensures |r| >= 1 && AllDigits(r)
  {
    if n < 10 then [DigitChar(n)] else NatToDecimal(n / 10) + [DigitChar(n % 10)]
  }

  lemma {:induction false} NatToDecimalValue(n: nat)
    ensures DigitsValue(NatToDecimal(n)) == n
  {
    if n >= 10 {
      var r := NatToDecimal(n);
      assert r[..|r| - 1] == NatToDecimal(n / 10);
      NatToDecimalValue(n / 10);
    }
  }

  lemma {:induction false} Pow10Add(a: nat, b: nat)
    ensures Pow10(a + b) == Pow10(a) * Pow10(b)
  {
    if a > 0 {
      Pow10Add(a - 1, b);
    }
  }

  /** A number below 10^k needs at most k decimal digits. */
  lemma {:induction false} NatToDecimalLength(n: nat, k: nat)
    requires k >= 1 && n < Pow10(k)
    ensures |NatToDecimal(n)| <= k
  {
    if n >= 10 {
      assert Pow10(1) == 10;
      assert n / 10 < Pow10(k - 1);
      NatToDecimalLength(n / 10, k - 1);
    }
  }

  /** Index of the first '.', or |s| when there is none. */
  function DotIndex(s: String): (k: nat)
    ensures k <= |s|
    ensures k < |s| ==> s[k] == '.'
  {
    if |s| == 0 then 0 else if s[0] == '.' then 0 else 1 + DotIndex(s[1..])
  }

  /** No '.' comes before the one `DotIndex` finds. */
  lemma {:induction false} DotIndexFirst(s: String)
    ensures forall i :: 0 <= i < DotIndex(s) ==> s[i] != '.'
  {
    if |s| > 0 && s[0] != '.' {
      DotIndexFirst(s[1..]);
      assert forall i :: 1 <= i < DotIndex(s) ==> s[i] == s[1..][i - 1];
    }
  }

  lemma DotIndexOfDigitsDot(w: String, f: String)
    requires AllDigits(w)
    ensures DotIndex(w + "." + f) == |w|
  {
    var s := w + "." + f;
    DotIndexFirst(s);
    assert s[|w|] == '.';
    assert forall i :: 0 <= i < |w| ==> s[i] == w[i];
  }

  lemma DotIndexOfDigits(w: String)
    requires AllDigits(w)
    ensures DotIndex(w) == |w|
  {
    assert forall i :: 0 <= i < |w| ==> w[i] != '.';
  }
}
