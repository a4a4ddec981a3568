/** The three USDC amount parsers: a decimal dollar string becomes a count of
    micro-dollars (USDC has 6 decimals).
    - `ParseAmountUSDC` (src/main.js) returns null unless the trimmed text is digits with
      an optional '.' and at most six decimals (a bare trailing '.' is allowed);
    - `DollarsToUnits` (public/src/tip.js) and `ParseAmountToUnits` (public/script.js)
      accept any number of decimals (at least one after a '.') and truncate to six. */
module Amounts {
  import opened Text
  import opened Wrappers

  /** The errors the parsers throw, with the source's messages in `Message`. */
  datatype AmountError =
    | EnterAmount        // tip.js: empty input
    | InvalidAmount      // tip.js: not `^\d+(\.\d+)?$`
    | NotPositive        // tip.js: zero
    | EnterValidNumber   // script.js: not `^\d+(\.\d+)?$`, including empty input
    | NotPositiveScript  // script.js: zero

  function Message(e: AmountError): String {
    match e
    case EnterAmount => "Enter amount"
    case InvalidAmount => "Invalid amount"
    case NotPositive => "Amount must be > 0"
    case EnterValidNumber => "Enter a valid number."
    case NotPositiveScript => "Amount must be > 0."
  }

  const Decimals: nat := 6

  /** The regular expression `^\d+(\.\d{0,6})?$`. */
  predicate MatchesUpToSixDecimals(s: String) {
    var k := DotIndex(s);
    && k >= 1 && AllDigits(s[..k])
    && (k == |s| || (AllDigits(s[k + 1..]) && |s| - k - 1 <= Decimals))
  }

  /** The regular expression `^\d+(\.\d+)?$`. */
  predicate MatchesDecimal(s: String) {
    var k := DotIndex(s);
    && k >= 1 && AllDigits(s[..k])
    && (k == |s| || (|s| - k - 1 >= 1 && AllDigits(s[k + 1..])))
  }

  /** `s.split(".")[0]` */
  function WholePart(s: String): String {
    s[..DotIndex(s)]
  }

  /** `s.split(".")[1] ?? ""` */
  function FractionPart(s: String): String {
    if DotIndex(s) < |s| then s[DotIndex(s) + 1..] else ""
  }

  /** `BigInt(b.padEnd(6, "0"))`: a fraction of at most six digits, in micro-dollars. */
  function PaddedFraction(f: String): (r: nat)
    requires AllDigits(f) && |f| <= Decimals
    ensures r < 1_000_000
  {
    PaddedDigits(f);
    DigitsValue(PadEnd(f, Decimals, '0'))
  }

  lemma PaddedDigits(f: String)
    requires AllDigits(f) && |f| <= Decimals
    ensures AllDigits(PadEnd(f, Decimals, '0')) && DigitsValue(PadEnd(f, Decimals, '0')) < 1_000_000
  {
    var g := PadEnd(f, Decimals, '0');
    assert g == f + Repeat('0', Decimals - |f|);
    TrailingZeros(f, Decimals - |f|);
    DigitsValueBound(g);
    assert Pow10(6) == 1_000_000;
  }

  /** Padding with the `missing` digits up to six scales the fraction's digits by
      10^missing: "5" is 500000 micro-dollars, "05" is 50000. */
  lemma PaddedFractionValue(f: String, missing: nat)
    requires AllDigits(f) && |f| + missing == Decimals
    ensures PaddedFraction(f) == DigitsValue(f) * Pow10(missing)
  {
    var g := PadEnd(f, Decimals, '0');
    assert g == f + Repeat('0', missing);
    TrailingZeros(f, missing);
  }

  /** No fraction digits are worth nothing. */
  lemma EmptyFraction()
    ensures PaddedFraction("") == 0 && TruncatedFraction("") == 0
  {
    PaddedFractionValue("", Decimals);
  }

  /** `BigInt((b + "000000").slice(0, 6))`: the first six fraction digits, zero-filled. */
  function TruncatedFraction(f: String): (r: nat)
    requires AllDigits(f)
    ensures |f| <= Decimals ==> r == PaddedFraction(f)
    ensures |f| > Decimals ==> r == PaddedFraction(f[..Decimals])
  {
    var g := (f + "000000")[..Decimals];
    if |f| <= Decimals then
      assert g == f + Repeat('0', Decimals - |f|);
      TrailingZeros(f, Decimals - |f|);
      DigitsValue(g)
    else
      assert g == f[..Decimals];
      DigitsValue(g)
  }

  /** `parseAmountUSDC` of src/main.js; `None` is its `null`. */
  function ParseAmountUSDC(v: String): (r: Option<nat>)
    ensures r.Some? ==> r.value > 0 && MatchesUpToSixDecimals(Trim(v))
    ensures !MatchesUpToSixDecimals(Trim(v)) ==> r == None
  {
    var s := Trim(v);
    if s == "" then None
    else if !MatchesUpToSixDecimals(s) then None
    else
      var units := DigitsValue(WholePart(s)) * 1_000_000 + PaddedFraction(FractionPart(s));
      if units <= 0 then None else Some(units)
  }

  /** `dollarsToUnits` of public/src/tip.js; `Err` carries the thrown message. */
  function DollarsToUnits(dollars: String): (r: Result<nat, AmountError>)
    ensures r == Err(EnterAmount) <==> Trim(dollars) == ""
    ensures r == Err(InvalidAmount) <==> Trim(dollars) != "" && !MatchesDecimal(Trim(dollars))
    ensures r.Ok? ==> r.value > 0 && MatchesDecimal(Trim(dollars))
  {
    var s := Trim(dollars);
    if s == "" then Err(EnterAmount)
    else if !MatchesDecimal(s) then Err(InvalidAmount)
    else
      var units := DigitsValue(WholePart(s)) * 1_000_000 + TruncatedFraction(FractionPart(s));
      if units <= 0 then Err(NotPositive) else Ok(units)
  }

  /** `parseAmountToUnits` of public/script.js; `None` stands for a null or undefined argument,
      which `String(amountStr || "")` turns into the empty string. */
  function ParseAmountToUnits(amount: Option<String>): (r: Result<nat, AmountError>)
    ensures amount == None ==> r == Err(EnterValidNumber)
    ensures r == Err(EnterValidNumber) <==> !MatchesDecimal(Trim(amount.GetOr("")))
    ensures r.Ok? ==> r.value > 0
  {
    var s := Trim(amount.GetOr(""));
    if !MatchesDecimal(s) then Err(EnterValidNumber)
    else
      var units := DigitsValue(WholePart(s)) * 1_000_000 + TruncatedFraction(FractionPart(s));
      if units <= 0 then Err(NotPositiveScript) else Ok(units)
  }

  /** Renders micro-dollars as "<dollars>.<six digits>", the partner of the parsers. */
  function FormatUnits(units: nat): String {
    NatToDecimal(units / 1_000_000) + "." + PadStart(NatToDecimal(units % 1_000_000), Decimals, '0')
  }

  lemma NoSpaceEnds(w: String, f: String)
    requires |w| >= 1 && AllDigits(w) && AllDigits(f)
    ensures Trim(w + "." + f) == w + "." + f
    ensures Trim(w) == w
  {
    var s := w + "." + f;
    assert s[0] == w[0];
    assert s[|s| - 1] == '.' || IsDigit(s[|s| - 1]);
    TrimOfTrimmed(s);
    TrimOfTrimmed(w);
  }

  /** How the source splits "w.f" when w is a non-empty digit string. */
  lemma SplitDecimal(w: String, f: String)
    requires |w| >= 1 && AllDigits(w) && AllDigits(f)
    ensures Trim(w + "." + f) == w + "." + f
    ensures DotIndex(w + "." + f) == |w|
    ensures WholePart(w + "." + f) == w && FractionPart(w + "." + f) == f
    ensures MatchesUpToSixDecimals(w + "." + f) <==> |f| <= Decimals
    ensures MatchesDecimal(w + "." + f) <==> |f| >= 1
  {
    NoSpaceEnds(w, f);
    DotIndexOfDigitsDot(w, f);
    var s := w + "." + f;
    assert s[..|w|] == w;
    assert s[|w| + 1..] == f;
  }

  /** How the source splits a bare digit string. */
  lemma SplitWhole(w: String)
    requires |w| >= 1 && AllDigits(w)
    ensures Trim(w) == w && DotIndex(w) == |w|
    ensures WholePart(w) == w && FractionPart(w) == ""
    ensures MatchesUpToSixDecimals(w) && MatchesDecimal(w)
  {
    NoSpaceEnds(w, "");
    DotIndexOfDigits(w);
    assert w[..|w|] == w;
  }

  /** How each parser evaluates a trimmed, well-formed input, given its split and the
      value `p` of its fraction. */
  lemma MainOfParts(s: String, w: String, f: String, p: nat)
    requires Trim(s) == s && MatchesUpToSixDecimals(s) && WholePart(s) == w && FractionPart(s) == f
    requires AllDigits(w) && AllDigits(f) && |f| <= Decimals && PaddedFraction(f) == p
    ensures var v := DigitsValue(w) * 1_000_000 + p;
            ParseAmountUSDC(s) == if v > 0 then Some(v) else None
  {
  }

  lemma TipOfParts(s: String, w: String, f: String, p: nat)
    requires Trim(s) == s && MatchesDecimal(s) && WholePart(s) == w && FractionPart(s) == f
    requires AllDigits(w) && AllDigits(f) && TruncatedFraction(f) == p
    ensures var v := DigitsValue(w) * 1_000_000 + p;
            DollarsToUnits(s) == if v > 0 then Ok(v) else Err(NotPositive)
  {
  }

  lemma ScriptOfParts(s: String, w: String, f: String, p: nat)
    requires Trim(s) == s && MatchesDecimal(s) && WholePart(s) == w && FractionPart(s) == f
    requires AllDigits(w) && AllDigits(f) && TruncatedFraction(f) == p
    ensures var v := DigitsValue(w) * 1_000_000 + p;
            ParseAmountToUnits(Some(s)) == if v > 0 then Ok(v) else Err(NotPositiveScript)
  {
  }

  /** src/main.js: "w.f" with at most six decimals is w dollars plus `p`, the value of f
      read as a fraction of a dollar (f right-padded with zeros to six digits, which
      `PaddedFractionValue` turns into arithmetic). */
  lemma ParseAmountUSDCMeaning(w: String, f: String, p: nat)
    requires |w| >= 1 && AllDigits(w) && AllDigits(f) && |f| <= Decimals && PaddedFraction(f) == p
    ensures var v := DigitsValue(w) * 1_000_000 + p;
            ParseAmountUSDC(w + "." + f) == if v > 0 then Some(v) else None
  {
    var s := w + "." + f;
    SplitDecimal(w, f);
    MainOfParts(s, w, f, p);
  }

  /** public/src/tip.js: "w.f" with at least one decimal is w dollars plus `p`, the value
      of f's first six decimals read as a fraction of a dollar. */
  lemma DollarsToUnitsMeaning(w: String, f: String, p: nat)
    requires |w| >= 1 && AllDigits(w) && AllDigits(f) && 1 <= |f| && TruncatedFraction(f) == p
    ensures var v := DigitsValue(w) * 1_000_000 + p;
            DollarsToUnits(w + "." + f) == if v > 0 then Ok(v) else Err(NotPositive)
  {
    var s := w + "." + f;
    SplitDecimal(w, f);
    TipOfParts(s, w, f, p);
  }

  /** public/script.js reads "w.f" the way public/src/tip.js does. */
  lemma ParseAmountToUnitsMeaning(w: String, f: String, p: nat)
    requires |w| >= 1 && AllDigits(w) && AllDigits(f) && 1 <= |f| && TruncatedFraction(f) == p
    ensures var v := DigitsValue(w) * 1_000_000 + p;
            ParseAmountToUnits(Some(w + "." + f)) == if v > 0 then Ok(v) else Err(NotPositiveScript)
  {
    var s := w + "." + f;
    SplitDecimal(w, f);
    ScriptOfParts(s, w, f, p);
  }


  /** src/main.js rejects a seventh decimal instead of truncating it. */
  lemma ParseAmountUSDCRejectsSevenDecimals(w: String, f: String)
    requires |w| >= 1 && AllDigits(w) && AllDigits(f) && |f| > Decimals
    ensures ParseAmountUSDC(w + "." + f) == None
  {
    SplitDecimal(w, f);
  }

  /** public/src/tip.js: decimals after the sixth are dropped, not rounded. */
  lemma DollarsToUnitsTruncates(w: String, f: String)
    requires |w| >= 1 && AllDigits(w) && AllDigits(f) && |f| > Decimals
    ensures DollarsToUnits(w + "." + f) == DollarsToUnits(w + "." + f[..Decimals])
  {
    SplitDecimal(w, f);
    SplitDecimal(w, f[..Decimals]);
  }


  /** The three parsers on a trimmed input without a fraction, worth `v` micro-dollars. */
  lemma MainOfWhole(s: String, v: nat)
    requires Trim(s) == s && MatchesUpToSixDecimals(s) && FractionPart(s) == ""
    requires v == DigitsValue(WholePart(s)) * 1_000_000 && v > 0
    ensures ParseAmountUSDC(s) == Some(v)
  {
    EmptyFraction();
  }

  lemma TipOfWhole(s: String, v: nat)
    requires Trim(s) == s && MatchesDecimal(s) && FractionPart(s) == ""
    requires v == DigitsValue(WholePart(s)) * 1_000_000 && v > 0
    ensures DollarsToUnits(s) == Ok(v)
  {
    EmptyFraction();
  }

  lemma ScriptOfWhole(s: String, v: nat)
    requires Trim(s) == s && MatchesDecimal(s) && FractionPart(s) == ""
    requires v == DigitsValue(WholePart(s)) * 1_000_000 && v > 0
    ensures ParseAmountToUnits(Some(s)) == Ok(v)
  {
    EmptyFraction();
  }

  /** A whole number of dollars means the same to all three parsers. */
  lemma WholeDollars(w: String)
    requires |w| >= 1 && AllDigits(w) && DigitsValue(w) > 0
    ensures ParseAmountUSDC(w) == Some(DigitsValue(w) * 1_000_000)
    ensures DollarsToUnits(w) == Ok(DigitsValue(w) * 1_000_000)
    ensures ParseAmountToUnits(Some(w)) == Ok(DigitsValue(w) * 1_000_000)
  {
    SplitWhole(w);
    var v := DigitsValue(w) * 1_000_000;
    MainOfWhole(w, v);
    TipOfWhole(w, v);
    ScriptOfWhole(w, v);
  }

  /** public/script.js and public/src/tip.js accept the same strings and agree on the
      amount; they differ only in the error messages. */
  lemma ScriptAgreesWithTip(s: String)
    ensures ParseAmountToUnits(Some(s)).Ok? <==> DollarsToUnits(s).Ok?
    ensures DollarsToUnits(s).Ok? ==> ParseAmountToUnits(Some(s)) == DollarsToUnits(s)
  {
    if Trim(s) == "" {
      assert !MatchesDecimal(Trim(s));
    }
  }

  /** src/main.js and public/src/tip.js agree wherever both accept; main.js additionally
      accepts a bare trailing '.', tip.js additionally accepts more than six decimals. */
  lemma MainAgreesWithTip(s: String)
    ensures DollarsToUnits(s).Ok? && |FractionPart(Trim(s))| <= Decimals
            ==> ParseAmountUSDC(s) == Some(DollarsToUnits(s).value)
    ensures ParseAmountUSDC(s).Some? && FractionPart(Trim(s)) != ""
            ==> DollarsToUnits(s) == Ok(ParseAmountUSDC(s).value)
  {
    var t := Trim(s);
    MatchesRelation(t);
    if DollarsToUnits(s).Ok? && |FractionPart(t)| <= Decimals {
      assert MatchesUpToSixDecimals(t);
      assert TruncatedFraction(FractionPart(t)) == PaddedFraction(FractionPart(t));
    }
    if ParseAmountUSDC(s).Some? && FractionPart(t) != "" {
      assert MatchesDecimal(t);
      assert TruncatedFraction(FractionPart(t)) == PaddedFraction(FractionPart(t));
    }
  }

  /** The two regular expressions differ only in a bare trailing '.' and in more than six
      decimals. */
  lemma MatchesRelation(t: String)
    ensures MatchesDecimal(t) && |FractionPart(t)| <= Decimals ==> MatchesUpToSixDecimals(t)
    ensures MatchesUpToSixDecimals(t) && FractionPart(t) != "" ==> MatchesDecimal(t)
  {
  }

  /** A number below 10^6 printed and left-padded to six digits reads back as itself. */
  lemma SixDigits(m: nat)
    requires m < 1_000_000
    ensures var f := PadStart(NatToDecimal(m), Decimals, '0');
            AllDigits(f) && |f| == Decimals && DigitsValue(f) == m
  {
    var d := NatToDecimal(m);
    assert Pow10(6) == 1_000_000;
    NatToDecimalLength(m, Decimals);
    LeftPadded(d, Decimals - |d|);
    NatToDecimalValue(m);
  }

  lemma LeftPadded(d: String, k: nat)
    requires AllDigits(d) && |d| + k == Decimals
    ensures var f := PadStart(d, Decimals, '0');
            AllDigits(f) && |f| == Decimals && DigitsValue(f) == DigitsValue(d)
  {
    assert PadStart(d, Decimals, '0') == Repeat('0', k) + d;
    LeadingZeros(k, d);
  }

  /** The pieces `FormatUnits` prints: six fraction digits worth `units % 10^6`. */
  lemma FormattedParts(units: nat)
    ensures var f := PadStart(NatToDecimal(units % 1_000_000), Decimals, '0');
            && AllDigits(f) && |f| == Decimals
            && PaddedFraction(f) == units % 1_000_000
            && TruncatedFraction(f) == units % 1_000_000
    ensures DigitsValue(NatToDecimal(units / 1_000_000)) * 1_000_000 + units % 1_000_000 == units
  {
    var m := units % 1_000_000;
    SixDigits(m);
    var f := PadStart(NatToDecimal(m), Decimals, '0');
    assert Pow10(Decimals - |f|) == 1;
    assert PaddedFraction(f) == m;
    NatToDecimalValue(units / 1_000_000);
  }

  /** Formatting then parsing gives the amount back, in every variant. */
  lemma ParseFormatted(units: nat)
    requires units > 0
    ensures ParseAmountUSDC(FormatUnits(units)) == Some(units)
    ensures DollarsToUnits(FormatUnits(units)) == Ok(units)
    ensures ParseAmountToUnits(Some(FormatUnits(units))) == Ok(units)
  {
    var w := NatToDecimal(units / 1_000_000);
    var f := PadStart(NatToDecimal(units % 1_000_000), Decimals, '0');
    FormattedParts(units);
    ParsedBack(FormatUnits(units), w, f, units % 1_000_000, units);
  }

  /** The three parsers on "w.f" with six decimals worth `m`, which makes `units`. */
  lemma ParsedBack(s: String, w: String, f: String, m: nat, units: nat)
    requires s == w + "." + f && |w| >= 1 && AllDigits(w) && AllDigits(f) && |f| == Decimals
    requires PaddedFraction(f) == m && TruncatedFraction(f) == m
    requires DigitsValue(w) * 1_000_000 + m == units && units > 0
    ensures ParseAmountUSDC(s) == Some(units)
    ensures DollarsToUnits(s) == Ok(units)
    ensures ParseAmountToUnits(Some(s)) == Ok(units)
  {
    ParseAmountUSDCMeaning(w, f, m);
    DollarsToUnitsMeaning(w, f, m);
    ParseAmountToUnitsMeaning(w, f, m);
  }
}
