/** Calldata of the EIP-20 call `transfer(address,uint256)` as the three tip widgets
    build it by hand: "0x", the 4-byte function selector, then each of the two static
    arguments as one 32-byte word (64 hexadecimal digits, left-padded with zeros), as in
    the "Formal Specification of the Encoding" of the Solidity Contract ABI Specification.
    The selector is the first four bytes of keccak256("transfer(address,uint256)"),
    taken here as a constant. */
module Erc20 {
  import opened Text
  import opened Hex
  import opened Wrappers

  const Selector: String := "a9059cbb"

  /** Hexadecimal digits in one 32-byte ABI word. */
  const WordDigits: nat := 64

  /** Length of "0x" + selector + two words. */
  const CalldataLength: nat := 138

  /** `^0x[0-9a-fA-F]{40}$`: the shape of an EVM address (any letter case). */
  predicate IsHexAddress(a: String) {
    |a| == 42 && a[..2] == "0x" && AllHex(a[2..])
  }

  /** The all-zero address in lower case. */
  function ZeroAddress(): (z: String)
    ensures |z| == 42 && IsHexAddress(z)
  {
    "0x" + Repeat('0', 40)
  }

  /** `^0x0{40}$` with the `i` flag: "0x" or "0X", then forty zeros. */
  predicate IsZeroAddress(a: String) {
    |a| == 42 && a[0] == '0' && (a[1] == 'x' || a[1] == 'X') && AllChar(a[2..], '0')
  }

  /** Comparing the lower-cased address with the zero address (as the two later widgets
      do) is the same test as the case-insensitive pattern. */
  lemma LowerZeroAddress(a: String)
    ensures ToLower(a) == ZeroAddress() <==> IsZeroAddress(a)
  {
    var z := ZeroAddress();
    if ToLower(a) == z {
      assert ToLower(a)[0] == '0' && ToLower(a)[1] == 'x';
      forall i | 2 <= i < 42
        ensures a[i] == '0'
      {
        assert ToLower(a)[i] == z[i] == '0';
      }
    }
    if IsZeroAddress(a) {
      forall i | 0 <= i < 42
        ensures ToLower(a)[i] == z[i]
      {
        if i >= 2 {
          assert a[i] == a[2..][i - 2];
        }
      }
    }
  }

  /** `pad32`: left-pads a digit string with '0' to one ABI word and never truncates. */
  function Word(hexNo0x: String): (r: String)
    ensures |r| == if |hexNo0x| >= WordDigits then |hexNo0x| else WordDigits
    ensures r[|r| - |hexNo0x|..] == hexNo0x
    ensures AllChar(r[..|r| - |hexNo0x|], '0')
  {
    PadStart(hexNo0x, WordDigits, '0')
  }

  lemma WordIsZerosThenDigits(h: String, k: nat)
    requires |h| + k == WordDigits
    ensures Word(h) == Repeat('0', k) + h
  {
  }

  /** The layout every encoder of the three widgets produces. */
  function TransferData(toDigits: String, amountHex: String): String {
    "0x" + Selector + Word(toDigits) + Word(amountHex)
  }

  /** Reads calldata of the shape above back into (address digits, amount): the
      address word must carry 24 leading zero digits, as a 20-byte address does. */
  function DecodeTransfer(data: String): Option<(String, nat)> {
    if |data| == CalldataLength && data[..2] == "0x" && data[2..10] == Selector
       && AllChar(data[10..34], '0') && AllHex(data[34..74]) && AllHex(data[74..138])
    then Some((data[34..74], HexValue(data[74..138])))
    else None
  }

  /** Where the pieces of the calldata sit, for two words of 64 digits. */
  lemma Layout(wa: String, wb: String)
    requires |wa| == WordDigits && |wb| == WordDigits
    ensures var data := "0x" + Selector + wa + wb;
            |data| == CalldataLength && data[..2] == "0x" && data[2..10] == Selector
            && data[10..34] == wa[..24] && data[34..74] == wa[24..] && data[74..138] == wb
  {
    var data := "0x" + Selector + wa + wb;
    assert data[10..74] == wa;
  }

  /** A padded address word is 24 zeros, then the address digits. */
  lemma AddressWord(toDigits: String)
    requires |toDigits| == 40
    ensures |Word(toDigits)| == WordDigits
    ensures AllChar(Word(toDigits)[..24], '0') && Word(toDigits)[24..] == toDigits
  {
    WordIsZerosThenDigits(toDigits, 24);
  }

  /** A padded amount word holds the amount, for an amount below 16^64. */
  lemma AmountWord(amount: nat, h: String, k: nat)
    requires h == NatToHex(amount) && amount < Pow16(WordDigits) && |h| + k == WordDigits
    ensures |Word(h)| == WordDigits && AllHex(Word(h)) && HexValue(Word(h)) == amount
  {
    NatToHexValue(amount);
    WordIsZerosThenDigits(h, k);
    HexLeadingZeros(k, h);
  }

  /** Decoding undoes encoding: for a 40-digit address and an amount below 2^256 the
      calldata is 138 characters long and reads back as the same pair. */
  lemma TransferRoundTrip(toDigits: String, amount: nat)
    requires |toDigits| == 40 && AllHex(toDigits)
    requires amount < Pow16(WordDigits)
    ensures |TransferData(toDigits, NatToHex(amount))| == CalldataLength
    ensures DecodeTransfer(TransferData(toDigits, NatToHex(amount))) == Some((toDigits, amount))
  {
    var h := NatToHex(amount);
    NatToHexLength(amount, WordDigits);
    AmountWord(amount, h, WordDigits - |h|);
    AddressWord(toDigits);
    Layout(Word(toDigits), Word(h));
  }
}
