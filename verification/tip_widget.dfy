/** The tip modal of public/src/tip.js: its guard, amount parser, calldata encoder and the
    two-tap send flow (first tap prepares, second tap opens the wallet). A call of
    `SendTip` runs one tap's handler to completion with the wallet's answers as inputs. */
module TipWidget {
  import opened Text
  import opened Hex
  import opened Wrappers
  import opened Erc20
  import opened Amounts
  import opened Wallet
  import MainTip

  /** `state`: idle | preparing | confirmReady | confirm | sending | done. */
  datatype TipState = Idle | Preparing | ConfirmReady | Confirm | Sending | Done

  /** The modal's two variables. `allowWallet` is written but never read by the source. */
  datatype Modal = Modal(state: TipState, allowWallet: bool)

  /** The placeholder builder code the guard rejects. */
  const TodoBuilderCode: String := "TODO_REPLACE_BUILDER_CODE"

  const BaseMainnet: String := "0x2105"
  const BaseSepolia: String := "0x14a34"

  /** The argument `encodeTransfer` receives as its amount: a BigInt, or any other JS value. */
  datatype JsAmount = BigIntValue(n: int) | OtherValue

  datatype EncodeError = InvalidRecipient | NotBigInt | AmountNotPositive

  function EncodeMessage(e: EncodeError): String {
    match e
    case InvalidRecipient => "Invalid recipient"
    case NotBigInt => "Amount must be BigInt"
    case AmountNotPositive => "Amount must be > 0"
  }

  /** The toasts a tap shows, in order. */
  datatype Notice =
    | TipsDisabled      // "Tips disabled: set BUILDER_CODE + RECIPIENT in src/tip.js"
    | WalletUnavailable // "Wallet not available in this context."
    | AmountRejected(error: AmountError)
    | SwitchToBase      // "Please switch to Base Mainnet in your wallet to tip."
    | TipSent           // "Tip sent. Thanks!"
    | TipCancelled      // "Tip cancelled."
    | TipFailed         // "Tip failed. Check wallet + Base network."

  /** `window.ethereum` (present or not) and what its requests do: `eth_chainId` (the id
      or the error), `wallet_switchEthereumChain`, `eth_requestAccounts`,
      `wallet_sendCalls`. */
  datatype Provider = Provider(
    present: bool, chainId: Result<String, String>, switchChain: Call,
    requestAccounts: Call, sendCalls: Call)

  /** After one tap: the modal, the calldata handed to `wallet_sendCalls` if that request
      was made, and the toasts. */
  datatype Outcome = Outcome(modal: Modal, submitted: Option<String>, toasts: seq<Notice>)

  /** `isDisabled`. */
  predicate IsDisabled(c: TipConfig) {
    c.builderCode == "" || c.builderCode == TodoBuilderCode
    || !IsHexAddress(c.recipient) || ToLower(c.recipient) == ZeroAddress()
  }

  /** `isDisabled` in words: an empty or placeholder builder code, a recipient that is
      not "0x" and forty hexadecimal digits, or the zero address in any letter case. */
  lemma IsDisabledMeaning(c: TipConfig)
    ensures IsDisabled(c) <==> (c.builderCode == "" || c.builderCode == TodoBuilderCode
                                || !IsHexAddress(c.recipient) || IsZeroAddress(c.recipient))
  {
    LowerZeroAddress(c.recipient);
  }

  /** `encodeTransfer`: the recipient's digits keep their letter case. */
  function EncodeTransfer(to: String, amount: JsAmount): (r: Result<String, EncodeError>)
    ensures r == Err(InvalidRecipient) <==> !IsHexAddress(to)
    ensures r.Ok? <==> IsHexAddress(to) && amount.BigIntValue? && amount.n > 0
  {
    if !IsHexAddress(to) then Err(InvalidRecipient)
    else if !amount.BigIntValue? then Err(NotBigInt)
    else if amount.n <= 0 then Err(AmountNotPositive)
    else Ok(TransferData(to[2..], NatToHex(amount.n)))
  }

  /** Decoding the calldata gives back the recipient's digits, unchanged, and the amount. */
  lemma EncodeTransferDecodes(to: String, n: nat)
    requires IsHexAddress(to) && 0 < n < Pow16(WordDigits)
    ensures EncodeTransfer(to, BigIntValue(n)).Ok?
    ensures DecodeTransfer(EncodeTransfer(to, BigIntValue(n)).value) == Some((to[2..], n))
  {
    TransferRoundTrip(to[2..], n);
  }

  /** The toast the `catch` block picks for an error message. */
  function CatchNotice(msg: String): (n: Notice)
    ensures n == TipCancelled || n == TipFailed
  {
    if IsCancellation(msg) then TipCancelled else TipFailed
  }

  /** The amount a tap sends: the trimmed custom text if any, else the selected preset. */
  function ChosenAmount(custom: String, selected: String): String {
    if Trim(custom) != "" then Trim(custom) else selected
  }

  /** `sendTip`. */
  function SendTip(c: TipConfig, m: Modal, custom: String, selected: String, p: Provider): (o: Outcome)
    ensures o.submitted.Some? ==> m.state == ConfirmReady
  {
    Tap(c, m, DollarsToUnits(ChosenAmount(custom, selected)), p)
  }

  /** `sendTip` with the amount already parsed by `dollarsToUnits`. */
  function Tap(c: TipConfig, m: Modal, parsed: Result<nat, AmountError>, p: Provider): (o: Outcome)
    ensures o.submitted.Some? ==> m.state == ConfirmReady
  {
    if IsDisabled(c) then Outcome(m, None, [TipsDisabled])
    else if !p.present then Outcome(m, None, [WalletUnavailable])
    else match parsed
      case Err(e) => Outcome(m, None, [AmountRejected(e)])
      case Ok(units) =>
        if m.state == Idle then
          // first tap: "preparing" for the animation, then "confirmReady"
          Outcome(Modal(ConfirmReady, true), None, [])
        else if m.state != ConfirmReady then Outcome(m, None, [])
        else
          // second tap: "confirm", then `ensureBase`
          var failed := Modal(Idle, m.allowWallet);
          if p.chainId.Err? then Outcome(failed, None, [CatchNotice(p.chainId.error)])
          else if p.chainId.value != BaseMainnet && p.chainId.value != BaseSepolia
                  && p.switchChain.Throws? then
            Outcome(failed, None, [SwitchToBase, CatchNotice(p.switchChain.message)])
          else if p.requestAccounts.Throws? then
            Outcome(failed, None, [CatchNotice(p.requestAccounts.message)])
          else match EncodeTransfer(c.recipient, BigIntValue(units))
            case Err(e) => Outcome(failed, None, [CatchNotice(EncodeMessage(e))])
            case Ok(data) =>
              // "sending"
              if p.sendCalls.Throws? then Outcome(failed, Some(data), [CatchNotice(p.sendCalls.message)])
              else Outcome(Modal(Done, m.allowWallet), Some(data), [TipSent])
  }

  /** The CTA click handler. */
  function OnCta(c: TipConfig, m: Modal, custom: String, selected: String, p: Provider): (o: Outcome)
    ensures m.state == Sending || m.state == Preparing ==> o == Outcome(m, None, [])
  {
    if m.state == Sending || m.state == Preparing then Outcome(m, None, [])
    else
      var m' := if m.state == Done then Modal(Idle, m.allowWallet) else m;
      SendTip(c, m', custom, selected, p)
  }

  /** `open` and `close` both return the modal to "idle" with the wallet not allowed. */
  function OpenOrClose(m: Modal): (r: Modal)
    ensures r.state == Idle && !r.allowWallet
  {
    Modal(Idle, false)
  }

  /** Once enabled, the encoder cannot fail on a parsed amount: its error branch in
      `sendTip` is dead. */
  lemma EnabledEncodeSucceeds(c: TipConfig, amount: String, units: nat)
    requires !IsDisabled(c) && DollarsToUnits(amount) == Ok(units)
    ensures EncodeTransfer(c.recipient, BigIntValue(units)).Ok?
  {
  }

  /** A tap that stops at a guard (disabled, no wallet, bad amount) changes nothing. */
  lemma GuardsChangeNothing(c: TipConfig, m: Modal, custom: String, selected: String, p: Provider)
    requires IsDisabled(c) || !p.present || DollarsToUnits(ChosenAmount(custom, selected)).Err?
    ensures SendTip(c, m, custom, selected, p).modal == m
    ensures SendTip(c, m, custom, selected, p).submitted == None
  {
  }

  /** The first tap from "idle" only prepares: it ends in "confirmReady" and never
      reaches the wallet. */
  lemma FirstTapPrepares(c: TipConfig, m: Modal, custom: String, selected: String, p: Provider)
    requires m.state == Idle && !IsDisabled(c) && p.present
    requires DollarsToUnits(ChosenAmount(custom, selected)).Ok?
    ensures SendTip(c, m, custom, selected, p) == Outcome(Modal(ConfirmReady, true), None, [])
  {
  }

  /** From any state but "idle" and "confirmReady", a tap reaches no wallet and changes
      nothing. */
  lemma OtherStatesIgnored(c: TipConfig, m: Modal, custom: String, selected: String, p: Provider)
    requires m.state != Idle && m.state != ConfirmReady
    ensures SendTip(c, m, custom, selected, p).modal == m
    ensures SendTip(c, m, custom, selected, p).submitted == None
  {
  }

  /** The second tap ends in "done" when every wallet request resolves and in "idle" when
      any throws; what it submits is the encoded transfer of the parsed amount. */
  lemma SecondTapOutcome(c: TipConfig, m: Modal, custom: String, selected: String, p: Provider, units: nat)
    requires m.state == ConfirmReady && !IsDisabled(c) && p.present
    requires DollarsToUnits(ChosenAmount(custom, selected)) == Ok(units)
    ensures var o := SendTip(c, m, custom, selected, p);
            && (o.modal.state == Done
                <==> p.chainId.Ok? && p.requestAccounts == Resolves && p.sendCalls == Resolves
                     && (p.chainId.value != BaseMainnet && p.chainId.value != BaseSepolia
                         ==> p.switchChain == Resolves))
            && (o.modal.state == Done || o.modal.state == Idle)
            && (o.submitted.Some? ==> EncodeTransfer(c.recipient, BigIntValue(units)) == Ok(o.submitted.value))
  {
    EnabledEncodeSucceeds(c, ChosenAmount(custom, selected), units);
    SecondTap(c, m, units, p);
  }

  lemma SecondTap(c: TipConfig, m: Modal, units: nat, p: Provider)
    requires m.state == ConfirmReady && !IsDisabled(c) && p.present
    requires EncodeTransfer(c.recipient, BigIntValue(units)).Ok?
    ensures var o := Tap(c, m, Ok(units), p);
            && (o.modal.state == Done
                <==> p.chainId.Ok? && p.requestAccounts == Resolves && p.sendCalls == Resolves
                     && (p.chainId.value != BaseMainnet && p.chainId.value != BaseSepolia
                         ==> p.switchChain == Resolves))
            && (o.modal.state == Done || o.modal.state == Idle)
            && (o.submitted.Some? ==> EncodeTransfer(c.recipient, BigIntValue(units)) == Ok(o.submitted.value))
  {
  }

  /** Lower-casing this widget's calldata gives src/main.js's calldata for the same
      recipient and amount: the two differ only in the letter case of the address. */
  lemma LowerCaseMatchesMain(to: String, n: nat)
    requires IsHexAddress(to) && n > 0
    ensures EncodeTransfer(to, BigIntValue(n)).Ok?
    ensures ToLower(EncodeTransfer(to, BigIntValue(n)).value) == MainTip.EncodeTransfer(to, n)
  {
    var d, h := to[2..], NatToHex(n);
    LowerTransferData(d, h);
    assert ToLower(to)[2..] == ToLower(d);
    assert ToLower(to)[..2] == "0x";
  }

  /** Lower-casing calldata lower-cases only the address digits. */
  lemma LowerTransferData(d: String, h: String)
    requires AllLowerHex(h)
    ensures ToLower(TransferData(d, h)) == TransferData(ToLower(d), h)
  {
    var ab, wd, wh := "0x" + Selector, Word(d), Word(h);
    assert TransferData(d, h) == ab + wd + wh;
    assert TransferData(ToLower(d), h) == ab + Word(ToLower(d)) + wh;
    LowerThree(ab, wd, wh);
    LowerPrefix();
    LowerWord(d);
    LowerWord(h);
    LowerHexUnchanged(h);
  }

  lemma LowerThree(a: String, b: String, c: String)
    ensures ToLower(a + b + c) == ToLower(a) + ToLower(b) + ToLower(c)
  {
    ToLowerAppend(a + b, c);
    ToLowerAppend(a, b);
  }

  /** The "0x" and the selector are already lower case. */
  lemma LowerPrefix()
    ensures ToLower("0x" + Selector) == "0x" + Selector
  {
    var t := "0x" + Selector;
    assert t == "0xa9059cbb";
    assert forall i :: 0 <= i < |t| ==> LowerChar(t[i]) == t[i];
  }

  lemma LowerWord(d: String)
    ensures ToLower(Word(d)) == Word(ToLower(d))
  {
    if |d| < WordDigits {
      var k := WordDigits - |d|;
      var z := Repeat('0', k);
      WordIsZerosThenDigits(d, k);
      WordIsZerosThenDigits(ToLower(d), k);
      ToLowerAppend(z, d);
      assert ToLower(z) == z;
    }
  }
}
