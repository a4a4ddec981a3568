/** The tip flow of src/main.js: a configuration check, the amount parser, the calldata
    encoder and the CTA button's state machine. The wallet's answers are inputs; the
    `await`s are run to completion in order, so a call of `SendTip` is one whole flow. */
module MainTip {
  import opened Text
  import opened Hex
  import opened Wrappers
  import opened Erc20
  import opened Amounts
  import opened Wallet

  /** `tipState`; `setTipState` also sets the CTA label, which is not modelled. */
  datatype TipState = Idle | Preparing | Confirm | Sending | Done

  /** The toast a flow ends with (`Quiet` when it shows none). */
  datatype Notice =
    | Quiet
    | TipDisabled        // "Tip disabled: set a valid RECIPIENT + BUILDER_CODE ..."
    | EnterValidAmount   // "Enter a valid USDC amount (> 0, up to 6 decimals)."
    | SwitchToBase       // "Please switch to Base Mainnet (0x2105) ..."
    | TipSent            // "Tip sent (USDC on Base)."
    | TipCancelled       // "Tip cancelled."
    | TipFailed          // "Tip failed. Please try again."

  /** What each wallet request does, in the order the flow makes them:
      `getEthereumProvider`, `eth_requestAccounts`, `eth_chainId` (the chain id it
      answers, or the error it throws), `wallet_switchEthereumChain`, `wallet_sendCalls`. */
  datatype Provider = Provider(
    getProvider: Call, requestAccounts: Call, chainId: Result<String, String>,
    switchChain: Call, sendCalls: Call)

  /** The end of one flow: the state, the calldata handed to `wallet_sendCalls` if that
      request was made, and the toast. */
  datatype Outcome = Outcome(state: TipState, submitted: Option<String>, notice: Notice)

  const BaseMainnet: String := "0x2105"

  /** The guard at the top of `sendTip`. */
  predicate TipEnabled(c: TipConfig) {
    IsHexAddress(c.recipient) && !IsZeroAddress(c.recipient)
    && c.builderCode != "" && !StartsWith(c.builderCode, "TODO")
  }

  /** `encodeErc20Transfer`: the recipient is lower-cased and a leading "0x" removed. */
  function EncodeTransfer(recipient: String, amount: nat): (r: String)
    ensures StartsWith(r, "0x" + Selector)
  {
    var lower := ToLower(recipient);
    var to := if StartsWith(lower, "0x") then lower[2..] else lower;
    TransferData(to, NatToHex(amount))
  }

  /** The toast the `catch` block picks for an error message. */
  function CatchNotice(msg: String): (n: Notice)
    ensures n == TipCancelled || n == TipFailed
  {
    if IsCancellation(msg) then TipCancelled else TipFailed
  }

  /** `sendTip(usdcAmountStr)` from state `st`. */
  function SendTip(c: TipConfig, st: TipState, amountText: String, w: Provider): (o: Outcome)
    ensures o.state == st || o.state == Idle || (o.state == Done && o.notice == TipSent)
  {
    Flow(c, st, ParseAmountUSDC(amountText), w)
  }

  /** The rest of `sendTip` once the amount has been parsed (`None` is the parser's null). */
  function Flow(c: TipConfig, st: TipState, parsed: Option<nat>, w: Provider): (o: Outcome)
    ensures o.state == st || o.state == Idle || (o.state == Done && o.notice == TipSent)
  {
    if !TipEnabled(c) then Outcome(st, None, TipDisabled)
    else
      match parsed
      case None => Outcome(st, None, EnterValidAmount)
      case Some(amount) =>
        var data := EncodeTransfer(c.recipient, amount);
        if w.getProvider.Throws? then Outcome(st, None, Quiet)
        // from here on the state is "preparing"
        else if w.requestAccounts.Throws? then Outcome(Idle, None, CatchNotice(w.requestAccounts.message))
        else if w.chainId.Err? then Outcome(Idle, None, CatchNotice(w.chainId.error))
        else if w.chainId.value != BaseMainnet && w.switchChain.Throws? then Outcome(Idle, None, SwitchToBase)
        // "confirm", then "sending"
        else if w.sendCalls.Throws? then Outcome(Idle, Some(data), CatchNotice(w.sendCalls.message))
        else Outcome(Done, Some(data), TipSent)
  }

  /** The CTA click handler: ignored while a flow is in progress; "done" is reset to "idle"
      before a new flow. `preset` is `String(tipAmountUSDC)` for a chosen pill (None when
      no pill is chosen), `custom` the text field. */
  function OnCta(c: TipConfig, st: TipState, preset: Option<String>, custom: String, w: Provider): (o: Outcome)
    ensures st == Preparing || st == Confirm || st == Sending ==> o == Outcome(st, None, Quiet)
  {
    if st == Preparing || st == Confirm || st == Sending then Outcome(st, None, Quiet)
    else
      var st' := if st == Done then Idle else st;
      SendTip(c, st', preset.GetOr(Trim(custom)), w)
  }

  /** Whatever stops the flow before the wallet is used leaves the state alone and submits
      nothing. */
  lemma SendTipGuards(c: TipConfig, st: TipState, amountText: String, w: Provider)
    ensures !TipEnabled(c) ==> SendTip(c, st, amountText, w) == Outcome(st, None, TipDisabled)
    ensures TipEnabled(c) && ParseAmountUSDC(amountText) == None
            ==> SendTip(c, st, amountText, w) == Outcome(st, None, EnterValidAmount)
  {
  }

  /** A flow reports success, and ends in "done", exactly when the configuration and
      amount are valid and every wallet request resolves (the chain switch only being asked
      for off Base); what it submits is the encoded transfer of the parsed amount. */
  lemma SendTipDone(c: TipConfig, st: TipState, amountText: String, w: Provider)
    ensures SendTip(c, st, amountText, w).notice == TipSent
            <==> TipEnabled(c) && ParseAmountUSDC(amountText).Some?
                 && w.getProvider == Resolves && w.requestAccounts == Resolves && w.chainId.Ok?
                 && (w.chainId.value != BaseMainnet ==> w.switchChain == Resolves)
                 && w.sendCalls == Resolves
    ensures SendTip(c, st, amountText, w).notice == TipSent ==> SendTip(c, st, amountText, w).state == Done
    ensures SendTip(c, st, amountText, w).submitted.Some?
            ==> SendTip(c, st, amountText, w).submitted
                == Some(EncodeTransfer(c.recipient, ParseAmountUSDC(amountText).value))
  {
    FlowDone(c, st, ParseAmountUSDC(amountText), w);
  }

  lemma FlowDone(c: TipConfig, st: TipState, parsed: Option<nat>, w: Provider)
    ensures Flow(c, st, parsed, w).notice == TipSent
            <==> TipEnabled(c) && parsed.Some?
                 && w.getProvider == Resolves && w.requestAccounts == Resolves && w.chainId.Ok?
                 && (w.chainId.value != BaseMainnet ==> w.switchChain == Resolves)
                 && w.sendCalls == Resolves
    ensures Flow(c, st, parsed, w).notice == TipSent ==> Flow(c, st, parsed, w).state == Done
    ensures Flow(c, st, parsed, w).submitted.Some?
            ==> Flow(c, st, parsed, w).submitted == Some(EncodeTransfer(c.recipient, parsed.value))
  {
  }

  /** The encoder's calldata decodes to the recipient's digits in lower case and to the
      amount, whenever the amount fits the 256-bit word. */
  lemma EncodeTransferDecodes(recipient: String, amount: nat)
    requires IsHexAddress(recipient) && amount < Pow16(WordDigits)
    ensures DecodeTransfer(EncodeTransfer(recipient, amount)) == Some((ToLower(recipient)[2..], amount))
  {
    var lower := ToLower(recipient);
    assert lower[..2] == "0x";
    AddressDigitsStayHex(recipient);
    TransferRoundTrip(lower[2..], amount);
  }

  /** So the calldata a flow submits names the configured recipient and the parsed amount. */
  lemma SubmittedDecodes(c: TipConfig, st: TipState, amountText: String, w: Provider, amount: nat)
    requires ParseAmountUSDC(amountText) == Some(amount) && amount < Pow16(WordDigits)
    requires SendTip(c, st, amountText, w).submitted.Some?
    ensures DecodeTransfer(SendTip(c, st, amountText, w).submitted.value)
            == Some((ToLower(c.recipient)[2..], amount))
  {
    SendTipDone(c, st, amountText, w);
    assert TipEnabled(c);
    EncodeTransferDecodes(c.recipient, amount);
  }

  /** Lower-casing keeps an address's digits hexadecimal. */
  lemma AddressDigitsStayHex(a: String)
    requires IsHexAddress(a)
    ensures |ToLower(a)| == 42 && AllHex(ToLower(a)[2..])
  {
    forall i | 2 <= i < 42
      ensures IsHexDigit(ToLower(a)[i])
    {
      assert IsHexDigit(a[2..][i - 2]);
    }
  }

  /** A click while "done" starts a new flow from "idle", so a failing flow ends in "idle"
      rather than "done". */
  lemma CtaAfterDone(c: TipConfig, preset: Option<String>, custom: String, w: Provider)
    ensures OnCta(c, Done, preset, custom, w) == SendTip(c, Idle, preset.GetOr(Trim(custom)), w)
    ensures OnCta(c, Done, preset, custom, w).state != Done
            ==> OnCta(c, Done, preset, custom, w).state == Idle
  {
  }
}
