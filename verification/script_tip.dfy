/** The tip sheet of public/script.js: `strip0x`, `pad32`, the encoder, the `canSend`
    guard and the send button, which walks through the five labels of `STATES` and is
    disabled while a send is in flight. One call of `OnSend` runs one click's handler to
    completion with the wallet's answers as inputs. */
module ScriptTip {
  import opened Text
  import opened Hex
  import opened Wrappers
  import opened Erc20
  import opened Amounts
  import opened Wallet
  import MainTip
  import TipWidget

  /** `strip0x`: drops a leading "0x" when there is one. */
  function Strip0x(h: String): (r: String)
    ensures StartsWith(h, "0x") ==> "0x" + r == h
    ensures !StartsWith(h, "0x") ==> r == h
  {
    if StartsWith(h, "0x") then h[2..] else h
  }

  lemma Strip0xOfPrefixed(d: String)
    ensures Strip0x("0x" + d) == d
  {
    assert ("0x" + d)[..2] == "0x";
  }

  /** `encodeErc20Transfer`: the "0x" is stripped before the digits are lower-cased. */
  function EncodeTransfer(to: String, units: nat): String {
    TransferData(ToLower(Strip0x(to)), NatToHex(units))
  }

  /** On a recipient written with a lower-case "0x", this encoder and src/main.js's agree. */
  lemma MatchesMainEncoder(to: String, units: nat)
    requires StartsWith(to, "0x")
    ensures EncodeTransfer(to, units) == MainTip.EncodeTransfer(to, units)
  {
    var d := to[2..];
    assert ToLower(to)[..2] == "0x";
    assert ToLower(to)[2..] == ToLower(d);
  }

  /** On "0X" they part: lower-casing first (src/main.js) removes the prefix, stripping
      first (here) keeps it inside the address word, which then no longer decodes. */
  lemma UpperPrefixNotStripped(d: String, units: nat)
    requires |d| == 40 && AllHex(d)
    ensures DecodeTransfer(EncodeTransfer("0X" + d, units)) == None
  {
    var to := "0X" + d;
    assert to[..2] != "0x" by { assert to[..2][1] == 'X'; }
    var lower := ToLower(to);
    assert |lower| == 42 && lower[1] == 'x';
    var word := Word(lower);
    WordIsZerosThenDigits(lower, 22);
    assert word[23] == 'x';
    var amount := Word(NatToHex(units));
    if |amount| == WordDigits {
      Layout(word, amount);
      var data := "0x" + Selector + word + amount;
      assert data[10..34][23] == 'x';
    } else {
      assert |"0x" + Selector + word + amount| != CalldataLength;
    }
  }

  /** `canSend`. */
  predicate CanSend(c: TipConfig) {
    c.builderCode != TipWidget.TodoBuilderCode
    && IsHexAddress(c.recipient) && ToLower(c.recipient) != ZeroAddress()
  }

  /** `canSend` is `!isDisabled` of public/src/tip.js except that it accepts an empty
      builder code. */
  lemma CanSendVersusTipWidget(c: TipConfig)
    ensures !TipWidget.IsDisabled(c) <==> CanSend(c) && c.builderCode != ""
  {
  }

  /** The button: an index into `STATES` and whether it is enabled. */
  datatype Button = Button(state: nat, enabled: bool)

  /** `STATES`. */
  function Label(state: nat): String
    requires state < 5
  {
    ["Send USDC", "Preparing tip…", "Confirm in wallet", "Sending…", "Send again"][state]
  }

  /** `resetState`. */
  function Reset(c: TipConfig): (b: Button)
    ensures b.state == 0 && (b.enabled <==> CanSend(c))
  {
    Button(0, CanSend(c))
  }

  /** Why a send stopped: the errors the handler throws or receives. */
  datatype SendError =
    | AmountInvalid(error: AmountError)
    | NoWallet          // "No wallet detected."
    | NoAccount         // "No account available."
    | SwitchNetwork     // "Please switch to Base network in your wallet."
    | WalletError(message: String)

  function ErrorText(e: SendError): String {
    match e
    case AmountInvalid(a) => Message(a)
    case NoWallet => "No wallet detected."
    case NoAccount => "No account available."
    case SwitchNetwork => "Please switch to Base network in your wallet."
    case WalletError(m) => m
  }

  /** The toasts of one click. */
  datatype Notice =
    | DisabledReason(placeholderBuilder: bool) // "Set BUILDER_CODE ..." or "Set a valid RECIPIENT address."
    | TipCancelled                             // "No worries — tip cancelled."
    | ShowError(error: SendError)              // the error's own message
    | TipSent                                  // "Tip sent. Respect 🟩"

  /** `window.ethereum` and its requests: `eth_requestAccounts` (whether it lists an
      account, or the error), `eth_chainId`, `wallet_switchEthereumChain`,
      `wallet_sendCalls`. */
  datatype Provider = Provider(
    present: bool, accounts: Result<bool, String>, chainId: Result<String, String>,
    switchChain: Call, sendCalls: Call)

  /** After one click: how many of the in-flight labels (states 1, 2, 3) were set, the
      label the button is left with, the calldata handed to `wallet_sendCalls` if that
      request was made, the toast, and whether `RektUI.flashBoost` was called. */
  datatype Outcome = Outcome(reached: nat, final: Button, submitted: Option<String>, notice: Notice, boosted: bool)

  /** The labels set during a click that got through `reached` in-flight states, in order. */
  function Trace(o: Outcome): (t: seq<Button>)
    ensures |t| == o.reached + 1 && t[o.reached] == o.final
    ensures forall i :: 0 <= i < o.reached ==> t[i] == Button(i + 1, false)
  {
    InFlightLabels(o.reached) + [o.final]
  }

  /** The disabled labels of states 1 to k. */
  function InFlightLabels(k: nat): (t: seq<Button>)
    ensures |t| == k && forall i :: 0 <= i < k ==> t[i] == Button(i + 1, false)
  {
    if k == 0 then [] else InFlightLabels(k - 1) + [Button(k, false)]
  }

  function CatchNotice(e: SendError): Notice {
    if IsScriptCancellation(ErrorText(e)) then TipCancelled else ShowError(e)
  }

  /** Where the wallet part of a click stops: `None` when every request succeeds,
      otherwise the error and whether `wallet_sendCalls` had been called. */
  function WalletFailure(p: Provider): Option<(SendError, bool)> {
    if !p.present then Some((NoWallet, false))
    else if p.accounts.Err? then Some((WalletError(p.accounts.error), false))
    else if !p.accounts.value then Some((NoAccount, false))
    else if p.chainId.Err? then Some((WalletError(p.chainId.error), false))
    else if p.chainId.value != TipWidget.BaseMainnet && p.chainId.value != TipWidget.BaseSepolia
            && p.switchChain.Throws? then Some((SwitchNetwork, false))
    else if p.sendCalls.Throws? then Some((WalletError(p.sendCalls.message), true))
    else None
  }

  /** The send button's click handler; `selected` is the chosen preset or custom amount. */
  function OnSend(c: TipConfig, selected: String, p: Provider): (o: Outcome)
    ensures o.reached <= 3
    ensures o.final == Reset(c) || o.final == Button(4, true)
  {
    if !CanSend(c) then
      Outcome(0, Reset(c), None, DisabledReason(c.builderCode == TipWidget.TodoBuilderCode), false)
    else match ParseAmountToUnits(Some(selected))
      case Err(a) => Outcome(0, Reset(c), None, CatchNotice(AmountInvalid(a)), false)
      case Ok(units) =>
        var data := EncodeTransfer(c.recipient, units);
        match WalletFailure(p)
        // states 2 and 3 are only reached once the chain is settled
        case Some((e, sent)) =>
          Outcome(if sent then 3 else 1, Reset(c), if sent then Some(data) else None, CatchNotice(e), false)
        case None => Outcome(3, Button(4, true), Some(data), TipSent, true)
  }

  /** Every label a click sets is one of the five `STATES`, and while a send is in flight
      (states 1 to 3) the button is disabled. */
  lemma ButtonDisabledInFlight(c: TipConfig, selected: String, p: Provider)
    ensures InFlightDisabled(Trace(OnSend(c, selected, p)))
  {
  }

  /** Every label set is one of the five `STATES`, and states 1 to 3 come disabled. */
  predicate InFlightDisabled(t: seq<Button>) {
    forall i :: 0 <= i < |t| ==> t[i].state < 5 && (1 <= t[i].state <= 3 ==> !t[i].enabled)
  }

  /** A click leaves the button at "Send again", enabled, exactly when the guard, the
      amount and every wallet request pass; otherwise it is reset to "Send USDC", enabled
      iff `canSend`. */
  lemma FinalButton(c: TipConfig, selected: String, p: Provider)
    ensures var o := OnSend(c, selected, p);
            var ok := CanSend(c) && ParseAmountToUnits(Some(selected)).Ok? && WalletFailure(p) == None;
            && (ok ==> o.final == Button(4, true) && o.notice == TipSent && o.boosted)
            && (!ok ==> o.final == Reset(c) && !o.boosted)
  {
  }

  /** What a click submits is this encoder's calldata for the configured recipient and the
      parsed amount, and it reads back as the lower-case address digits and that amount. */
  lemma SubmittedDecodes(c: TipConfig, selected: String, p: Provider, units: nat)
    requires ParseAmountToUnits(Some(selected)) == Ok(units) && units < Pow16(WordDigits)
    requires OnSend(c, selected, p).submitted.Some?
    ensures OnSend(c, selected, p).submitted == Some(EncodeTransfer(c.recipient, units))
    ensures DecodeTransfer(EncodeTransfer(c.recipient, units)) == Some((ToLower(c.recipient)[2..], units))
  {
    assert CanSend(c);
    MatchesMainEncoder(c.recipient, units);
    MainTip.EncodeTransferDecodes(c.recipient, units);
  }
}
