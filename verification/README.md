# RektRunner, modelled in Dafny

RektRunner is a browser runner game with a USDC tip jar. The repository holds three
versions of the game, three implementations of the tip widget and a small validator
for the mini-app manifest. This project models their deterministic logic as immutable
datatypes and pure functions, and proves what that logic promises. Random draws, wall-clock
time, the terrain noise and every wallet or network answer are parameters.

| module | file | models |
|---|---|---|
| `Wrappers` | wrappers.dfy | `Option` and `Result` |
| `Text` | text.dfy | JavaScript string helpers: `trim`, `padStart`, `padEnd`, ASCII `toLowerCase`, decimal digits, the first '.' |
| `Hex` | hex.dfy | `BigInt.prototype.toString(16)` and reading hexadecimal back |
| `Erc20` | erc20.dfy | address predicates, `pad32`, the `transfer(address,uint256)` calldata layout and a decoder for it |
| `Amounts` | amounts.dfy | the three amount parsers: `parseAmountUSDC` (src/main.js), `dollarsToUnits` (public/src/tip.js), `parseAmountToUnits` (public/script.js) |
| `Wallet` | wallet.dfy | wallet requests that resolve or throw, and the cancellation patterns |
| `MainTip` | main_tip.dfy | the tip flow of src/main.js |
| `TipWidget` | tip_widget.dfy | the two-tap tip modal of public/src/tip.js |
| `ScriptTip` | script_tip.dfy | the `STATES` send button of public/script.js |
| `Runner` | runner.dfy | the game records of src/main.js and `requestJump`, `doJump`, `endRun`, `takeHit`, `gainLife`, `addMultiplier`, `applyPickup` |
| `Spawn` | spawn.dfy | `spawnChunk` and `spawnInitial` as functions of the distance and the draws |
| `RunnerStep` | runner_step.dfy | `update(dt)` and `collideAABB` |
| `Economy` | economy.dfy | the save record, `handleDaily`, character unlocks, the shop loop and `endRun`'s save update |
| `Leaderboard` | leaderboard.dfy | `saveLB`, submission, the tab filter, the stable descending sort, the top 20 and `escapeHtml` |
| `Session` | session.dfy | `resetRun`, `startRun` and the animation-frame `tick` |
| `Reals` | reals.dfy | min, max and a few facts about real arithmetic |
| `RektUi` | rekt_ui.dfy | public/TheRektRunner-ui.js: terrain, ground height, `collideRectCircle`, jumps with coyote time and a buffer, boosts, `tick`, `onTap` and `reset` |
| `FloorGame` | floor_game.dfy | public/src/game.js: `clamp`, `seedFloor`, `scrollFloor`, `getFloorY`, `jump`, `rectsOverlap`, the simulation half of `frame` and the restart handler |
| `Manifest` | manifest.dfy | public/src/main.js: `normalizeUrl`, `getManifestHomeAndImage` and the checks of `detectionGate` |

Modelling choices that follow the code:

- The shield of src/main.js is a flag (0 or 1), not a counter. A second shield pickup changes nothing.
- Red candles are never removed when hit. Only the invulnerability window stops repeated hits.
- `endRun` runs inside the collision loop, and the rest of `update` still runs in that frame.
  The score can therefore still grow after `endRun`, while the credits use the score recorded
  at `endRun` (`lastRunScore`).
- A starting multiplier of 1.5 bought in the shop is overwritten at the first combo step.
- `saveLB` keeps the first 50 rows, so once 50 are stored every new submission is dropped.
- The leaderboard sort is modelled as a stable insertion sort by descending score. `Array.prototype.sort`
  is required to be stable, so this gives the same order.
- In public/TheRektRunner-ui.js, `groundYAt` picks its segment as `floor(x / 10)` clamped to
  the valid range, whatever the points' current x. After `shiftTerrain` the chosen segment need
  not contain x. The model keeps this. A segment of zero width gives no finite height, which
  the model writes as `None`. When x is the segment's start that is NaN, and NaN compares
  false against everything.
- In public/src/game.js, `clamp(v, 120, H - 120)` returns 120 on a screen shorter than 240,
  because `Math.max` is applied last.
- The regular expressions are predicates over the text around its first '.'.
- JSON numbers keep their JavaScript string form, so `String(x)` and truthiness need no number printing.
- `normalizeUrl` collapses a trailing run of slashes to one. Despite its comment ("Ensure
  trailing slash") it does not add a slash when there is none. The model follows the code.

## Model

| member | source | states |
|---|---|---|
| Text.TrimIdempotent | src/main.js:453 | the `String(v).trim()` every parser starts with: trimming an already trimmed string changes nothing |
| Text.TrimStartRemovesSpaces | public/src/tip.js:38 | `trim` removes exactly a leading run of white space and keeps the rest as a suffix |
| Text.TrimEndRemovesSpaces | public/src/tip.js:38 | `trim` removes exactly a trailing run of white space and keeps the rest as a prefix |
| Text.PadStart | public/script.js:24 | `padStart(n, c)` keeps the string as a suffix, fills the front with `c` up to length n, and returns a string already n long unchanged |
| Text.PadEnd | src/main.js:457 | `padEnd(n, c)` keeps the string as a prefix, fills the back with `c` up to length n, and never truncates |
| Text.DigitsValueAppend | src/main.js:457 | the place-value law behind `BigInt(a) * 10^6 + BigInt(frac)`: appending t digits multiplies by 10^t and adds t's value |
| Text.LeadingZeros | public/script.js:24 | zeros added in front of a digit string do not change its value |
| Text.TrailingZeros | src/main.js:457 | zeros added at the back multiply the value by a power of ten, which is what `padEnd(6, "0")` relies on |
| Text.NatToDecimalValue | src/main.js:603 | the decimal numeral of n reads back as n |
| Hex.NatToHexValue | src/main.js:470 | `toString(16)` prints lower-case hexadecimal digits that read back as the number |
| Hex.NatToHexLength | src/main.js:470 | a number below 16^k prints in at most k hexadecimal digits, so an amount below 2^256 fits one ABI word |
| Hex.LowerHexUnchanged | public/script.js:38 | lower-casing leaves lower-case hexadecimal text alone |
| Erc20.Word | public/script.js:24 | `pad32`: the result is the digits left-padded with '0' to 64 characters, never truncated |
| Erc20.WordIsZerosThenDigits | src/main.js:462-464 | a word of fewer than 64 digits is exactly the missing number of zeros followed by the digits |
| Erc20.ZeroAddress | public/src/tip.js:21 | the zero address constant is "0x" followed by 40 zeros, itself a well-formed address |
| Erc20.LowerZeroAddress | src/main.js:23-25 | comparing the lower-cased address with the zero address (tip.js and script.js) is the same test as the case-insensitive `/^0x0{40}$/i` of src/main.js |
| Erc20.Layout | public/src/tip.js:33 | in "0x" + selector + two 64-digit words, the selector sits at 2..10, the first word at 10..74 and the second at 74..138 |
| Erc20.AddressWord | public/src/tip.js:31 | a padded 40-digit address is 24 zeros followed by the address digits |
| Erc20.AmountWord | public/src/tip.js:32 | a padded amount below 16^64 is 64 hexadecimal digits whose value is the amount |
| Erc20.TransferRoundTrip | public/src/tip.js:30-33 | `transfer(address,uint256)` calldata for a 40-digit address and an amount below 2^256 is 138 characters, and an independent decoder recovers the address digits and the amount |
| Wallet.CancellationWords | src/main.js:540 | the pattern with the alternatives "user rejected", "rejected" and "denied", ignoring case, accepts exactly the messages that mention "rejected" or "denied", in any case |
| Wallet.ScriptCancelsAtLeastAsOften | public/script.js:167 | every message src/main.js and tip.js treat as a cancellation, the pattern with the alternatives "denied", "rejected" and "user" treats as one too |
| Wallet.UserOnlyMessage | public/script.js:167 | the converse fails: "user" is a cancellation for public/script.js and a failure for the other two widgets |
| Amounts.PaddedFraction | src/main.js:457 | the fraction `b.padEnd(6, "0")` of at most six digits is worth less than one dollar (10^6 units) |
| Amounts.PaddedFractionValue | src/main.js:457 | right-padding scales by the missing places: "5" is 500000, "05" is 50000 |
| Amounts.TruncatedFraction | public/src/tip.js:42 | `(b + "000000").slice(0, 6)` equals right-padding for at most six digits and is the padded first six digits otherwise |
| Amounts.EmptyFraction | src/main.js:457 | an absent fraction counts as zero (the `"0"` fallback) |
| Amounts.ParseAmountUSDC | src/main.js:452-460 | a result exists only for a trimmed input matching `^\d+(\.\d{0,6})?$`, and it is positive; a non-matching input gives null |
| Amounts.DollarsToUnits | public/src/tip.js:36-46 | "Enter amount" exactly for blank input, "Invalid amount" exactly for non-blank input not matching `^\d+(\.\d+)?$`; a result is positive and comes from a matching input |
| Amounts.ParseAmountToUnits | public/script.js:26-34 | missing input is treated as "" and rejected; the "valid number" error is raised exactly for input not matching `^\d+(\.\d+)?$`; a result is positive |
| Amounts.SplitDecimal | src/main.js:456 | `split(".")` of w + "." + f gives w and f, and which of the two patterns the text matches depends only on the number of fraction digits |
| Amounts.SplitWhole | src/main.js:456 | a plain digit string matches both patterns and has an empty fraction |
| Amounts.ParseAmountUSDCMeaning | src/main.js:452-460 | for w.f with at most six decimals the result is whole * 10^6 + fraction right-padded to six digits, and null when that is zero |
| Amounts.DollarsToUnitsMeaning | public/src/tip.js:36-46 | for w.f the result is whole * 10^6 + the first six fraction digits padded, and "Amount must be > 0" when that is zero |
| Amounts.ParseAmountToUnitsMeaning | public/script.js:26-34 | for w.f the result is whole * 10^6 + the first six fraction digits padded, and "Amount must be > 0." when that is zero |
| Amounts.ParseAmountUSDCRejectsSevenDecimals | src/main.js:455 | src/main.js rejects any amount with more than six decimals |
| Amounts.DollarsToUnitsTruncates | public/src/tip.js:42 | tip.js truncates extra decimals: w.f parses as w followed by the first six digits of f |
| Amounts.WholeDollars | public/src/tip.js:39-43 | a positive whole number of dollars parses to that many times 10^6 in all three widgets |
| Amounts.ScriptAgreesWithTip | public/script.js:26-34 | public/script.js and tip.js accept the same non-missing inputs and give the same units |
| Amounts.MainAgreesWithTip | src/main.js:452-460 | src/main.js and tip.js agree wherever both accept: on at most six decimals tip.js's result is src/main.js's, and src/main.js's result with a fraction is tip.js's |
| Amounts.MatchesRelation | src/main.js:455 | `^\d+(\.\d+)?$` with at most six decimals implies `^\d+(\.\d{0,6})?$`, and the latter with a fraction implies the former |
| Amounts.SixDigits | src/main.js:457 | a count of units below 10^6, printed and left-padded to six digits, is a six-digit fraction worth that count |
| Amounts.ParseFormatted | public/src/tip.js:36-46 | every positive amount of units, written as whole.six-digit-fraction, parses back to itself in all three widgets |
| MainTip.EncodeTransfer | src/main.js:466-471 | the calldata starts with "0x" and the transfer selector |
| MainTip.EncodeTransferDecodes | src/main.js:466-471 | for a 40-digit address and an amount below 2^256 the calldata decodes to the lower-cased address digits and the amount |
| MainTip.CatchNotice | src/main.js:539-541 | a thrown error is reported either as a cancellation or as a failure |
| MainTip.SendTip | src/main.js:474-543 | `sendTip` leaves the state where it was, returns to idle, or ends in done with the "sent" notice |
| MainTip.SendTipGuards | src/main.js:475-483 | a disabled tip or an amount `parseAmountUSDC` rejects returns with a notice before any state change or wallet call |
| MainTip.SendTipDone | src/main.js:474-543 | the tip is sent exactly when the tip is enabled, the amount parses and every wallet request succeeds (switching chain only off Base mainnet); it then ends in done, and the calldata sent is the encoding of the parsed amount |
| MainTip.FlowDone | src/main.js:485-542 | the same as SendTipDone, for any already-parsed amount |
| MainTip.SubmittedDecodes | src/main.js:486 | whatever calldata is submitted decodes back to the recipient and the parsed amount |
| MainTip.AddressDigitsStayHex | src/main.js:469 | lower-casing a well-formed address keeps 40 hexadecimal digits after "0x" |
| MainTip.OnCta | src/main.js:557-558 | a CTA click while preparing, confirming or sending changes nothing and sends nothing |
| MainTip.CtaAfterDone | src/main.js:559-564 | a CTA click after done first resets to idle and then sends the chosen amount (the preset if one is set, else the trimmed custom text); it never stays in done without sending |
| TipWidget.IsDisabledMeaning | public/src/tip.js:18-24 | tips are disabled exactly when the builder code is empty or the placeholder, the recipient is not "0x"+40 hex digits, or it is the zero address in any case |
| TipWidget.EncodeTransfer | public/src/tip.js:26-34 | "Invalid recipient" exactly for a malformed address; success exactly for a well-formed address and a positive BigInt |
| TipWidget.EncodeTransferDecodes | public/src/tip.js:30-33 | the calldata decodes to the address digits as given (case kept) and the amount |
| TipWidget.LowerCaseMatchesMain | public/src/tip.js:31 | tip.js's calldata, lower-cased, is src/main.js's calldata for the same recipient and amount |
| TipWidget.LowerTransferData | public/src/tip.js:30-33 | lower-casing calldata lower-cases the address digits and nothing else |
| TipWidget.LowerWord | public/src/tip.js:31 | padding and lower-casing commute |
| TipWidget.CatchNotice | public/src/tip.js:277-284 | a thrown error is reported either as a cancellation or as a failure |
| TipWidget.SendTip | public/src/tip.js:202-285 | calldata is submitted only from the confirm-ready state |
| TipWidget.EnabledEncodeSucceeds | public/src/tip.js:250 | when tips are enabled and the amount parses, `encodeTransfer` cannot throw |
| TipWidget.GuardsChangeNothing | public/src/tip.js:206-223 | disabled tips, a missing wallet or a rejected amount return before any state change and submit nothing |
| TipWidget.FirstTapPrepares | public/src/tip.js:228-235 | the first tap from idle only prepares: confirm-ready with the wallet allowed, no request made |
| TipWidget.OtherStatesIgnored | public/src/tip.js:237-239 | from any state other than idle and confirm-ready the tap does nothing |
| TipWidget.SecondTapOutcome | public/src/tip.js:241-285 | the second tap ends in done exactly when the chain check, the account request and `wallet_sendCalls` succeed, otherwise in idle; the calldata sent is the encoding of the parsed amount |
| TipWidget.SecondTap | public/src/tip.js:241-285 | the same as SecondTapOutcome, for an already-parsed amount |
| TipWidget.OnCta | public/src/tip.js:287-291 | a CTA click while sending or preparing changes nothing |
| TipWidget.OpenOrClose | public/src/tip.js:108-119 | opening or closing the modal resets it to idle with the wallet not allowed |
| ScriptTip.Strip0x | public/script.js:23 | `strip0x` removes a leading "0x" when present and otherwise returns the text unchanged |
| ScriptTip.Strip0xOfPrefixed | public/script.js:23 | stripping "0x" + d gives back d |
| ScriptTip.MatchesMainEncoder | public/script.js:35-41 | for a recipient written with "0x", public/script.js's calldata is exactly src/main.js's |
| ScriptTip.UpperPrefixNotStripped | public/script.js:23 | a recipient written "0X…" keeps its "0x" after lower-casing, so the address word is not 40 digits and the calldata no longer decodes as a transfer |
| ScriptTip.CanSendVersusTipWidget | public/script.js:53-57 | `canSend` is tip.js's `!isDisabled` except that an empty builder code is accepted |
| ScriptTip.Reset | public/script.js:122 | `resetState` shows state 0 with the button enabled exactly when `canSend` holds |
| ScriptTip.Trace | public/script.js:135-160 | the labels a click shows: the in-flight states 1, 2, 3 in order, each disabled, then the final one |
| ScriptTip.OnSend | public/script.js:129-171 | a click reaches at most state 3 while in flight and ends either reset or at state 4, enabled |
| ScriptTip.ButtonDisabledInFlight | public/script.js:135-149 | the button is disabled in every in-flight state (1 to 3) of every click |
| ScriptTip.FinalButton | public/script.js:129-171 | a click ends at state 4, enabled, with the boost flashed, exactly when `canSend` holds, the amount parses and no wallet step fails; otherwise it ends reset and flashes nothing |
| ScriptTip.SubmittedDecodes | public/script.js:133 | submitted calldata is the encoding of the parsed units and decodes to the lower-cased recipient digits and those units |
| Runner.BonusesValid | src/main.js:115-120 | for every character the score and speed multipliers are at least 1 and the cooldown multiplier is in (0, 1] |
| Runner.RequestJump | src/main.js:972 | `requestJump` arms the jump buffer and changes nothing else |
| Runner.DoJump | src/main.js:976-985 | `doJump` succeeds exactly when jumps are left; failing it changes nothing; succeeding it uses up exactly one jump, sets the vertical speed to -860, leaves the ground and clears the buffer and coyote time |
| Runner.JumpsTakenBound | src/main.js:976-985 | without landing, k jump attempts in a row succeed min(k, jumps left) times, never more than three |
| Runner.EndRun | src/main.js:893-896 | `endRun` stops the run, records the score at that moment and changes nothing else |
| Runner.TakeHit | src/main.js:910-929 | during invulnerability a hit changes nothing; with a shield it only breaks the shield and grants 0.7 s; otherwise one life goes, the multiplier and combo reset, 0.9 s are granted and the run ends at zero lives; the score never changes |
| Runner.TakeHitTwice | src/main.js:910-911 | a second hit in the same instant changes nothing, because the first grants invulnerability |
| Runner.GainLife | src/main.js:931-937 | `gainLife` adds exactly one life below the cap and is a no-op at it |
| Runner.GainLifeBounded | src/main.js:931-932 | lives never exceed the cap of five through `gainLife` |
| Runner.AddMultiplier | src/main.js:939-950 | `addMultiplier` only accumulates combo time until it passes 1.2 s; then the combo grows by one, the timer resets and the multiplier becomes min(4, (1 + 0.04 combo) * scoreMult) |
| Runner.AddMultiplierBounds | src/main.js:939-950 | the multiplier stays in [1, 4], the combo timer in [0, 1.2] and the combo grows by at most one |
| Runner.StartMultiplierLost | src/main.js:945-946 | a bought starting multiplier of 1.5 drops to 1.04 at the first combo step (for the bull) |
| Runner.ApplyPickup | src/main.js:952-959 | a coin adds 120 times the multiplier, a heart gains a life, speed and combo start the boost timer and shield and combo set the shield flag |
| Runner.ShieldDoesNotStack | src/main.js:954-955 | picking up a second shield changes nothing: one hit still removes it |
| Runner.PickupKeepsBounds | src/main.js:952-959 | a pickup never lowers the score, never changes the multiplier and keeps lives within the cap |
| Spawn.RandRange | src/main.js:829 | `rand(a, b)` with a roll in [0, 1) lies in [a, b] |
| Spawn.Difficulty | src/main.js:835 | difficulty is capped at 1 and is never negative for a non-negative distance |
| Spawn.ProbabilitiesGrow | src/main.js:835-837 | obstacle, pickup and tall-candle chances grow with distance from 0.35, 0.22, 0.25 to at most 0.70, 0.32, 0.45, and stop growing at 22000 |
| Spawn.KindTable | src/main.js:855-860 | the pickup kind of a roll is given by its interval: coin up to 0.60, heart 0.04 wide, speed 0.14, shield 0.12 and combo 0.10 |
| Spawn.SpawnChunkShape | src/main.js:833-861 | a chunk adds at most one candle and then at most one pickup, exactly when the pickup roll is under the pickup chance, candles standing on the floor and pickups between 40 and 220 above it, with the stated sizes and at or ahead of the chunk start |
| Spawn.SpawnInitialPlaced | src/main.js:830 | `spawnInitial` places at most two entities per chunk, all well placed and at least 500 ahead of the camera |
| Spawn.ChunkPlaced | src/main.js:833-861 | every entity of a chunk is well placed from the chunk start |
| RunnerStep.OverlapMeansSharedPoint | src/main.js:1040 | `collideAABB` holds for boxes of positive size exactly when some point lies strictly inside both |
| RunnerStep.FrameSpeedBounds | src/main.js:1052-1054 | the frame speed is at least 340, and without bonus or boost it is min(720, 340 + distance / 26) |
| RunnerStep.Advance | src/main.js:1056-1060 | the camera and the distance both move by speed * dt, and only the timers change besides |
| RunnerStep.Fall | src/main.js:1062-1066 | the timer and gravity step changes only height, speed, coyote time and the jump buffer |
| RunnerStep.Land | src/main.js:1068-1075 | reaching the floor snaps the player onto it with zero speed and 0.10 s of coyote time, restoring three jumps only on touchdown; leaving the floor starts coyote time |
| RunnerStep.CoyoteTimeIrrelevant | src/main.js:1077-1080 | both branches of the buffered-jump block reduce to `doJump`: a jump happens exactly when the buffer is armed and jumps are left |
| RunnerStep.SpawnAhead | src/main.js:1082-1084 | spawning only appends entities |
| RunnerStep.CollideOne | src/main.js:1087-1107 | one collision turn at most marks a green candle hit or a pickup taken, and moves neither world nor player |
| RunnerStep.CollideAll | src/main.js:1086-1108 | the collision loop keeps the entity list in order, each entry either unchanged or settled |
| RunnerStep.CollideOneKeeps | src/main.js:1087-1107 | one collision turn keeps lives, multiplier and combo in bounds and never lowers the score |
| RunnerStep.CollideAllKeeps | src/main.js:1086-1108 | the whole collision loop keeps those bounds and never lowers the score |
| RunnerStep.Evict | src/main.js:1113 | the eviction filter keeps exactly the entities less than 220 behind the camera |
| RunnerStep.EvictOne | src/main.js:1113 | a single entity is kept exactly when it is less than 220 behind the camera |
| RunnerStep.EvictAppend | src/main.js:1113 | the survivors of a concatenation are the survivors of each part, in order, so the filter keeps order and repeats |
| RunnerStep.Collide | src/main.js:1086-1108 | after the loop every entity is unchanged or settled, and none disappears |
| RunnerStep.Finish | src/main.js:1110-1113 | the combo step, passive score and eviction touch neither world, player, distance, lives nor the over flag |
| RunnerStep.MoveKeeps | src/main.js:1062-1080 | after falling, landing and a buffered jump, jumps stay in [0, 3] and a grounded player stands on the floor with three jumps |
| RunnerStep.AdvanceKeeps | src/main.js:1051-1060 | advancing keeps the frame invariant and never lowers the distance |
| RunnerStep.CollideKeeps | src/main.js:1086-1108 | collisions keep the frame invariant and never lower the score |
| RunnerStep.FinishKeeps | src/main.js:1110-1113 | the combo step and passive score keep the frame invariant and never lower the score |
| RunnerStep.StepKeeps | src/main.js:1050-1115 | one `update` keeps the frame invariant (lives in [0, 5], multiplier in [1, 4], jumps in [0, 3]) and lowers neither score nor distance |
| Economy.DefaultSave | src/main.js:80-89 | a fresh save has no credits, only the bull unlocked and selected, and satisfies the save invariant |
| Economy.HandleDaily | src/main.js:701-722 | the bonus is zero exactly when today was already played, and then nothing changes; a first day gives streak 1 and 150; a later day continues the streak only the day after and pays 100 + min(900, 30 * streak), credited once |
| Economy.DailyOncePerDay | src/main.js:703 | a second call on the same day pays nothing and changes nothing; a bonus is 0 or lies in [130, 1000]; credits stay non-negative |
| Economy.StreakOfConsecutiveDays | src/main.js:711 | playing on n further consecutive days raises the streak to n + 1 |
| Economy.StreakBonusCap | src/main.js:712 | the streak bonus grows with the streak from 130 and reaches its cap of 1000 exactly at a 30-day streak |
| Economy.ChooseCharacter | src/main.js:780-799 | an unlocked character is just selected; a locked one is unlocked and selected only when affordable, paying exactly its cost; otherwise nothing changes |
| Economy.ChooseKeeps | src/main.js:780-799 | choosing keeps credits non-negative, choosing twice is choosing once, and the selected character is always an unlocked one |
| Economy.ToggleItem | src/main.js:756-757 | ticking a shop item adds it to the set of chosen items and unticking removes it, leaving the others alone |
| Economy.ToggleKeepsDistinct | src/main.js:756-757 | the chosen shop items stay a set without duplicates |
| Economy.BuyLoadout | src/main.js:871-879 | the shop loop buys a subsequence of the chosen items, the loadout is those items applied in order, and the credits drop by exactly their total cost, never below zero |
| Economy.BuyLoadoutStep | src/main.js:871-879 | taking the items in loop order, the next one is bought and applied exactly when the credits left after the earlier ones cover its cost, and otherwise skipped with nothing changed |
| Economy.BuyAllAffordable | src/main.js:876 | with credits for all chosen items, every one is bought |
| Economy.LoadoutBounds | src/main.js:122-126 | each item applies at most once, so the run starts with 3 or 4 lives and a multiplier of 1.0 or 1.5 |
| Economy.EndRunSave | src/main.js:893-900 | a finished run earns floor(score / 120) credits (never negative); the weekly best restarts in a new week; both bests take the floored score as a maximum; nothing else changes |
| Economy.EndRunKeeps | src/main.js:893-900 | a finished run keeps the save invariant and lowers neither credits nor the all-time best |
| Session.ResetRun | src/main.js:822-830 | given the six chunk draws of `spawnInitial`, `resetRun` restores min(5, startLives) lives and the starting multiplier, zeroes score, distance and camera, grounds the player with three jumps and no shield, and keeps the loadout and the bonus |
| Session.StartRun | src/main.js:866-884 | `startRun` leaves an active run with the selected character's bonus and the shield flag as bought |
| Session.StartRunReady | src/main.js:866-884 | a run starts in a state satisfying the frame invariant with 3 or 4 lives, and the save pays for the bought items, gains the daily bonus and stays out of debt |
| Session.FrameDt | src/main.js:1044 | a frame simulates at most 0.033 s, and never a negative time |
| Session.Tick | src/main.js:1043-1049 | a frame outside an active run changes nothing, and the save changes only in the frame in which the run ends |
| Session.TickKeeps | src/main.js:1043-1049 | a frame keeps both invariants, never lowers score or credits, and when it ends the run it credits the score the run had at `endRun` |
| Session.PlayKeeps | src/main.js:1043-1049 | over any sequence of animation frames and jump presses lives stay in [0, 5], score and credits never drop, and once the run is over a press only arms the jump buffer and a frame changes nothing |
| Leaderboard.SaveLB | src/main.js:572 | `saveLB` keeps the first 50 rows in order and leaves a shorter list alone |
| Leaderboard.Submit | src/main.js:605-614 | submitting with no last score returns the list unchanged; otherwise, on a list with room, it appends one row with the floored score |
| Leaderboard.SubmitDroppedWhenFull | src/main.js:610-611 | once 50 rows are stored, a new submission is dropped and the stored list does not change |
| Leaderboard.ForTab | src/main.js:586 | the all tab returns the rows unchanged; the week tab keeps every row of the current week exactly as often as it occurs and no other row |
| Leaderboard.ForTabCounts | src/main.js:586 | on the all tab every row appears exactly as often as in the stored list; on the week tab a row of the current week appears exactly as often as stored, and a row of another week not at all |
| Leaderboard.ForTabAppend | src/main.js:586 | the rows shown for a concatenation are those shown for each part, in order, so the filter keeps the order the stable sort then relies on |
| Leaderboard.Insert | src/main.js:587 | one insertion step of the descending sort adds exactly the new row |
| Leaderboard.InsertSorted | src/main.js:587 | inserting into a list sorted by descending score keeps it sorted |
| Leaderboard.InsertStable | src/main.js:587 | insertion is stable: among rows of equal score the new row comes after the older ones |
| Leaderboard.SortByScore | src/main.js:587 | the sort is a permutation of its input |
| Leaderboard.SortByScoreSorted | src/main.js:587 | the sort orders rows by descending score |
| Leaderboard.SortByScoreStable | src/main.js:587 | the sort is stable: rows of equal score keep their stored order, as `Array.prototype.sort` guarantees |
| Leaderboard.SortedPrefixTop | src/main.js:588 | cutting a descending list after n rows leaves out nothing scoring more than the n-th |
| Leaderboard.ShownIsTop | src/main.js:586-588 | the rendered board has at most 20 rows, sorted by descending score, drawn from the rows of the tab |
| Leaderboard.ShownLeavesLower | src/main.js:586-588 | a full board leaves out only rows scoring no more than its last row |
| Leaderboard.EscapeHtml | src/main.js:602 | escaped text contains no angle bracket or quote and is never shorter |
| Leaderboard.UnescapeChar | src/main.js:602 | decoding an escaped character followed by more text gives the character back first |
| Leaderboard.EscapeRoundTrip | src/main.js:602 | decoding the five entities undoes `escapeHtml` on every string |
| Leaderboard.EscapePlain | src/main.js:602 | text without any of the five special characters is left alone |
| RektUi.UpdateTerrain | public/TheRektRunner-ui.js:65-85 | `updateTerrain` keeps the existing points and appends new ones, at x = 10 i, until there are `need` of them |
| RektUi.UpdateTerrainIdempotent | public/TheRektRunner-ui.js:69 | a second `updateTerrain` without scrolling adds nothing |
| RektUi.ShiftAll | public/TheRektRunner-ui.js:88 | every point moves left by exactly dx and nothing else changes |
| RektUi.DropHead | public/TheRektRunner-ui.js:89 | the head loop drops exactly the leading points with x below -20 and keeps the rest in order |
| RektUi.ShiftTerrainMoves | public/TheRektRunner-ui.js:87-90 | `shiftTerrain` keeps a suffix of the points, each moved left by dx; every dropped point ended up left of -20 and the new first point does not |
| RektUi.SegmentIndex | public/TheRektRunner-ui.js:95 | the segment index is clamped to [0, n-2] and is floor(x / 10) when that is in range |
| RektUi.GroundYAt | public/TheRektRunner-ui.js:92-100 | with fewer than two points the height is the base line; otherwise there is no finite height (`None`) exactly when the chosen segment has zero width |
| RektUi.GroundYBetween | public/TheRektRunner-ui.js:96-99 | inside its segment the height is interpolated between the two end heights and equals them at the ends |
| RektUi.ClampNearest | public/TheRektRunner-ui.js:113-114 | clamping a coordinate into [lo, hi] gives the nearest point of the interval |
| RektUi.CollisionWitness | public/TheRektRunner-ui.js:112-117 | when `collideRectCircle` holds, the clamped point of the rectangle lies within the circle |
| RektUi.TouchingCollides | public/TheRektRunner-ui.js:112-117 | when any point of the rectangle lies within the circle, `collideRectCircle` holds |
| RektUi.CollideMeansTouching | public/TheRektRunner-ui.js:112-117 | `collideRectCircle` holds exactly when some point of the rectangle is within distance r of the centre |
| RektUi.JumpVy | public/TheRektRunner-ui.js:123 | the jump speed is -12.2 minus min(2, 0.35 boost), so between -14.2 and -12.2 |
| RektUi.JumpNowOutcome | public/TheRektRunner-ui.js:119-130 | grounded or within coyote time the bull jumps at once and clears grounded, coyote and buffer; otherwise only the 140 ms buffer is set |
| RektUi.PhysicsOutcome | public/TheRektRunner-ui.js:332-367 | the physics step: landing snaps to 10 above the ground, stops, grounds and grants 120 ms coyote time unless a buffered jump fires at once; in the air coyote time runs down and a buffered jump fires while it lasts; timers never go negative |
| RektUi.BufferedTapFires | public/TheRektRunner-ui.js:128 | a tap in the air that lands within 140 ms jumps on landing |
| RektUi.FlashBoost | public/TheRektRunner-ui.js:167-169 | `flashBoost` adds 2.4 up to the cap of 6 and changes nothing else |
| RektUi.OnTap | public/TheRektRunner-ui.js:138-142 | a tap while dead only resets; otherwise it starts the run and jumps, leaving the terrain alone |
| RektUi.Place | public/TheRektRunner-ui.js:313-315 | placing an object moves it left by the speed and keeps it live exactly while x is at least -80 |
| RektUi.PlaceHazards | public/TheRektRunner-ui.js:311-320 | every hazard is placed independently, none left of -80 stays live, and the run ends exactly when some live hazard touches the bull |
| RektUi.PlaceBoosts | public/TheRektRunner-ui.js:321-330 | each boost is moved in place, and retired exactly when it was live and touches the bull; none left of -80 stays live, and the boost only grows, up to 6 |
| RektUi.PlaceBoostsTotal | public/TheRektRunner-ui.js:321-330 | with no touch the boost is unchanged; with n touches it is min(6, boost + 3 n) |
| RektUi.TickSpeed | public/TheRektRunner-ui.js:297-298 | the speed is at least the base 2.4 and at most 2.4 + 2.4 + 0.55 * 6 |
| RektUi.Advance | public/TheRektRunner-ui.js:296-302 | the world and the score both move on by the speed; the ramp only grows and the boost only decays, never below 0 |
| RektUi.Tick | public/TheRektRunner-ui.js:286-293 | a tick while dead changes nothing, and before the start it only extends the terrain |
| RektUi.TickKeeps | public/TheRektRunner-ui.js:286-372 | a tick keeps boost in [0, 6] and the timers non-negative, and a running tick moves world and score on by the same speed |
| RektUi.TickDeath | public/TheRektRunner-ui.js:316-319 | a running tick ends the run exactly when a live hazard touches the bull or the bull falls 100 below the screen, and the PnL is the plain score rate exactly when no hazard was hit |
| RektUi.RunKeeps | public/TheRektRunner-ui.js:287 | any sequence of taps and frames keeps the invariant, and once dead nothing changes until a tap resets |
| RektUi.ResetFresh | public/TheRektRunner-ui.js:144-165 | `reset` gives a live, not yet started world with zero score, no terrain or objects and a bull at rest |
| FloorGame.Clamp | public/src/game.js:57 | `clamp(v, a, b)` is never below a, not above b when a <= b, and leaves a value inside [a, b] alone |
| FloorGame.NextY | public/src/game.js:117-118 | a new floor height, drift and crash drop included, lies in the band [120, H-120] (just 120 on a screen shorter than 240) |
| FloorGame.SpacedAt | public/src/game.js:48 | in a floor with fixed spacing the j-th point is j steps of 26 right of the first |
| FloorGame.SpacedIncreasing | public/src/game.js:48 | a floor with fixed spacing has strictly increasing x |
| FloorGame.SeedCount | public/src/game.js:48 | the seeding loop runs for x = 0, 26, … up to the first step past w + 26 |
| FloorGame.Seed | public/src/game.js:48-52 | seeding puts the k-th point at x = 26 k, every height in the band |
| FloorGame.SeedFloorShape | public/src/game.js:43-54 | `seedFloor` gives a non-empty floor from x = 0, evenly spaced and in the band, covering the screen, and remembers the last height |
| FloorGame.Shift | public/src/game.js:102 | every floor point moves left by exactly dx, heights unchanged |
| FloorGame.DropCount | public/src/game.js:110-112 | the head loop drops exactly the leading points left of -26 |
| FloorGame.Extend | public/src/game.js:115-121 | appending keeps the existing points, does nothing to an empty floor, and stops once the last point reaches w + 26 |
| FloorGame.ExtendBanded | public/src/game.js:117-118 | every appended point lies in the band |
| FloorGame.ExtendSpaced | public/src/game.js:119 | appending at last.x + 26 keeps the fixed spacing |
| FloorGame.ExtendIncreasing | public/src/game.js:119 | after appending, x is strictly increasing |
| FloorGame.ExtendShape | public/src/game.js:115-121 | appending keeps fixed spacing and the band |
| FloorGame.SliceKeeps | public/src/game.js:110-112 | dropping head points keeps spacing, order and the band |
| FloorGame.ShiftKeeps | public/src/game.js:102 | moving all points left keeps spacing, order and the band |
| FloorGame.TrimMoves | public/src/game.js:102-112 | after moving and dropping, the floor is the remaining suffix, each point moved left by dx |
| FloorGame.TrimEnds | public/src/game.js:110-112 | after dropping, the first point is at or right of -26, and a floor whose last point stays there is not emptied |
| FloorGame.TrimKeeps | public/src/game.js:102-112 | moving and dropping keeps spacing, order and the band |
| FloorGame.ScrolledCovers | public/src/game.js:99-122 | `scrollFloor` keeps the surviving points in front, starts at or right of -26 and reaches w + 26 |
| FloorGame.ScrolledKeeps | public/src/game.js:99-122 | `scrollFloor` keeps spacing, order and the band, including during a crash drop |
| FloorGame.ScrollFloor | public/src/game.js:104-107 | the crash stays active exactly until its end time has passed, and the drop applies while it is active |
| FloorGame.LerpEnds | public/src/game.js:66-67 | interpolating inside a segment gives a height between its end heights, equal to them at the ends |
| FloorGame.FloorYFromBracket | public/src/game.js:63-68 | the search returns the interpolation in the first segment that brackets x |
| FloorGame.FloorYFromOutside | public/src/game.js:70 | when no segment brackets x, the search returns the last point's height |
| FloorGame.GetFloorYCases | public/src/game.js:59-71 | `getFloorY` gives 0.7 H with fewer than two points, interpolates in a bracketing segment, and gives the last height outside the floor |
| FloorGame.GetFloorYBand | public/src/game.js:59-71 | on a floor in the band, `getFloorY` is in the band too |
| FloorGame.Jump | public/src/game.js:125-131 | `jump` changes the vertical speed only when grounded, and then leaves the ground at -13.5 |
| FloorGame.RectsOverlapSymmetric | public/src/game.js:137-139 | `rectsOverlap` is symmetric |
| FloorGame.RectsOverlapMeansShared | public/src/game.js:137-139 | two rectangles overlap exactly when their x and y ranges share an open interval |
| FloorGame.Advance | public/src/game.js:227-234 | the score never drops, and the speed falls back to 1 when the boost timer runs out |
| FloorGame.Spawn | public/src/game.js:237-239 | spawning appends at most one trap and one boost and does not restart an active crash |
| FloorGame.Move | public/src/game.js:244-245 | every object moves left by exactly dx |
| FloorGame.KeepOnScreen | public/src/game.js:246-247 | the filter keeps exactly the objects right of -80 |
| FloorGame.Physics | public/src/game.js:250-261 | the player is grounded exactly when falling reaches the floor, and then stands on it at rest |
| FloorGame.FirstHit | public/src/game.js:270-278 | the boost loop stops at the first overlapping boost, or finds none |
| FloorGame.CollideOutcome | public/src/game.js:264-278 | any trap under the player ends the run; the first overlapping boost alone is removed and sets speed 1.55 and a 2.6 s timer; with none nothing changes |
| FloorGame.CollideKeepsBoosts | public/src/game.js:272 | removing a boost leaves none left of -80 |
| FloorGame.Scroll | public/src/game.js:242-247 | scrolling keeps the floor shape and leaves no trap or boost left of -80 |
| FloorGame.FrameDt | public/src/game.js:223 | a frame simulates at most 0.033 s and never a negative time |
| FloorGame.Frame | public/src/game.js:225 | a frame of a stopped game changes nothing |
| FloorGame.CollideKeeps | public/src/game.js:264-278 | collisions keep the frame invariant and the score, and a trap under the player stops the run |
| FloorGame.TravelKeeps | public/src/game.js:241-261 | scrolling and physics keep the invariant and the score |
| FloorGame.FrameKeeps | public/src/game.js:222-296 | a frame keeps the invariant (spaced floor in the band, speed matching the timer, no object left of -80) and never lowers the score, and a trap under the player stops a running game |
| FloorGame.Restart | public/src/game.js:300-301 | the restart handler ignores taps while running |
| FloorGame.TapOutcome | public/src/game.js:300-311 | a tap while running only jumps; a tap after death restarts with zero score, speed 1, no boost, no objects, the player at the top at rest and a fresh floor |
| FloorGame.ReactKeeps | public/src/game.js:222-311 | every event keeps the invariant, and only a restarting tap lowers the score |
| FloorGame.Run | public/src/game.js:222-311 | every sequence of events ends in a state satisfying the invariant |
| FloorGame.RunKeeps | public/src/game.js:225 | without taps the score never drops, and a stopped game stays stopped with its score |
| Manifest.Member | public/src/main.js:32 | property lookup returns a value only for a key the object has, and undefined for a missing key |
| Manifest.Coalesce | public/src/main.js:31-34 | `a ?? b` is a unless a is null or undefined, and b otherwise |
| Manifest.TrailingRun | public/src/main.js:24 | the counted tail is a run of slashes preceded by a non-slash, so it is the whole match of `/\/+$/` |
| Manifest.NormalizeUrl | public/src/main.js:21-22 | a falsy or non-string value normalises to "" |
| Manifest.SlashesCounted | public/src/main.js:24 | a text ending in n slashes after a non-slash part has a trailing run of exactly n |
| Manifest.CollapseShape | public/src/main.js:24 | normalising keeps everything before the trailing run, replaces a run of slashes by exactly one, and adds none when there is no run |
| Manifest.CollapseIdempotent | public/src/main.js:24 | collapsing the slashes twice is collapsing once |
| Manifest.NormalizeIdempotent | public/src/main.js:21-25 | `normalizeUrl` is idempotent |
| Manifest.CollapseToSlashed | public/src/main.js:24 | a URL normalises to h + "/" exactly when it is h followed by one or more slashes |
| Manifest.CollapsedIsRun | public/src/main.js:24 | a URL that normalises to h + "/" is h followed by its trailing run |
| Manifest.RunCollapses | public/src/main.js:24 | h followed by any positive number of slashes normalises to h + "/" |
| Manifest.HomeMatches | public/src/main.js:56 | a URL normalises to the expected home exactly when it is the host followed by one or more slashes, so a URL without a trailing slash never matches |
| Manifest.HomeAndImage | public/src/main.js:27-42 | the extracted home and image URLs are never null or undefined |
| Manifest.HomeAndImageSources | public/src/main.js:31-39 | each URL comes from `miniapp` when present there, else from the top level, and falls back to "" when both are null or undefined |
| Manifest.SchemasRoundTrip | public/src/main.js:28-30 | a manifest written in the new schema or in the old schema yields back the URLs it was written with |
| Manifest.CheckManifest | public/src/main.js:55-61 | the manifest check fails only with one of its four named errors |
| Manifest.CheckManifestMeans | public/src/main.js:55-61 | the manifest passes exactly when the home URL is the host followed by slashes and the image URL is truthy and ends with "/assets/embed-3x2.png"; the mismatch error comes exactly from a truthy home URL that normalises elsewhere |
| Manifest.CheckTag | public/src/main.js:74-91 | a meta tag check fails only with one of its four errors for that tag |
| Manifest.CheckTagMeans | public/src/main.js:74-91 | a tag passes exactly when its content parses to an object whose `button.action` has type "launch_frame" and a URL that is the host followed by slashes |
| Manifest.GateMeans | public/src/main.js:45-97 | the gate passes exactly when the manifest was fetched, parsed and passes, both tags pass and the embed image exists, checked in that order |

## Left out

- Rendering: canvas drawing, HTML templates, the HUD, toasts, haptics, modals and the progress animations. They only display state.
- The Farcaster SDK, `fetch`, `localStorage`, `JSON.parse` and `Attribution.toDataSuffix` are left out. Wallet requests are inputs that resolve or throw; a fetched manifest arrives as a failed response, a body that does not parse (with the parser's message) or the parsed value, and each meta tag as missing, unparsable or parsed.
- `Math.random`, `performance.now` and `requestAnimationFrame`. Every draw is an explicit roll in [0, 1) and every frame gets its elapsed time as an input.
- `weekKeyUTC` and `todayISO` depend on the JavaScript `Date` library. The week key is an opaque string and the day is an integer day number, so "the previous day" is `today - 1`.
- The trigonometric terrain noise and crash zones of public/TheRektRunner-ui.js, and the random floor drift of public/src/game.js. Each is a function parameter returning the sampled value.
- The `shieldBoost` field and `run.status` of src/main.js are never read, so they are not modelled.
- Floating point: positions, timers and scores are exact reals, and rounding is not modelled.
- The `currentWallet` variable declared twice in src/main.js is outside the modelled logic.
- The `input` listener of public/src/tip.js has an empty body, so it is not modelled.
- RektUi.GroundYAt: on a zero-width segment JavaScript gives NaN only when x is the segment's start; otherwise it divides a non-zero number by zero and gets plus or minus Infinity. Minus Infinity would make the bull land (`bull.y >= gy` holds), while the model's `None` never lands. Infinite heights are not modelled, because the bull's state holds only finite reals. A zero-width segment arises only when a newly appended point at `i * 10` lands exactly on the shifted x of the last point.
- FloorGame.GetFloorYCases: stated for floors whose x increases strictly, as `Lerp` requires. Every floor the game builds has that shape (FloorGame.FrameKeeps), and on any other floor the source can divide by a zero-width segment.
- FloorGame.GetFloorYBand: on a floor with fewer than two points the result is 0.7 H, which is in the band only for H of at least 400, so the lemma asks for that in this case.
