# Stacking scripts of the Stacks regtest environment, in Dafny

The regtest environment runs a Bitcoin regtest node, a Stacks node and a handful of helper
scripts. This project models the decision logic of those scripts and proves properties of it:

- **Common** (`common.dfy`, `stacking/common.ts`):
  - the reward-cycle clock: a burn height maps to a reward cycle, and a height can be in the prepare phase;
  - `parseEnvInt`, which reads required and optional integers from the environment, hex after `0x`;
  - the account set, whose slot weight is an account's position in the key list plus one;
  - `MAX_U128`.
- **Stacking** (`stacking.dfy`, `stacking/stacking.ts`): the stacking engine that polls the node.
  - Each poll it decides, per account, whether to `stack-stx`, `stack-extend` or skip.
  - It assembles the signer authorization and the transaction arguments for each account that acts.
  - It pays each transaction a fee from a process-wide counter.
  - The counter and the engine's fixed setup are the fields of the class `Stacker`.
- **StackingLegacy** (`stacking_legacy.dfy`, `stacking/stacking.js`): the older one-account script.
  - It does nothing when the next cycle already holds the bumped minimum.
  - Otherwise it stacks exactly that minimum from the first account with no locked balance.
- **ChainMonitor** (`monitor.dfy`, `stacking/monitor.ts`): the monitor's change detection.
  - It remembers the last burn height, STX height and reward cycle. These are fields of the class `Monitor`.
  - Each poll it turns an observation into the set of lines it shows and the new state.
  - It checks for the fatal condition "no reward slots while entering Epoch 3.0".
  - Its transaction filter keeps only contract calls.
- **TxBroadcaster** and **TxBroadcasterLegacy** (`tx_broadcaster.dfy`, `tx_broadcaster_legacy.dfy`,
  `stacking/tx-broadcaster.ts` and `.js`): the transfer broadcaster.
  - It sorts the accounts by nonce, in place.
  - It sends a fixed STX transfer from the lowest-nonce account to the next one.
- **Wrappers** (`wrappers.dfy`): `Option` and `Result`.

Node queries, signing, key derivation and randomness are inputs of the model:
- the node's answers are datatype values passed in (`PoxInfo`, `AccountStatus`, nonces, locked balances);
- the key derivations and `signPoxSignature` are function-valued parameters (`KeyDerivation`, `Setup.sign`);
- the random `authId`s and signer keys are sequences passed in.

The source's concurrent `Promise.all` over the accounts is modelled as one pass in account order. This is exact for the fees, for two reasons:
- the fee is taken synchronously, before each callback's first `await`;
- the callbacks are started in account order.

Four behaviours of the code that are easy to misread, modelled as written:
- **Prepare phase:** `isPreparePhase` holds on the last `P - 1` heights of a cycle, one fewer than the prepare length. For cycle length 20 and prepare length 5, height 15 is not in the prepare phase and 16 is (`Common.ClockExamples`, `Common.PreparePhaseInCycle`).
- **Extend trigger:** an account is extended when its unlock cycle is the *next* cycle (`unlockCycle == nowCycle + 1`). A lock that ends in the current cycle is skipped unless the poll force-extends (`Stacking.LockEndingThisCycleSkipped`).
- **Minimum:** the bumped minimum is `Math.floor(t * 1.5)`, rounded down: `t + t / 2` with integer division.
- **Configuration:** a prepare length of at least the cycle length is not rejected. The clock is defined for every configuration, and the lemmas that need `P <= L` require it.

## Model

| member | source | states |
|---|---|---|
| Common.ParseInt | stacking/common.ts:111-114 | `parseInt` as called: with radix 16 a `0x` prefix is skipped; then the leading digits are read. The result is NaN exactly when no digit follows. |
| Common.ParseEnvInt | stacking/common.ts:100-115 | A missing key fails exactly when the value is required, and the error names the key. A missing optional key gives `undefined`. A present key is parsed, base 16 when it starts with `0x` and base 10 otherwise. |
| Common.EnvIntOr | stacking/stacking.ts:22-24 | `parseEnvInt(key) ?? default`: the default when the key is missing, the parsed value when it is present. |
| Common.DigitsRoundTrip | stacking/common.ts:111-114 | Reading the canonical digits of `n` in base 10 or 16 gives back `n`. |
| Common.LeadingDigitsOfDigits | stacking/common.ts:111-114 | A string made only of digits is read whole. |
| Common.ParseEnvIntDecimal | stacking/common.ts:100-115 | Storing the decimal rendering of `n` under a key and reading it back, required or not, gives `n`. |
| Common.ParseEnvIntHex | stacking/common.ts:100-115 | Storing the `0x` hex rendering of `n` and reading it back gives `n`. |
| Common.ParseEnvIntNaN | stacking/common.ts:111-114 | A value whose first character is neither a decimal digit nor JavaScript white space or a sign reads as NaN, not as 0. |
| Common.RewardCycle | stacking/common.ts:117-120 | The cycle of a height is at least 1. |
| Common.RewardCycleBounds | stacking/common.ts:117-120 | Cycle `c` covers exactly the heights from `(c-1)*L` up to, but not including, `c*L`. |
| Common.RewardCycleOnInterval | stacking/common.ts:117-120 | Every height in `[k*L, (k+1)*L)` is in cycle `k + 1`; in particular height 0 is in cycle 1. |
| Common.RewardCycleMonotone | stacking/common.ts:117-120 | A higher burn height never has a lower cycle. |
| Common.Epoch30StartCycle | stacking/common.ts:122 | `EPOCH_30_START_CYCLE` is the cycle of the Epoch 3.0 height, at least 1. |
| Common.IsPreparePhase | stacking/common.ts:124-126 | As written, `L - h % L < P`: the offset of `h` in its cycle is above `L - P`. It never holds for `P <= 1`. A cycle's first height is in it only when `P > L`. |
| Common.DidCrossPreparePhase | stacking/common.ts:128-130 | A crossing lands in the prepare phase, from a height at a different offset in its cycle. |
| Common.PreparePhaseInCycle | stacking/common.ts:124-126 | With `P <= L`, a height of cycle `k + 1` is in the prepare phase exactly when it is above `(k+1)*L - P`, that is, on the last `P - 1` heights. A cycle's first height never is. |
| Common.PreparePhasePeriodic | stacking/common.ts:124-126 | Prepare-phase membership repeats with the cycle length. |
| Common.NoCrossingWithoutMoving | stacking/common.ts:128-130 | Going from a height to itself never crosses into the prepare phase. |
| Common.CrossingOneStep | stacking/common.ts:124-130 | With `P <= L`, going up one height crosses into the prepare phase exactly at offset `L - P + 1` of a cycle; for `P <= 1` it never does. |
| Common.ClockExamples | stacking/common.ts:117-126 | For `L = 20`, `P = 5`: heights 0 and 19 are in cycle 1 and 20 in cycle 2. Heights 14, 15 and 20 are not in the prepare phase; 16 and 19 are. |
| Common.MakeAccounts | stacking/common.ts:61-81 | One account per key, in key order. Each keeps its key and has index `i` and slot weight `i + 1`. Its BTC address derives from its public key, and its signer public key derives from its signer private key. |
| Common.TargetSlotsIncrease | stacking/common.ts:73 | Slot weights are at least 1 and strictly increase along the key list. |
| Common.MaxU128IsPow2 | stacking/common.ts:85-86 | `MAX_U128` (also `maxAmount`) is `2^128 - 1`. |
| Stacking.MinStx | stacking/stacking.ts:58-60 | The bumped minimum `m` is `floor(1.5 * t)`: `2m <= 3t < 2m + 2`. It is never below the threshold. |
| Stacking.IsPox4 | stacking/stacking.ts:32 | The contract id is some name followed by `.pox-4`. |
| Stacking.ForceExtend | stacking/stacking.ts:58-65 | The poll force-extends exactly when the next cycle's stacked amount `s` is below `floor(1.5 * t)` for the threshold `t`, that is, when `2s + 2 <= 3t`. |
| Stacking.StackStxAmount | stacking/stacking.ts:119-120 | The stack-stx amount `a` for slot weight `w` lies between `t * w` and `1.5 * t * w`: `t*w <= a` and `2a <= 3*t*w`. |
| Stacking.NowCycle | stacking/stacking.ts:83 | The cycle of the current burn height, with an absent height read as 0, is at least 1. |
| Stacking.Classify | stacking/stacking.ts:69-108 | An account with nothing locked stacks the slot-weighted minimum, whatever `forceExtend` is. A locked account extends by the configured cycles exactly when the poll force-extends or its unlock cycle is the next cycle. Otherwise it skips. |
| Stacking.StackStxRequest | stacking/stacking.ts:117-143 | The `stack-stx` authorization and arguments agree on topic, `authId`, period, `maxAmount = MAX_U128` and PoX address. The signature is that of the authorization. The amount is the minimum times the slot weight, recomputed from the poll, and the fee is the one given. The call is sent with the account's own private key and names the account's signer public key. |
| Stacking.StackExtendRequest | stacking/stacking.ts:160-181 | The `stack-extend` authorization and arguments agree on topic, `authId`, period/`extendCycles`, `maxAmount` and PoX address. The signature is that of the authorization, and the fee is the one given. The call is sent with the account's own private key and names the account's signer public key. |
| Stacking.Actors | stacking/stacking.ts:67-110 | The accounts among the first `n` that act in a poll: each below `n`, and none of them skips. |
| Stacking.ActorsExactly | stacking/stacking.ts:67-110 | An account acts exactly when it does not skip. The actors are in strictly increasing account order, so each appears once. |
| Stacking.Request | stacking/stacking.ts:69-98 | The request of an acting account is consistent and carries the given fee. It is a `stack-stx` request exactly when the account's decision is to stack. |
| Stacking.PollRequests | stacking/stacking.ts:67-110 | A poll makes one request per acting account. The `k`-th request pays the starting fee plus `k`, and every request is consistent. |
| Stacking.AccountRequests | stacking/stacking.ts:69-108 | An account submits at most one request, none exactly when it skips. A request carries the given fee and is consistent. |
| Stacking.PollRequestsStep | stacking/stacking.ts:67-110 | Taking one more account into the poll appends exactly that account's requests, at the next fee after those already used. |
| Stacking.PollRequestsNonEmpty | stacking/stacking.ts:56-114 | A poll submits something exactly when some account does not skip. |
| Stacking.PollRequestOfAccount | stacking/stacking.ts:67-110 | Every account that does not skip has its own request in the poll, at its position among the actors. |
| Stacking.PollFeesStrictlyIncrease | stacking/stacking.ts:26-27 | Within a poll, later requests pay strictly more, so no two share a fee. |
| Stacking.FeesOfLaterPollsAreHigher | stacking/stacking.ts:26-27 | When a poll starts from the counter the previous poll left, each of its fees is above every fee of the previous poll. |
| Stacking.StackStxAmountBounds | stacking/stacking.ts:119-120 | The stack-stx amount is at least the bumped minimum and does not decrease with the slot weight. |
| Stacking.LockEndingThisCycleSkipped | stacking/stacking.ts:82-108 | A locked account whose lock ends in the current cycle is skipped when the poll does not force-extend. |
| Stacking.AllFetched | stacking/stacking.ts:47-54 | The statuses are all there exactly when every fetch succeeded, and they are the fetched values in account order. |
| Stacking.Stacker.constructor | stacking/stacking.ts:21-27 | The engine starts with the configured accounts and cycles, and the fee counter at 1000. |
| Stacking.Stacker.GetNextTxFee | stacking/stacking.ts:26-27 | Returns the counter's value and then raises the counter by one. |
| Stacking.Stacker.Act | stacking/stacking.ts:68-109 | One account's step: its decision is `DecisionOf` the account, and it submits nothing exactly when it skips. What it submits extends the requests of the accounts before it to those of the first `i + 1` accounts. The counter moves up by the number submitted. |
| Stacking.Stacker.ActAll | stacking/stacking.ts:56-110 | The requests of all accounts in order, equal to `PollRequests` from the old counter. The counter moves up by their number, and `txSubmitted` holds exactly when there is one. |
| Stacking.Stacker.Run | stacking/stacking.ts:29-115 | Not pox-4: returns `NotPox4` whatever the fetches gave, with no requests and the counter unchanged. A failed status fetch throws, also with no requests. A pox-4 poll whose fetches all succeed always completes, and its requests are `PollRequests` from the old counter; the post-transaction wait follows exactly when there is one. |
| StackingLegacy.MakeLegacyAccounts | stacking/stacking.js:13-22 | One account per key. It holds the key, its derived public and BTC addresses, and its signer key. |
| StackingLegacy.FirstUnlocked | stacking/stacking.js:38-45 | No position exactly when every balance is locked. Otherwise it is the first position with a zero balance. |
| StackingLegacy.LegacyStackRequest | stacking/stacking.js:50-58 | The `stack` call stacks exactly the bumped minimum, with no slot weighting, fee 1000 and the configured cycles. It uses the account's BTC address, key and signer key. |
| StackingLegacy.RunLegacy | stacking/stacking.js:24-63 | Not pox-4: returns with no balance read. It returns for enough stacked, with no balance read, exactly when the contract is pox-4 and stacking.ts would not force extensions. Otherwise balances are read in order up to the first unlocked account and none after it. That account makes the one `stack` call. With no unlocked account there is no call. The wait follows exactly a call. |
| ChainMonitor.GetTransactions | stacking/monitor.ts:28-36 | Keeps exactly the contract calls of the block: each kept one is a contract call of the block, and every contract call of the block is kept. |
| ChainMonitor.GetTransactionsAppend | stacking/monitor.ts:33-35 | The filter preserves order: filtering a concatenation concatenates the filtered parts. |
| ChainMonitor.GetInfo | stacking/monitor.ts:38-54 | The observation holds the snapshot, the block and the filtered calls, with `nextCycleId = reward_cycle_id + 1`. |
| ChainMonitor.Truthy | stacking/monitor.ts:88 | The burn height is truthy exactly when, read with an absent height as 0, it is positive. |
| ChainMonitor.NewBurnHeight | stacking/monitor.ts:88 | A burn height counts as new exactly when it is present and neither 0 nor the last height seen. |
| ChainMonitor.Fatal | stacking/monitor.ts:146 | Never fatal while there are reward slots. It compares the reward cycle id with the Epoch 3.0 height, so it never fires before the cycle before `EPOCH_30_START_CYCLE`. |
| ChainMonitor.StepReport | stacking/monitor.ts:88-149 | The prepare line comes only with the burn line, and so does "Starting Nakamoto". The Nakamoto-block line needs a new STX block and no new burn block. Transactions are listed only for a new STX block. Exiting implies the fatal condition. |
| ChainMonitor.NextState | stacking/monitor.ts:88-107 | The new state takes the reward cycle and STX height observed. It takes the burn height when that is truthy and keeps the old one otherwise. |
| ChainMonitor.ReportFlags | stacking/monitor.ts:88-133 | Each flag holds exactly when its quantity changed against the previous state. The prepare flag requires a new burn height and a crossing from the old one to the new. "Starting Nakamoto" shows exactly on a new burn height equal to the Epoch 3.0 height, and the contract calls are listed exactly on a new STX block. |
| ChainMonitor.QuietOnRepeat | stacking/monitor.ts:88-107 | Seeing the same observation twice in a row: the second poll shows none of the change lines and leaves the state unchanged. |
| ChainMonitor.FatalIgnoresState | stacking/monitor.ts:146-169 | The fatal check is a reward cycle id at or above the Epoch 3.0 height with no reward slots, independent of the state. The process exits exactly on a fatal poll with `EXIT_FROM_MONITOR`. |
| ChainMonitor.PrepareMessageOnClimb | stacking/monitor.ts:88-94 | With `P <= L`, climbing one burn height at a time, the prepare line appears exactly at offset `L - P + 1` of a cycle. |
| ChainMonitor.BlockTimeOnNewBlock | stacking/monitor.ts:101-107 | The block time and its delta change only on a new STX block, to the current time and the time since the last block. |
| ChainMonitor.Monitor.constructor | stacking/monitor.ts:15-23 | The monitor starts with all heights and the cycle at 0 and the block clock at the start time. |
| ChainMonitor.Monitor.Loop | stacking/monitor.ts:78-162 | A failed `getInfo` changes nothing and shows nothing. Otherwise the poll shows `StepReport` of the old state and moves to `NextState`. |
| TxBroadcaster.MakeBroadcastAccounts | stacking/tx-broadcaster.ts:14-17 | One account per key, in key order, with its derived address. |
| TxBroadcaster.WithNonces | stacking/tx-broadcaster.ts:20-25 | Each account paired with its nonce, in account order. |
| TxBroadcaster.SortByNonce | stacking/tx-broadcaster.ts:28 | The array ends sorted by nonce and holds the same entries. |
| TxBroadcaster.InsertIntoPrefix | stacking/tx-broadcaster.ts:28 | One insertion step: a sorted prefix grows by one entry, and the entries stay the same. |
| TxBroadcaster.Transfer | stacking/tx-broadcaster.ts:36-44 | The transfer sends amount 1000 at fee 300 from the sender's key at the sender's nonce to the recipient's address. |
| TxBroadcaster.PickAndTransfer | stacking/tx-broadcaster.ts:28-44 | The sorted entries are a sorted permutation. No entry: no sender. One entry: no recipient. Otherwise the transfer goes from position 0 to position 1. |
| TxBroadcaster.Run | stacking/tx-broadcaster.ts:19-44 | The same for the accounts with their nonces, with anchor mode `any`. |
| TxBroadcaster.SenderHasLowestNonce | stacking/tx-broadcaster.ts:28-29 | The sender's nonce is no greater than any account's. |
| TxBroadcaster.FirstTwoAreAPair | stacking/tx-broadcaster.ts:29-30 | Sender and recipient are two distinct entries of the account list, not one entry taken twice. |
| TxBroadcaster.RecipientIsNextLowest | stacking/tx-broadcaster.ts:29-30 | The recipient's nonce is no greater than that of any entry other than the sender. |
| TxBroadcasterLegacy.RunLegacy | stacking/tx-broadcaster.js:14-44 | The same sort, choice and errors as `TxBroadcaster.Run`, with no anchor mode. The closing wait follows exactly when there are at least two accounts. |

## Left out

- Node and network access is not modelled; the answers are inputs. This covers `getPoxInfo`, `getAccountStatus`, `getAccountBalanceLocked`, `getNonce`, `stack`, `stackExtend`, `broadcastTransaction` and the signer-set `fetch`.
- The outcome of a broadcast, and a `stack`/`stackExtend` call that throws part-way through a poll, are not modelled. A failed status fetch is modelled as `FetchFailed`.
- `waitForSetup`'s retry loop and its error matching are left out: they only delay and log.
- Key and address derivation and `signPoxSignature` are opaque function parameters, not modelled cryptography.
- The randomness of `randInt` and `randomBytes` is not modelled: the ids and signer keys are passed in. Only the range of `authId` is assumed, and ids are not claimed to be distinct.
- `Promise.all` concurrency is modelled as one sequential pass in account order.
- The `setTimeout` loops of every script, `monitorInterval`, `STACKING_INTERVAL`, `BROADCAST_INTERVAL` and the wait durations are left out (scheduling). The model states whether a wait follows, not how long it lasts.
- Time is the `now` parameter of `Monitor.Loop`. The seconds are formatted with `toFixed`, which is floating point and is left out.
- Log lines, `console` output and `process.exit` are left out. The monitor's exit is the `exiting` flag of its report.
- The signer counts in the monitor's prepare and new-cycle lines are not modelled: they come from the fetched signer set, which is only logged.
- A signer-set reply with no `stacker_set` is not modelled. The monitor then throws at `.stacker_set.signers` after updating its `last*` variables, and skips the rest of that poll's lines: the Nakamoto block, the transactions, the new cycle and the fatal check.
- `event-observer.js` is not part of this model: it runs an HTTP server and only records events.
- The environment settings `network`, URLs and `CHAIN_ID` are left out: they only configure clients.
- A required protocol constant that parses as NaN, or a zero cycle length, is not modelled: `PoxConfig` holds integers, with a positive cycle length. Nor is a `STACKING_CYCLES` value that parses as NaN: the `Stacker` constructor takes the cycle count as a `nat`.
- Common.ParseInt: does not skip leading white space or read a sign. On strings that start with white space or a sign, the model gives NaN where JavaScript skips the white space and reads the sign. It does not model JavaScript's precision loss above 2^53.
- Stacking.MinStx: `* 1.5` is taken as exact integer arithmetic, which assumes a threshold within the safe-integer range. Likewise for `Math.round` of the slot-weighted amount, which is an integer product.
- TxBroadcaster.SortByNonce: states sorted order and permutation but not stability, the tie order of `Array.prototype.sort`. It compares nonces as exact integers, not as their `Number` conversions.
- TxBroadcaster.Run: the thrown error is a `Failure` result. The `while (true)` retry loop around `run` is left out, and so is the broadcast.
- StackingLegacy.RunLegacy: the `stackingCycles` setting is a number, not the raw environment string used in stacking.js.
