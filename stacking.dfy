/**
 * The stacking policy engine (stacking/stacking.ts): once per poll it decides, for every
 * configured account, whether to stack, extend or do nothing, and assembles the signed
 * requests, each with the next fee of a process-wide counter.
 */
module Stacking {
  import opened Wrappers
  import opened Common

  /** `randInt` draws an authorization id from [0, AUTH_ID_BOUND). */
  const AUTH_ID_BOUND: nat := 0xffff_ffff_ffff
  /** The first fee the counter hands out. */
  const START_TX_FEE: nat := 1000
  const POX_4_SUFFIX: string := ".pox-4"

  /** What `getAccountStatus` reports: the locked balance (0 when unlocked) and when it unlocks. */
  datatype AccountStatus = AccountStatus(lockedAmount: nat, unlockHeight: nat)

  /** The action chosen for one account in one poll. */
  datatype Decision = Skip | StackStx(amount: nat) | StackExtend(cycles: nat)

  datatype Topic = StackStxTopic | StackExtendTopic

  /** The authorization the signer key signs (`sigArgs`, without the key's use). */
  datatype SigArgs = SigArgs(
    topic: Topic,
    rewardCycle: nat,
    poxAddress: string,
    period: nat,
    signerPrivateKey: string,
    authId: nat,
    maxAmount: nat)

  /** The arguments of the `stack` call. */
  datatype StackStxArgs = StackStxArgs(
    poxAddress: string,
    privateKey: string,
    amountMicroStx: nat,
    burnBlockHeight: Option<nat>,
    cycles: nat,
    fee: nat,
    signerKey: string,
    signerSignature: string,
    authId: nat,
    maxAmount: nat)

  /** The arguments of the `stackExtend` call. */
  datatype StackExtendArgs = StackExtendArgs(
    poxAddress: string,
    privateKey: string,
    extendCycles: nat,
    fee: nat,
    signerKey: string,
    signerSignature: string,
    authId: nat,
    maxAmount: nat)

  /** One request handed to the stacking client: the signed authorization and the call's arguments. */
  datatype StackingTx =
    | StackStxTx(sig: SigArgs, stx: StackStxArgs)
    | StackExtendTx(sig: SigArgs, ext: StackExtendArgs)
  {
    function Fee(): nat {
      match this
      case StackStxTx(_, stx) => stx.fee
      case StackExtendTx(_, ext) => ext.fee
    }

    /** The authorization and the call agree on everything the signature covers. */
    predicate Consistent() {
      match this
      case StackStxTx(sig, stx) =>
        && sig.topic == StackStxTopic
        && sig.authId == stx.authId < AUTH_ID_BOUND
        && sig.period == stx.cycles
        && sig.maxAmount == stx.maxAmount == MAX_U128
        && sig.poxAddress == stx.poxAddress
      case StackExtendTx(sig, ext) =>
        && sig.topic == StackExtendTopic
        && sig.authId == ext.authId < AUTH_ID_BOUND
        && sig.period == ext.extendCycles
        && sig.maxAmount == ext.maxAmount == MAX_U128
        && sig.poxAddress == ext.poxAddress
    }
  }

  /** The fixed part of the engine: configuration, accounts, lock period and the signing capability. */
  datatype Setup = Setup(
    cfg: PoxConfig,
    accounts: seq<Account>,
    stackingCycles: nat,
    sign: SigArgs -> string)     // account.client.signPoxSignature

  /** What one poll observed: the snapshot, every account's status, and one fresh id per account. */
  datatype Poll = Poll(info: PoxInfo, statuses: seq<AccountStatus>, authIds: seq<nat>)

  datatype PollOutcome =
    | NotPox4                                          // returned before any status was fetched
    | FetchFailed                                      // a status fetch failed: the poll threw
    | Polled(txSubmitted: bool)

  /** The contract id is some name followed by `.pox-4`. */
  function IsPox4(contractId: string): (b: bool)
    ensures b <==> |contractId| >= |POX_4_SUFFIX| &&
                   contractId == contractId[..|contractId| - |POX_4_SUFFIX|] + POX_4_SUFFIX
  {
    EndsWith(contractId, POX_4_SUFFIX)
  }

  predicate AuthIdsInRange(authIds: seq<nat>) {
    forall i :: 0 <= i < |authIds| ==> authIds[i] < AUTH_ID_BOUND
  }

  predicate WellFormed(s: Setup, p: Poll) {
    |p.statuses| == |s.accounts| && |p.authIds| == |s.accounts| && AuthIdsInRange(p.authIds)
  }

  /** `Math.floor(threshold * 1.5)`, on integers. */
  function MinStx(threshold: nat): (m: nat)
    ensures 2 * m <= 3 * threshold < 2 * m + 2
    ensures m >= threshold
  {
    threshold + threshold / 2
  }

  /** The next cycle is under-committed, so every locked account is to extend. */
  function ForceExtend(info: PoxInfo): (b: bool)
    ensures b <==> 2 * info.nextCycle.stackedUstx + 2 <= 3 * info.nextCycle.minThresholdUstx
  {
    info.nextCycle.stackedUstx < MinStx(info.nextCycle.minThresholdUstx)
  }

  /** The cycle of the current burn height, taking an absent height as 0. */
  function NowCycle(cfg: PoxConfig, info: PoxInfo): (c: nat)
    ensures c >= 1
  {
    RewardCycle(cfg, info.currentBurnHeight.GetOr(0))
  }

  /** The stack-stx amount: the poll's minimum scaled by the account's slot weight. */
  function StackStxAmount(info: PoxInfo, account: Account): (a: nat)
    ensures info.nextCycle.minThresholdUstx * account.targetSlots <= a
    ensures 2 * a <= 3 * info.nextCycle.minThresholdUstx * account.targetSlots
  {
    var t, m := info.nextCycle.minThresholdUstx, MinStx(info.nextCycle.minThresholdUstx);
    MulMonotone(t, m, account.targetSlots);
    MulMonotone(2 * m, 3 * t, account.targetSlots);
    m * account.targetSlots
  }

  /** The per-account step of `run`: exactly one of stack, extend or skip. */
  function Classify(cfg: PoxConfig, info: PoxInfo, forceExtend: bool, account: Account,
                    status: AccountStatus, cycles: nat): (d: Decision)
    ensures d.StackStx? <==> status.lockedAmount == 0
    ensures d.StackStx? ==> d.amount == StackStxAmount(info, account)
    ensures d.StackExtend? <==>
              status.lockedAmount > 0 &&
              (forceExtend || RewardCycle(cfg, status.unlockHeight) == NowCycle(cfg, info) + 1)
    ensures d.StackExtend? ==> d.cycles == cycles
  {
    if status.lockedAmount == 0 then
      StackStx(StackStxAmount(info, account))
    else
      var unlockHeightCycle := RewardCycle(cfg, status.unlockHeight);
      var nowCycle := NowCycle(cfg, info);
      if forceExtend || unlockHeightCycle == nowCycle + 1 then StackExtend(cycles) else Skip
  }

  /** The decision `run` takes for account `i` of poll `p`. */
  function DecisionOf(s: Setup, p: Poll, i: nat): Decision
    requires |p.statuses| == |s.accounts| && i < |s.accounts|
  {
    Classify(s.cfg, p.info, ForceExtend(p.info), s.accounts[i], p.statuses[i], s.stackingCycles)
  }

  /** `stackStx`: the authorization and `stack` arguments, with the amount recomputed from `info`. */
  function StackStxRequest(info: PoxInfo, account: Account, cycles: nat, authId: nat, fee: nat,
                           sign: SigArgs -> string): (tx: StackingTx)
    requires authId < AUTH_ID_BOUND
    ensures tx.StackStxTx? && tx.Consistent() && tx.Fee() == fee
    ensures tx.sig == SigArgs(StackStxTopic, info.rewardCycleId, account.btcAddr, cycles,
                              account.signerPrivKey, authId, MAX_U128)
    ensures tx.stx.amountMicroStx == StackStxAmount(info, account)
    ensures tx.stx.signerSignature == sign(tx.sig)
    ensures tx.stx.burnBlockHeight == info.currentBurnHeight
    ensures tx.stx.privateKey == account.privKey && tx.stx.signerKey == account.signerPubKey
  {
    var sigArgs := SigArgs(StackStxTopic, info.rewardCycleId, account.btcAddr, cycles,
                           account.signerPrivKey, authId, MAX_U128);
    var signerSignature := sign(sigArgs);
    StackStxTx(sigArgs, StackStxArgs(account.btcAddr, account.privKey, StackStxAmount(info, account),
                                     info.currentBurnHeight, cycles, fee, account.signerPubKey,
                                     signerSignature, authId, MAX_U128))
  }

  /** `stackExtend`: the authorization and `stackExtend` arguments. */
  function StackExtendRequest(info: PoxInfo, account: Account, cycles: nat, authId: nat, fee: nat,
                              sign: SigArgs -> string): (tx: StackingTx)
    requires authId < AUTH_ID_BOUND
    ensures tx.StackExtendTx? && tx.Consistent() && tx.Fee() == fee
    ensures tx.sig == SigArgs(StackExtendTopic, info.rewardCycleId, account.btcAddr, cycles,
                              account.signerPrivKey, authId, MAX_U128)
    ensures tx.ext.signerSignature == sign(tx.sig)
    ensures tx.ext.privateKey == account.privKey && tx.ext.signerKey == account.signerPubKey
  {
    var sigArgs := SigArgs(StackExtendTopic, info.rewardCycleId, account.btcAddr, cycles,
                           account.signerPrivKey, authId, MAX_U128);
    var signerSignature := sign(sigArgs);
    StackExtendTx(sigArgs, StackExtendArgs(account.btcAddr, account.privKey, cycles, fee,
                                           account.signerPubKey, signerSignature, authId, MAX_U128))
  }

  /** The accounts among the first `n` that act in poll `p` (do not skip), in account order. */
  function Actors(s: Setup, p: Poll, n: nat): (r: seq<nat>)
    requires |p.statuses| == |s.accounts| && n <= |s.accounts|
    ensures |r| <= n
    ensures forall k :: 0 <= k < |r| ==> r[k] < n && !DecisionOf(s, p, r[k]).Skip?
    decreases n
  {
    if n == 0 then []
    else if DecisionOf(s, p, n - 1).Skip? then Actors(s, p, n - 1)
    else Actors(s, p, n - 1) + [n - 1]
  }

  /** The request account `i` makes in poll `p` when it acts and `fee` is the counter's value. */
  function Request(s: Setup, p: Poll, i: nat, fee: nat): (tx: StackingTx)
    requires WellFormed(s, p) && i < |s.accounts| && !DecisionOf(s, p, i).Skip?
    ensures tx.Consistent() && tx.Fee() == fee
    ensures tx.StackStxTx? <==> DecisionOf(s, p, i).StackStx?
  {
    if DecisionOf(s, p, i).StackStx? then
      StackStxRequest(p.info, s.accounts[i], s.stackingCycles, p.authIds[i], fee, s.sign)
    else
      StackExtendRequest(p.info, s.accounts[i], s.stackingCycles, p.authIds[i], fee, s.sign)
  }

  /** What account `i` requests in poll `p` at counter value `fee`: nothing when it skips, else its one request. */
  function AccountRequests(s: Setup, p: Poll, i: nat, fee: nat): (txs: seq<StackingTx>)
    requires WellFormed(s, p) && i < |s.accounts|
    ensures |txs| <= 1 && (txs == [] <==> DecisionOf(s, p, i).Skip?)
    ensures txs != [] ==> txs[0].Fee() == fee && txs[0].Consistent()
  {
    if DecisionOf(s, p, i).Skip? then [] else [Request(s, p, i, fee)]
  }

  /** The requests the first `n` accounts make in poll `p`: the k-th actor pays fee0 + k. */
  function PollRequests(s: Setup, p: Poll, fee0: nat, n: nat): (txs: seq<StackingTx>)
    requires WellFormed(s, p) && n <= |s.accounts|
    ensures |txs| == |Actors(s, p, n)| <= n
    ensures forall k :: 0 <= k < |txs| ==> txs[k].Fee() == fee0 + k && txs[k].Consistent()
  {
    var actors := Actors(s, p, n);
    seq(|actors|, k requires 0 <= k < |actors| => Request(s, p, actors[k], fee0 + k))
  }

  /** The actors are exactly the accounts that do not skip, each once, in account order. */
  lemma {:induction false} ActorsExactly(s: Setup, p: Poll, n: nat)
    requires |p.statuses| == |s.accounts| && n <= |s.accounts|
    ensures forall i: nat :: i in Actors(s, p, n) <==> i < n && !DecisionOf(s, p, i).Skip?
    ensures forall j, k :: 0 <= j < k < |Actors(s, p, n)| ==> Actors(s, p, n)[j] < Actors(s, p, n)[k]
    decreases n
  {
    if n > 0 {
      ActorsExactly(s, p, n - 1);
    }
  }

  /** Looking at one more account appends its request, at the next fee, unless it skips. */
  lemma PollRequestsStep(s: Setup, p: Poll, fee0: nat, i: nat)
    requires WellFormed(s, p) && i < |s.accounts|
    ensures PollRequests(s, p, fee0, i + 1) ==
              PollRequests(s, p, fee0, i) + AccountRequests(s, p, i, fee0 + |PollRequests(s, p, fee0, i)|)
  {
    if !DecisionOf(s, p, i).Skip? {
      var a, b := Actors(s, p, i), Actors(s, p, i + 1);
      var txs, next := PollRequests(s, p, fee0, i), PollRequests(s, p, fee0, i + 1);
      assert b == a + [i];
      forall k | 0 <= k < |next|
        ensures next[k] == (txs + [Request(s, p, i, fee0 + |txs|)])[k]
      {
        if k < |txs| {
          assert b[k] == a[k];
        }
      }
    }
  }

  /** A poll makes some request exactly when some account does not skip. */
  lemma PollRequestsNonEmpty(s: Setup, p: Poll, fee0: nat)
    requires WellFormed(s, p)
    ensures PollRequests(s, p, fee0, |s.accounts|) != [] <==>
              exists i :: 0 <= i < |s.accounts| && !DecisionOf(s, p, i).Skip?
  {
    ActorsExactly(s, p, |s.accounts|);
    var actors := Actors(s, p, |s.accounts|);
    if actors != [] {
      assert actors[0] in actors;
    }
  }

  /** Every account that does not skip makes exactly one request of a poll, and it is that account's. */
  lemma PollRequestOfAccount(s: Setup, p: Poll, fee0: nat, i: nat)
    requires WellFormed(s, p) && i < |s.accounts| && !DecisionOf(s, p, i).Skip?
    ensures exists k :: 0 <= k < |PollRequests(s, p, fee0, |s.accounts|)| &&
              Actors(s, p, |s.accounts|)[k] == i &&
              PollRequests(s, p, fee0, |s.accounts|)[k] == Request(s, p, i, fee0 + k)
  {
    ActorsExactly(s, p, |s.accounts|);
    var actors := Actors(s, p, |s.accounts|);
    var k :| 0 <= k < |actors| && actors[k] == i;
  }

  /** No two requests of a poll share a fee, and later ones pay more. */
  lemma PollFeesStrictlyIncrease(s: Setup, p: Poll, fee0: nat, j: nat, k: nat)
    requires WellFormed(s, p)
    requires j < k < |PollRequests(s, p, fee0, |s.accounts|)|
    ensures PollRequests(s, p, fee0, |s.accounts|)[j].Fee() < PollRequests(s, p, fee0, |s.accounts|)[k].Fee()
  {
  }

  /** The stack-stx amount is at least the poll's minimum and grows with the slot weight. */
  lemma StackStxAmountBounds(info: PoxInfo, a: Account, b: Account)
    requires 1 <= a.targetSlots <= b.targetSlots
    ensures MinStx(info.nextCycle.minThresholdUstx) <= StackStxAmount(info, a) <= StackStxAmount(info, b)
  {
    var m := MinStx(info.nextCycle.minThresholdUstx);
    MulMonotone(1, a.targetSlots, m);
    MulMonotone(a.targetSlots, b.targetSlots, m);
  }

  /**
   * A lock that ends in the current cycle, rather than the next, is skipped unless the poll
   * force-extends: the extend trigger is `unlockCycle == nowCycle + 1`.
   */
  lemma LockEndingThisCycleSkipped(s: Setup, p: Poll, i: nat)
    requires |p.statuses| == |s.accounts| && i < |s.accounts|
    requires p.statuses[i].lockedAmount > 0 && !ForceExtend(p.info)
    requires RewardCycle(s.cfg, p.statuses[i].unlockHeight) == NowCycle(s.cfg, p.info)
    ensures DecisionOf(s, p, i) == Skip
  {
  }

  /** Every status a poll fetched, or `None` if some fetch failed. */
  function AllFetched(fetched: seq<Option<AccountStatus>>): (r: Option<seq<AccountStatus>>)
    ensures r.Some? <==> forall i :: 0 <= i < |fetched| ==> fetched[i].Some?
    ensures r.Some? ==> |r.value| == |fetched| &&
                        forall i :: 0 <= i < |fetched| ==> fetched[i] == Some(r.value[i])
  {
    if forall i :: 0 <= i < |fetched| ==> fetched[i].Some? then
      Some(seq(|fetched|, i requires 0 <= i < |fetched| => fetched[i].value))
    else
      None
  }

  /**
   * The engine's process-wide state: the fee counter `startTxFee`, which only goes up, so that
   * the fees of different polls never meet (see `FeesOfLaterPollsAreHigher`).
   */
  class Stacker {
    const setup: Setup
    var startTxFee: nat

    constructor (cfg: PoxConfig, keys: seq<string>, kd: KeyDerivation, stackingCycles: nat,
                 sign: SigArgs -> string)
      ensures setup == Setup(cfg, MakeAccounts(keys, kd), stackingCycles, sign)
      ensures startTxFee == START_TX_FEE
    {
      setup := Setup(cfg, MakeAccounts(keys, kd), stackingCycles, sign);
      startTxFee := START_TX_FEE;
    }

    /** `getNextTxFee`: the counter's value, then the counter moves up by one. */
    method GetNextTxFee() returns (fee: nat)
      modifies this
      ensures fee == old(startTxFee) && startTxFee == old(startTxFee) + 1
    {
      fee := startTxFee;
      startTxFee := startTxFee + 1;
    }

    /**
     * The body of `run`'s per-account callback for account `i`: decide and, unless the
     * decision is to skip, assemble the request with the next fee; `txs` is what is handed
     * to the stacking client. `fee0` is the counter when the poll began, so the accounts
     * before `i` have used the fees from `fee0` up to the current counter.
     */
    method Act(p: Poll, forceExtend: bool, i: nat, ghost fee0: nat) returns (d: Decision, txs: seq<StackingTx>)
      requires WellFormed(setup, p) && i < |setup.accounts|
      requires forceExtend == ForceExtend(p.info)
      requires startTxFee == fee0 + |PollRequests(setup, p, fee0, i)|
      modifies this
      ensures d == DecisionOf(setup, p, i) && (d.Skip? <==> txs == [])
      ensures PollRequests(setup, p, fee0, i) + txs == PollRequests(setup, p, fee0, i + 1)
      ensures startTxFee == old(startTxFee) + |txs|
    {
      PollRequestsStep(setup, p, fee0, i);
      var account := setup.accounts[i];
      d := Classify(setup.cfg, p.info, forceExtend, account, p.statuses[i], setup.stackingCycles);
      match d {
        case StackStx(_) =>
          var fee := GetNextTxFee();
          txs := [StackStxRequest(p.info, account, setup.stackingCycles, p.authIds[i], fee, setup.sign)];
        case StackExtend(_) =>
          var fee := GetNextTxFee();
          txs := [StackExtendRequest(p.info, account, setup.stackingCycles, p.authIds[i], fee, setup.sign)];
        case Skip =>
          txs := [];
      }
    }

    /** `run` after its early returns: every account in order, then whether anything was submitted. */
    method ActAll(p: Poll) returns (txs: seq<StackingTx>, txSubmitted: bool)
      requires WellFormed(setup, p)
      modifies this
      ensures txs == PollRequests(setup, p, old(startTxFee), |setup.accounts|)
      ensures startTxFee == old(startTxFee) + |txs|
      ensures txSubmitted <==> txs != []
    {
      ghost var fee0 := startTxFee;
      txSubmitted := false;
      var forceExtend := ForceExtend(p.info);
      txs := [];
      var i := 0;
      while i < |setup.accounts|
        invariant 0 <= i <= |setup.accounts|
        invariant txs == PollRequests(setup, p, fee0, i)
        invariant startTxFee == fee0 + |txs|
        invariant txSubmitted <==> txs != []
      {
        var d, new_ := Act(p, forceExtend, i, fee0);
        txSubmitted := txSubmitted || !d.Skip?;
        txs := txs + new_;
        i := i + 1;
      }
    }

    /**
     * One poll of `run`: `fetched` holds what each `getAccountStatus` returned (`None` for a
     * failed fetch), `authIds` the id `randInt` draws for each account's request; `txs` are
     * the requests handed to the stacking client, in submission order.
     */
    method Run(info: PoxInfo, fetched: seq<Option<AccountStatus>>, authIds: seq<nat>)
      returns (outcome: PollOutcome, txs: seq<StackingTx>)
      requires |fetched| == |setup.accounts| && |authIds| == |setup.accounts| && AuthIdsInRange(authIds)
      modifies this
      ensures startTxFee == old(startTxFee) + |txs|
      ensures !IsPox4(info.contractId) ==> outcome == NotPox4
      ensures IsPox4(info.contractId) && AllFetched(fetched).None? ==> outcome == FetchFailed
      ensures IsPox4(info.contractId) && AllFetched(fetched).Some? ==> outcome.Polled?
      ensures !outcome.Polled? ==> txs == []
      ensures outcome.Polled? ==>
        && IsPox4(info.contractId) && AllFetched(fetched).Some?
        && var p := Poll(info, AllFetched(fetched).value, authIds);
           && txs == PollRequests(setup, p, old(startTxFee), |setup.accounts|)
           && (outcome.txSubmitted <==> txs != [])
    {
      if !IsPox4(info.contractId) {
        return NotPox4, [];
      }
      var statuses := AllFetched(fetched);
      if statuses.None? {
        return FetchFailed, [];
      }
      var txSubmitted;
      txs, txSubmitted := ActAll(Poll(info, statuses.value, authIds));
      outcome := Polled(txSubmitted);
    }
  }

  /**
   * Two successive polls: every fee of the later one is above every fee of the earlier one,
   * when the later poll starts from the counter the earlier one left.
   */
  lemma FeesOfLaterPollsAreHigher(s: Setup, p1: Poll, p2: Poll, fee0: nat, j: nat, k: nat)
    requires WellFormed(s, p1) && WellFormed(s, p2)
    requires j < |PollRequests(s, p1, fee0, |s.accounts|)|
    requires k < |PollRequests(s, p2, fee0 + |PollRequests(s, p1, fee0, |s.accounts|)|, |s.accounts|)|
    ensures PollRequests(s, p1, fee0, |s.accounts|)[j].Fee() <
            PollRequests(s, p2, fee0 + |PollRequests(s, p1, fee0, |s.accounts|)|, |s.accounts|)[k].Fee()
  {
  }
}
