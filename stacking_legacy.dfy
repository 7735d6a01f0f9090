/**
 * The single-account stacking script (stacking/stacking.js): when the next cycle is short of
 * stacked STX, the first account with nothing locked stacks exactly the bumped minimum.
 */
module StackingLegacy {
  import opened Wrappers
  import opened Common
  import Stacking

  /** The fee of the one `stack` call. */
  const LEGACY_TX_FEE: nat := 1000

  /** An account of the script: keys and addresses, and a signer key drawn at random at start-up. */
  datatype LegacyAccount = LegacyAccount(
    privKey: string,
    pubKey: string,
    stxAddress: string,
    btcAddr: string,
    signerKey: string)

  /** The arguments of the `stack` call. */
  datatype LegacyStackArgs = LegacyStackArgs(
    poxAddress: string,
    privateKey: string,
    amountMicroStx: nat,
    burnBlockHeight: Option<nat>,
    cycles: nat,
    fee: nat,
    signerKey: string)

  datatype LegacyOutcome =
    | NotPox4                              // the contract is not pox-4
    | EnoughStacked                        // the next cycle already has the bumped minimum
    | NoUnlockedAccount                    // every account has a locked balance
    | Stacked(account: nat, args: LegacyStackArgs)   // one `stack` call from that account

  /** The account list of the script; `signerKeys` are the random signer keys, one per key. */
  function MakeLegacyAccounts(keys: seq<string>, kd: KeyDerivation, signerKeys: seq<string>)
    : (accounts: seq<LegacyAccount>)
    requires |signerKeys| == |keys|
    ensures |accounts| == |keys|
    ensures forall i :: 0 <= i < |keys| ==>
      && accounts[i].privKey == keys[i]
      && accounts[i].btcAddr == kd.btcAddressOf(accounts[i].pubKey)
      && accounts[i].pubKey == kd.publicKeyOf(keys[i])
      && accounts[i].signerKey == signerKeys[i]
  {
    seq(|keys|, i requires 0 <= i < |keys| =>
      var pubKey := kd.publicKeyOf(keys[i]);
      LegacyAccount(keys[i], pubKey, kd.stxAddressOf(keys[i]), kd.btcAddressOf(pubKey), signerKeys[i]))
  }

  /** The position of the first zero in `balances`, if any. */
  function FirstUnlocked(balances: seq<nat>): (r: Option<nat>)
    ensures r.None? <==> forall i :: 0 <= i < |balances| ==> balances[i] != 0
    ensures r.Some? ==> r.value < |balances| && balances[r.value] == 0 &&
                        forall j :: 0 <= j < r.value ==> balances[j] != 0
  {
    if balances == [] then None
    else if balances[0] == 0 then Some(0)
    else
      match FirstUnlocked(balances[1..])
      case None => None
      case Some(k) => Some(k + 1)
  }

  /** The `stack` arguments for `account`: the bumped minimum, unweighted, at the fixed fee. */
  function LegacyStackRequest(account: LegacyAccount, info: PoxInfo, stackingCycles: nat)
    : (args: LegacyStackArgs)
    ensures args.amountMicroStx == Stacking.MinStx(info.nextCycle.minThresholdUstx)
    ensures args.fee == LEGACY_TX_FEE && args.cycles == stackingCycles
    ensures args.poxAddress == account.btcAddr && args.privateKey == account.privKey
    ensures args.signerKey == account.signerKey && args.burnBlockHeight == info.currentBurnHeight
  {
    LegacyStackArgs(account.btcAddr, account.privKey, Stacking.MinStx(info.nextCycle.minThresholdUstx),
                    info.currentBurnHeight, stackingCycles, LEGACY_TX_FEE, account.signerKey)
  }

  /**
   * One `run`: `lockedBalances[i]` is what `getAccountBalanceLocked` returns for account `i`;
   * `queried` counts the balances read, and `waited` says whether the post-transaction wait
   * followed.
   */
  method RunLegacy(accounts: seq<LegacyAccount>, info: PoxInfo, lockedBalances: seq<nat>, stackingCycles: nat)
    returns (outcome: LegacyOutcome, queried: nat, waited: bool)
    requires |lockedBalances| == |accounts|
    ensures !Stacking.IsPox4(info.contractId) ==> outcome == NotPox4 && queried == 0
    ensures Stacking.IsPox4(info.contractId) &&
            info.nextCycle.stackedUstx >= Stacking.MinStx(info.nextCycle.minThresholdUstx) ==>
              outcome == EnoughStacked && queried == 0
    ensures outcome.NoUnlockedAccount? ==>
              FirstUnlocked(lockedBalances).None? && queried == |accounts|
    ensures outcome.Stacked? ==>
              && FirstUnlocked(lockedBalances) == Some(outcome.account)
              && outcome.args == LegacyStackRequest(accounts[outcome.account], info, stackingCycles)
              && queried == outcome.account + 1
    ensures Stacking.IsPox4(info.contractId) &&
            info.nextCycle.stackedUstx < Stacking.MinStx(info.nextCycle.minThresholdUstx) ==>
              outcome.NoUnlockedAccount? || outcome.Stacked?
    ensures outcome == EnoughStacked <==> Stacking.IsPox4(info.contractId) && !Stacking.ForceExtend(info)
    ensures waited <==> outcome.Stacked?
  {
    queried, waited := 0, false;
    if !Stacking.IsPox4(info.contractId) {
      return NotPox4, queried, waited;
    }
    var nextCycleStx := info.nextCycle.stackedUstx;
    var minStx := info.nextCycle.minThresholdUstx;
    minStx := Stacking.MinStx(minStx);
    if nextCycleStx >= minStx {
      return EnoughStacked, queried, waited;
    }
    var account: Option<nat> := None;
    var i := 0;
    while i < |accounts|
      invariant 0 <= i <= |accounts| && queried == i
      invariant forall j :: 0 <= j < i ==> lockedBalances[j] != 0
    {
      var lockedHeight := lockedBalances[i];
      queried := queried + 1;
      if lockedHeight == 0 {
        account := Some(i);
        break;
      }
      i := i + 1;
    }
    if account.None? {
      return NoUnlockedAccount, queried, waited;
    }
    var a := account.value;
    outcome := Stacked(a, LegacyStackRequest(accounts[a], info, stackingCycles));
    waited := true;
  }
}
