/**
 * The JavaScript broadcaster (stacking/tx-broadcaster.js): the same nonce sort and the same
 * choice of sender and recipient, a transfer without an anchor mode, and its own wait at the
 * end of a round that did not throw.
 */
module TxBroadcasterLegacy {
  import opened Wrappers
  import opened TxBroadcaster

  /** One `run` of tx-broadcaster.js; `waited` says whether the round reached its closing wait. */
  method RunLegacy(accounts: seq<BroadcastAccount>, nonces: seq<nat>)
    returns (r: Result<StxTransfer, BroadcastError>, sorted: seq<AccountNonce>, waited: bool)
    requires |nonces| == |accounts|
    ensures SortedByNonce(sorted) && multiset(sorted) == multiset(WithNonces(accounts, nonces))
    ensures |accounts| == 0 ==> r == Failure(NoSender)
    ensures |accounts| == 1 ==> r == Failure(NoRecipient)
    ensures |accounts| >= 2 ==> |sorted| >= 2 && r == Success(Transfer(sorted[0], sorted[1], None))
    ensures waited <==> |accounts| >= 2
  {
    var accountNonces := WithNonces(accounts, nonces);
    r, sorted := PickAndTransfer(accountNonces, None);
    waited := r.Success?;
  }
}
