/**
 * The transfer broadcaster (stacking/tx-broadcaster.ts): each round it reads every account's
 * nonce, sorts the accounts by nonce, and sends a small STX transfer from the account with the
 * lowest nonce to the next one.
 */
module TxBroadcaster {
  import opened Wrappers

  const TRANSFER_AMOUNT: nat := 1000
  const TRANSFER_FEE: nat := 300

  /** An account of ACCOUNT_KEYS: its key and its testnet address. */
  datatype BroadcastAccount = BroadcastAccount(privKey: string, stxAddress: string)

  /** An account together with the nonce `getNonce` reported for it. */
  datatype AccountNonce = AccountNonce(privKey: string, stxAddress: string, nonce: nat)

  datatype AnchorMode = AnchorAny

  /** The arguments of `makeSTXTokenTransfer`. */
  datatype StxTransfer = StxTransfer(
    recipient: string,
    amount: nat,
    senderKey: string,
    nonce: nat,
    fee: nat,
    anchorMode: Option<AnchorMode>)    // absent: the library's default

  /** Why a round throws before any transfer: `accountNonces[0]` or `accountNonces[1]` is undefined. */
  datatype BroadcastError = NoSender | NoRecipient

  /** The account list built from the key list. */
  function MakeBroadcastAccounts(keys: seq<string>, stxAddressOf: string -> string): (accounts: seq<BroadcastAccount>)
    ensures |accounts| == |keys|
    ensures forall i :: 0 <= i < |keys| ==>
              accounts[i].privKey == keys[i] && accounts[i].stxAddress == stxAddressOf(keys[i])
  {
    seq(|keys|, i requires 0 <= i < |keys| => BroadcastAccount(keys[i], stxAddressOf(keys[i])))
  }

  /** `{ ...account, nonce }` for every account, in account order. */
  function WithNonces(accounts: seq<BroadcastAccount>, nonces: seq<nat>): (entries: seq<AccountNonce>)
    requires |nonces| == |accounts|
    ensures |entries| == |accounts|
    ensures forall i :: 0 <= i < |accounts| ==>
              entries[i] == AccountNonce(accounts[i].privKey, accounts[i].stxAddress, nonces[i])
  {
    seq(|accounts|, i requires 0 <= i < |accounts| =>
      AccountNonce(accounts[i].privKey, accounts[i].stxAddress, nonces[i]))
  }

  predicate SortedByNonce(s: seq<AccountNonce>) {
    forall p, q :: 0 <= p < q < |s| ==> s[p].nonce <= s[q].nonce
  }

  /** `accountNonces.sort((a, b) => a.nonce - b.nonce)`: in place, by insertion. */
  method SortByNonce(a: array<AccountNonce>)
    modifies a
    ensures SortedByNonce(a[..])
    ensures multiset(a[..]) == multiset(old(a[..]))
  {
    var i := 0;
    while i < a.Length
      invariant 0 <= i <= a.Length
      invariant forall p, q :: 0 <= p < q < i ==> a[p].nonce <= a[q].nonce
      invariant multiset(a[..]) == multiset(old(a[..]))
    {
      InsertIntoPrefix(a, i);
      i := i + 1;
    }
  }

  /**
   * Insertion in progress: the entry being moved sits at `j`; without it `s[..i+1]` is sorted,
   * and it is no greater than anything after it.
   */
  predicate Inserting(s: seq<AccountNonce>, i: nat, j: nat)
    requires j <= i < |s|
  {
    && (forall p, q :: 0 <= p < q <= i && p != j && q != j ==> s[p].nonce <= s[q].nonce)
    && (forall q :: j < q <= i ==> s[j].nonce <= s[q].nonce)
  }

  /** Swapping the moving entry with a greater left neighbour keeps the insertion going. */
  lemma SwapDown(s: seq<AccountNonce>, i: nat, j: nat)
    requires 0 < j <= i < |s| && Inserting(s, i, j) && s[j - 1].nonce > s[j].nonce
    ensures Inserting(s[j - 1 := s[j]][j := s[j - 1]], i, j - 1)
    ensures multiset(s[j - 1 := s[j]][j := s[j - 1]]) == multiset(s)
  {
    var t := s[j - 1 := s[j]][j := s[j - 1]];
    assert forall q :: j < q <= i ==> t[q] == s[q];
    assert forall p :: 0 <= p < j - 1 ==> t[p] == s[p];
  }

  /** The insertion is done once the moving entry has reached the front or a neighbour no greater. */
  lemma InsertionDone(s: seq<AccountNonce>, i: nat, j: nat)
    requires j <= i < |s| && Inserting(s, i, j)
    requires j == 0 || s[j - 1].nonce <= s[j].nonce
    ensures forall p, q :: 0 <= p < q <= i ==> s[p].nonce <= s[q].nonce
  {
    forall p, q | 0 <= p < q <= i
      ensures s[p].nonce <= s[q].nonce
    {
      if q == j && p < j - 1 {
        assert s[p].nonce <= s[j - 1].nonce;
      }
    }
  }

  /** Moves `a[i]` down, by adjacent swaps, to its place in the sorted prefix `a[..i]`. */
  method InsertIntoPrefix(a: array<AccountNonce>, i: nat)
    requires i < a.Length
    requires forall p, q :: 0 <= p < q < i ==> a[p].nonce <= a[q].nonce
    modifies a
    ensures forall p, q :: 0 <= p < q <= i ==> a[p].nonce <= a[q].nonce
    ensures multiset(a[..]) == multiset(old(a[..]))
  {
    var j := i;
    while j > 0 && a[j - 1].nonce > a[j].nonce
      invariant 0 <= j <= i
      invariant Inserting(a[..], i, j)
      invariant multiset(a[..]) == multiset(old(a[..]))
    {
      ghost var s := a[..];
      a[j - 1], a[j] := a[j], a[j - 1];
      assert a[..] == s[j - 1 := s[j]][j := s[j - 1]];
      SwapDown(s, i, j);
      j := j - 1;
    }
    InsertionDone(a[..], i, j);
  }

  /** The transfer of one round: from `sender`, to `recipient`, at the sender's nonce. */
  function Transfer(sender: AccountNonce, recipient: AccountNonce, anchorMode: Option<AnchorMode>): (t: StxTransfer)
    ensures t.amount == TRANSFER_AMOUNT && t.fee == TRANSFER_FEE
    ensures t.senderKey == sender.privKey && t.nonce == sender.nonce && t.recipient == recipient.stxAddress
    ensures t.anchorMode == anchorMode
  {
    StxTransfer(recipient.stxAddress, TRANSFER_AMOUNT, sender.privKey, sender.nonce, TRANSFER_FEE, anchorMode)
  }

  /**
   * Sorts a copy of the entries and picks the first two: the error when there are fewer than
   * two; `sorted` is the array after sorting.
   */
  method PickAndTransfer(entries: seq<AccountNonce>, anchorMode: Option<AnchorMode>)
    returns (r: Result<StxTransfer, BroadcastError>, sorted: seq<AccountNonce>)
    ensures SortedByNonce(sorted) && multiset(sorted) == multiset(entries)
    ensures |entries| == 0 ==> r == Failure(NoSender)
    ensures |entries| == 1 ==> r == Failure(NoRecipient)
    ensures |entries| >= 2 ==> |sorted| >= 2 && r == Success(Transfer(sorted[0], sorted[1], anchorMode))
  {
    var accountNonces := new AccountNonce[|entries|](i requires 0 <= i < |entries| => entries[i]);
    assert accountNonces[..] == entries;
    SortByNonce(accountNonces);
    sorted := accountNonces[..];
    assert |sorted| == |multiset(sorted)| == |entries|;
    if accountNonces.Length == 0 {
      return Failure(NoSender), sorted;
    }
    var sender := accountNonces[0];
    if accountNonces.Length == 1 {
      return Failure(NoRecipient), sorted;
    }
    var recipient := accountNonces[1];
    r := Success(Transfer(sender, recipient, anchorMode));
  }

  /** One `run` of tx-broadcaster.ts, given the nonce read for each account. */
  method Run(accounts: seq<BroadcastAccount>, nonces: seq<nat>)
    returns (r: Result<StxTransfer, BroadcastError>, sorted: seq<AccountNonce>)
    requires |nonces| == |accounts|
    ensures SortedByNonce(sorted) && multiset(sorted) == multiset(WithNonces(accounts, nonces))
    ensures |accounts| == 0 ==> r == Failure(NoSender)
    ensures |accounts| == 1 ==> r == Failure(NoRecipient)
    ensures |accounts| >= 2 ==> |sorted| >= 2 && r == Success(Transfer(sorted[0], sorted[1], Some(AnchorAny)))
  {
    var accountNonces := WithNonces(accounts, nonces);
    r, sorted := PickAndTransfer(accountNonces, Some(AnchorAny));
  }

  /** The first entry of a sorted permutation has a nonce no greater than any entry's. */
  lemma SenderHasLowestNonce(sorted: seq<AccountNonce>, entries: seq<AccountNonce>)
    requires SortedByNonce(sorted) && multiset(sorted) == multiset(entries) && |sorted| >= 1
    ensures forall e :: e in entries ==> sorted[0].nonce <= e.nonce
  {
    forall e | e in entries
      ensures sorted[0].nonce <= e.nonce
    {
      assert e in multiset(entries);
      assert e in sorted;
      var k :| 0 <= k < |sorted| && sorted[k] == e;
    }
  }

  /** The first two entries of a permutation are two entries of the original, not one entry twice. */
  lemma FirstTwoAreAPair(sorted: seq<AccountNonce>, entries: seq<AccountNonce>)
    requires multiset(sorted) == multiset(entries) && |sorted| >= 2
    ensures multiset{sorted[0], sorted[1]} <= multiset(entries)
  {
    assert sorted == [sorted[0], sorted[1]] + sorted[2..];
  }

  /** The second entry of a sorted permutation has a nonce no greater than any entry but the first. */
  lemma RecipientIsNextLowest(sorted: seq<AccountNonce>, entries: seq<AccountNonce>)
    requires SortedByNonce(sorted) && multiset(sorted) == multiset(entries) && |sorted| >= 2
    ensures forall e :: e in multiset(entries) - multiset{sorted[0]} ==> sorted[1].nonce <= e.nonce
  {
    var rest := sorted[1..];
    assert sorted == [sorted[0]] + rest;
    assert multiset(entries) - multiset{sorted[0]} == multiset(rest);
    forall e: AccountNonce | e in multiset(rest)
      ensures sorted[1].nonce <= e.nonce
    {
      var k :| 0 <= k < |rest| && rest[k] == e;
      assert sorted[1].nonce <= sorted[k + 1].nonce;
    }
  }
}
