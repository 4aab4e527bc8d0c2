/**
 * The helper layer that restates the handlers' rules: value-returning
 * constructors and helpers that update a borrowed account in place.
 */
module UseCases {
  import opened Wrappers
  import opened Utils
  import opened Entities
  import Rules
  import opened Accounts

  /**
   * This layer's own copy of `assert_unique_owners`: for each owner, search
   * the rest of the list for it and stop at the first repeat.
   */
  method AssertUniqueOwners(owners: seq<Pubkey>) returns (r: Outcome<ErrorCode>)
    ensures r == Utils.AssertUniqueOwners(owners)
    ensures r == Pass <==> Distinct(owners)
  {
    var i := 0;
    while i < |owners|
      invariant 0 <= i <= |owners|
      invariant forall a, b :: 0 <= a < i && a < b < |owners| ==> owners[a] != owners[b]
    {
      var owner := owners[i];
      // `owners.iter().skip(i + 1).any(|item| item == owner)`
      var found := false;
      var k := i + 1;
      while k < |owners| && !found
        invariant i + 1 <= k <= |owners|
        invariant found ==> i + 1 < k && owners[k - 1] == owner
        invariant !found ==> forall m :: i < m < k ==> owners[m] != owner
      {
        found := owners[k] == owner;
        k := k + 1;
      }
      if found {
        assert !Distinct(owners) by {
          assert owners[i] == owners[k - 1];
        }
        return Fail(UniqueOwners);
      }
      i := i + 1;
    }
    r := Pass;
  }

  /** `create_multisig_wallet`: checks uniqueness, then the threshold, then emptiness, and builds the wallet. */
  method CreateMultisigWallet(owners: seq<Pubkey>, threshold: nat, nonce: byte)
    returns (r: Result<MultisigWallet, ErrorCode>)
    ensures r == Rules.CreateWallet(owners, threshold, nonce)
    ensures r.Ok? <==> Distinct(owners) && 0 < threshold <= |owners|
  {
    var unique := AssertUniqueOwners(owners);
    if unique.Fail? {
      return Err(unique.error);
    }
    if !(threshold > 0 && threshold <= |owners|) {
      return Err(InvalidThreshold);
    }
    if |owners| == 0 {
      return Err(InvalidOwnersLen);
    }
    r := Ok(MultisigWallet(owners, threshold, nonce, 0, ""));
  }

  /** `set_multisig_wallet_owners`: every check precedes every write, so a failure leaves the wallet as it was. */
  method SetMultisigWalletOwners(wallet: MultisigAccount, owners: seq<Pubkey>) returns (r: Outcome<ErrorCode>)
    modifies wallet
    ensures var expected := Rules.SetOwners(old(wallet.Value()), owners);
      && (r == Pass <==> expected.Ok?)
      && (r == Pass ==> wallet.Value() == expected.value)
      && (r.Fail? ==> r.error == expected.error && unchanged(wallet))
  {
    r := AssertUniqueOwners(owners);
    if r.Fail? {
      return;
    }
    if |owners| == 0 {
      return Fail(InvalidOwnersLen);
    }
    if |owners| < wallet.threshold {
      wallet.threshold := |owners|;
    }
    wallet.owners := owners;
    wallet.ownerSetSeqno := wallet.ownerSetSeqno + 1;
  }

  /**
   * `create_multisig_wallet_transaction`: a transaction for `wallet`, signed
   * only by the proposer, or `InvalidOwner` for a non-member.
   */
  method CreateMultisigWalletTransaction(
    wallet: MultisigAccount, proposer: Pubkey,
    programId: Pubkey, accounts: seq<TransactionAccount>, data: seq<byte>)
    returns (r: Result<Transaction, ErrorCode>)
    ensures r == Rules.ProposeTransaction(wallet.Value(), wallet.key, proposer, programId, accounts, data)
    ensures r.Ok? ==> Rules.SignerCount(r.value.signers) == 1 && !r.value.didExecute
  {
    var ownerIndex := Rules.OwnerIndex(wallet.owners, proposer);
    if ownerIndex.None? {
      return Err(InvalidOwner);
    }
    var signers := Rules.Unsigned(|wallet.owners|);
    signers := signers[ownerIndex.value := true];
    r := Ok(Transaction(wallet.key, programId, accounts, data, signers, false, wallet.ownerSetSeqno));
  }

  /**
   * `execute_multisig_wallet_transaction`: refuses a spent transaction, then
   * one with too few flags set, and otherwise marks it executed, touching
   * nothing else.
   */
  method ExecuteMultisigWalletTransaction(wallet: MultisigAccount, tx: TxAccount) returns (r: Outcome<ErrorCode>)
    modifies tx
    ensures var expected := Rules.ExecuteTransaction(wallet.Value(), old(tx.Value()));
      && (r == Pass <==> expected.Ok?)
      && (r == Pass ==> tx.Value() == expected.value)
      && (r.Fail? ==> r.error == expected.error && unchanged(tx))
  {
    if tx.didExecute {
      return Fail(AlreadyExecuted);
    }
    var sigCount := Rules.SignerCount(tx.signers);
    if sigCount < wallet.threshold {
      return Fail(NotEnoughSigners);
    }
    tx.didExecute := true;
    r := Pass;
  }
}
