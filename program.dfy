/**
 * The on-chain handlers: each runs after Anchor's account checks (stated
 * as preconditions) and writes the record fields of its accounts in place.
 */
module MultisigProgram {
  import opened Wrappers
  import opened Utils
  import opened Entities
  import Rules
  import opened Accounts

  /** `create_multisig`: initialises a freshly allocated wallet account. */
  method CreateMultisig(multisig: MultisigAccount, owners: seq<Pubkey>, threshold: nat, nonce: byte)
    returns (r: Outcome<ErrorCode>)
    requires multisig.Value() == ZeroWallet()
    modifies multisig
    ensures var expected := Rules.CreateWallet(owners, threshold, nonce);
      && (r == Pass <==> expected.Ok?)
      && (r == Pass ==> multisig.Value() == expected.value)
      && (r.Fail? ==> r.error == expected.error && unchanged(multisig))
  {
    r := AssertUniqueOwners(owners);
    if r.Fail? {
      return;
    }
    if !(threshold > 0 && threshold <= |owners|) {
      r := Fail(InvalidThreshold);
      return;
    }
    if |owners| == 0 {
      r := Fail(InvalidOwnersLen);
      return;
    }
    multisig.owners := owners;
    multisig.threshold := threshold;
    multisig.nonce := nonce;
    multisig.ownerSetSeqno := 0;
  }

  /** `create_transaction`: initialises a freshly allocated transaction account, signed by its proposer. */
  method CreateTransaction(
    multisig: MultisigAccount, tx: TxAccount, proposer: Pubkey,
    programId: Pubkey, accounts: seq<TransactionAccount>, data: seq<byte>)
    returns (r: Outcome<ErrorCode>)
    requires tx.Value() == ZeroTransaction()
    modifies tx
    ensures var expected := Rules.ProposeTransaction(multisig.Value(), multisig.key, proposer, programId, accounts, data);
      && (r == Pass <==> expected.Ok?)
      && (r == Pass ==> tx.Value() == expected.value)
      && (r.Fail? ==> r.error == expected.error && unchanged(tx))
  {
    var ownerIndex := Rules.OwnerIndex(multisig.owners, proposer);
    if ownerIndex.None? {
      return Fail(InvalidOwner);
    }
    var signers := Rules.Unsigned(|multisig.owners|);
    signers := signers[ownerIndex.value := true];
    tx.programId := programId;
    tx.accounts := accounts;
    tx.data := data;
    tx.signers := signers;
    tx.multisig := multisig.key;
    tx.didExecute := false;
    tx.ownerSetSeqno := multisig.ownerSetSeqno;
    r := Pass;
  }

  /**
   * `approve`. The first two preconditions are the account constraints; the
   * third holds whenever they do, in every reachable ledger
   * (`Ledger.ReachableInvariant`).
   */
  method Approve(multisig: MultisigAccount, tx: TxAccount, owner: Pubkey) returns (r: Outcome<ErrorCode>)
    requires tx.multisig == multisig.key
    requires tx.ownerSetSeqno == multisig.ownerSetSeqno
    requires |tx.signers| == |multisig.owners|
    modifies tx
    ensures var expected := Rules.ApproveTransaction(multisig.Value(), old(tx.Value()), owner);
      && (r == Pass <==> expected.Ok?)
      && (r == Pass ==> tx.Value() == expected.value)
      && (r.Fail? ==> r.error == expected.error && unchanged(tx))
  {
    var ownerIndex := Rules.OwnerIndex(multisig.owners, owner);
    if ownerIndex.None? {
      return Fail(InvalidOwner);
    }
    tx.signers := tx.signers[ownerIndex.value := true];
    r := Pass;
  }

  /**
   * `set_owners`. Reachable only through `execute_transaction`, which signs
   * with the wallet's derived key.
   */
  method SetOwners(multisig: MultisigAccount, owners: seq<Pubkey>) returns (r: Outcome<ErrorCode>)
    modifies multisig
    ensures var expected := Rules.SetOwners(old(multisig.Value()), owners);
      && (r == Pass <==> expected.Ok?)
      && (r == Pass ==> multisig.Value() == expected.value)
      && (r.Fail? ==> r.error == expected.error && unchanged(multisig))
  {
    r := AssertUniqueOwners(owners);
    if r.Fail? {
      return;
    }
    if |owners| == 0 {
      return Fail(InvalidOwnersLen);
    }
    if |owners| < multisig.threshold {
      multisig.threshold := |owners|;
    }
    multisig.owners := owners;
    multisig.ownerSetSeqno := multisig.ownerSetSeqno + 1;
  }

  /** `change_threshold`. Reachable only through `execute_transaction`. */
  method ChangeThreshold(multisig: MultisigAccount, threshold: nat) returns (r: Outcome<ErrorCode>)
    modifies multisig
    ensures var expected := Rules.ChangeThreshold(old(multisig.Value()), threshold);
      && (r == Pass <==> expected.Ok?)
      && (r == Pass ==> multisig.Value() == expected.value)
      && (r.Fail? ==> r.error == expected.error && unchanged(multisig))
  {
    if !(threshold > 0) {
      return Fail(InvalidThreshold);
    }
    if threshold > |multisig.owners| {
      return Fail(InvalidThreshold);
    }
    multisig.threshold := threshold;
    r := Pass;
  }

  /**
   * `set_owners_and_change_threshold`. `change_threshold` can fail after
   * `set_owners` has written; the runtime then discards the instruction's
   * writes, which `Restore` stands for.
   */
  method SetOwnersAndChangeThreshold(multisig: MultisigAccount, owners: seq<Pubkey>, threshold: nat)
    returns (r: Outcome<ErrorCode>)
    modifies multisig
    ensures var expected := Rules.SetOwnersAndChangeThreshold(old(multisig.Value()), owners, threshold);
      && (r == Pass <==> expected.Ok?)
      && (r == Pass ==> multisig.Value() == expected.value)
      && (r.Fail? ==> r.error == expected.error && multisig.Value() == old(multisig.Value()))
  {
    var before := multisig.Value();
    r := SetOwners(multisig, owners);
    if r.Fail? {
      return;
    }
    r := ChangeThreshold(multisig, threshold);
    if r.Fail? {
      multisig.Restore(before);
    }
  }

  /** `set_data`. Reachable only through `execute_transaction`. */
  method SetData(multisig: MultisigAccount, data: string) returns (r: Outcome<ErrorCode>)
    modifies multisig
    ensures r == Pass
    ensures multisig.Value() == old(multisig.Value()).(data := data)
  {
    multisig.data := data;
    r := Pass;
  }

  /**
   * `execute_transaction` up to the cross-program invocation: `invoked` is the
   * instruction handed to `invoke_signed`, which is taken to succeed.
   * `multisigSigner` is the wallet's derived signer key.
   */
  method ExecuteTransaction(multisig: MultisigAccount, multisigSigner: Pubkey, tx: TxAccount)
    returns (r: Outcome<ErrorCode>, invoked: Option<Instruction>)
    requires tx.multisig == multisig.key
    requires tx.ownerSetSeqno == multisig.ownerSetSeqno
    modifies tx
    ensures var expected := Rules.ExecuteTransaction(multisig.Value(), old(tx.Value()));
      && (r == Pass <==> expected.Ok?)
      && (r == Pass ==> tx.Value() == expected.value
                        && invoked == Some(Rules.SignedInstruction(old(tx.Value()), multisigSigner)))
      && (r.Fail? ==> r.error == expected.error && unchanged(tx) && invoked == None)
  {
    invoked := None;
    if tx.didExecute {
      return Fail(AlreadyExecuted), None;
    }
    var sigCount := Rules.SignerCount(tx.signers);
    if sigCount < multisig.threshold {
      return Fail(NotEnoughSigners), None;
    }
    var ix := ToInstruction(tx.Value());
    ix := ix.(accounts := Rules.PromoteSigner(ix.accounts, multisigSigner));
    invoked := Some(ix);
    tx.didExecute := true;
    r := Pass;
  }
}
