/**
 * Deserialised accounts (`Box<Account<'info, T>>`): the account's key and
 * the record's fields, which handlers write in place.
 */
module Accounts {
  import opened Utils
  import opened Entities

  /** An account holding a `MultisigWallet`. */
  class MultisigAccount {
    const key: Pubkey
    var owners: seq<Pubkey>
    var threshold: nat
    var nonce: byte
    var ownerSetSeqno: nat
    var data: string

    /** The record the account currently holds. */
    function Value(): MultisigWallet
      reads this
    {
      MultisigWallet(owners, threshold, nonce, ownerSetSeqno, data)
    }

    constructor (key: Pubkey, w: MultisigWallet)
      ensures this.key == key && Value() == w
    {
      this.key := key;
      owners, threshold, nonce, ownerSetSeqno, data := w.owners, w.threshold, w.nonce, w.ownerSetSeqno, w.data;
    }

    /** Writes a whole record back, as the runtime does when it discards a failed instruction's writes. */
    method Restore(w: MultisigWallet)
      modifies this
      ensures Value() == w
    {
      owners, threshold, nonce, ownerSetSeqno, data := w.owners, w.threshold, w.nonce, w.ownerSetSeqno, w.data;
    }
  }

  /** An account holding a `Transaction`. */
  class TxAccount {
    const key: Pubkey
    var multisig: Pubkey
    var programId: Pubkey
    var accounts: seq<TransactionAccount>
    var data: seq<byte>
    var signers: seq<bool>
    var didExecute: bool
    var ownerSetSeqno: nat

    /** The record the account currently holds. */
    function Value(): Transaction
      reads this
    {
      Transaction(multisig, programId, accounts, data, signers, didExecute, ownerSetSeqno)
    }

    constructor (key: Pubkey, tx: Transaction)
      ensures this.key == key && Value() == tx
    {
      this.key := key;
      multisig, programId, accounts, data := tx.multisig, tx.programId, tx.accounts, tx.data;
      signers, didExecute, ownerSetSeqno := tx.signers, tx.didExecute, tx.ownerSetSeqno;
    }
  }

  /** The contents of a freshly allocated (`zero`) wallet account. */
  function ZeroWallet(): MultisigWallet
  {
    MultisigWallet([], 0, 0, 0, "")
  }

  /** The contents of a freshly allocated (`zero`) transaction account. */
  function ZeroTransaction(): Transaction
  {
    Transaction(0, 0, [], [], [], false, 0)
  }
}
