/** The account records the program stores and the conversions between instruction shapes. */
module Entities {
  import opened Utils

  newtype byte = x: int | 0 <= x < 256

  /**
   * The multisig wallet account. `ownerSetSeqno` is a `u32` in the program;
   * it is unbounded here.
   */
  datatype MultisigWallet = MultisigWallet(
    owners: seq<Pubkey>,
    threshold: nat,
    nonce: byte,
    ownerSetSeqno: nat,
    data: string)

  /** One account an instruction touches, as stored inside a transaction. */
  datatype TransactionAccount = TransactionAccount(pubkey: Pubkey, isSigner: bool, isWritable: bool)

  /**
   * A proposed transaction. `signers` is indexed parallel to the owners of
   * the wallet at `ownerSetSeqno`.
   */
  datatype Transaction = Transaction(
    multisig: Pubkey,
    programId: Pubkey,
    accounts: seq<TransactionAccount>,
    data: seq<byte>,
    signers: seq<bool>,
    didExecute: bool,
    ownerSetSeqno: nat)

  /** The runtime's description of one account of an instruction. */
  datatype AccountMeta = AccountMeta(pubkey: Pubkey, isSigner: bool, isWritable: bool)

  /** An instruction ready for a cross-program invocation. */
  datatype Instruction = Instruction(programId: Pubkey, accounts: seq<AccountMeta>, data: seq<byte>)

  /** The runtime's `AccountMeta::new`: a writable account. */
  function WritableMeta(pubkey: Pubkey, isSigner: bool): AccountMeta
  {
    AccountMeta(pubkey, isSigner, true)
  }

  /** The runtime's `AccountMeta::new_readonly`: a read-only account. */
  function ReadonlyMeta(pubkey: Pubkey, isSigner: bool): AccountMeta
  {
    AccountMeta(pubkey, isSigner, false)
  }

  /**
   * `From<&TransactionAccount> for AccountMeta`: the writable flag chooses the
   * constructor, and every flag reaches the meta unchanged.
   */
  function ToAccountMeta(account: TransactionAccount): (meta: AccountMeta)
    ensures meta.pubkey == account.pubkey
    ensures meta.isSigner == account.isSigner
    ensures meta.isWritable == account.isWritable
  {
    match account.isWritable
    case false => ReadonlyMeta(account.pubkey, account.isSigner)
    case true => WritableMeta(account.pubkey, account.isSigner)
  }

  /** `From<&AccountMeta> for TransactionAccount`. */
  function FromAccountMeta(meta: AccountMeta): (account: TransactionAccount)
    ensures account.pubkey == meta.pubkey
    ensures account.isSigner == meta.isSigner
    ensures account.isWritable == meta.isWritable
  {
    TransactionAccount(meta.pubkey, meta.isSigner, meta.isWritable)
  }

  /** Converting an account to a meta and back gives the account again. */
  lemma AccountRoundTrip(account: TransactionAccount)
    ensures FromAccountMeta(ToAccountMeta(account)) == account
  {
  }

  /** Converting a meta to an account and back gives the meta again. */
  lemma MetaRoundTrip(meta: AccountMeta)
    ensures ToAccountMeta(FromAccountMeta(meta)) == meta
  {
  }

  /** `tx.accounts.iter().map(Into::into).collect()`. */
  function ToAccountMetas(accounts: seq<TransactionAccount>): (metas: seq<AccountMeta>)
    ensures |metas| == |accounts|
    ensures forall i :: 0 <= i < |accounts| ==> metas[i] == ToAccountMeta(accounts[i])
  {
    if accounts == [] then [] else [ToAccountMeta(accounts[0])] + ToAccountMetas(accounts[1..])
  }

  /** The inverse direction, element by element. */
  function FromAccountMetas(metas: seq<AccountMeta>): (accounts: seq<TransactionAccount>)
    ensures |accounts| == |metas|
    ensures forall i :: 0 <= i < |metas| ==> accounts[i] == FromAccountMeta(metas[i])
  {
    if metas == [] then [] else [FromAccountMeta(metas[0])] + FromAccountMetas(metas[1..])
  }

  /** `From<&Transaction> for Instruction`. */
  function ToInstruction(tx: Transaction): (ix: Instruction)
    ensures ix.programId == tx.programId
    ensures ix.data == tx.data
    ensures |ix.accounts| == |tx.accounts|
    ensures forall i :: 0 <= i < |tx.accounts| ==>
      && ix.accounts[i].pubkey == tx.accounts[i].pubkey
      && ix.accounts[i].isSigner == tx.accounts[i].isSigner
      && ix.accounts[i].isWritable == tx.accounts[i].isWritable
  {
    Instruction(tx.programId, ToAccountMetas(tx.accounts), tx.data)
  }

  /** The accounts of the instruction built from a transaction convert back to the transaction's accounts. */
  lemma {:induction false} InstructionAccountsRoundTrip(accounts: seq<TransactionAccount>)
    ensures FromAccountMetas(ToAccountMetas(accounts)) == accounts
  {
    if accounts != [] {
      InstructionAccountsRoundTrip(accounts[1..]);
      assert accounts == [accounts[0]] + accounts[1..];
    }
  }
}
