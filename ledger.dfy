/**
 * The program's accounts as a whole, changed by one instruction at a time.
 * Each instruction runs its handler on the accounts it names after Anchor's
 * account checks; a failed instruction leaves every account as it was.
 */
module Ledger {
  import opened Wrappers
  import opened Utils
  import opened Entities
  import opened Rules

  /** The wallet and transaction accounts that exist, by key. */
  datatype Chain = Chain(wallets: map<Pubkey, MultisigWallet>, txs: map<Pubkey, Transaction>)

  /** One instruction of the program, with the accounts and arguments it is given. */
  datatype Instr =
    | CreateMultisig(wallet: Pubkey, owners: seq<Pubkey>, threshold: nat, nonce: byte)
    | CreateTransaction(wallet: Pubkey, tx: Pubkey, proposer: Pubkey,
                        programId: Pubkey, accounts: seq<TransactionAccount>, data: seq<byte>)
    | Approve(wallet: Pubkey, tx: Pubkey, owner: Pubkey)
    | SetOwners(wallet: Pubkey, owners: seq<Pubkey>)
    | ChangeThreshold(wallet: Pubkey, threshold: nat)
    | SetOwnersAndChangeThreshold(wallet: Pubkey, owners: seq<Pubkey>, threshold: nat)
    | SetData(wallet: Pubkey, text: string)
    | ExecuteTransaction(wallet: Pubkey, tx: Pubkey)

  /** Why an instruction failed: a program error, an account check, or an index panic. */
  datatype Failure = Program(code: ErrorCode) | ConstraintViolated | Panic

  /** The `zero` constraint: no account lives at `key` yet. */
  predicate Uninitialized(c: Chain, key: Pubkey)
  {
    key !in c.wallets && key !in c.txs
  }

  /** The `has_one = multisig` and `owner_set_seqno` constraints of `Approve` and `ExecuteTransaction`. */
  predicate Linked(c: Chain, wallet: Pubkey, tx: Pubkey): (linked: bool)
    ensures linked ==> wallet in c.wallets && tx in c.txs
    // in a ledger that keeps the invariant, a linked transaction has one flag per owner
    ensures linked && Inv(c) ==> |c.txs[tx].signers| == |c.wallets[wallet].owners|
  {
    && wallet in c.wallets && tx in c.txs
    && c.txs[tx].multisig == wallet
    && c.txs[tx].ownerSetSeqno == c.wallets[wallet].ownerSetSeqno
  }

  function WithWallet(c: Chain, key: Pubkey, r: Result<MultisigWallet, ErrorCode>): Result<Chain, Failure>
  {
    match r
    case Err(e) => Err(Program(e))
    case Ok(w) => Ok(c.(wallets := c.wallets[key := w]))
  }

  function WithTx(c: Chain, key: Pubkey, r: Result<Transaction, ErrorCode>): Result<Chain, Failure>
  {
    match r
    case Err(e) => Err(Program(e))
    case Ok(tx) => Ok(c.(txs := c.txs[key := tx]))
  }

  /** One instruction: Anchor's account checks, then the handler. */
  function Step(c: Chain, ins: Instr): (r: Result<Chain, Failure>)
    // `zero`: creation needs fresh accounts, and only creation adds one
    ensures ins.CreateMultisig? ==>
      (r.Ok? <==> Uninitialized(c, ins.wallet) && CreateWallet(ins.owners, ins.threshold, ins.nonce).Ok?)
    ensures ins.CreateTransaction? && r.Ok? ==>
      ins.wallet in c.wallets && Uninitialized(c, ins.tx) && ins.proposer in c.wallets[ins.wallet].owners
    ensures r.Ok? ==>
      && r.value.wallets.Keys == c.wallets.Keys + (if ins.CreateMultisig? then {ins.wallet} else {})
      && r.value.txs.Keys == c.txs.Keys + (if ins.CreateTransaction? then {ins.tx} else {})
    // `has_one = multisig` and `owner_set_seqno`
    ensures (ins.Approve? || ins.ExecuteTransaction?) && !Linked(c, ins.wallet, ins.tx) ==> r == Err(ConstraintViolated)
    // only `approve` indexes the flags
    ensures r == Err(Panic) ==> ins.Approve?
  {
    match ins
    case CreateMultisig(k, owners, threshold, nonce) =>
      if !Uninitialized(c, k) then Err(ConstraintViolated)
      else WithWallet(c, k, CreateWallet(owners, threshold, nonce))
    case CreateTransaction(k, t, proposer, programId, accounts, data) =>
      if k !in c.wallets || !Uninitialized(c, t) then Err(ConstraintViolated)
      else WithTx(c, t, ProposeTransaction(c.wallets[k], k, proposer, programId, accounts, data))
    case Approve(k, t, owner) =>
      if !Linked(c, k, t) then Err(ConstraintViolated)
      else if owner !in c.wallets[k].owners then Err(Program(InvalidOwner))
      // `signers[owner_index]` out of bounds: the handler panics
      else if |c.txs[t].signers| != |c.wallets[k].owners| then Err(Panic)
      else WithTx(c, t, ApproveTransaction(c.wallets[k], c.txs[t], owner))
    case SetOwners(k, owners) =>
      if k !in c.wallets then Err(ConstraintViolated)
      else WithWallet(c, k, Rules.SetOwners(c.wallets[k], owners))
    case ChangeThreshold(k, threshold) =>
      if k !in c.wallets then Err(ConstraintViolated)
      else WithWallet(c, k, Rules.ChangeThreshold(c.wallets[k], threshold))
    case SetOwnersAndChangeThreshold(k, owners, threshold) =>
      if k !in c.wallets then Err(ConstraintViolated)
      else WithWallet(c, k, Rules.SetOwnersAndChangeThreshold(c.wallets[k], owners, threshold))
    case SetData(k, text) =>
      if k !in c.wallets then Err(ConstraintViolated)
      else Ok(c.(wallets := c.wallets[k := c.wallets[k].(data := text)]))
    case ExecuteTransaction(k, t) =>
      if !Linked(c, k, t) then Err(ConstraintViolated)
      else WithTx(c, t, Rules.ExecuteTransaction(c.wallets[k], c.txs[t]))
  }

  /**
   * Changing the owner set retires every transaction proposed under the old
   * one: it can no longer be approved or executed.
   */
  lemma OwnerChangeRetiresTransactions(c: Chain, k: Pubkey, t: Pubkey, owners: seq<Pubkey>)
    requires Inv(c) && Linked(c, k, t)
    requires Step(c, SetOwners(k, owners)).Ok?
    ensures forall owner :: Step(Apply(c, SetOwners(k, owners)), Approve(k, t, owner)) == Err(ConstraintViolated)
    ensures Step(Apply(c, SetOwners(k, owners)), ExecuteTransaction(k, t)) == Err(ConstraintViolated)
  {
    var c' := Apply(c, SetOwners(k, owners));
    assert c'.wallets[k].ownerSetSeqno == c.wallets[k].ownerSetSeqno + 1;
    assert c'.txs[t] == c.txs[t];
    assert !Linked(c', k, t);
  }

  /** The accounts after an instruction: its writes if it succeeded, none if it failed. */
  function Apply(c: Chain, ins: Instr): Chain
  {
    match Step(c, ins)
    case Ok(c') => c'
    case Err(_) => c
  }

  /** The accounts after a sequence of instructions. */
  function Run(c: Chain, prog: seq<Instr>): Chain
    decreases |prog|
  {
    if prog == [] then c else Run(Apply(c, prog[0]), prog[1..])
  }

  /** A transaction is consistent with its wallet: never ahead of it, and parallel to its owners while current. */
  predicate Consistent(w: MultisigWallet, tx: Transaction)
  {
    && tx.ownerSetSeqno <= w.ownerSetSeqno
    && (tx.ownerSetSeqno == w.ownerSetSeqno ==> |tx.signers| == |w.owners|)
  }

  /** The ledger invariant. */
  predicate Inv(c: Chain)
  {
    && (forall k :: k in c.wallets ==> WalletValid(c.wallets[k]))
    && (forall t :: t in c.txs ==>
          c.txs[t].multisig in c.wallets && Consistent(c.wallets[c.txs[t].multisig], c.txs[t]))
  }

  /** Replacing a wallet keeps the invariant when the new one is valid and either keeps its owners or moves its seqno forward. */
  lemma WalletWritePreservesInv(c: Chain, k: Pubkey, w': MultisigWallet)
    requires Inv(c) && k in c.wallets && WalletValid(w')
    requires w'.ownerSetSeqno > c.wallets[k].ownerSetSeqno
          || (w'.ownerSetSeqno == c.wallets[k].ownerSetSeqno && w'.owners == c.wallets[k].owners)
    ensures Inv(c.(wallets := c.wallets[k := w']))
  {
  }

  /** Replacing a transaction keeps the invariant when its link, seqno and signer count stay. */
  lemma TxWritePreservesInv(c: Chain, t: Pubkey, tx': Transaction)
    requires Inv(c) && t in c.txs
    requires tx'.multisig == c.txs[t].multisig && tx'.ownerSetSeqno == c.txs[t].ownerSetSeqno
    requires |tx'.signers| == |c.txs[t].signers|
    ensures Inv(c.(txs := c.txs[t := tx']))
  {
  }

  /** Every instruction keeps the invariant. */
  lemma StepPreservesInv(c: Chain, ins: Instr)
    requires Inv(c)
    ensures Inv(Apply(c, ins))
  {
    match Step(c, ins)
    case Err(_) =>
    case Ok(c') =>
      match ins
      case CreateMultisig(k, owners, threshold, nonce) =>
        forall t | t in c'.txs ensures c'.txs[t].multisig != k {
          assert c'.txs[t] == c.txs[t];
        }
      case CreateTransaction(k, t, proposer, programId, accounts, data) =>
      case Approve(k, t, owner) =>
        TxWritePreservesInv(c, t, c'.txs[t]);
      case SetOwners(k, owners) =>
        WalletWritePreservesInv(c, k, c'.wallets[k]);
      case ChangeThreshold(k, threshold) =>
        WalletWritePreservesInv(c, k, c'.wallets[k]);
      case SetOwnersAndChangeThreshold(k, owners, threshold) =>
        WalletWritePreservesInv(c, k, c'.wallets[k]);
      case SetData(k, text) =>
        WalletWritePreservesInv(c, k, c'.wallets[k]);
      case ExecuteTransaction(k, t) =>
        TxWritePreservesInv(c, t, c'.txs[t]);
  }

  /** The invariant holds after any sequence of instructions. */
  lemma {:induction false} RunPreservesInv(c: Chain, prog: seq<Instr>)
    requires Inv(c)
    ensures Inv(Run(c, prog))
    decreases |prog|
  {
    if prog != [] {
      StepPreservesInv(c, prog[0]);
      RunPreservesInv(Apply(c, prog[0]), prog[1..]);
    }
  }

  /** No accounts: where every ledger starts. */
  function Genesis(): (c: Chain)
    ensures Inv(c)
  {
    Chain(map[], map[])
  }

  /**
   * In every reachable ledger, every wallet satisfies `1 <= threshold <= |owners|`
   * with distinct owners, and a transaction whose seqno matches its wallet's has
   * one flag per owner, so `signers[owner_index]` is in bounds.
   */
  lemma ReachableInvariant(prog: seq<Instr>)
    ensures var c := Run(Genesis(), prog);
      && (forall k :: k in c.wallets ==> WalletValid(c.wallets[k]))
      && (forall t :: t in c.txs ==> c.txs[t].multisig in c.wallets)
      && (forall t :: t in c.txs && c.txs[t].ownerSetSeqno == c.wallets[c.txs[t].multisig].ownerSetSeqno ==>
            |c.txs[t].signers| == |c.wallets[c.txs[t].multisig].owners|)
  {
    RunPreservesInv(Genesis(), prog);
  }

  /** Under the invariant, no instruction panics. */
  lemma NeverPanics(c: Chain, ins: Instr)
    requires Inv(c)
    ensures Step(c, ins) != Err(Panic)
  {
    if ins.Approve? && Linked(c, ins.wallet, ins.tx) {
      assert Consistent(c.wallets[ins.wallet], c.txs[ins.tx]);
    }
  }

  /** A successful execution was linked, unspent and had at least `threshold` flags set, and it spends the transaction. */
  lemma ExecuteGuard(c: Chain, k: Pubkey, t: Pubkey)
    requires Step(c, ExecuteTransaction(k, t)).Ok?
    ensures Linked(c, k, t)
    ensures !c.txs[t].didExecute
    ensures SignerCount(c.txs[t].signers) >= c.wallets[k].threshold
    ensures Step(c, ExecuteTransaction(k, t)).value.txs[t] == c.txs[t].(didExecute := true)
  {
  }

  /** How a transaction account may change: only flags turn on and only `didExecute` turns on. */
  predicate Evolves(tx: Transaction, tx': Transaction)
  {
    && tx'.multisig == tx.multisig && tx'.programId == tx.programId
    && tx'.accounts == tx.accounts && tx'.data == tx.data
    && tx'.ownerSetSeqno == tx.ownerSetSeqno
    && |tx'.signers| == |tx.signers|
    && (forall i :: 0 <= i < |tx.signers| && tx.signers[i] ==> tx'.signers[i])
    && (tx.didExecute ==> tx'.didExecute)
  }

  /** One instruction keeps every transaction and only lets it evolve. */
  lemma StepEvolves(c: Chain, ins: Instr)
    ensures forall t :: t in c.txs ==> t in Apply(c, ins).txs && Evolves(c.txs[t], Apply(c, ins).txs[t])
  {
    match Step(c, ins)
    case Err(_) =>
    case Ok(c') =>
      match ins
      case Approve(k, t, owner) =>
        ApproveMonotone(c.wallets[k], c.txs[t], owner);
      case _ =>
  }

  /** A sequence of instructions keeps every transaction and only lets it evolve. */
  lemma {:induction false} RunEvolves(c: Chain, prog: seq<Instr>)
    ensures forall t :: t in c.txs ==> t in Run(c, prog).txs && Evolves(c.txs[t], Run(c, prog).txs[t])
    decreases |prog|
  {
    if prog != [] {
      var c1 := Apply(c, prog[0]);
      StepEvolves(c, prog[0]);
      RunEvolves(c1, prog[1..]);
    }
  }

  /** Once executed, a transaction can never be executed again, whatever runs in between. */
  lemma ExecutedStaysSpent(c: Chain, prog: seq<Instr>, k: Pubkey, t: Pubkey)
    requires t in c.txs && c.txs[t].didExecute
    ensures t in Run(c, prog).txs && Run(c, prog).txs[t].didExecute
    ensures Step(Run(c, prog), ExecuteTransaction(k, t)).Err?
  {
    RunEvolves(c, prog);
  }
}
