/**
 * The program's rules as functions on account values: what each handler
 * computes from the accounts it is given. The imperative handlers and the
 * ledger model are proved against these.
 */
module Rules {
  import opened Wrappers
  import opened Utils
  import opened Entities

  /** The wallet invariant: distinct owners and `1 <= threshold <= |owners|`. */
  predicate WalletValid(w: MultisigWallet)
  {
    Distinct(w.owners) && 1 <= w.threshold <= |w.owners|
  }

  /** `owners.iter().position(|a| a == key)`: the first index holding `key`. */
  function OwnerIndex(owners: seq<Pubkey>, key: Pubkey): (r: Option<nat>)
    ensures r.None? <==> key !in owners
    ensures r.Some? ==> r.value < |owners| && owners[r.value] == key && key !in owners[..r.value]
  {
    if owners == [] then None
    else if owners[0] == key then Some(0)
    else match OwnerIndex(owners[1..], key)
      case None => None
      case Some(i) =>
        assert owners[..i + 1] == [owners[0]] + owners[1..][..i];
        Some(i + 1)
  }

  /** The first occurrence of a key is the only index that holds it with no earlier copy. */
  lemma FirstOccurrence(owners: seq<Pubkey>, key: Pubkey, k: nat)
    requires k < |owners| && owners[k] == key && key !in owners[..k]
    ensures forall j :: 0 <= j < |owners| ==> (owners[j] == key && key !in owners[..j] <==> j == k)
  {
    forall j | 0 <= j < |owners| && j != k && owners[j] == key
      ensures key in owners[..j]
    {
      if j > k {
        assert owners[..j][k] == key;
      }
    }
  }

  /** `signers.resize(n, false)`: `n` flags, none set. */
  function Unsigned(n: nat): (flags: seq<bool>)
    ensures |flags| == n
    ensures forall i :: 0 <= i < n ==> !flags[i]
  {
    seq(n, _ => false)
  }

  /** `signers.iter().filter(|&did_sign| *did_sign).count()`. */
  function SignerCount(signers: seq<bool>): (n: nat)
    ensures n <= |signers|
    ensures n == 0 <==> forall i :: 0 <= i < |signers| ==> !signers[i]
  {
    if signers == [] then 0
    else (if signers[0] then 1 else 0) + SignerCount(signers[1..])
  }

  /** Setting one flag adds one to the count, unless the flag was already set. */
  lemma {:induction false} SignerCountSet(signers: seq<bool>, i: nat)
    requires i < |signers|
    ensures SignerCount(signers[i := true]) == SignerCount(signers) + (if signers[i] then 0 else 1)
  {
    if i == 0 {
      assert signers[i := true][1..] == signers[1..];
    } else {
      SignerCountSet(signers[1..], i - 1);
      assert signers[i := true][1..] == signers[1..][i - 1 := true];
    }
  }

  /** Turning flags on never lowers the count. */
  lemma {:induction false} SignerCountMonotone(a: seq<bool>, b: seq<bool>)
    requires |a| == |b|
    requires forall i :: 0 <= i < |a| && a[i] ==> b[i]
    ensures SignerCount(a) <= SignerCount(b)
  {
    if a != [] {
      SignerCountMonotone(a[1..], b[1..]);
    }
  }

  /**
   * `create_multisig` / `create_multisig_wallet`: uniqueness is checked first,
   * then the threshold, then emptiness; the emptiness check can never fire.
   */
  function CreateWallet(owners: seq<Pubkey>, threshold: nat, nonce: byte): (r: Result<MultisigWallet, ErrorCode>)
    ensures r.Ok? <==> Distinct(owners) && 0 < threshold <= |owners|
    ensures r.Ok? ==> r.value == MultisigWallet(owners, threshold, nonce, 0, "") && WalletValid(r.value)
    ensures !Distinct(owners) ==> r == Err(UniqueOwners)
    ensures Distinct(owners) && !(0 < threshold <= |owners|) ==> r == Err(InvalidThreshold)
    ensures owners == [] ==> r == Err(InvalidThreshold)
    ensures r != Err(InvalidOwnersLen)
  {
    if AssertUniqueOwners(owners).Fail? then Err(AssertUniqueOwners(owners).error)
    else if !(threshold > 0 && threshold <= |owners|) then Err(InvalidThreshold)
    else if |owners| == 0 then Err(InvalidOwnersLen)
    else Ok(MultisigWallet(owners, threshold, nonce, 0, ""))
  }

  /**
   * `create_transaction` / `create_multisig_wallet_transaction`: only an owner
   * may propose, and the proposer's flag is the only one set.
   */
  function ProposeTransaction(
    w: MultisigWallet, walletKey: Pubkey, proposer: Pubkey,
    programId: Pubkey, accounts: seq<TransactionAccount>, data: seq<byte>): (r: Result<Transaction, ErrorCode>)
    ensures r.Err? <==> proposer !in w.owners
    ensures r.Err? ==> r.error == InvalidOwner
    ensures r.Ok? ==>
      && |r.value.signers| == |w.owners|
      && (forall i :: 0 <= i < |w.owners| ==>
            (r.value.signers[i] <==> w.owners[i] == proposer && proposer !in w.owners[..i]))
      && SignerCount(r.value.signers) == 1
      && !r.value.didExecute
      && r.value.ownerSetSeqno == w.ownerSetSeqno
      && r.value.multisig == walletKey
      && r.value.programId == programId && r.value.accounts == accounts && r.value.data == data
  {
    match OwnerIndex(w.owners, proposer)
    case None => Err(InvalidOwner)
    case Some(i) =>
      FirstOccurrence(w.owners, proposer, i);
      SignerCountSet(Unsigned(|w.owners|), i);
      Ok(Transaction(walletKey, programId, accounts, data,
                     Unsigned(|w.owners|)[i := true], false, w.ownerSetSeqno))
  }

  /**
   * `approve`: sets the flag at the owner's first index and nothing else. It
   * does not look at `didExecute`. The length requirement is what the
   * seqno constraint guarantees (see `Ledger.NeverPanics`).
   */
  function ApproveTransaction(w: MultisigWallet, tx: Transaction, owner: Pubkey): (r: Result<Transaction, ErrorCode>)
    requires |tx.signers| == |w.owners|
    ensures r.Err? <==> owner !in w.owners
    ensures r.Err? ==> r.error == InvalidOwner
    ensures r.Ok? ==> r.value == tx.(signers := r.value.signers)
    ensures r.Ok? ==>
      && |r.value.signers| == |tx.signers|
      && forall i :: 0 <= i < |tx.signers| ==>
           (r.value.signers[i] <==> tx.signers[i] || (w.owners[i] == owner && owner !in w.owners[..i]))
  {
    match OwnerIndex(w.owners, owner)
    case None => Err(InvalidOwner)
    case Some(i) =>
      FirstOccurrence(w.owners, owner, i);
      Ok(tx.(signers := tx.signers[i := true]))
  }

  /** Approving twice is the same as approving once. */
  lemma ApproveIdempotent(w: MultisigWallet, tx: Transaction, owner: Pubkey)
    requires |tx.signers| == |w.owners|
    ensures ApproveTransaction(w, tx, owner).Ok? ==>
      ApproveTransaction(w, ApproveTransaction(w, tx, owner).value, owner) == ApproveTransaction(w, tx, owner)
  {
    if owner in w.owners {
      var i := OwnerIndex(w.owners, owner).value;
      assert tx.signers[i := true][i := true] == tx.signers[i := true];
    }
  }

  /** An approval keeps every set flag and raises the count by at most one. */
  lemma ApproveMonotone(w: MultisigWallet, tx: Transaction, owner: Pubkey)
    requires |tx.signers| == |w.owners|
    requires ApproveTransaction(w, tx, owner).Ok?
    ensures var after := ApproveTransaction(w, tx, owner).value.signers;
      && (forall i :: 0 <= i < |tx.signers| && tx.signers[i] ==> after[i])
      && SignerCount(tx.signers) <= SignerCount(after) <= SignerCount(tx.signers) + 1
  {
    var i := OwnerIndex(w.owners, owner).value;
    SignerCountSet(tx.signers, i);
  }

  /**
   * `set_owners` / `set_multisig_wallet_owners`: replaces the owners, lowers
   * the threshold to the new owner count when it would exceed it, and bumps
   * the owner-set sequence number.
   */
  function SetOwners(w: MultisigWallet, owners: seq<Pubkey>): (r: Result<MultisigWallet, ErrorCode>)
    ensures r.Ok? <==> Distinct(owners) && owners != []
    ensures !Distinct(owners) ==> r == Err(UniqueOwners)
    ensures Distinct(owners) && owners == [] ==> r == Err(InvalidOwnersLen)
    ensures r.Ok? ==>
      && r.value.owners == owners
      && r.value.ownerSetSeqno == w.ownerSetSeqno + 1
      && r.value.threshold == (if |owners| < w.threshold then |owners| else w.threshold)
      && r.value.nonce == w.nonce && r.value.data == w.data
    ensures r.Ok? ==> r.value.threshold <= w.threshold && r.value.threshold <= |owners|
    ensures r.Ok? && WalletValid(w) ==> WalletValid(r.value)
  {
    if AssertUniqueOwners(owners).Fail? then Err(AssertUniqueOwners(owners).error)
    else if owners == [] then Err(InvalidOwnersLen)
    else
      var threshold := if |owners| < w.threshold then |owners| else w.threshold;
      Ok(w.(owners := owners, threshold := threshold, ownerSetSeqno := w.ownerSetSeqno + 1))
  }

  /** `change_threshold`: accepts exactly `1 <= threshold <= |owners|` and changes nothing else. */
  function ChangeThreshold(w: MultisigWallet, threshold: nat): (r: Result<MultisigWallet, ErrorCode>)
    ensures r.Ok? <==> 1 <= threshold <= |w.owners|
    ensures r.Err? ==> r.error == InvalidThreshold
    ensures r.Ok? ==> r.value == w.(threshold := threshold)
    ensures r.Ok? && Distinct(w.owners) ==> WalletValid(r.value)
  {
    if !(threshold > 0) then Err(InvalidThreshold)
    else if threshold > |w.owners| then Err(InvalidThreshold)
    else Ok(w.(threshold := threshold))
  }

  /**
   * `set_owners_and_change_threshold`: `set_owners` followed by
   * `change_threshold` on its result; either failure fails the whole.
   */
  function SetOwnersAndChangeThreshold(w: MultisigWallet, owners: seq<Pubkey>, threshold: nat): (r: Result<MultisigWallet, ErrorCode>)
    ensures r.Ok? <==> Distinct(owners) && owners != [] && 1 <= threshold <= |owners|
    ensures r.Ok? ==>
      && r.value == w.(owners := owners, threshold := threshold, ownerSetSeqno := w.ownerSetSeqno + 1)
      && WalletValid(r.value)
    ensures !Distinct(owners) ==> r == Err(UniqueOwners)
    ensures Distinct(owners) && owners == [] ==> r == Err(InvalidOwnersLen)
    ensures Distinct(owners) && owners != [] && !(1 <= threshold <= |owners|) ==> r == Err(InvalidThreshold)
  {
    match SetOwners(w, owners)
    case Err(e) => Err(e)
    case Ok(w1) => ChangeThreshold(w1, threshold)
  }

  /**
   * `execute_transaction` / `execute_multisig_wallet_transaction`, up to the
   * invocation: refuses a spent transaction, then one with fewer than
   * `threshold` flags set, and otherwise marks it executed.
   */
  function ExecuteTransaction(w: MultisigWallet, tx: Transaction): (r: Result<Transaction, ErrorCode>)
    ensures tx.didExecute ==> r == Err(AlreadyExecuted)
    ensures !tx.didExecute && SignerCount(tx.signers) < w.threshold ==> r == Err(NotEnoughSigners)
    ensures r.Ok? <==> !tx.didExecute && SignerCount(tx.signers) >= w.threshold
    ensures r.Ok? ==> r.value == tx.(didExecute := true)
  {
    if tx.didExecute then Err(AlreadyExecuted)
    else if SignerCount(tx.signers) < w.threshold then Err(NotEnoughSigners)
    else Ok(tx.(didExecute := true))
  }

  /** A transaction executes at most once, whatever wallet it is later presented with. */
  lemma ExecuteAtMostOnce(w: MultisigWallet, tx: Transaction, w': MultisigWallet)
    requires ExecuteTransaction(w, tx).Ok?
    ensures ExecuteTransaction(w', ExecuteTransaction(w, tx).value) == Err(AlreadyExecuted)
  {
  }

  /**
   * The account rewrite before the invocation: every account whose key is the
   * multisig's signer becomes a signer; nothing else changes.
   */
  function PromoteSigner(metas: seq<AccountMeta>, signer: Pubkey): (r: seq<AccountMeta>)
    ensures |r| == |metas|
    ensures forall i :: 0 <= i < |metas| ==>
      && r[i].pubkey == metas[i].pubkey
      && r[i].isWritable == metas[i].isWritable
      && r[i].isSigner == (metas[i].isSigner || metas[i].pubkey == signer)
  {
    if metas == [] then []
    else
      var m := metas[0];
      [if m.pubkey == signer then m.(isSigner := true) else m] + PromoteSigner(metas[1..], signer)
  }

  /** The instruction `execute_transaction` invokes for `tx`, signed by the multisig's signer key. */
  function SignedInstruction(tx: Transaction, signer: Pubkey): (ix: Instruction)
    ensures ix.programId == tx.programId && ix.data == tx.data
    ensures |ix.accounts| == |tx.accounts|
    ensures forall i :: 0 <= i < |tx.accounts| ==>
      && ix.accounts[i].pubkey == tx.accounts[i].pubkey
      && ix.accounts[i].isWritable == tx.accounts[i].isWritable
      && ix.accounts[i].isSigner == (tx.accounts[i].isSigner || tx.accounts[i].pubkey == signer)
  {
    var ix := ToInstruction(tx);
    ix.(accounts := PromoteSigner(ix.accounts, signer))
  }

  /** Approvals by each of `approvers` in turn; the first failure stops the sequence. */
  function ApproveAll(w: MultisigWallet, tx: Transaction, approvers: seq<Pubkey>): (r: Result<Transaction, ErrorCode>)
    requires |tx.signers| == |w.owners|
    ensures r.Ok? ==> |r.value.signers| == |w.owners|
    decreases |approvers|
  {
    if approvers == [] then Ok(tx)
    else match ApproveTransaction(w, tx, approvers[0])
      case Err(e) => Err(e)
      case Ok(tx1) => ApproveAll(w, tx1, approvers[1..])
  }

  /**
   * With distinct owners, a run of approvals succeeds exactly when every
   * approver is an owner, and afterwards `signers[i]` is set exactly when it
   * was set before or `owners[i]` approved.
   */
  lemma {:induction false} ApproveAllSigners(w: MultisigWallet, tx: Transaction, approvers: seq<Pubkey>)
    requires Distinct(w.owners) && |tx.signers| == |w.owners|
    ensures ApproveAll(w, tx, approvers).Ok? <==> forall a :: a in approvers ==> a in w.owners
    ensures ApproveAll(w, tx, approvers).Ok? ==>
      forall i :: 0 <= i < |w.owners| ==>
        (ApproveAll(w, tx, approvers).value.signers[i] <==> tx.signers[i] || w.owners[i] in approvers)
    decreases |approvers|
  {
    if approvers != [] {
      var a := approvers[0];
      assert approvers == [a] + approvers[1..];
      if a in w.owners {
        var tx1 := ApproveTransaction(w, tx, a).value;
        ApproveAllSigners(w, tx1, approvers[1..]);
      }
    }
  }

  /** The owners whose flag is set. */
  function SignedOwners(owners: seq<Pubkey>, signers: seq<bool>): set<Pubkey>
    requires |signers| == |owners|
  {
    set i | 0 <= i < |owners| && signers[i] :: owners[i]
  }

  /** With distinct owners the signer count is the number of distinct owners who signed. */
  lemma {:induction false} SignerCountCountsOwners(owners: seq<Pubkey>, signers: seq<bool>)
    requires Distinct(owners) && |signers| == |owners|
    ensures SignerCount(signers) == |SignedOwners(owners, signers)|
  {
    if owners != [] {
      var o, s := owners[1..], signers[1..];
      DistinctCons(owners);
      SignerCountCountsOwners(o, s);
      var rest := SignedOwners(o, s);
      assert owners[0] !in rest;
      if signers[0] {
        assert SignedOwners(owners, signers) == {owners[0]} + rest;
      } else {
        assert SignedOwners(owners, signers) == rest;
      }
    }
  }

  /**
   * The documented meaning of `signers`: after a proposal and a run of
   * approvals, the owners marked as signed are exactly the proposer and the
   * approvers, and execution succeeds only if there are at least `threshold`
   * of them.
   */
  lemma ProposeApproveExecute(
    w: MultisigWallet, walletKey: Pubkey, proposer: Pubkey,
    programId: Pubkey, accounts: seq<TransactionAccount>, data: seq<byte>, approvers: seq<Pubkey>)
    requires WalletValid(w) && proposer in w.owners
    requires forall a :: a in approvers ==> a in w.owners
    ensures var tx := ProposeTransaction(w, walletKey, proposer, programId, accounts, data).value;
      && ApproveAll(w, tx, approvers).Ok?
      && SignedOwners(w.owners, ApproveAll(w, tx, approvers).value.signers) == {proposer} + ToSet(approvers)
      && (ExecuteTransaction(w, ApproveAll(w, tx, approvers).value).Ok? ==>
            |{proposer} + ToSet(approvers)| >= w.threshold)
  {
    var tx := ProposeTransaction(w, walletKey, proposer, programId, accounts, data).value;
    ApproveAllSigners(w, tx, approvers);
    var done := ApproveAll(w, tx, approvers).value;
    var signed := SignedOwners(w.owners, done.signers);
    forall x | x in {proposer} + ToSet(approvers) ensures x in signed {
      var i :| 0 <= i < |w.owners| && w.owners[i] == x;
      assert done.signers[i];
    }
    SignerCountCountsOwners(w.owners, done.signers);
  }
}
