/**
 * The client's local copy of wallets and transactions, and the updates it
 * applies after each remote call. Remote calls are not modelled: each is a
 * `Reply` parameter saying whether the call was confirmed or rejected.
 */
module App {
  import opened Wrappers
  import opened Utils

  /** A generated keypair: its public key and an opaque secret. */
  datatype Keypair = Keypair(publicKey: Pubkey, secret: nat)

  /** A transaction as the client keeps it. */
  datatype LocalTransaction = LocalTransaction(
    keypair: Keypair,
    proposer: Keypair,
    signers: seq<Keypair>,
    data: string,
    executed: bool)

  /** A wallet as the client keeps it, with the keypairs of its owners. */
  datatype LocalWallet = LocalWallet(
    keypair: Keypair,
    ownerKeypairs: seq<Keypair>,
    threshold: nat,
    owners: seq<Pubkey>,
    transactions: seq<LocalTransaction>)

  /** How a remote call resolved. */
  datatype Reply<T> = Confirmed(value: T) | Rejected(cause: string)

  /** The owners and threshold read back from a newly created wallet account. */
  datatype FetchedWallet = FetchedWallet(owners: seq<Pubkey>, threshold: nat)

  /** What a client operation throws. */
  datatype AppError =
    | InvalidTransactionProposer   // "Invalid transaction proposer." (thrown for approvers too)
    | RemoteRejected(cause: string)

  function TxKey(t: LocalTransaction): Pubkey { t.keypair.publicKey }

  function WalletKey(w: LocalWallet): Pubkey { w.keypair.publicKey }

  /** `keypairs.find(k => k.publicKey == key)`: the first keypair with that public key. */
  function FindKeypair(keypairs: seq<Keypair>, key: Pubkey): (r: Option<Keypair>)
    ensures r.None? <==> forall i :: 0 <= i < |keypairs| ==> keypairs[i].publicKey != key
    ensures r.Some? ==> exists i :: 0 <= i < |keypairs| && keypairs[i] == r.value
                          && r.value.publicKey == key
                          && forall j :: 0 <= j < i ==> keypairs[j].publicKey != key
  {
    if keypairs == [] then None
    else if keypairs[0].publicKey == key then Some(keypairs[0])
    else
      var r := FindKeypair(keypairs[1..], key);
      if r.Some? then
        var i :| 0 <= i < |keypairs[1..]| && keypairs[1..][i] == r.value && r.value.publicKey == key
                 && forall j :: 0 <= j < i ==> keypairs[1..][j].publicKey != key;
        assert keypairs[i + 1] == r.value;
        r
      else r
  }

  /** `transactions.map(t => key(t) == key(tx) ? tx : t)`. */
  function ReplaceTransaction(ts: seq<LocalTransaction>, tx: LocalTransaction): (r: seq<LocalTransaction>)
    ensures |r| == |ts|
    ensures forall i :: 0 <= i < |ts| ==> TxKey(r[i]) == TxKey(ts[i])
    ensures forall i :: 0 <= i < |ts| ==> r[i] == (if TxKey(ts[i]) == TxKey(tx) then tx else ts[i])
  {
    if ts == [] then []
    else [if TxKey(ts[0]) == TxKey(tx) then tx else ts[0]] + ReplaceTransaction(ts[1..], tx)
  }

  /** `multisigWallets.map(mw => key(mw) == key(w) ? w : mw)`. */
  function ReplaceWallet(ws: seq<LocalWallet>, w: LocalWallet): (r: seq<LocalWallet>)
    ensures |r| == |ws|
    ensures forall i :: 0 <= i < |ws| ==> WalletKey(r[i]) == WalletKey(ws[i])
    ensures forall i :: 0 <= i < |ws| ==> r[i] == (if WalletKey(ws[i]) == WalletKey(w) then w else ws[i])
  {
    if ws == [] then []
    else [if WalletKey(ws[0]) == WalletKey(w) then w else ws[0]] + ReplaceWallet(ws[1..], w)
  }

  /** No two wallets share a key, and within each wallet no two transactions do. */
  predicate KeysDistinct(ws: seq<LocalWallet>)
  {
    && (forall i, j :: 0 <= i < j < |ws| ==> WalletKey(ws[i]) != WalletKey(ws[j]))
    && (forall i :: 0 <= i < |ws| ==> TxKeysDistinct(ws[i].transactions))
  }

  predicate TxKeysDistinct(ts: seq<LocalTransaction>)
  {
    forall i, j :: 0 <= i < j < |ts| ==> TxKey(ts[i]) != TxKey(ts[j])
  }

  /** With distinct keys, replacing by key is the update of the one position that holds the key. */
  lemma {:induction false} ReplaceWalletAt(ws: seq<LocalWallet>, w: LocalWallet, k: nat)
    requires forall i, j :: 0 <= i < j < |ws| ==> WalletKey(ws[i]) != WalletKey(ws[j])
    requires k < |ws| && WalletKey(ws[k]) == WalletKey(w)
    ensures ReplaceWallet(ws, w) == ws[k := w]
  {
    if k > 0 {
      ReplaceWalletAt(ws[1..], w, k - 1);
      assert ws[1..][k - 1 := w] == ws[k := w][1..];
    } else {
      assert ReplaceWallet(ws[1..], w) == ws[1..];
    }
  }

  /** A wallet whose key is not present is not added: replacing changes nothing. */
  lemma ReplaceWalletAbsent(ws: seq<LocalWallet>, w: LocalWallet)
    requires forall i :: 0 <= i < |ws| ==> WalletKey(ws[i]) != WalletKey(w)
    ensures ReplaceWallet(ws, w) == ws
  {
  }

  /** `_refreshMultisigWalletTransaction`'s new wallet list. */
  function Refreshed(ws: seq<LocalWallet>, w: LocalWallet, tx: LocalTransaction): seq<LocalWallet>
  {
    ReplaceWallet(ws, w.(transactions := ReplaceTransaction(w.transactions, tx)))
  }

  /**
   * A refresh keeps both lists' lengths and every key, replaces only the
   * transaction with `tx`'s key inside only the wallet with `w`'s key, and
   * keeps keys distinct.
   */
  lemma RefreshFrame(ws: seq<LocalWallet>, w: LocalWallet, tx: LocalTransaction)
    requires KeysDistinct(ws) && TxKeysDistinct(w.transactions)
    ensures var r := Refreshed(ws, w, tx);
      && |r| == |ws|
      && KeysDistinct(r)
      && (forall i :: 0 <= i < |ws| && WalletKey(ws[i]) != WalletKey(w) ==> r[i] == ws[i])
      && (forall i :: 0 <= i < |ws| && WalletKey(ws[i]) == WalletKey(w) ==>
            && r[i].transactions == ReplaceTransaction(w.transactions, tx)
            && |r[i].transactions| == |w.transactions|
            && forall j :: 0 <= j < |w.transactions| && TxKey(w.transactions[j]) != TxKey(tx) ==>
                 r[i].transactions[j] == w.transactions[j])
  {
    var r := Refreshed(ws, w, tx);
    var ts := ReplaceTransaction(w.transactions, tx);
    forall i | 0 <= i < |r| ensures TxKeysDistinct(r[i].transactions) {
      if WalletKey(ws[i]) == WalletKey(w) {
        assert r[i].transactions == ts;
        forall a, b | 0 <= a < b < |ts| ensures TxKey(ts[a]) != TxKey(ts[b]) {
          assert TxKey(ts[a]) == TxKey(w.transactions[a]);
        }
      }
    }
  }

  /** The client's state: the staging list of owner keypairs and the known wallets. */
  class AppState {
    var owners: seq<Keypair>
    var multisigWallets: seq<LocalWallet>

    ghost predicate Valid()
      reads this
    {
      KeysDistinct(multisigWallets)
    }

    constructor ()
      ensures Valid() && owners == [] && multisigWallets == []
    {
      owners, multisigWallets := [], [];
    }

    /** `addMultisigWalletOwner`: stages one freshly generated keypair and returns its public key. */
    method AddMultisigWalletOwner(newOwner: Keypair) returns (key: Pubkey)
      requires Valid()
      modifies this
      ensures Valid()
      ensures owners == old(owners) + [newOwner]
      ensures multisigWallets == old(multisigWallets)
      ensures key == newOwner.publicKey
    {
      owners := owners + [newOwner];
      key := newOwner.publicKey;
    }

    /**
     * `createMultisigWallet`. `threshold` goes to the ledger; `reply` is what
     * the creation and the read-back produced. On success the staging list
     * is consumed; a failure is caught and changes nothing.
     */
    method CreateMultisigWallet(threshold: nat, multisig: Keypair, reply: Reply<FetchedWallet>)
      requires Valid()
      requires forall i :: 0 <= i < |multisigWallets| ==> WalletKey(multisigWallets[i]) != multisig.publicKey
      modifies this
      ensures Valid()
      ensures reply.Confirmed? ==>
        && owners == []
        && multisigWallets == old(multisigWallets) +
             [LocalWallet(multisig, old(owners), reply.value.threshold, reply.value.owners, [])]
      ensures reply.Rejected? ==> owners == old(owners) && multisigWallets == old(multisigWallets)
    {
      if reply.Confirmed? {
        var staged := owners;
        owners := [];
        multisigWallets := multisigWallets +
          [LocalWallet(multisig, staged, reply.value.threshold, reply.value.owners, [])];
      }
    }

    /**
     * `createMultisigWalletTransaction`: the proposer must be one of the
     * wallet's owner keypairs; on confirmation the new transaction, signed by
     * the proposer, is appended to the wallet, which replaces its namesake.
     */
    method CreateMultisigWalletTransaction(
      wallet: LocalWallet, proposer: Pubkey, data: string, transaction: Keypair, reply: Reply<()>)
      returns (r: Outcome<AppError>)
      requires Valid() && TxKeysDistinct(wallet.transactions)
      requires forall i :: 0 <= i < |wallet.transactions| ==> TxKey(wallet.transactions[i]) != transaction.publicKey
      modifies this
      ensures Valid()
      ensures owners == old(owners)
      ensures FindKeypair(wallet.ownerKeypairs, proposer).None? ==>
        r == Fail(InvalidTransactionProposer) && multisigWallets == old(multisigWallets)
      ensures FindKeypair(wallet.ownerKeypairs, proposer).Some? && reply.Rejected? ==>
        r == Fail(RemoteRejected(reply.cause)) && multisigWallets == old(multisigWallets)
      ensures FindKeypair(wallet.ownerKeypairs, proposer).Some? && reply.Confirmed? ==>
        var kp := FindKeypair(wallet.ownerKeypairs, proposer).value;
        && r == Pass
        && multisigWallets == ReplaceWallet(old(multisigWallets),
             wallet.(transactions := wallet.transactions + [LocalTransaction(transaction, kp, [kp], data, false)]))
    {
      var proposerKeypair := FindKeypair(wallet.ownerKeypairs, proposer);
      if proposerKeypair.None? {
        return Fail(InvalidTransactionProposer);
      }
      if reply.Rejected? {
        return Fail(RemoteRejected(reply.cause));
      }
      var kp := proposerKeypair.value;
      var updated := wallet.(transactions := wallet.transactions + [LocalTransaction(transaction, kp, [kp], data, false)]);
      multisigWallets := ReplaceWallet(multisigWallets, updated);
      r := Pass;
    }

    /** `_refreshMultisigWalletTransaction`: writes `transaction` back through `wallet`. */
    method RefreshMultisigWalletTransaction(wallet: LocalWallet, transaction: LocalTransaction)
      requires Valid() && TxKeysDistinct(wallet.transactions)
      modifies this
      ensures Valid()
      ensures owners == old(owners)
      ensures multisigWallets == Refreshed(old(multisigWallets), wallet, transaction)
    {
      RefreshFrame(multisigWallets, wallet, transaction);
      multisigWallets := ReplaceWallet(multisigWallets,
        wallet.(transactions := ReplaceTransaction(wallet.transactions, transaction)));
    }

    /**
     * `approveMultisigWalletTransaction`: the approver must be one of the
     * wallet's owner keypairs; on confirmation it is appended to the
     * transaction's signers, even when already there.
     */
    method ApproveMultisigWalletTransaction(
      wallet: LocalWallet, transaction: LocalTransaction, approver: Pubkey, reply: Reply<()>)
      returns (r: Outcome<AppError>)
      requires Valid() && TxKeysDistinct(wallet.transactions)
      modifies this
      ensures Valid()
      ensures owners == old(owners)
      ensures FindKeypair(wallet.ownerKeypairs, approver).None? ==>
        r == Fail(InvalidTransactionProposer) && multisigWallets == old(multisigWallets)
      ensures FindKeypair(wallet.ownerKeypairs, approver).Some? && reply.Rejected? ==>
        r == Fail(RemoteRejected(reply.cause)) && multisigWallets == old(multisigWallets)
      ensures FindKeypair(wallet.ownerKeypairs, approver).Some? && reply.Confirmed? ==>
        var kp := FindKeypair(wallet.ownerKeypairs, approver).value;
        && r == Pass
        && multisigWallets == Refreshed(old(multisigWallets), wallet,
             transaction.(signers := transaction.signers + [kp]))
        // a repeat approver lengthens `signers` without adding a key to it
        && (kp in transaction.signers ==>
              ToKeySet(transaction.signers + [kp]) == ToKeySet(transaction.signers))
    {
      var approverKeypair := FindKeypair(wallet.ownerKeypairs, approver);
      if approverKeypair.None? {
        return Fail(InvalidTransactionProposer);
      }
      if reply.Rejected? {
        return Fail(RemoteRejected(reply.cause));
      }
      if approverKeypair.value in transaction.signers {
        RepeatApprovalLengthens(transaction, approverKeypair.value);
      }
      var approved := transaction.(signers := transaction.signers + [approverKeypair.value]);
      RefreshMultisigWalletTransaction(wallet, approved);
      r := Pass;
    }

    /** `executeMultisigWalletTransaction`: on confirmation the transaction is marked executed. */
    method ExecuteMultisigWalletTransaction(wallet: LocalWallet, transaction: LocalTransaction, reply: Reply<()>)
      returns (r: Outcome<AppError>)
      requires Valid() && TxKeysDistinct(wallet.transactions)
      modifies this
      ensures Valid()
      ensures owners == old(owners)
      ensures reply.Rejected? ==> r == Fail(RemoteRejected(reply.cause)) && multisigWallets == old(multisigWallets)
      ensures reply.Confirmed? ==>
        r == Pass && multisigWallets == Refreshed(old(multisigWallets), wallet, transaction.(executed := true))
    {
      if reply.Rejected? {
        return Fail(RemoteRejected(reply.cause));
      }
      RefreshMultisigWalletTransaction(wallet, transaction.(executed := true));
      r := Pass;
    }
  }

  /**
   * The local signer list is not deduplicated: a repeated approval by the
   * same keypair lengthens it, while the on-chain flags do not change
   * (`Rules.ApproveIdempotent`).
   */
  lemma RepeatApprovalLengthens(t: LocalTransaction, kp: Keypair)
    requires kp in t.signers
    ensures var t' := t.(signers := t.signers + [kp]);
      |t'.signers| == |t.signers| + 1 && ToKeySet(t'.signers) == ToKeySet(t.signers)
  {
    var s := t.signers + [kp];
    var k :| 0 <= k < |t.signers| && t.signers[k] == kp;
    forall x | x in ToKeySet(s) ensures x in ToKeySet(t.signers) {
      var i :| 0 <= i < |s| && s[i].publicKey == x;
      if i == |t.signers| {
        assert t.signers[k].publicKey == x;
      } else {
        assert t.signers[i].publicKey == x;
      }
    }
    forall x | x in ToKeySet(t.signers) ensures x in ToKeySet(s) {
      var i :| 0 <= i < |t.signers| && t.signers[i].publicKey == x;
      assert s[i].publicKey == x;
    }
  }

  function ToKeySet(kps: seq<Keypair>): set<Pubkey>
  {
    set i | 0 <= i < |kps| :: kps[i].publicKey
  }
}
