# Solana multisig wallet — Dafny model

This project models the core of a Solana multisig wallet program and of its
web client.

A **wallet** account holds a list of owner keys, an approval `threshold`, a
`nonce` for its derived signer key, free-form `data`, and an
`owner_set_seqno` that counts owner-set changes. A **transaction** account
holds the instruction to run (target program, accounts, data), one
`signers` flag per owner of its wallet, a `did_execute` flag, and the wallet
seqno it was proposed under. The handlers of the program are:

- `create_multisig`;
- `create_transaction`, where only an owner may propose and the proposer's flag is set;
- `approve`;
- `set_owners`, `change_threshold`, `set_owners_and_change_threshold` and `set_data`, which the wallet can only reach through its own executed transactions;
- `execute_transaction`, which runs a transaction once and only when at least `threshold` flags are set.

The client keeps a local list of wallets and transactions and a staging list
of owner keypairs. It updates them after each confirmed remote call.

Modules, one per file:

- `Wrappers` (wrappers.dfy): `Option`, `Result`, `Outcome`.
- `Utils` (utils.dfy): keys, the `ErrorCode` enum, and the owner-uniqueness check with its properties.
- `Entities` (entities.dfy): the account records and the `From` conversions between transaction accounts, account metas and instructions.
- `Rules` (rules.dfy): each handler as a function on record values. It is the specification the handlers below are proved against, and it holds the lemmas about single operations.
- `Ledger` (ledger.dfy): all accounts as two maps, changed one instruction at a time. Each instruction goes through Anchor's account checks and then its handler, and a failed instruction changes nothing. The invariants across instructions are proved here.
- `Accounts` (accounts.dfy): the deserialised accounts as classes whose fields handlers write in place.
- `MultisigProgram` (program.dfy): the handlers of `programs/multisig/src/lib.rs` as methods on those accounts.
- `UseCases` (use_cases.dfy): the helpers of `programs/multisig/src/use_cases.rs`. They include that file's own copy of the uniqueness loop.
- `App` (app.dfy): the client's local state (`app/src/App.tsx`). It is a class with the staging list and the wallet list, plus pure replace-by-key functions.

Behaviours of the source worth noting:

- The proposer is signed automatically: its flag is set at creation, and the client starts `signers` as `[proposer]`.
- The threshold can change after creation, through `set_owners` and `change_threshold`.
- An empty owner list makes `create_multisig` fail with `InvalidThreshold`, not with an empty-owners error. The threshold check comes first, so `InvalidOwnersLen` can never be raised there.
- The client appends an approver to `signers` without removing duplicates.
- The client does not check `executed` before it executes; only the program does.

## Model

| member | source | states |
|---|---|---|
| `Utils.AssertUniqueOwners` | programs/multisig/src/utils.rs:3-11 | `Pass` exactly when the owners are pairwise distinct; the only failure is `UniqueOwners`; lists of length 0 or 1 always pass |
| `Utils.UniqueFrom` | programs/multisig/src/utils.rs:4-9 | the loop from position `i` passes exactly when no two positions at or after `i` hold the same key, and otherwise fails with `UniqueOwners` |
| `Utils.DistinctIffMultiplicity` | programs/multisig/src/utils.rs:3-11 | owners pass the uniqueness check exactly when their multiset holds every key at most once |
| `Utils.UniqueOwnersPermutation` | programs/multisig/src/utils.rs:3-11 | reordering the owners never changes the outcome of the uniqueness check |
| `Utils.DistinctCardinality` | programs/multisig/src/utils.rs:3-11 | owners are distinct exactly when the list is as long as its set of keys |
| `Utils.ThresholdWithinDistinctOwners` | programs/multisig/src/lib.rs:55-59 | once uniqueness holds, `threshold <= owners.len()` means `threshold` is at most the number of distinct owners |
| `Entities.ToAccountMeta` | programs/multisig/src/entities.rs:59-66 | the writable flag picks the writable or read-only constructor; the meta carries the key, the signer flag and the writable flag unchanged |
| `Entities.AccountRoundTrip` | programs/multisig/src/entities.rs:59-76 | account → meta → account gives back the same key, signer flag and writable flag |
| `Entities.MetaRoundTrip` | programs/multisig/src/entities.rs:59-76 | meta → account → meta gives back the same meta |
| `Entities.ToAccountMetas` | programs/multisig/src/entities.rs:46 | the account list converts element by element: same length, same order, the i-th meta from the i-th account |
| `Entities.FromAccountMeta` | programs/multisig/src/entities.rs:68-76 | the transaction account carries the meta's key, signer flag and writable flag unchanged |
| `Entities.FromAccountMetas` | programs/multisig/src/entities.rs:68-76 | the reverse conversion, element by element, keeping length and order |
| `Entities.ToInstruction` | programs/multisig/src/entities.rs:42-50 | program id and data are copied exactly; the accounts keep length and order, and each meta has the key and flags of its account |
| `Entities.InstructionAccountsRoundTrip` | programs/multisig/src/entities.rs:42-76 | converting a transaction's account list to metas and back returns the original list |
| `Rules.OwnerIndex` | programs/multisig/src/lib.rs:78-84 | `position` is absent exactly for a non-owner; otherwise it is the first index that holds the key |
| `Rules.Unsigned` | programs/multisig/src/lib.rs:86-87 | the fresh flag vector has one flag per owner, and none of them is set |
| `Rules.SignerCount` | programs/multisig/src/lib.rs:180-186 | the count of set flags is at most the number of flags, and it is zero exactly when no flag is set |
| `Rules.SignerCountSet` | programs/multisig/src/lib.rs:112 | setting one flag adds one to the count unless that flag was already set |
| `Rules.SignerCountMonotone` | programs/multisig/src/lib.rs:180-187 | turning flags on never lowers the signer count |
| `Rules.CreateWallet` | programs/multisig/src/lib.rs:49-68 | succeeds exactly when the owners are distinct and `0 < threshold <= |owners|`. It stores owners, threshold and nonce with seqno 0. Duplicates fail with `UniqueOwners`, a bad threshold with `InvalidThreshold`, an empty list always with `InvalidThreshold`; `InvalidOwnersLen` never occurs |
| `Rules.ProposeTransaction` | programs/multisig/src/lib.rs:72-100 | a non-owner gets `InvalidOwner`. Otherwise there is one flag per owner, and only the proposer's first position is set, so the count is 1. Not executed, the wallet's seqno and key are copied, and program, accounts and data are stored as given |
| `Rules.ApproveTransaction` | programs/multisig/src/lib.rs:103-115 | a non-owner gets `InvalidOwner`. Otherwise only the flag at the owner's first index is turned on; every other flag, `did_execute` and every other field stay as they were. `did_execute` is not consulted |
| `Rules.ApproveIdempotent` | programs/multisig/src/lib.rs:103-115 | a second approval by the same owner changes nothing |
| `Rules.ApproveMonotone` | programs/multisig/src/lib.rs:112 | an approval keeps every set flag and raises the signer count by at most one |
| `Rules.SetOwners` | programs/multisig/src/lib.rs:137-151 | duplicates fail with `UniqueOwners` and an empty list with `InvalidOwnersLen`. On success the owners are replaced and the threshold becomes `min(threshold, |owners|)`, so it never rises. The seqno goes up by exactly 1, nonce and data are unchanged, and a valid wallet stays valid |
| `Rules.ChangeThreshold` | programs/multisig/src/lib.rs:162-170 | accepts exactly `1 <= t <= |owners|`; anything else fails with `InvalidThreshold`. On success only the threshold changes |
| `Rules.SetOwnersAndChangeThreshold` | programs/multisig/src/lib.rs:118-133 | succeeds exactly when the owners are distinct and non-empty and `1 <= t <= |new owners|`. The result has the new owners, threshold `t` and seqno + 1. Errors come from `set_owners` first (`UniqueOwners`, then `InvalidOwnersLen` for an empty list), then `InvalidThreshold` |
| `Rules.ExecuteTransaction` | programs/multisig/src/lib.rs:173-214 | an executed transaction fails with `AlreadyExecuted`, then fewer than `threshold` set flags fail with `NotEnoughSigners`. Success happens exactly otherwise, and it changes only `did_execute`, to true |
| `Rules.ExecuteAtMostOnce` | programs/multisig/src/lib.rs:174-177 | executing the result of a successful execution fails with `AlreadyExecuted`, whatever the wallet |
| `Rules.PromoteSigner` | programs/multisig/src/lib.rs:193-203 | same length and order, keys and writable flags unchanged; an entry is marked signer exactly when it already was one or its key is the multisig signer |
| `Rules.SignedInstruction` | programs/multisig/src/lib.rs:192-203 | the invoked instruction copies program id and data. Its accounts have the transaction's keys and writable flags in order, with the signer flag also set on the multisig signer's key |
| `Rules.ApproveAllSigners` | programs/multisig/src/entities.rs:34-35 | with distinct owners, a run of approvals succeeds exactly when every approver is an owner. Afterwards `signers[i]` is set exactly when it was set before or `owners[i]` approved |
| `Rules.SignerCountCountsOwners` | programs/multisig/src/lib.rs:180-187 | with distinct owners, the signer count equals the number of distinct owners whose flag is set |
| `Rules.ProposeApproveExecute` | programs/multisig/src/entities.rs:34-35 | after a proposal and approvals by owners, the owners marked as signed are exactly the proposer plus the approvers. Execution succeeds only if at least `threshold` of them are distinct owners |
| `Ledger.Step` | programs/multisig/src/lib.rs:217-254 | the account checks before the handlers. Creating a wallet succeeds exactly on a fresh key when `Rules.CreateWallet` succeeds. Creating a transaction needs an existing wallet, a fresh key and an owner as proposer. Approve and execute are refused with a constraint violation unless the transaction belongs to the wallet and carries its seqno. Only the two create instructions add an account, and none removes one. Only approve can panic |
| `Ledger.Linked` | programs/multisig/src/lib.rs:234-236 | a linked transaction and wallet both exist. In a ledger that keeps the invariant, a linked transaction has one flag per owner, which is what makes the seqno check protect approve's index |
| `Ledger.OwnerChangeRetiresTransactions` | programs/multisig/src/lib.rs:148 | after a successful `set_owners`, every transaction proposed under the old owner set is refused by both approve (lib.rs:234) and execute (lib.rs:244) |
| `Ledger.Genesis` | programs/multisig/src/lib.rs:219 | the starting point of the reachability lemmas: a ledger with no accounts, in which every key is still `zero`, satisfies the invariant |
| `Ledger.WalletWritePreservesInv` | programs/multisig/src/lib.rs:143-148 | writing a valid wallet that keeps its owners or advances its seqno keeps the invariant |
| `Ledger.TxWritePreservesInv` | programs/multisig/src/lib.rs:112 | writing a transaction that keeps its wallet link, its seqno and its number of flags keeps the invariant |
| `Ledger.StepPreservesInv` | programs/multisig/src/lib.rs:44-254 | every instruction keeps the invariant. Every wallet has distinct owners and `1 <= threshold <= |owners|`. Every transaction belongs to an existing wallet, is never ahead of its seqno, and has one flag per owner while the seqnos match |
| `Ledger.RunPreservesInv` | programs/multisig/src/lib.rs:44-254 | the invariant holds after any sequence of instructions |
| `Ledger.ReachableInvariant` | programs/multisig/src/lib.rs:234-236 | in every reachable ledger, wallets satisfy `1 <= threshold <= |owners|`. A transaction whose seqno equals its wallet's has `|signers| == |owners|`, so `signers[owner_index]` is in bounds |
| `Ledger.NeverPanics` | programs/multisig/src/lib.rs:112 | under the invariant no instruction panics; the only possible panic is approve's out-of-bounds index |
| `Ledger.ExecuteGuard` | programs/multisig/src/lib.rs:244-253 | a successful execute passed the `has_one` and seqno checks, was not yet executed, and had at least `threshold` flags set; it sets `did_execute` and nothing else |
| `Ledger.StepEvolves` | programs/multisig/src/lib.rs:103-115 | no instruction removes a transaction. Set flags and `did_execute` only turn on, and link, seqno, program, accounts and data never change |
| `Ledger.RunEvolves` | programs/multisig/src/lib.rs:210-211 | the same holds across any sequence of instructions |
| `Ledger.ExecutedStaysSpent` | programs/multisig/src/lib.rs:174-177 | once executed, a transaction stays executed, and every later execute of it fails |
| `MultisigProgram.CreateMultisig` | programs/multisig/src/lib.rs:49-68 | on a zeroed account it writes owners, threshold, nonce and seqno 0 exactly when `Rules.CreateWallet` succeeds, and returns the same error otherwise without writing |
| `MultisigProgram.CreateTransaction` | programs/multisig/src/lib.rs:72-100 | writes the transaction `Rules.ProposeTransaction` builds, or returns `InvalidOwner` and writes nothing |
| `MultisigProgram.Approve` | programs/multisig/src/lib.rs:103-115 | under the `has_one` and seqno constraints, writes exactly the flags of `Rules.ApproveTransaction`, or returns `InvalidOwner` and writes nothing |
| `MultisigProgram.SetOwners` | programs/multisig/src/lib.rs:137-151 | checks come before writes: on success the wallet is `Rules.SetOwners` of the old one, and on failure it is untouched |
| `MultisigProgram.ChangeThreshold` | programs/multisig/src/lib.rs:162-170 | writes only the threshold, and only when `1 <= t <= |owners|`; otherwise `InvalidThreshold` with no write |
| `MultisigProgram.SetOwnersAndChangeThreshold` | programs/multisig/src/lib.rs:118-133 | the two handlers in turn. On success the wallet is `Rules.SetOwnersAndChangeThreshold` of the old one; on failure the runtime's rollback leaves it as before |
| `MultisigProgram.SetData` | programs/multisig/src/lib.rs:153-157 | replaces `data` and nothing else, always successfully |
| `MultisigProgram.ExecuteTransaction` | programs/multisig/src/lib.rs:173-214 | under the constraints, exactly when `Rules.ExecuteTransaction` succeeds it invokes `Rules.SignedInstruction` of the transaction and then sets `did_execute`. Otherwise it invokes nothing, writes nothing and returns the same error |
| `UseCases.AssertUniqueOwners` | programs/multisig/src/use_cases.rs:9-17 | the nested search with early return gives the same outcome as the uniqueness check: `Pass` exactly for distinct owners, otherwise `UniqueOwners` |
| `UseCases.CreateMultisigWallet` | programs/multisig/src/use_cases.rs:19-38 | checks uniqueness, threshold and emptiness in that order. It returns the wallet with seqno 0 exactly when the owners are distinct and `0 < threshold <= |owners|` |
| `UseCases.SetMultisigWalletOwners` | programs/multisig/src/use_cases.rs:40-52 | on success the wallet is `Rules.SetOwners` of the old one: threshold within the new owners, never raised, seqno + 1. On error the wallet is untouched |
| `UseCases.CreateMultisigWalletTransaction` | programs/multisig/src/use_cases.rs:54-79 | returns `InvalidOwner` for a non-member. Otherwise it returns a transaction with a single flag at the proposer's first position, not executed, carrying the wallet's seqno |
| `UseCases.ExecuteMultisigWalletTransaction` | programs/multisig/src/use_cases.rs:81-98 | `AlreadyExecuted` for a spent transaction, then `NotEnoughSigners` below threshold. Otherwise only `did_execute` changes, to true |
| `App.FindKeypair` | app/src/App.tsx:124-129 | absent exactly when no keypair has the key; otherwise the first keypair in the list with that key |
| `App.ReplaceTransaction` | app/src/App.tsx:45-50 | same length and keys; each transaction with the given key is replaced by it, and the others are kept |
| `App.ReplaceWallet` | app/src/App.tsx:51-56 | same length and keys; each wallet with the given key is replaced by it, and the others are kept |
| `App.ReplaceWalletAt` | app/src/App.tsx:172-177 | with distinct keys, replacing by key updates exactly the one position that holds the key |
| `App.ReplaceWalletAbsent` | app/src/App.tsx:172-177 | a wallet whose key is not in the list leaves the list unchanged |
| `App.RefreshFrame` | app/src/App.tsx:41-58 | a refresh keeps both lists' lengths and keys distinct. Inside the wallet with the matching key it replaces only the transaction with the matching key, and every other wallet is unchanged |
| `App.AppState.constructor` | app/src/App.tsx:37-38 | the client starts with no staged owners and no wallets, which satisfies the distinct-keys invariant |
| `App.AppState.AddMultisigWalletOwner` | app/src/App.tsx:69-73 | appends exactly the new keypair to the staging list, leaves the wallets alone and returns its public key |
| `App.AppState.CreateMultisigWallet` | app/src/App.tsx:75-115 | on confirmation it empties the staging list and appends one wallet: no transactions, the echoed owners and threshold, and the staged keypairs. On a caught failure nothing changes |
| `App.AppState.CreateMultisigWalletTransaction` | app/src/App.tsx:117-179 | an unknown proposer throws `Invalid transaction proposer.` and a rejection changes nothing. On confirmation the wallet with one more transaction (`signers = [proposer]`, not executed) replaces its namesake in the list |
| `App.AppState.RefreshMultisigWalletTransaction` | app/src/App.tsx:41-58 | the wallet list becomes `Refreshed` of the old one and the staging list is unchanged |
| `App.AppState.ApproveMultisigWalletTransaction` | app/src/App.tsx:181-204 | an unknown approver throws the same error and a rejection changes nothing. On confirmation the approver is appended to `signers` unconditionally and written back by key. When the approver had already approved, the list grows while its set of keys stays the same |
| `App.AppState.ExecuteMultisigWalletTransaction` | app/src/App.tsx:206-240 | on confirmation the transaction is written back with `executed = true` and no other change; a rejection changes nothing |
| `App.RepeatApprovalLengthens` | app/src/App.tsx:202 | approving again with a keypair already in `signers` makes the list one longer while its set of keys stays the same |

## Left out

- Remote calls and key generation: every RPC, account fetch, `getProvider`, `Program`, `createInstruction`, `findProgramAddress` and `Keypair.generate`. Each call's result is a `Reply` parameter. Generated keys are parameters, and a new wallet or transaction key is assumed distinct from every key already in the local lists (`App.AppState.CreateMultisigWallet` and `App.AppState.CreateMultisigWalletTransaction` require it).
- The cross-program invocation `invoke_signed`: the model returns the instruction it would invoke and treats the call as successful. What the invoked program does is not modelled.
- The `set_owners`, `change_threshold`, `set_owners_and_change_threshold` and `set_data` handlers need a signature by the wallet's derived key. `Ledger.Step` admits them unconditionally. That allows more behaviour than the program does, so every invariant proved there still holds for the real program, as long as `owner_set_seqno` does not wrap around (see the `MultisigProgram.SetOwners` line below).
- Anchor's account machinery (`zero`, `signer`, `seeds`/`bump`, deserialisation). A zeroed account is modelled as `Accounts.ZeroWallet` or `Accounts.ZeroTransaction`. The `has_one` and seqno constraints are preconditions of the handlers and checks in `Ledger.Step`.
- `MultisigProgram.Approve`: the handler requires one flag per owner instead of modelling the index panic. `Ledger.NeverPanics` and `Ledger.ReachableInvariant` show that the requirement holds in every reachable state.
- `Rules.ApproveTransaction`: the same requirement. `Ledger.Step` reports `Panic` whenever the lengths differ, which is a superset of the real out-of-bounds cases, and those states are unreachable.
- `MultisigProgram.SetOwners`: `owner_set_seqno` is a `u32`, but here it is an unbounded natural, so wrap-around after 2^32 owner changes is not modelled. `threshold` (`u64`) is unbounded too.
- `MultisigProgram.SetOwnersAndChangeThreshold`: the runtime discards a failed instruction's writes. The model shows this as an explicit restore of the wallet record.
- `UseCases.CreateMultisigWallet`: the source sets `data: None` on a string field, which does not type-check. The model stores the empty string, like a zeroed account.
- `use_cases.rs` is not declared as a module in `lib.rs`. It is modelled as its own layer with the same rules.
- Client concurrency: each client handler is modelled as one atomic step on the state as it is when its reply arrives. In the source each handler is `async`. It computes the new lists from the `owners` and `multisigWallets` values captured when the call started (app/src/App.tsx:51, 71, 88, 105, 107, 172), and writes them only after one or more `await`s. So calls that overlap can lose updates:
  - a wallet created while a transaction call is pending can disappear from the list;
  - an owner staged while a wallet creation is pending is dropped, and the wallet records the owners staged when the call began.
  The model has neither effect. Concurrency between several clients, and between instructions on chain, is also out of scope.
- Client aliasing: the client mutates the wallet and transaction objects it was handed (`push`, `transaction.signers = …`) and then replaces the list entries by key. The model passes them as values, so it does not capture effects through other references to the same objects.
- Key equality in the client: proposers are compared by their string form, and keypairs by `keypair.publicKey === …` (app/src/App.tsx:46, 52, 173). Both are modelled as equality of key ids. In the web3 library, `Keypair.publicKey` builds a new `PublicKey` object on every access, so those `===` comparisons never match, and the client's `map`s replace nothing. The update reaches the list only because the handlers first mutate the list's own wallet and transaction objects in place. The model replaces by key instead. For the way `MultisigWalletList.tsx` and `TransactionList.tsx` call the handlers, with the list's own objects, both give the same list. The model does not capture the in-place route, or that a copied object would not be updated.
- `getProvider` and `new Program` run outside the `try` in `createMultisigWallet`, and their failures are not modelled.
- The React components (`MultisigWalletForm`, `MultisigWalletList`, `TransactionForm`, `TransactionList`) and their approve/execute gating are presentation. The `types` files only give field shapes, used for `App.LocalWallet` and `App.LocalTransaction`.
- The error messages of `ErrorCode` appear only as comments. The codes `TransactionAlreadySigned`, `Overflow` and `UnableToDelete` are declared but never raised.
