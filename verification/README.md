# Verified model of the IndexVM ledger and of parts of its Aptos node

This project models, in Dafny, the logic of a virtual machine with two halves: the IndexVM
ledger (balances with a locked part, permission records, indexed content; six actions under
two authorization forms) and selected pieces of the Aptos consensus node and REST API that
live beside it. It states and proves what those parts keep over whole runs.

## The ledger

An account exists when the locked part of its balance is positive. Every key an account adds
to the state costs one unit of lockup, so the locked part is meant to be an exact count of
what the account occupies. No single place in the code maintains that; it is proved here as
an invariant of every run (`Lockup`, `Genesis`), with the exact conditions on genesis under
which it starts out true. On top of it:

- money is conserved, down to the fee of each transaction and the refund that is dropped when
  its payer is gone (`Conservation`);
- every action succeeds exactly under stated conditions, with a stated error otherwise and a
  stated effect on every account (`Guarantees`, `Failures`, `Effects`, `Outcomes`); closing an
  account is exact, and lockups can always be recovered, down to a run that closes an
  account whose own record allows it and pays it out (`Closing`);
- nobody loses anything except to keys they authorized (`Authority`);
- a transaction stays within the keys it declared exactly under a stated condition
  (`Footprint`); each action's exact condition for going beyond them, with runs from genesis
  that reach it, is given beside it (`Undeclared`).

The specification works on typed maps (`Storage`, `Actions`, `Transactions`). The code works
on a byte store; `ByteStore` and `ByteActions` hold it in that form, step by step with early
returns, and prove that it does to the typed maps what the specification says, partial writes
of failing steps included.

What is taken from the transaction driver, which is not part of this model: Verify, Deduct of
the maximum fee, Execute, Refund of what was not used, in this order; the writes of an Execute
that fails are discarded; a transaction whose Verify, Deduct or Refund fails changes nothing;
the fee used is at most the fee deducted. Actions are numbered from zero in the order of their
registration. Content digests are an arbitrary function of parent and content. The database
gives back what was put in and never fails by itself. Signatures are taken as valid.

Where the code and its comments differ, the model follows the code: Modify does not claim
unclaimed content (actions/modify.go:21-22), and content may have 1600 bytes, not 768
(actions/index.go:23-29).

## The node

- `Recovery`: finding the committed root and pruning the block tree in one pass after a crash.
- `Payload`: requesting, awaiting, re-requesting and caching the batches of a block. A digest
  determines its batch, and a block is not read concurrently, as the code assumes.
- `PageWalk`, `Pagination`: cursors over an account's modules and resources. The database
  iterates in a strict key order from the cursor on, the cursor included.
- `Rendering`: block timestamps by a running value taken from block metadata transactions, and
  by lookup in the database's table of new-block events. That both mark the same blocks is a
  hypothesis of the agreement, stated as `Marked`.
- `GasCaches`: double-checked caches of gas schedule and gas estimate under every
  interleaving, and the absence of deadlock between their locks.
- `Epochs`, `EpochManager`: starting and stopping the components of an epoch and routing to them.
- `SafetyRules`: the initialisation loop and the single retry.

## Model

| member | source | states |
|---|---|---|
| Base.CheckBitIsMaskTest | utils/utils.go:21-27 | the arithmetic bit test used in the model is the mask test on eight-bit words, for every word and every offset up to 7 |
| Codec.BalanceRoundTrip | storage/storage.go:137-162 | decoding a balance undoes encoding it for all 64-bit values, and encoding undoes decoding for all 16-byte strings |
| Codec.PermissionsRoundTrip | storage/storage.go:399-426 | the same for the two permission bytes |
| Codec.ContentRoundTrip | storage/storage.go:298-346 | the same for owner and royalty in 40 bytes |
| Codec.BigEndian | storage/storage.go:137-162 | the bytes of a 64-bit value have their weights in big-endian order |
| Codec.ValueLayout | storage/storage.go:137-162 | unlocked before locked, action bits before the others, owner before royalty |
| Codec.ParseKeyRoundTrip | storage/storage.go:391-397 | every key can be read back from its bytes, actor and signer included |
| Codec.KeysInjective | storage/storage.go:102-115 | balance, permission and content keys are injective and pairwise disjoint |
| Codec.KeyLayout | storage/storage.go:36-42 | the bytes 0, 1 and 2 for balances, records and content, then the identifiers, actor before signer |
| ByteStore.InsertRepresents | storage/storage.go:150-162 | writing one encoded value changes exactly one typed entry |
| ByteStore.RemoveRepresents | storage/storage.go:428-436 | deleting one key removes exactly one typed entry |
| ByteStore.RepresentsDeterminesLedger | storage/storage.go:25-42 | the stored bytes determine the three typed maps |
| ByteStore.ImageSubset | storage/storage.go:102-115 | inclusion of key sets is the same typed or as bytes |
| ByteStore.Database.GetBalance | storage/storage.go:118-148 | reads the typed balance, zero for a missing entry, and touches only that key |
| ByteStore.Database.SetBalance | storage/storage.go:150-162 | refines the typed update, other keys untouched |
| ByteStore.Database.DeleteBalance | storage/storage.go:164-166 | refines the typed deletion |
| ByteStore.Database.AddUnlockedBalance | storage/storage.go:168-194 | refines the typed credit: dropped for a missing account if asked, refused on overflow, reports whether the account existed |
| ByteStore.Database.SubUnlockedBalance | storage/storage.go:196-217 | refines the typed debit, refused on underflow |
| ByteStore.Database.LockBalance | storage/storage.go:219-245 | moves unlocked to locked, refused on underflow or overflow |
| ByteStore.Database.UnlockBalance | storage/storage.go:247-278 | moves locked to unlocked, refused on overflow or underflow |
| ByteStore.Database.GetPermissions | storage/storage.go:399-414 | reads the typed record, (0,0) for a missing one |
| ByteStore.Database.SetPermissions | storage/storage.go:416-426 | refines the typed update |
| ByteStore.Database.DeletePermissions | storage/storage.go:428-436 | refines the typed deletion |
| ByteStore.Database.GetContent | storage/storage.go:280-308 | reads owner and royalty, or reports the content missing |
| ByteStore.Database.SetContent | storage/storage.go:335-346 | refines the typed update |
| ByteStore.Database.IndexContent | storage/storage.go:310-333 | refuses a zero royalty and indexed content, else registers it |
| ByteStore.Database.UnindexContent | storage/storage.go:348-365 | refuses missing content and a wrong owner, else removes it |
| ByteStore.Database.RewardSearcher | storage/storage.go:367-388 | pays the royalty of indexed content to its owner and returns it, partial writes of a failure included |
| ByteActions.Authorized | auth/helpers.go:38-61 | the check on bytes is the typed check of action bit and pay bit |
| ByteActions.Verify | auth/delegate.go:62-79 | both authorization forms, a delegate that is its own actor refused |
| ByteActions.CanDeduct | auth/direct.go:78-92 | succeeds exactly when the deduction would |
| ByteActions.Deduct | auth/delegate.go:118-124 | debits the payer of either authorization form |
| ByteActions.Refund | auth/direct.go:102-112 | credits the payer unless its account is gone |
| ByteActions.CreateAccount | actions/transfer.go:66-73 | locks twice the lockup and grants the default record |
| ByteActions.ExecuteAuthorize | actions/authorize.go:39-96 | refines the typed action: lock, unlock or override |
| ByteActions.ExecuteTransfer | actions/transfer.go:39-75 | refines the typed action |
| ByteActions.ExecuteClear | actions/clear.go:32-91 | refines the typed action, with the unchecked additions |
| ByteActions.PayParent | actions/index.go:112-126 | refines the typed royalty payment and searcher check |
| ByteActions.RegisterContent | actions/index.go:127-139 | refines the typed registration and lockup |
| ByteActions.PayServicer | actions/index.go:140-161 | refines the typed commission payment |
| ByteActions.ExecuteIndex | actions/index.go:94-162 | refines the typed action, in the same order |
| ByteActions.ExecuteUnindex | actions/unindex.go:34-59 | refines the typed action |
| ByteActions.ExecuteModify | actions/modify.go:37-71 | refines the typed action |
| ByteActions.AuthStateKeys | auth/delegate.go:46-51 | the declared byte keys are the encodings of the typed declared keys |
| ByteActions.IndexStateKeys | actions/index.go:75-92 | the same for Index, key by key |
| ByteActions.StateKeys | actions/transfer.go:30-37 | the same for every action |
| ByteActions.Load | genesis/genesis.go:100-120 | the allocation loop refines the typed load, up to the first failure |
| ByteActions.ExecuteOrRollback | auth/direct.go:107-109 | a failing action leaves the bytes of the state before it |
| ByteActions.Apply | README.md:236-253 | one transaction on bytes is the typed transaction; a rejected one leaves the bytes unchanged |
| ByteActions.Run | README.md:236-253 | any sequence of transactions on bytes agrees with the same sequence on the typed maps |
| ByteActions.Chain | genesis/genesis.go:100-120 | from genesis over any transactions the bytes represent the typed run of those transactions from the loaded genesis, which keeps the lockup invariant, and supply plus burned fees equal the allocation |
| ByteActions.ByteFootprintExact | actions/index.go:118-121 | a successful transaction stays within its declared byte keys exactly when the typed condition holds |
| ByteActions.BeyondOnBytes | actions/clear.go:27-30 | a transaction that goes beyond its declared typed keys goes beyond its declared byte keys |
| Lockup.VerifiedGrantStored | auth/helpers.go:46-59 | whoever passes the check holds a stored record with the action's bit, and the pay bit if the actor pays |
| Lockup.GrantingAccountExists | actions/clear.go:58-66 | an account with a permission record locks at least two units |
| Lockup.ClearedAccountIsBare | actions/clear.go:57-67 | two units locked means the signer's record is all that is left beside the balance |
| Lockup.AuthorizeKeeps | actions/authorize.go:60-94 | Authorize keeps the lockup invariant |
| Lockup.TransferKeeps | actions/transfer.go:56-73 | Transfer keeps it, account creation included |
| Lockup.ClearKeeps | actions/clear.go:57-90 | Clear keeps it for every recipient, the actor itself included |
| Lockup.IndexKeeps | actions/index.go:112-161 | Index keeps it through royalty, lockup and commission |
| Lockup.UnindexKeeps | actions/unindex.go:48-57 | Unindex keeps it |
| Lockup.ModifyKeeps | actions/modify.go:54-69 | Modify keeps it |
| Lockup.ChargeEffect | auth/direct.go:94-100 | checking and deducting is one debit of the payer and changes nothing else |
| Lockup.ApplyKeeps | auth/direct.go:94-112 | every transaction, applied or rejected, keeps it, with no bound on the supply |
| Lockup.RunKeeps | genesis/genesis.go:38 | every run keeps it |
| Genesis.LoadEffect | genesis/genesis.go:104-118 | loading locks once per listing of an address and grants each listed address its own record only |
| Genesis.LoadBalances | genesis/genesis.go:104-118 | every account ends up with exactly what it was allocated |
| Genesis.GenesisLockup | genesis/genesis.go:100-120 | a genesis that loads has the lockup invariant if and only if it allocates nothing, or the lockup is positive, its double fits in 64 bits and addresses are distinct |
| Genesis.RepeatedAddressBreaks | genesis/genesis.go:104-118 | a genesis that lists an address twice loads and breaks the invariant |
| Genesis.InvalidRulesBreak | genesis/genesis.go:107-116 | under a lockup of zero, or one whose double wraps, the smallest allocation loads and breaks the invariant |
| Genesis.ReachableLockup | genesis/genesis.go:38 | in every reachable state locked = lockup x (1 + records granted + content owned), and a non-existing account has nothing |
| Conservation.ClearAddsExactly | actions/clear.go:68 | the unchecked addition is exact whenever the supply fits in 64 bits |
| Conservation.ExecuteConserves | actions/index.go:112-161 | no successful action creates or destroys money |
| Conservation.ClearSupply | actions/clear.go:68-90 | whatever the supply, Clear loses nothing, or exactly 2^64 if its addition wraps |
| Conservation.ClearConserves | actions/clear.go:68-90 | Clear moves all of the old account's worth |
| Conservation.SettleConserves | auth/delegate.go:126-136 | the refund cannot fail, and is dropped exactly when the payer's account is gone |
| Conservation.ApplyConserves | auth/direct.go:94-112 | each transaction changes the supply by exactly what was deducted less what was refunded, and every charged one is applied |
| Conservation.RunConserves | storage/storage.go:169-278 | over every run supply plus burned fees is constant |
| Conservation.GenesisConserves | genesis/genesis.go:104-118 | from genesis on, supply plus burned fees equal the allocation |
| Guarantees.ReachableIsSound | genesis/genesis.go:100-120 | every state reachable from a funded genesis keeps the invariant and the supply bound |
| Guarantees.TransferSucceedsExactly | actions/transfer.go:39-75 | Transfer succeeds exactly when the value is positive and covered and opens an account only if large enough |
| Guarantees.ActingAccountLocksTwo | actions/clear.go:59-61 | the comment's claim: an account that acts never locks less than two units |
| Guarantees.ClearSucceedsExactly | actions/clear.go:47-90 | Clear succeeds exactly when the signer's record is the only state left, whoever the recipient |
| Guarantees.ClearLeavesNothing | actions/clear.go:68-90 | Clear leaves no balance, record or content of the old account behind |
| Guarantees.ClearPaysOut | actions/clear.go:68-90 | Clear pays all of the old account to the recipient, opening its account if need be |
| Guarantees.ClearToSelfResets | actions/clear.go:68-90 | clearing into itself keeps the balance and resets the records to the default one |
| Closing.ClearLosesUnboundedSupply | actions/clear.go:68-90 | a genesis beyond the supply bound and a run of one Transfer and one Clear after which only the lockup of the other account is left of the supply |
| Guarantees.UnindexSucceedsExactly | actions/unindex.go:45-57 | the owner's Unindex never fails in unlocking, and returns exactly one unit |
| Guarantees.AuthorizeSucceedsExactly | actions/authorize.go:49-94 | Authorize succeeds exactly when it changes something and a new record is paid for; what it stores is stated by Effects.AuthorizeEffect |
| Guarantees.RevokeReturnsLockup | actions/authorize.go:81-88 | revoking an existing record never fails and returns exactly one unit |
| Guarantees.ParentSucceedsExactly | actions/index.go:112-126 | when the royalty can be paid and the searcher is right |
| Guarantees.RegisterSucceedsExactly | actions/index.go:127-139 | when content can be registered, and what it locks |
| Guarantees.ServicerSucceedsExactly | actions/index.go:140-161 | when the commission can be paid |
| Guarantees.IndexSucceedsExactly | actions/index.go:94-162 | Index succeeds exactly under the listed conditions on object, parent, content, servicer and funds |
| Guarantees.OwnerCanAlwaysUnindex | actions/unindex.go:34-59 | in every reachable state a verified, funded Unindex by the owner takes effect: one unit moves from its locked to its unlocked part, the payer pays exactly the fee, and no other balance changes |
| Guarantees.ActorCanAlwaysRevoke | actions/authorize.go:81-88 | in every reachable state a verified, funded revocation takes effect, with the same movement of balances |
| Closing.ReleaseContent | actions/unindex.go:34-59 | an owner-paid Unindex leaves the account as closable, with one piece of state less and one unit of lockup more to spend, less the fee |
| Closing.ReleaseRecord | actions/authorize.go:81-88 | the same for an owner-paid revocation |
| Closing.ClearCloses | actions/clear.go:57-90 | the Clear of a bare account as a transaction: nothing is left, and the recipient has all but the maximum fee, whose refund is dropped |
| Closing.CanAlwaysClose | actions/clear.go:57-90 | from every sound state an account whose own record allows Clear, and Unindex and Authorize as far as it has content and other records, with no content under the empty ID and the means to pay in advance, has a run of transactions that ends with nothing of it left and the recipient richer by its whole worth less the fees |
| Effects.TransferEffect | actions/transfer.go:56-73 | what Transfer does to every account's balance, to records and content |
| Effects.AuthorizeEffect | actions/authorize.go:60-94 | the record given is the record stored, or the old one is removed for zeros; one unit is locked for a new record, returned for a removed one, and nothing moves for an override |
| Effects.IndexEffect | actions/index.go:112-161 | what Index does to every account's balance, to records and content |
| Effects.ModifyEffect | actions/modify.go:54-69 | Modify succeeds exactly for the owner's content and a new positive royalty, and changes that royalty and nothing else |
| Effects.FailureCostsFee | auth/direct.go:94-112 | a failed action costs its payer the fee and changes nothing else |
| Outcomes.AuthorizeOutcome | actions/authorize.go:39-96 | a successful Authorize transaction: its record, the content, and the balance of every account with lockup and fee |
| Outcomes.TransferOutcome | actions/transfer.go:39-75 | a successful Transfer transaction, in the same terms |
| Outcomes.IndexOutcome | actions/index.go:94-162 | a successful Index transaction, in the same terms |
| Outcomes.ModifyOutcome | actions/modify.go:37-71 | a successful Modify transaction, in the same terms |
| Failures.VerifyErrors | auth/delegate.go:62-79 | why a check fails: a delegate that is its own actor, or a missing bit |
| Failures.ChargeErrors | auth/direct.go:94-100 | when and why a transaction is not charged |
| Failures.BalanceErrors | storage/storage.go:168-278 | when each movement of funds fails |
| Failures.ContentErrors | storage/storage.go:310-333 | when and why content is not registered |
| Failures.AuthorizeErrors | actions/authorize.go:49-94 | which error Authorize reports, from the state before it |
| Failures.TransferErrors | actions/transfer.go:47-73 | which error Transfer reports |
| Failures.ClearErrors | actions/clear.go:47-67 | Clear by a signer with a record fails only because the account is not empty |
| Failures.UnindexErrors | actions/unindex.go:45-57 | which error Unindex reports; never one of unlocking |
| Failures.ModifyErrors | actions/modify.go:45-69 | which error Modify reports |
| Failures.IndexErrors | actions/index.go:105-161 | which error Index reports, from the state before it, stage by stage |
| Authority.ExecuteFrame | actions/authorize.go:49-53 | an action takes nothing from an account other than its actor |
| Authority.DelegateMay | controller/registry.go:23-28 | which bit each action needs, as a literal mask, of the record granted to a delegate, and the first other bit if the actor pays |
| Authority.DirectMay | auth/direct.go:48-60 | the same for a key that acts for itself, which always needs the first other bit |
| Authority.WhoPays | auth/delegate.go:118-124 | whose balance the fee is taken from, for each form of authorization |
| Authority.AppliedIsAuthorized | auth/helpers.go:38-61 | a transaction is applied only with the action's bit, and the pay bit if the actor pays |
| Authority.TransactionFrame | auth/delegate.go:29-79 | a bystander loses nothing; a payer that is not the actor loses only the fee |
| Authority.StrangerTakesNothing | auth/delegate.go:62-79 | a signer without a record of an account takes nothing from it |
| Authority.RunTakesNothing | auth/helpers.go:38-61 | over any run not signed by keys that control an account at the start, it loses no funds, records or content |
| Footprint.TransactionTouches | auth/direct.go:32-37 | the exact keys a successful transaction touches |
| Footprint.DeclaresBalance | actions/transfer.go:30-37 | exactly which transactions declare a given balance |
| Footprint.DeclaresRecord | auth/delegate.go:46-51 | exactly which transactions declare a given record |
| Footprint.DeclaresContent | actions/index.go:75-92 | exactly which transactions declare given content |
| Footprint.FootprintExact | actions/clear.go:27-30 | a successful transaction touches only declared keys if and only if a stated condition on action and prior state holds |
| Undeclared.BeyondExactly | auth/direct.go:32-37 | a charged transaction succeeds and touches an undeclared key exactly if its action succeeds outside the condition; Transfer, Unindex and Modify never do |
| Undeclared.ClearGoesBeyond | actions/clear.go:27-30 | a charged Clear succeeds and touches an undeclared key exactly if the signer's record is the only state left and the recipient has no account, or is the actor itself under another signer |
| Undeclared.ClearExample | actions/clear.go:27-30 | such a Clear from a one-account genesis |
| Undeclared.AuthorizeGoesBeyond | actions/authorize.go:35-37 | a charged Authorize does exactly if its actor does not pay and a record is added, with the funds to lock, or removed |
| Undeclared.AuthorizeExample | actions/authorize.go:35-37 | a run from a one-account genesis that reaches both an added and a removed record |
| Undeclared.IndexGoesBeyond | actions/index.go:78-82 | a charged Index does exactly if it meets the conditions for success, its parent belongs to the empty key, and that key neither acts nor pays |
| Undeclared.IndexExample | actions/index.go:78-82 | a run from a two-account genesis in which a royalty goes to the empty key |
| Recovery.FindBlocksToPrune | vm/aptos-vm/consensus/src/persistent_liveness_storage.rs:276-304 | the two retain loops compute the one-pass filter, the kept certificates and the ids to delete |
| Recovery.RetainCerts | vm/aptos-vm/consensus/src/persistent_liveness_storage.rs:295-303 | the certificates of blocks in the tree, and the ids the others certify |
| Recovery.KeptDescends | vm/aptos-vm/consensus/src/persistent_liveness_storage.rs:286-294 | whatever the order, every kept block descends from the root |
| Recovery.KeptIsDescendants | vm/aptos-vm/consensus/src/persistent_liveness_storage.rs:113-114 | ascending by epoch and round, with stored parents of an earlier epoch or an earlier round of the same one, one pass keeps exactly the descendants of the root |
| Recovery.OnePassExactly | vm/aptos-vm/consensus/src/persistent_liveness_storage.rs:282-294 | in any order, one pass keeps exactly the descendants if and only if no descendant is listed before its parent |
| Recovery.UnsortedCanDropDescendants | vm/aptos-vm/consensus/src/persistent_liveness_storage.rs:285 | a list in the wrong order for which a descendant is dropped |
| Recovery.KeptTopological | vm/aptos-vm/consensus/src/persistent_liveness_storage.rs:185-189 | each kept block's parent is the root or an earlier kept block |
| Recovery.PrunedExactly | vm/aptos-vm/consensus/src/persistent_liveness_storage.rs:276-304 | the ids to delete are exactly the stored ids not left in the tree |
| Recovery.KeptAndDroppedAll | vm/aptos-vm/consensus/src/persistent_liveness_storage.rs:286-294 | one pass takes no block twice and leaves none out |
| Recovery.KeptCertsCounts | vm/aptos-vm/consensus/src/persistent_liveness_storage.rs:295-302 | a certificate of a block in the tree is kept as often as it is stored, the others not at all |
| Recovery.KeptAscending | vm/aptos-vm/consensus/src/persistent_liveness_storage.rs:285-294 | what is kept of ascending blocks ascends |
| Recovery.PruningIsStable | vm/aptos-vm/consensus/src/persistent_liveness_storage.rs:276-304 | pruning its own output removes nothing |
| Recovery.SortBlocksCorrect | vm/aptos-vm/consensus/src/persistent_liveness_storage.rs:113-114 | the sort is ascending by epoch and then round, keeps every block as often as it was, and is stable |
| Recovery.FindRoot | vm/aptos-vm/consensus/src/persistent_liveness_storage.rs:82-142 | finds the root, the first certificate of it, the first that commits it and the latter merged with the latest commit, removes the root from the ascending rest, and succeeds exactly when all are there and the commit matches in epoch, round, block and time |
| Recovery.Recover | vm/aptos-vm/consensus/src/persistent_liveness_storage.rs:196-247 | end to end: ascending and topological order, certificates of the tree, exact deletion set, exactly the descendants kept when parents have earlier epochs or rounds, and last vote and timeout certificate kept only if of the epoch of the root |
| Payload.RequestTransactions | vm/aptos-vm/consensus/src/payload_manager.rs:29-52 | one receiver for each proof whose expiration is of a later epoch, or of the same one and a round not before the block's, as often as listed and in order |
| Payload.LiveMeaning | vm/aptos-vm/consensus/src/payload_manager.rs:45 | the digests asked for are those of the unexpired proofs, in order |
| Payload.ReceiversAt | vm/aptos-vm/consensus/src/payload_manager.rs:37-51 | each receiver belongs to its digest and to the request made for it |
| Payload.AwaitReceivers | vm/aptos-vm/consensus/src/payload_manager.rs:144-182 | awaits the receivers in order, up to the first that gives no batch |
| Payload.AwaitMeaning | vm/aptos-vm/consensus/src/payload_manager.rs:144-182 | awaiting succeeds exactly if every receiver gives a batch, and else reports the first that does not |
| Payload.TransactionsAppend | vm/aptos-vm/consensus/src/payload_manager.rs:183 | batches are concatenated in order |
| Payload.ReadMeaning | vm/aptos-vm/consensus/src/payload_manager.rs:136-190 | a successful read gives the batches of the unexpired proofs in order |
| Payload.PrefetchPayloadData | vm/aptos-vm/consensus/src/payload_manager.rs:92-119 | requests only if the status is empty |
| Payload.ReadBatches | vm/aptos-vm/consensus/src/payload_manager.rs:136-190 | a read of the quorum store is one step of the protocol; a success is cached and asks for nothing, a failure requests every live batch anew |
| Payload.GetTransactions | vm/aptos-vm/consensus/src/payload_manager.rs:123-193 | a read is one step of the protocol, the status put back on every path; a success is cached and, from a consistent status, is the batches of the unexpired proofs in order |
| Payload.AwaitGivesTransactions | vm/aptos-vm/consensus/src/payload_manager.rs:144-185 | awaiting all receivers gives the live batches in proof order |
| Payload.ReadKeepsConsistent | vm/aptos-vm/consensus/src/payload_manager.rs:136-190 | a read keeps the status consistent, requesting afresh after a failure |
| Payload.PayloadProtocol | vm/aptos-vm/consensus/src/payload_manager.rs:92-193 | over every run starting with a prefetch, other blocks using the same reader in between: status never empty, receivers match live proofs in order, successful reads all return the same transactions |
| Payload.CachedForever | vm/aptos-vm/consensus/src/payload_manager.rs:183-190 | after one success every later read returns the same |
| PageWalk.FaithfulWalkComplete | vm/aptos-vm/api/src/context.rs:381-396 | with faithful cursors the pages list everything, or fail on a malformed entry |
| PageWalk.CompleteWalkFaithful | vm/aptos-vm/api/src/context.rs:381-396 | pages that list everything once have faithful cursors and no malformed entry |
| PageWalk.FollowWalks | vm/aptos-vm/api/src/context.rs:355-396 | requests whose pages and cursors agree with positions follow the walk of those positions |
| Pagination.PageOfSuffix | vm/aptos-vm/api/src/context.rs:381-396 | one page by position: what it holds, when it fails, and its cursor |
| Pagination.GetPageAt | vm/aptos-vm/api/src/context.rs:355-396 | a request by cursor is a request by position |
| Pagination.FilterCounts | vm/aptos-vm/api/src/context.rs:294-316 | the iterator yields every entry of the kind and every malformed one as often as it is stored, and nothing else |
| Pagination.FilterMeaning | vm/aptos-vm/api/src/context.rs:367-379 | the same as membership |
| Pagination.PageMeaning | vm/aptos-vm/api/src/context.rs:355-396 | a page lists, in order, entries of the kind from the cursor on: all of them, or as many as the limit, namely all before the entry its next cursor is made from; it fails only on a malformed entry |
| Pagination.ListingMeaning | vm/aptos-vm/api/src/context.rs:275-396 | the whole listing is ordered, and is exactly the entries of the kind unless one is malformed |
| Pagination.FollowIsWalk | vm/aptos-vm/api/src/context.rs:355-396 | following cursors is walking positions |
| Pagination.PaginationByPosition | vm/aptos-vm/api/src/context.rs:275-353 | the same in terms of positions: every page-end entry is found again through its own cursor |
| Pagination.PaginationExactly | vm/aptos-vm/api/src/context.rs:275-353 | following cursors lists everything once and in order if and only if nothing is malformed and, wherever a page ends, the order puts the cursor after the last entry of the page and not after the entry it stands for |
| Pagination.LeadsBackExactly | vm/aptos-vm/api/src/context.rs:346-351 | a cursor leads back to its entry exactly when it falls between the entry before and the entry itself |
| Pagination.ResourcesExactly | vm/aptos-vm/api/src/context.rs:275-353 | in the order of encoded keys, resources are listed completely if and only if nothing is malformed and every group at which a page ends is the first of its path length, with a tag above that of the last resource of that length |
| Pagination.PaginationComplete | vm/aptos-vm/api/src/context.rs:355-396 | modules always, and resources without groups: the pages end within a bounded number of requests and list in order every entry that is code, or a resource, and no other; they fail exactly if some entry is malformed |
| Pagination.GroupCursorLoops | vm/aptos-vm/api/src/context.rs:346-351 | an account with a resource group whose listing never ends |
| Pagination.ExpandAppend | vm/aptos-vm/api/src/context.rs:325-344 | expanding two lists one after the other is expanding both at once, failures included |
| Pagination.ExpandOne | vm/aptos-vm/api/src/context.rs:325-340 | expanding one entry is decoding it |
| Pagination.ExpandedPages | vm/aptos-vm/api/src/context.rs:322-352 | expanding the groups of each page while following cursors is expanding the whole listing, failures to decode and to list included |
| Pagination.ExpandedResources | vm/aptos-vm/api/src/context.rs:275-353 | under the condition for a complete listing, the expanded pages come to all the account's resources |
| Pagination.DetermineLimit | vm/aptos-vm/api/src/page.rs:74-97 | the limit is bounded, positive exactly when the maximum is, and refused when zero is asked for |
| Pagination.ComputeStart | vm/aptos-vm/api/src/page.rs:27-56 | without a start the page is the last full one; a start beyond the maximum is refused |
| Rendering.RenderSequential | vm/aptos-vm/api/src/context.rs:538-567 | the running-timestamp pass over block metadata, up to the first conversion failure |
| Rendering.RenderNonSequential | vm/aptos-vm/api/src/context.rs:569-594 | the per-version lookup in the table of block events, up to the first failure of a lookup or a conversion |
| Rendering.LookupMeaning | vm/aptos-vm/storage/aptosdb/src/lib.rs:1493-1501 | a lookup gives the time of the nearest block event, and fails exactly for a pruned version, a future one, or one without a block before it |
| Rendering.RunningMeaning | vm/aptos-vm/api/src/context.rs:553-557 | the running timestamp is that of the last metadata met, or the one it started from |
| Rendering.StampsAt | vm/aptos-vm/api/src/context.rs:551-587 | each transaction gets the running timestamp as of itself, or its own lookup |
| Rendering.ConvertMeaning | vm/aptos-vm/api/src/context.rs:551-594 | one result for each transaction, in order, or the first failure |
| Rendering.StampsAgreeExactly | vm/aptos-vm/api/src/context.rs:551-557 | over consecutive versions both assign the same timestamps if and only if the first is right and, at every later version, metadata and event give the same time, or the only one there is repeats the time before |
| Rendering.SequentialRefinesLookup | vm/aptos-vm/api/src/transactions.rs:636-648 | when metadata transactions are those that emit a block event with their time, the page rendered from the first version's block timestamp is the one rendered by lookup, failures included |
| Rendering.UnmarkedDiffers | vm/aptos-vm/api/src/context.rs:551-557 | a ledger with metadata that emitted no event, on which the two disagree |
| GasCaches.RefreshScheduleIsDirect | vm/aptos-vm/api/src/context.rs:934-986 | the section under the write lock answers as storage would |
| GasCaches.RefreshEstimateIsGood | vm/aptos-vm/api/src/context.rs:818-913 | the section under the write lock answers from cache only within the epoch and the search window |
| GasCaches.RefreshEstimateExactly | vm/aptos-vm/api/src/context.rs:818-913 | a cached estimate of the epoch and of the last 100,000 versions above the oldest is the answer; otherwise storage is asked and its answer cached |
| GasCaches.RefreshScheduleExactly | vm/aptos-vm/api/src/context.rs:934-986 | the same for the schedule, by epoch |
| GasCaches.CachedCallOnlyReads | vm/aptos-vm/api/src/context.rs:800-815 | a call whose schedule and estimate are cached is answered under the read lock alone |
| GasCaches.CachesAgree | vm/aptos-vm/api/src/context.rs:788-987 | for every interleaving of both functions' critical sections, schedules are as stored, estimates come from the same epoch and window, and fail only if storage cannot give them |
| GasCaches.ScheduleCacheExactly | vm/aptos-vm/api/src/context.rs:915-987 | every interleaving answers as storage would if and only if the schedule is constant within an epoch |
| GasCaches.StepGetsCloser | vm/aptos-vm/api/src/context.rs:788-987 | a thread that is neither finished nor waiting for a lock gets closer to its end with every step, of which a call has at most eight, and leaves the other threads where they are |
| GasCaches.NoDeadlock | vm/aptos-vm/api/src/context.rs:788-987 | after every interleaving some thread can move while a call is unfinished, and there are moves after which all calls are finished |
| GasCaches.Context.GetGasSchedule | vm/aptos-vm/api/src/context.rs:915-987 | sequentially, returns and caches what storage holds |
| GasCaches.Context.EstimateGasPrice | vm/aptos-vm/api/src/context.rs:788-913 | sequentially, answers from the cache exactly within epoch and window and else from storage, fails only if storage does, and then keeps the cache |
| Epochs.StartEpoch | vm/aptos-vm/consensus/src/epoch_manager.rs:747-774 | starting after a shutdown makes all channels but the quorum store's belong to the new epoch |
| Epochs.FullStartOpens | vm/aptos-vm/consensus/src/epoch_manager.rs:579-745 | which channels a start from full recovery data opens, by the configuration |
| Epochs.PartialStartOpens | vm/aptos-vm/consensus/src/epoch_manager.rs:550-577 | a start from partial recovery data opens the round manager's channels and nothing else |
| Epochs.ChangeStopsFirst | vm/aptos-vm/consensus/src/epoch_manager.rs:414-438 | an epoch change stops all but the quorum store's message channel before it starts, and does nothing without a proof that verifies |
| Epochs.StepReady | vm/aptos-vm/consensus/src/epoch_manager.rs:992-1018 | every iteration of the main loop leaves it ready for the next |
| Epochs.StepPushes | vm/aptos-vm/consensus/src/epoch_manager.rs:909-953 | a step pushes at most one event, of the epoch under way, on channels of that epoch |
| Epochs.StepDelivers | vm/aptos-vm/consensus/src/epoch_manager.rs:776-953 | what each input delivers: a consensus message that verifies, is of the epoch and not for a disabled quorum store goes to the component for its kind, any other nowhere; a timeout goes to the round manager |
| Epochs.EpochIsolation | vm/aptos-vm/consensus/src/epoch_manager.rs:984-1019 | over every run the round manager is never missing and no consensus event crosses epochs |
| Epochs.RunAnswers | vm/aptos-vm/consensus/src/epoch_manager.rs:776-822 | over every run each pushed event answers to an input that verified, or to a timeout of its round |
| Epochs.QuorumStoreAfterEpochChange | vm/aptos-vm/consensus/src/epoch_manager.rs:509-548 | exactly when the quorum store's channel, which shutdown leaves open, belongs to the new epoch |
| Epochs.QuorumStoreOverRuns | vm/aptos-vm/consensus/src/epoch_manager.rs:509-774 | over every run the quorum store's channel is that of the last epoch started from full recovery data, with the exact condition for it to be current; a quorum store that runs is always that of the epoch under way |
| Epochs.StaleQuorumStoreChannel | vm/aptos-vm/consensus/src/epoch_manager.rs:527-548 | a run in which a batch is pushed on the channel of an older epoch, whose quorum store has been shut down |
| EpochManager.Manager.ShutdownCurrentProcessor | vm/aptos-vm/consensus/src/epoch_manager.rs:509-548 | leaves no component but the quorum store's message channel, and the epoch and past pushes unchanged |
| EpochManager.Manager.StartRoundManager | vm/aptos-vm/consensus/src/epoch_manager.rs:579-745 | the quorum store's channel becomes current, and the manager ready exactly if no buffer manager of another epoch is left over; after a shutdown there is none |
| EpochManager.Manager.StartRecoveryManager | vm/aptos-vm/consensus/src/epoch_manager.rs:550-577 | after a shutdown the epoch is ready with a round manager and nothing else, the quorum store's channel unchanged |
| EpochManager.Manager.StartNewEpoch | vm/aptos-vm/consensus/src/epoch_manager.rs:747-774 | sets the epoch, then starts by what storage can recover; after a shutdown the manager is ready for it |
| EpochManager.Manager.InitiateNewEpoch | vm/aptos-vm/consensus/src/epoch_manager.rs:414-438 | changes nothing unless the proof verifies, else shuts down and is ready for the next epoch |
| EpochManager.Manager.CheckEpoch | vm/aptos-vm/consensus/src/epoch_manager.rs:824-883 | lets through only events of the epoch under way |
| EpochManager.Manager.ProcessEvent | vm/aptos-vm/consensus/src/epoch_manager.rs:909-943 | at most one push, to the component of the event's kind, none exactly if it has no channel; with the manager ready an event of the epoch is isolated |
| EpochManager.Manager.ForwardToRoundManager | vm/aptos-vm/consensus/src/epoch_manager.rs:945-953 | one push to the round manager, which must be there; with the manager ready an event of the epoch is isolated |
| EpochManager.Manager.ProcessMessage | vm/aptos-vm/consensus/src/epoch_manager.rs:776-822 | one message, filters and verification included: a message that does not verify, is of another epoch or is for a disabled quorum store changes nothing, and any other pushes at most itself |
| EpochManager.Manager.Start | vm/aptos-vm/consensus/src/epoch_manager.rs:984-1019 | the main loop over any inputs keeps the manager ready and isolated |
| SafetyRules.LoopAdvances | vm/aptos-vm/consensus/src/metrics_safety_rules.rs:37-60 | while the loop runs, the waypoint has moved by at least one per iteration |
| SafetyRules.LoopEnds | vm/aptos-vm/consensus/src/metrics_safety_rules.rs:34-62 | it ends within the distance to the latest version plus one |
| SafetyRules.DishonestNeverEnds | vm/aptos-vm/consensus/src/metrics_safety_rules.rs:48-58 | rules that report progress without moving keep it going for ever |
| SafetyRules.Outcome | vm/aptos-vm/consensus/src/metrics_safety_rules.rs:34-62 | what the loop comes to is never a report of progress |
| SafetyRules.TrailEnds | vm/aptos-vm/consensus/src/metrics_safety_rules.rs:37-60 | the versions asked for, each where the rules had moved to, lead to the outcome of the loop |
| SafetyRules.MetricsSafetyRules.PerformInitialize | vm/aptos-vm/consensus/src/metrics_safety_rules.rs:34-62 | passes on the rules' error if their state cannot be read; else asks for increasing versions, each where the rules had moved to, boundedly often, and ends with the rules' answer to the last, or an internal error if storage has no proofs from it on |
| SafetyRules.MetricsSafetyRules.Retry | vm/aptos-vm/consensus/src/metrics_safety_rules.rs:65-79 | the operation runs at most twice, the second time only after a failure for want of initialisation, of the right epoch or of a current waypoint, and a successful initialisation |

## Left out

- Encoding of actions and authorizations, unit counts and validity ranges: they rest on a codec that is not part of this model.
- Signatures, hashing and addresses: keys and digests are plain values here.
- Block building, the mempool, unit prices and the merkle state of the chain driver.
- The driver's enforcement of declared keys: accesses are recorded, not refused; `Footprint` says exactly which successful transactions would notice.
- The transaction metadata store (storage/storage.go:50-99): it would only add one more round trip.
- Controller, RPC, client, command line and configuration.
- The example applications.
- Payload.GetTransactions: calls with a payload of the wrong kind, or before any prefetch, are preconditions, as the code marks them unreachable or panics.
- The commit notification of the payload manager.
- GasCaches.CachesAgree: how an estimate is computed from prices is an arbitrary function; the order of the three prices does not follow from the code.
- EpochManager.Manager.ProcessEvent: a push is recorded even if the receiver of the channel is gone, where the code logs a failure; replies to peers of other epochs are not modelled.
- EpochManager.Manager.ForwardToRoundManager: a missing round manager is a precondition, as the code panics; the main loop is proved to meet it.
- Undeclared.IndexExample: content of the empty key is indexed by a transaction signed with it, as signatures are taken as valid.
- Closing.CanAlwaysClose: content under the empty ID is excluded, as Unindex refuses that ID; an account that would first have to widen its own record is not covered.
- Epochs.EpochIsolation: local timeouts carry no epoch, and the quorum store's channel is excluded, for the reason given by Epochs.StaleQuorumStoreChannel.
- SafetyRules.MetricsSafetyRules.PerformInitialize: assumes that a report of progress names the waypoint before and after; SafetyRules.DishonestNeverEnds shows what happens otherwise.
- The remaining API endpoints, the remaining consensus components and the scripts: wiring over code that is not part of this model.
