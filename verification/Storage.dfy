/**
 The typed view of the IndexVM state: balances, permission records and indexed content,
 together with the set of keys that storage operations have accessed.
 Every operation of storage/storage.go is given here as a function on that view.
 An operation that fails reports the view it had reached, partial writes included.
 */
module Storage {
  import opened Base

  datatype Balance = Balance(unlocked: uint64, locked: uint64)
  datatype Permissions = Permissions(action: Byte, misc: Byte)
  datatype Content = Content(owner: PublicKey, royalty: uint64)

  /** The permission record that `actor` granted to `signer`. */
  datatype Grant = Grant(actor: PublicKey, signer: PublicKey)

  datatype Key =
    | BalanceKey(owner: PublicKey)
    | PermissionsKey(grant: Grant)
    | ContentKey(id: ID)

  datatype Ledger = Ledger(
    balances: map<PublicKey, Balance>,
    permissions: map<Grant, Permissions>,
    content: map<ID, Content>,
    touched: set<Key>)

  const NO_PERMISSIONS := Permissions(0, 0)
  const DEFAULT_PERMISSIONS := Permissions(MAX_UINT8, MAX_UINT8)

  datatype Error =
    | ErrInvalidBalance
    | ErrContentAlreadyExists
    | ErrContentMissing
    | ErrWrongOwner
    | ErrInsufficientTip
    | ErrNotAllowed
    | ErrActorEqualsSigner
    | OutputContentEmpty
    | OutputContentMissing
    | OutputInvalidSchema
    | OutputInvalidContent
    | OutputWrongOwner
    | OutputInvalidObject
    | OutputServicerMissing
    | OutputInvalidBalance
    | OutputAccountNotEmpty
    | OutputPermissionsUseless
    | OutputActorMismatch
    | OutputValueZero

  /** The outcome of a storage operation or of a sequence of them. */
  datatype Step<+T> =
    | Done(ledger: Ledger, value: T)
    | Failed(ledger: Ledger, error: Error)
  {
    predicate IsFailure() { Failed? }

    function PropagateFailure<U>(): Step<U>
      requires Failed?
    {
      Failed(ledger, error)
    }

    function Extract(): (Ledger, T)
      requires Done?
    {
      (ledger, value)
    }
  }

  // ----- Reading -----

  /** A missing entry reads as zero; an account exists when its locked part is positive. */
  function BalanceOf(l: Ledger, pk: PublicKey): Balance {
    if pk in l.balances then l.balances[pk] else Balance(0, 0)
  }

  function PermissionsOf(l: Ledger, g: Grant): Permissions {
    if g in l.permissions then l.permissions[g] else NO_PERMISSIONS
  }

  predicate Exists(l: Ledger, pk: PublicKey) {
    BalanceOf(l, pk).locked > 0
  }

  function Touch(l: Ledger, k: Key): Ledger {
    l.(touched := l.touched + {k})
  }

  // ----- Balances -----

  function SetBalance(l: Ledger, pk: PublicKey, b: Balance): Ledger {
    Touch(l, BalanceKey(pk)).(balances := l.balances[pk := b])
  }

  function DeleteBalance(l: Ledger, pk: PublicKey): Ledger {
    Touch(l, BalanceKey(pk)).(balances := l.balances - {pk})
  }

  /** Credits `amount`; the value tells whether the account existed (and, with
      `dropIfGone`, whether the credit was applied at all). */
  function AddUnlocked(l: Ledger, pk: PublicKey, amount: uint64, dropIfGone: bool): Step<bool> {
    var b := BalanceOf(l, pk);
    if dropIfGone && b.locked == 0 then
      Done(Touch(l, BalanceKey(pk)), false)
    else if b.unlocked + amount >= TWO_64 then
      Failed(Touch(l, BalanceKey(pk)), ErrInvalidBalance)
    else
      Done(SetBalance(l, pk, Balance(b.unlocked + amount, b.locked)), b.locked > 0)
  }

  function SubUnlocked(l: Ledger, pk: PublicKey, amount: uint64): Step<()> {
    var b := BalanceOf(l, pk);
    if b.unlocked < amount then
      Failed(Touch(l, BalanceKey(pk)), ErrInvalidBalance)
    else
      Done(SetBalance(l, pk, Balance(b.unlocked - amount, b.locked)), ())
  }

  function LockBalance(l: Ledger, pk: PublicKey, amount: uint64): Step<()> {
    var b := BalanceOf(l, pk);
    if b.unlocked < amount || b.locked + amount >= TWO_64 then
      Failed(Touch(l, BalanceKey(pk)), ErrInvalidBalance)
    else
      Done(SetBalance(l, pk, Balance(b.unlocked - amount, b.locked + amount)), ())
  }

  function UnlockBalance(l: Ledger, pk: PublicKey, amount: uint64): Step<()> {
    var b := BalanceOf(l, pk);
    if b.unlocked + amount >= TWO_64 || b.locked < amount then
      Failed(Touch(l, BalanceKey(pk)), ErrInvalidBalance)
    else
      Done(SetBalance(l, pk, Balance(b.unlocked + amount, b.locked - amount)), ())
  }

  // ----- Permissions -----

  function SetPermissions(l: Ledger, g: Grant, p: Permissions): Ledger {
    Touch(l, PermissionsKey(g)).(permissions := l.permissions[g := p])
  }

  function DeletePermissions(l: Ledger, g: Grant): Ledger {
    Touch(l, PermissionsKey(g)).(permissions := l.permissions - {g})
  }

  // ----- Content -----

  function SetContent(l: Ledger, id: ID, c: Content): Ledger {
    Touch(l, ContentKey(id)).(content := l.content[id := c])
  }

  function IndexContent(l: Ledger, id: ID, owner: PublicKey, royalty: uint64): Step<()> {
    if royalty == 0 then
      Failed(l, ErrInsufficientTip)
    else if id in l.content then
      Failed(Touch(l, ContentKey(id)), ErrContentAlreadyExists)
    else
      Done(SetContent(l, id, Content(owner, royalty)), ())
  }

  function UnindexContent(l: Ledger, id: ID, pk: PublicKey): Step<()> {
    var t := Touch(l, ContentKey(id));
    if id !in l.content then
      Failed(t, ErrContentMissing)
    else if l.content[id].owner != pk then
      Failed(t, ErrWrongOwner)
    else
      Done(t.(content := l.content - {id}), ())
  }

  /** Pays the royalty of `id`, if it is indexed, from `sender` to its owner; the value is
      that owner, or the empty key when there is nothing to pay. */
  function RewardSearcher(l: Ledger, id: ID, sender: PublicKey): Step<PublicKey> {
    var t := Touch(l, ContentKey(id));
    if id !in l.content then
      Done(t, EMPTY_KEY)
    else
      var c := l.content[id];
      var (l1, _) :- SubUnlocked(t, sender, c.royalty);
      var (l2, _) :- AddUnlocked(l1, c.owner, c.royalty, false);
      Done(l2, c.owner)
  }
}
