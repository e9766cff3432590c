/** The six IndexVM actions and the two authorization forms, as functions on the ledger. */
module Actions {
  import opened Base
  import opened Storage

  const MAX_CONTENT_SIZE := 1_600
  const ACTOR_PAYS_BIT := 0

  /** The chain rules an action reads, and the digest that names content. */
  datatype Rules = Rules(stateLockup: uint64, contentID: (ID, Bytes) -> ID)

  datatype Action =
    | Authorize(actor: PublicKey, signer: PublicKey, permissions: Permissions)
    | Transfer(to: PublicKey, value: uint64)
    | Clear(to: PublicKey)
    | Index(schema: ID, body: Bytes, royalty: uint64, parent: ID,
            searcher: PublicKey, servicer: PublicKey, commission: uint64)
    | Unindex(id: ID)
    | Modify(id: ID, newRoyalty: uint64)

  datatype Auth =
    | Direct(signer: PublicKey)
    | Delegate(onBehalfOf: PublicKey, signer: PublicKey, actorPays: bool)

  function ContentID(r: Rules, a: Action): ID
    requires a.Index?
  {
    r.contentID(a.parent, a.body)
  }

  function Actor(auth: Auth): PublicKey {
    match auth
    case Direct(signer) => signer
    case Delegate(actor, _, _) => actor
  }

  function Payer(auth: Auth): PublicKey {
    match auth
    case Direct(signer) => signer
    case Delegate(actor, signer, actorPays) => if actorPays then actor else signer
  }

  /** The order in which the controller registers the actions. */
  function ActionIndex(a: Action): (i: nat)
    ensures i <= 5
  {
    match a
    case Authorize(_, _, _) => 0
    case Transfer(_, _) => 1
    case Clear(_) => 2
    case Index(_, _, _, _, _, _, _) => 3
    case Unindex(_) => 4
    case Modify(_, _) => 5
  }

  // ----- Authorization -----

  function Authorized(l: Ledger, a: Action, g: Grant, actorPays: bool): Step<()> {
    var p := PermissionsOf(l, g);
    var t := Touch(l, PermissionsKey(g));
    if !CheckBit(p.action, ActionIndex(a)) then Failed(t, ErrNotAllowed)
    else if actorPays && !CheckBit(p.misc, ACTOR_PAYS_BIT) then Failed(t, ErrNotAllowed)
    else Done(t, ())
  }

  function Verify(l: Ledger, auth: Auth, a: Action): Step<()> {
    match auth
    case Direct(signer) => Authorized(l, a, Grant(signer, signer), true)
    case Delegate(actor, signer, actorPays) =>
      if actor == signer then Failed(l, ErrActorEqualsSigner)
      else Authorized(l, a, Grant(actor, signer), actorPays)
  }

  predicate CanDeduct(l: Ledger, auth: Auth, amount: uint64) {
    BalanceOf(l, Payer(auth)).unlocked >= amount
  }

  function Deduct(l: Ledger, auth: Auth, amount: uint64): Step<()> {
    SubUnlocked(l, Payer(auth), amount)
  }

  /** A refund to an account that is gone is discarded; the value tells whether it was paid. */
  function Refund(l: Ledger, auth: Auth, amount: uint64): Step<bool> {
    AddUnlocked(l, Payer(auth), amount, true)
  }

  // ----- Execution -----

  /** Locks the state cost of a new account and gives it its default permissions. */
  function CreateAccount(r: Rules, l: Ledger, pk: PublicKey): Step<()> {
    var (l1, _) :- LockBalance(l, pk, WrappingAdd(r.stateLockup, r.stateLockup));
    Done(SetPermissions(l1, Grant(pk, pk), DEFAULT_PERMISSIONS), ())
  }

  /** Pays `amount` to `to`, creating its account if there is none. */
  function PayOrCreate(r: Rules, l: Ledger, to: PublicKey, amount: uint64): Step<()> {
    var (l1, alreadyExists) :- AddUnlocked(l, to, amount, false);
    if alreadyExists then Done(l1, ()) else CreateAccount(r, l1, to)
  }

  function ExecuteAuthorize(r: Rules, l: Ledger, actor: PublicKey, a: Action): Step<()>
    requires a.Authorize?
  {
    if actor != a.actor then
      Failed(l, OutputActorMismatch)
    else
      var g := Grant(a.actor, a.signer);
      var p := PermissionsOf(l, g);
      var l1 := Touch(l, PermissionsKey(g));
      if p == a.permissions then
        Failed(l1, OutputPermissionsUseless)
      else if p == NO_PERMISSIONS then
        var (l2, _) :- LockBalance(l1, a.actor, r.stateLockup);
        Done(SetPermissions(l2, g, a.permissions), ())
      else if a.permissions == NO_PERMISSIONS then
        var (l2, _) :- UnlockBalance(l1, a.actor, r.stateLockup);
        Done(DeletePermissions(l2, g), ())
      else
        Done(SetPermissions(l1, g, a.permissions), ())
  }

  function ExecuteTransfer(r: Rules, l: Ledger, actor: PublicKey, to: PublicKey, value: uint64): Step<()> {
    if value == 0 then
      Failed(l, OutputValueZero)
    else
      var (l1, _) :- SubUnlocked(l, actor, value);
      PayOrCreate(r, l1, to, value)
  }

  /** The account that granted `g` without its balance and without that record. */
  function Emptied(l: Ledger, g: Grant): Ledger {
    DeletePermissions(DeleteBalance(l, g.actor), g)
  }

  function ExecuteClear(r: Rules, l: Ledger, actor: PublicKey, signer: PublicKey, to: PublicKey): Step<()> {
    var b := BalanceOf(l, actor);
    var l1 := Touch(l, BalanceKey(actor));
    if b.locked == 0 then
      Failed(l1, OutputInvalidBalance)
    else if b.locked != WrappingAdd(r.stateLockup, r.stateLockup) then
      Failed(l1, OutputAccountNotEmpty)
    else
      PayOrCreate(r, Emptied(l1, Grant(actor, signer)), to, WrappingAdd(b.unlocked, b.locked))
  }

  /** The royalty owed to the parent's owner, who must be the named searcher. */
  function PayParent(l: Ledger, actor: PublicKey, a: Action): Step<()>
    requires a.Index?
  {
    if a.parent != EMPTY_ID then
      var (l1, owner) :- RewardSearcher(l, a.parent, actor);
      if owner != a.searcher then Failed(l1, OutputWrongOwner) else Done(l1, ())
    else if a.searcher != EMPTY_KEY then
      Failed(l, OutputInvalidObject)
    else
      Done(l, ())
  }

  /** Content with a royalty is registered to the actor, who locks its state cost. */
  function RegisterContent(r: Rules, l: Ledger, actor: PublicKey, a: Action): Step<()>
    requires a.Index?
  {
    if a.royalty > 0 then
      var (l1, _) :- IndexContent(l, ContentID(r, a), actor, a.royalty);
      LockBalance(l1, actor, r.stateLockup)
    else
      Done(l, ())
  }

  /** The commission owed to the servicer, whose account must exist. */
  function PayServicer(l: Ledger, actor: PublicKey, a: Action): Step<()>
    requires a.Index?
  {
    if a.servicer == EMPTY_KEY then
      if a.commission > 0 then Failed(l, OutputInvalidObject) else Done(l, ())
    else if a.commission == 0 then
      Done(l, ())
    else
      var (l1, _) :- SubUnlocked(l, actor, a.commission);
      var (l2, found) :- AddUnlocked(l1, a.servicer, a.commission, false);
      if !found then Failed(l2, OutputServicerMissing) else Done(l2, ())
  }

  function ExecuteIndex(r: Rules, l: Ledger, actor: PublicKey, a: Action): Step<()>
    requires a.Index?
  {
    if a.schema == EMPTY_ID then
      Failed(l, OutputInvalidSchema)
    else if |a.body| > MAX_CONTENT_SIZE then
      Failed(l, OutputInvalidContent)
    else
      var (l1, _) :- PayParent(l, actor, a);
      var (l2, _) :- RegisterContent(r, l1, actor, a);
      PayServicer(l2, actor, a)
  }

  function ExecuteUnindex(r: Rules, l: Ledger, actor: PublicKey, id: ID): Step<()> {
    if id == EMPTY_ID then
      Failed(l, OutputInvalidContent)
    else
      var (l1, _) :- UnindexContent(l, id, actor);
      UnlockBalance(l1, actor, r.stateLockup)
  }

  function ExecuteModify(l: Ledger, actor: PublicKey, id: ID, royalty: uint64): Step<()> {
    if id == EMPTY_ID then
      Failed(l, OutputContentEmpty)
    else if royalty == 0 then
      Failed(l, OutputInvalidObject)
    else
      var t := Touch(l, ContentKey(id));
      if id !in l.content then Failed(t, OutputContentMissing)
      else if l.content[id].owner != actor then Failed(t, OutputWrongOwner)
      else if l.content[id].royalty == royalty then Failed(t, OutputInvalidObject)
      else Done(SetContent(t, id, Content(actor, royalty)), ())
  }

  function Execute(r: Rules, l: Ledger, auth: Auth, a: Action): Step<()> {
    match a
    case Authorize(_, _, _) => ExecuteAuthorize(r, l, Actor(auth), a)
    case Transfer(to, value) => ExecuteTransfer(r, l, Actor(auth), to, value)
    case Clear(to) => ExecuteClear(r, l, Actor(auth), auth.signer, to)
    case Index(_, _, _, _, _, _, _) => ExecuteIndex(r, l, Actor(auth), a)
    case Unindex(id) => ExecuteUnindex(r, l, Actor(auth), id)
    case Modify(id, royalty) => ExecuteModify(l, Actor(auth), id, royalty)
  }

  // ----- Declared keys -----

  function AuthKeys(auth: Auth): set<Key> {
    {BalanceKey(Payer(auth)), PermissionsKey(Grant(Actor(auth), auth.signer))}
  }

  function ActionKeys(r: Rules, auth: Auth, a: Action): set<Key> {
    var actor := Actor(auth);
    match a
    case Authorize(granter, signer, _) => {PermissionsKey(Grant(granter, signer))}
    case Transfer(to, _) => {BalanceKey(actor), BalanceKey(to), PermissionsKey(Grant(to, to))}
    case Clear(to) => {BalanceKey(actor), BalanceKey(to)}
    case Index(_, _, royalty, parent, searcher, servicer, commission) =>
      {BalanceKey(actor)}
      + (if parent != EMPTY_ID then {ContentKey(parent)} else {})
      + (if parent != EMPTY_ID && searcher != EMPTY_KEY then {BalanceKey(searcher)} else {})
      + (if royalty > 0 then {ContentKey(ContentID(r, a))} else {})
      + (if servicer != EMPTY_KEY && commission > 0 then {BalanceKey(servicer)} else {})
    case Unindex(id) => {BalanceKey(actor), ContentKey(id)}
    case Modify(id, _) => {ContentKey(id)}
  }
}
