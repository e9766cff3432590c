/**
 Declared state keys. A transaction names the keys it will touch before it runs; these
 lemmas say exactly when a transaction that succeeds stays within the keys it named.
 */
module Footprint {
  import opened Base
  import opened Storage
  import opened Actions
  import opened Transactions

  function Declared(r: Rules, tx: Transaction): set<Key> {
    AuthKeys(tx.auth) + ActionKeys(r, tx.auth, tx.action)
  }

  /** The parent's royalty goes to the empty key, which is never declared as searcher. */
  predicate PaysEmptyOwner(l: Ledger, a: Action)
    requires a.Index?
  {
    a.parent != EMPTY_ID && a.parent in l.content && l.content[a.parent].owner == EMPTY_KEY
  }

  /** A condition on the transaction and the state before it. */
  predicate WithinDeclared(l: Ledger, auth: Auth, a: Action) {
    var actor := Actor(auth);
    match a
    case Authorize(granter, signer, permissions) =>
      || Payer(auth) == actor
      || (PermissionsOf(l, Grant(granter, signer)) != NO_PERMISSIONS && permissions != NO_PERMISSIONS)
    case Transfer(_, _) => true
    case Clear(to) => (Exists(l, to) && to != actor) || (to == actor && actor == auth.signer)
    case Index(_, _, _, _, _, _, _) =>
      PaysEmptyOwner(l, a) ==> actor == EMPTY_KEY || Payer(auth) == EMPTY_KEY
    case Unindex(_) => true
    case Modify(_, _) => true
  }

  /** Who has to declare a given balance: the payer, the actor of every action that moves its
      funds, the recipient, the searcher of a parent and the servicer of a commission. */
  lemma DeclaresBalance(r: Rules, tx: Transaction, x: PublicKey)
    ensures var a, actor := tx.action, Actor(tx.auth);
      BalanceKey(x) in Declared(r, tx) <==>
        || x == Payer(tx.auth)
        || (x == actor && (a.Transfer? || a.Clear? || a.Index? || a.Unindex?))
        || ((a.Transfer? || a.Clear?) && x == a.to)
        || (a.Index? && x == a.searcher && x != EMPTY_KEY && a.parent != EMPTY_ID)
        || (a.Index? && x == a.servicer && x != EMPTY_KEY && a.commission > 0)
  {}

  /** Who has to declare a given record: whoever uses it to sign, and an action that may write
      it, which for Transfer is the record of the account it may open. */
  lemma DeclaresRecord(r: Rules, tx: Transaction, g: Grant)
    ensures var a := tx.action;
      PermissionsKey(g) in Declared(r, tx) <==>
        || g == Grant(Actor(tx.auth), tx.auth.signer)
        || (a.Authorize? && g == Grant(a.actor, a.signer))
        || (a.Transfer? && g == Grant(a.to, a.to))
  {}

  /** Who has to declare given content: an action that names it, and an object that would be
      registered under its digest. */
  lemma DeclaresContent(r: Rules, tx: Transaction, id: ID)
    ensures var a := tx.action;
      ContentKey(id) in Declared(r, tx) <==>
        || ((a.Unindex? || a.Modify?) && id == a.id)
        || (a.Index? && id == a.parent && id != EMPTY_ID)
        || (a.Index? && id == r.contentID(a.parent, a.body) && a.royalty > 0)
  {}

  /** The keys an action that succeeds from `l` touches. */
  function ExecuteKeys(r: Rules, l: Ledger, auth: Auth, a: Action): set<Key> {
    var actor := Actor(auth);
    match a
    case Authorize(granter, signer, permissions) =>
      {PermissionsKey(Grant(granter, signer))}
      + (if PermissionsOf(l, Grant(granter, signer)) == NO_PERMISSIONS || permissions == NO_PERMISSIONS
         then {BalanceKey(actor)} else {})
    case Transfer(to, _) =>
      {BalanceKey(actor), BalanceKey(to)}
      + (if Exists(l, to) then {} else {PermissionsKey(Grant(to, to))})
    case Clear(to) =>
      {BalanceKey(actor), PermissionsKey(Grant(actor, auth.signer)), BalanceKey(to)}
      + (if to != actor && Exists(l, to) then {} else {PermissionsKey(Grant(to, to))})
    case Index(_, _, _, parent, _, _, _) =>
      ParentKeys(l, actor, parent) + RegisterKeys(r, actor, a) + ServicerKeys(actor, a)
    case Unindex(id) => {ContentKey(id), BalanceKey(actor)}
    case Modify(id, _) => {ContentKey(id)}
  }

  function ParentKeys(l: Ledger, actor: PublicKey, parent: ID): set<Key> {
    if parent == EMPTY_ID then {}
    else if parent !in l.content then {ContentKey(parent)}
    else {ContentKey(parent), BalanceKey(actor), BalanceKey(l.content[parent].owner)}
  }

  function RegisterKeys(r: Rules, actor: PublicKey, a: Action): set<Key>
    requires a.Index?
  {
    if a.royalty > 0 then {ContentKey(ContentID(r, a)), BalanceKey(actor)} else {}
  }

  function ServicerKeys(actor: PublicKey, a: Action): set<Key>
    requires a.Index?
  {
    if a.servicer != EMPTY_KEY && a.commission > 0 then {BalanceKey(actor), BalanceKey(a.servicer)} else {}
  }

  lemma RegisterTouches(r: Rules, l: Ledger, actor: PublicKey, a: Action)
    requires a.Index? && RegisterContent(r, l, actor, a).Done?
    ensures RegisterContent(r, l, actor, a).ledger.touched == l.touched + RegisterKeys(r, actor, a)
  {}

  lemma ServicerTouches(l: Ledger, actor: PublicKey, a: Action)
    requires a.Index? && PayServicer(l, actor, a).Done?
    ensures PayServicer(l, actor, a).ledger.touched == l.touched + ServicerKeys(actor, a)
  {}

  lemma IndexTouches(r: Rules, l: Ledger, auth: Auth, a: Action)
    requires a.Index? && ExecuteIndex(r, l, Actor(auth), a).Done?
    ensures ExecuteIndex(r, l, Actor(auth), a).ledger.touched == l.touched + ExecuteKeys(r, l, auth, a)
    ensures a.parent != EMPTY_ID && a.parent in l.content ==> l.content[a.parent].owner == a.searcher
  {
    var actor := Actor(auth);
    var l1 := PayParent(l, actor, a).ledger;
    var l2 := RegisterContent(r, l1, actor, a).ledger;
    ParentTouches(l, actor, a);
    assert l2.touched == l1.touched + RegisterKeys(r, actor, a) by {
      RegisterTouches(r, l1, actor, a);
    }
    assert PayServicer(l2, actor, a).ledger.touched == l2.touched + ServicerKeys(actor, a) by {
      ServicerTouches(l2, actor, a);
    }
  }

  lemma ParentTouches(l: Ledger, actor: PublicKey, a: Action)
    requires a.Index? && PayParent(l, actor, a).Done?
    ensures PayParent(l, actor, a).ledger.touched == l.touched + ParentKeys(l, actor, a.parent)
    ensures a.parent != EMPTY_ID && a.parent in l.content ==> l.content[a.parent].owner == a.searcher
  {
    if a.parent != EMPTY_ID && a.parent in l.content {
      var c, t := l.content[a.parent], Touch(l, ContentKey(a.parent));
      var l1 := SubUnlocked(t, actor, c.royalty).ledger;
      assert PayParent(l, actor, a).ledger == AddUnlocked(l1, c.owner, c.royalty, false).ledger;
    }
  }

  lemma TransferTouches(r: Rules, l: Ledger, auth: Auth, to: PublicKey, value: uint64)
    requires ExecuteTransfer(r, l, Actor(auth), to, value).Done?
    ensures ExecuteTransfer(r, l, Actor(auth), to, value).ledger.touched
         == l.touched + ExecuteKeys(r, l, auth, Transfer(to, value))
  {}

  lemma ClearTouches(r: Rules, l: Ledger, auth: Auth, to: PublicKey)
    requires ExecuteClear(r, l, Actor(auth), auth.signer, to).Done?
    ensures ExecuteClear(r, l, Actor(auth), auth.signer, to).ledger.touched
         == l.touched + ExecuteKeys(r, l, auth, Clear(to))
  {}

  lemma ExecuteTouches(r: Rules, l: Ledger, auth: Auth, a: Action)
    requires Execute(r, l, auth, a).Done?
    ensures Execute(r, l, auth, a).ledger.touched == l.touched + ExecuteKeys(r, l, auth, a)
  {
    match a
    case Authorize(_, _, _) =>
    case Transfer(to, value) => TransferTouches(r, l, auth, to, value);
    case Clear(to) => ClearTouches(r, l, auth, to);
    case Index(_, _, _, _, _, _, _) => IndexTouches(r, l, auth, a);
    case Unindex(_) =>
    case Modify(_, _) =>
  }

  /** Verify, Deduct and Refund touch exactly the keys of the authorization. */
  lemma TransactionTouches(r: Rules, l: Ledger, tx: Transaction)
    requires Apply(r, l, tx).Applied? && Apply(r, l, tx).success
    ensures Apply(r, l, tx).ledger.touched ==
      AuthKeys(tx.auth) + ExecuteKeys(r, Charge(l, tx).ledger, tx.auth, tx.action)
  {
    var c := Charge(l, tx).ledger;
    ExecuteTouches(r, c, tx.auth, tx.action);
    ChargeTouches(l, tx);
    SettleTouches(l, c, Execute(r, c, tx.auth, tx.action), tx);
  }

  lemma ChargeTouches(l: Ledger, tx: Transaction)
    requires Charge(l, tx).Done?
    ensures Charge(l, tx).ledger.touched == AuthKeys(tx.auth)
    ensures Charge(l, tx).ledger.permissions == l.permissions && Charge(l, tx).ledger.content == l.content
    ensures forall x :: Exists(Charge(l, tx).ledger, x) == Exists(l, x)
    ensures tx.auth.Delegate? ==> tx.auth.onBehalfOf != tx.auth.signer
  {}

  lemma SettleTouches(l: Ledger, c: Ledger, e: Step<()>, tx: Transaction)
    requires e.Done? && Settle(l, c, e, tx).Applied?
    ensures Settle(l, c, e, tx).ledger.touched == e.ledger.touched + {BalanceKey(Payer(tx.auth))}
  {}

  lemma IndexKeysWithin(r: Rules, l: Ledger, auth: Auth, a: Action)
    requires a.Index?
    requires a.parent != EMPTY_ID && a.parent in l.content ==> l.content[a.parent].owner == a.searcher
    ensures ExecuteKeys(r, l, auth, a) <= AuthKeys(auth) + ActionKeys(r, auth, a) <==> WithinDeclared(l, auth, a)
  {
    var keys, declared := ExecuteKeys(r, l, auth, a), AuthKeys(auth) + ActionKeys(r, auth, a);
    assert RegisterKeys(r, Actor(auth), a) <= declared;
    assert ServicerKeys(Actor(auth), a) <= declared;
    assert keys <= declared <==> ParentKeys(l, Actor(auth), a.parent) <= declared;
    if PaysEmptyOwner(l, a) {
      assert BalanceKey(EMPTY_KEY) in ParentKeys(l, Actor(auth), a.parent);
    }
  }

  lemma ClearKeysWithin(r: Rules, l: Ledger, auth: Auth, to: PublicKey)
    ensures ExecuteKeys(r, l, auth, Clear(to)) <= AuthKeys(auth) + ActionKeys(r, auth, Clear(to))
      <==> WithinDeclared(l, auth, Clear(to))
  {
    var keys := ExecuteKeys(r, l, auth, Clear(to));
    if !(to != Actor(auth) && Exists(l, to)) {
      assert PermissionsKey(Grant(to, to)) in keys;
    }
  }

  lemma KeysWithin(r: Rules, l: Ledger, auth: Auth, a: Action)
    requires a.Authorize? ==> a.actor == Actor(auth)
    requires a.Index? && a.parent != EMPTY_ID && a.parent in l.content ==> l.content[a.parent].owner == a.searcher
    ensures ExecuteKeys(r, l, auth, a) <= AuthKeys(auth) + ActionKeys(r, auth, a) <==> WithinDeclared(l, auth, a)
  {
    match a
    case Authorize(_, _, _) =>
    case Transfer(_, _) =>
    case Clear(to) => ClearKeysWithin(r, l, auth, to);
    case Index(_, _, _, _, _, _, _) => IndexKeysWithin(r, l, auth, a);
    case Unindex(_) =>
    case Modify(_, _) =>
  }

  /** The condition is decided by records, content and existence, which a charge keeps. */
  lemma WithinDeclaredStable(l: Ledger, c: Ledger, auth: Auth, a: Action)
    requires c.permissions == l.permissions && c.content == l.content
    requires forall x :: Exists(c, x) == Exists(l, x)
    ensures WithinDeclared(c, auth, a) == WithinDeclared(l, auth, a)
  {}

  lemma SucceededFacts(r: Rules, l: Ledger, auth: Auth, a: Action)
    requires Execute(r, l, auth, a).Done?
    ensures a.Authorize? ==> a.actor == Actor(auth)
    ensures a.Index? && a.parent != EMPTY_ID && a.parent in l.content ==> l.content[a.parent].owner == a.searcher
  {
    if a.Index? {
      ParentTouches(l, Actor(auth), a);
    }
  }

  /** A transaction that succeeds touches only the keys it declared if and only if the
      condition on its action and on the state before it holds. */
  lemma FootprintExact(r: Rules, l: Ledger, tx: Transaction)
    requires Apply(r, l, tx).Applied? && Apply(r, l, tx).success
    ensures Apply(r, l, tx).ledger.touched <= Declared(r, tx) <==> WithinDeclared(l, tx.auth, tx.action)
  {
    var c := Charge(l, tx).ledger;
    TransactionTouches(r, l, tx);
    ChargeTouches(l, tx);
    SucceededFacts(r, c, tx.auth, tx.action);
    KeysWithin(r, c, tx.auth, tx.action);
    WithinDeclaredStable(l, c, tx.auth, tx.action);
  }
}
