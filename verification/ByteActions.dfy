/**
 The actions, the authorization checks, genesis and one transaction as they run on the byte
 database, step by step with early returns. Each is proved to do to the typed view exactly
 what its specification on the ledger does, partial writes of a failing step included.
 */
module ByteActions {
  import opened Base
  import opened Codec
  import opened ByteStore
  import opened Wrappers
  import S = Storage
  import A = Actions
  import T = Transactions
  import F = Footprint
  import U = Undeclared
  import L = Lockup
  import G = Genesis
  import C = Conservation

  // ----- Authorization -----

  method Authorized(db: Database, action: A.Action, actor: PublicKey, signer: PublicKey, actorPays: bool)
    returns (err: Option<S.Error>)
    requires db.Valid()
    modifies db
    ensures db.Valid()
    ensures var s := A.Authorized(old(db.view), action, S.Grant(actor, signer), actorPays);
      db.view == s.ledger && err == ErrorOf(s)
  {
    var actionPerms, miscPerms := db.GetPermissions(actor, signer);
    if !CheckBit(actionPerms, A.ActionIndex(action)) {
      return Some(S.ErrNotAllowed);
    }
    if actorPays && !CheckBit(miscPerms, A.ACTOR_PAYS_BIT) {
      return Some(S.ErrNotAllowed);
    }
    return None;
  }

  method Verify(db: Database, auth: A.Auth, action: A.Action) returns (err: Option<S.Error>)
    requires db.Valid()
    modifies db
    ensures db.Valid()
    ensures var s := A.Verify(old(db.view), auth, action); db.view == s.ledger && err == ErrorOf(s)
  {
    match auth
    case Direct(signer) =>
      err := Authorized(db, action, signer, signer, true);
    case Delegate(actor, signer, actorPays) =>
      if actor == signer {
        return Some(S.ErrActorEqualsSigner);
      }
      err := Authorized(db, action, actor, signer, actorPays);
  }

  method CanDeduct(db: Database, auth: A.Auth, amount: uint64) returns (err: Option<S.Error>)
    requires db.Valid()
    modifies db
    ensures db.Valid() && db.view == S.Touch(old(db.view), S.BalanceKey(A.Payer(auth)))
    ensures err.None? <==> A.CanDeduct(old(db.view), auth, amount)
    ensures err == ErrorOf(A.Deduct(old(db.view), auth, amount))
  {
    var u, _ := db.GetBalance(A.Payer(auth));
    if u < amount {
      return Some(S.ErrInvalidBalance);
    }
    return None;
  }

  method Deduct(db: Database, auth: A.Auth, amount: uint64) returns (err: Option<S.Error>)
    requires db.Valid()
    modifies db
    ensures db.Valid()
    ensures var s := A.Deduct(old(db.view), auth, amount); db.view == s.ledger && err == ErrorOf(s)
  {
    err := db.SubUnlockedBalance(A.Payer(auth), amount);
  }

  method Refund(db: Database, auth: A.Auth, amount: uint64) returns (paid: bool, err: Option<S.Error>)
    requires db.Valid()
    modifies db
    ensures db.Valid()
    ensures var s := A.Refund(old(db.view), auth, amount);
      db.view == s.ledger && err == ErrorOf(s) && (s.Done? ==> paid == s.value)
  {
    paid, err := db.AddUnlockedBalance(A.Payer(auth), amount, true);
  }

  // ----- Execution -----

  method CreateAccount(db: Database, r: A.Rules, pk: PublicKey) returns (err: Option<S.Error>)
    requires db.Valid()
    modifies db
    ensures db.Valid()
    ensures var s := A.CreateAccount(r, old(db.view), pk); db.view == s.ledger && err == ErrorOf(s)
  {
    err := db.LockBalance(pk, WrappingAdd(r.stateLockup, r.stateLockup));
    if err.Some? {
      return;
    }
    db.SetPermissions(pk, pk, MAX_UINT8, MAX_UINT8);
  }

  method ExecuteAuthorize(db: Database, r: A.Rules, actor: PublicKey, a: A.Action) returns (err: Option<S.Error>)
    requires db.Valid() && a.Authorize?
    modifies db
    ensures db.Valid()
    ensures var s := A.ExecuteAuthorize(r, old(db.view), actor, a); db.view == s.ledger && err == ErrorOf(s)
  {
    if actor != a.actor {
      return Some(S.OutputActorMismatch);
    }
    var action, misc := db.GetPermissions(a.actor, a.signer);
    if action == a.permissions.action && misc == a.permissions.misc {
      return Some(S.OutputPermissionsUseless);
    }
    if action == 0 && misc == 0 {
      err := db.LockBalance(a.actor, r.stateLockup);
      if err.Some? {
        return;
      }
      db.SetPermissions(a.actor, a.signer, a.permissions.action, a.permissions.misc);
    } else if a.permissions.action == 0 && a.permissions.misc == 0 {
      err := db.UnlockBalance(a.actor, r.stateLockup);
      if err.Some? {
        return;
      }
      db.DeletePermissions(a.actor, a.signer);
    } else {
      db.SetPermissions(a.actor, a.signer, a.permissions.action, a.permissions.misc);
    }
    return None;
  }

  method ExecuteTransfer(db: Database, r: A.Rules, actor: PublicKey, to: PublicKey, value: uint64)
    returns (err: Option<S.Error>)
    requires db.Valid()
    modifies db
    ensures db.Valid()
    ensures var s := A.ExecuteTransfer(r, old(db.view), actor, to, value); db.view == s.ledger && err == ErrorOf(s)
  {
    if value == 0 {
      return Some(S.OutputValueZero);
    }
    err := db.SubUnlockedBalance(actor, value);
    if err.Some? {
      return;
    }
    var alreadyExists, e := db.AddUnlockedBalance(to, value, false);
    if e.Some? {
      return e;
    }
    if alreadyExists {
      return None;
    }
    err := CreateAccount(db, r, to);
  }

  method ExecuteClear(db: Database, r: A.Rules, actor: PublicKey, signer: PublicKey, to: PublicKey)
    returns (err: Option<S.Error>)
    requires db.Valid()
    modifies db
    ensures db.Valid()
    ensures var s := A.ExecuteClear(r, old(db.view), actor, signer, to); db.view == s.ledger && err == ErrorOf(s)
  {
    var u, l := db.GetBalance(actor);
    if l == 0 {
      return Some(S.OutputInvalidBalance);
    }
    if l != WrappingAdd(r.stateLockup, r.stateLockup) {
      return Some(S.OutputAccountNotEmpty);
    }
    db.DeleteBalance(actor);
    db.DeletePermissions(actor, signer);
    var alreadyExists, e := db.AddUnlockedBalance(to, WrappingAdd(u, l), false);
    if e.Some? {
      return e;
    }
    if alreadyExists {
      return None;
    }
    err := CreateAccount(db, r, to);
  }

  method PayParent(db: Database, actor: PublicKey, a: A.Action) returns (err: Option<S.Error>)
    requires db.Valid() && a.Index?
    modifies db
    ensures db.Valid()
    ensures var s := A.PayParent(old(db.view), actor, a); db.view == s.ledger && err == ErrorOf(s)
  {
    if a.parent != EMPTY_ID {
      var owner, e := db.RewardSearcher(a.parent, actor);
      if e.Some? {
        return e;
      }
      if owner != a.searcher {
        return Some(S.OutputWrongOwner);
      }
    } else if a.searcher != EMPTY_KEY {
      return Some(S.OutputInvalidObject);
    }
    return None;
  }

  method RegisterContent(db: Database, r: A.Rules, actor: PublicKey, a: A.Action) returns (err: Option<S.Error>)
    requires db.Valid() && a.Index?
    modifies db
    ensures db.Valid()
    ensures var s := A.RegisterContent(r, old(db.view), actor, a); db.view == s.ledger && err == ErrorOf(s)
  {
    if a.royalty > 0 {
      err := db.IndexContent(A.ContentID(r, a), actor, a.royalty);
      if err.Some? {
        return;
      }
      err := db.LockBalance(actor, r.stateLockup);
    } else {
      err := None;
    }
  }

  method PayServicer(db: Database, actor: PublicKey, a: A.Action) returns (err: Option<S.Error>)
    requires db.Valid() && a.Index?
    modifies db
    ensures db.Valid()
    ensures var s := A.PayServicer(old(db.view), actor, a); db.view == s.ledger && err == ErrorOf(s)
  {
    if a.servicer == EMPTY_KEY {
      if a.commission > 0 {
        return Some(S.OutputInvalidObject);
      }
      return None;
    }
    if a.commission == 0 {
      return None;
    }
    err := db.SubUnlockedBalance(actor, a.commission);
    if err.Some? {
      return;
    }
    var found, e := db.AddUnlockedBalance(a.servicer, a.commission, false);
    if e.Some? {
      return e;
    }
    if !found {
      return Some(S.OutputServicerMissing);
    }
    return None;
  }

  method ExecuteIndex(db: Database, r: A.Rules, actor: PublicKey, a: A.Action) returns (err: Option<S.Error>)
    requires db.Valid() && a.Index?
    modifies db
    ensures db.Valid()
    ensures var s := A.ExecuteIndex(r, old(db.view), actor, a); db.view == s.ledger && err == ErrorOf(s)
  {
    if a.schema == EMPTY_ID {
      return Some(S.OutputInvalidSchema);
    }
    if |a.body| > A.MAX_CONTENT_SIZE {
      return Some(S.OutputInvalidContent);
    }
    err := PayParent(db, actor, a);
    if err.Some? {
      return;
    }
    err := RegisterContent(db, r, actor, a);
    if err.Some? {
      return;
    }
    err := PayServicer(db, actor, a);
  }

  method ExecuteUnindex(db: Database, r: A.Rules, actor: PublicKey, id: ID) returns (err: Option<S.Error>)
    requires db.Valid()
    modifies db
    ensures db.Valid()
    ensures var s := A.ExecuteUnindex(r, old(db.view), actor, id); db.view == s.ledger && err == ErrorOf(s)
  {
    if id == EMPTY_ID {
      return Some(S.OutputInvalidContent);
    }
    err := db.UnindexContent(id, actor);
    if err.Some? {
      return;
    }
    err := db.UnlockBalance(actor, r.stateLockup);
  }

  method ExecuteModify(db: Database, actor: PublicKey, id: ID, royalty: uint64) returns (err: Option<S.Error>)
    requires db.Valid()
    modifies db
    ensures db.Valid()
    ensures var s := A.ExecuteModify(old(db.view), actor, id, royalty); db.view == s.ledger && err == ErrorOf(s)
  {
    if id == EMPTY_ID {
      return Some(S.OutputContentEmpty);
    }
    if royalty == 0 {
      return Some(S.OutputInvalidObject);
    }
    var owner, oldRoyalty, found := db.GetContent(id);
    if !found {
      return Some(S.OutputContentMissing);
    }
    if owner != actor {
      return Some(S.OutputWrongOwner);
    }
    if oldRoyalty == royalty {
      return Some(S.OutputInvalidObject);
    }
    db.SetContent(id, actor, royalty);
    return None;
  }

  method Execute(db: Database, r: A.Rules, auth: A.Auth, a: A.Action) returns (err: Option<S.Error>)
    requires db.Valid()
    modifies db
    ensures db.Valid()
    ensures var s := A.Execute(r, old(db.view), auth, a); db.view == s.ledger && err == ErrorOf(s)
  {
    var actor := A.Actor(auth);
    match a
    case Authorize(_, _, _) => err := ExecuteAuthorize(db, r, actor, a);
    case Transfer(to, value) => err := ExecuteTransfer(db, r, actor, to, value);
    case Clear(to) => err := ExecuteClear(db, r, actor, auth.signer, to);
    case Index(_, _, _, _, _, _, _) => err := ExecuteIndex(db, r, actor, a);
    case Unindex(id) => err := ExecuteUnindex(db, r, actor, id);
    case Modify(id, royalty) => err := ExecuteModify(db, actor, id, royalty);
  }

  // ----- Declared keys -----

  /** The keys the authorization names: the fee payer's balance and the record it uses. */
  method AuthStateKeys(auth: A.Auth) returns (keys: seq<Bytes>)
    ensures (set k | k in keys) == Image(A.AuthKeys(auth))
  {
    match auth {
      case Direct(signer) =>
        keys := [PrefixBalanceKey(signer), PrefixPermissionsKey(signer, signer)];
      case Delegate(actor, signer, actorPays) =>
        keys := [PrefixBalanceKey(if actorPays then actor else signer), PrefixPermissionsKey(actor, signer)];
    }
    ghost var typed := [S.BalanceKey(A.Payer(auth)), S.PermissionsKey(S.Grant(A.Actor(auth), auth.signer))];
    assert (set k | k in typed) == A.AuthKeys(auth);
    EncodedKeys(typed, keys);
  }

  lemma AppendKey(keys: seq<Bytes>, ks: set<S.Key>, k: S.Key)
    requires (set b | b in keys) == Image(ks)
    ensures (set b | b in keys + [KeyBytes(k)]) == Image(ks + {k})
  {
    ImageAdd(ks, k);
    assert (set b | b in keys + [KeyBytes(k)]) == (set b | b in keys) + {KeyBytes(k)};
  }

  method IndexStateKeys(r: A.Rules, auth: A.Auth, a: A.Action) returns (keys: seq<Bytes>)
    requires a.Index?
    ensures (set k | k in keys) == Image(A.ActionKeys(r, auth, a))
  {
    var actor := A.Actor(auth);
    keys := [PrefixBalanceKey(actor)];
    ghost var ks := {S.BalanceKey(actor)};
    EncodedKeys([S.BalanceKey(actor)], keys);
    assert (set k | k in [S.BalanceKey(actor)]) == ks;
    if a.parent != EMPTY_ID {
      AppendKey(keys, ks, S.ContentKey(a.parent));
      keys, ks := keys + [PrefixContentKey(a.parent)], ks + {S.ContentKey(a.parent)};
      if a.searcher != EMPTY_KEY {
        AppendKey(keys, ks, S.BalanceKey(a.searcher));
        keys, ks := keys + [PrefixBalanceKey(a.searcher)], ks + {S.BalanceKey(a.searcher)};
      }
    }
    if a.royalty > 0 {
      AppendKey(keys, ks, S.ContentKey(A.ContentID(r, a)));
      keys, ks := keys + [PrefixContentKey(A.ContentID(r, a))], ks + {S.ContentKey(A.ContentID(r, a))};
    }
    if a.servicer != EMPTY_KEY && a.commission > 0 {
      AppendKey(keys, ks, S.BalanceKey(a.servicer));
      keys, ks := keys + [PrefixBalanceKey(a.servicer)], ks + {S.BalanceKey(a.servicer)};
    }
    assert ks == A.ActionKeys(r, auth, a);
  }

  /** The keys an action names before it runs. */
  method StateKeys(r: A.Rules, auth: A.Auth, a: A.Action) returns (keys: seq<Bytes>)
    ensures (set k | k in keys) == Image(A.ActionKeys(r, auth, a))
  {
    if a.Index? {
      keys := IndexStateKeys(r, auth, a);
      return;
    }
    var actor := A.Actor(auth);
    ghost var typed;
    match a {
      case Authorize(granter, signer, _) =>
        keys := [PrefixPermissionsKey(granter, signer)];
        typed := [S.PermissionsKey(S.Grant(granter, signer))];
      case Transfer(to, _) =>
        keys := [PrefixBalanceKey(actor), PrefixBalanceKey(to), PrefixPermissionsKey(to, to)];
        typed := [S.BalanceKey(actor), S.BalanceKey(to), S.PermissionsKey(S.Grant(to, to))];
      case Clear(to) =>
        keys := [PrefixBalanceKey(actor), PrefixBalanceKey(to)];
        typed := [S.BalanceKey(actor), S.BalanceKey(to)];
      case Unindex(id) =>
        keys := [PrefixBalanceKey(actor), PrefixContentKey(id)];
        typed := [S.BalanceKey(actor), S.ContentKey(id)];
      case Modify(id, _) =>
        keys := [PrefixContentKey(id)];
        typed := [S.ContentKey(id)];
    }
    assert (set k | k in typed) == A.ActionKeys(r, auth, a);
    EncodedKeys(typed, keys);
  }

  lemma EncodedKeys(typed: seq<S.Key>, keys: seq<Bytes>)
    requires |typed| == |keys| && forall i :: 0 <= i < |keys| ==> keys[i] == KeyBytes(typed[i])
    ensures (set k | k in keys) == Image(set k | k in typed)
  {
    var ts := set k | k in typed;
    forall b | b in keys ensures b in Image(ts) {
      var i :| 0 <= i < |keys| && keys[i] == b;
      assert typed[i] in ts;
    }
    forall b | b in Image(ts) ensures b in keys {
      var k :| k in ts && KeyBytes(k) == b;
      var i :| 0 <= i < |typed| && typed[i] == k;
      assert keys[i] == b;
    }
  }

  // ----- Genesis -----

  method Load(db: Database, r: A.Rules, allocs: seq<T.Allocation>) returns (err: Option<S.Error>)
    requires db.Valid()
    modifies db
    ensures db.Valid()
    ensures var s := T.Load(r, old(db.view), allocs); db.view == s.ledger && err == ErrorOf(s)
  {
    var i := 0;
    while i < |allocs|
      invariant 0 <= i <= |allocs|
      invariant db.Valid()
      invariant T.Load(r, db.view, allocs[i..]) == T.Load(r, old(db.view), allocs)
    {
      assert allocs[i..][0] == allocs[i] && allocs[i..][1..] == allocs[i + 1..];
      var _, e := db.AddUnlockedBalance(allocs[i].address, allocs[i].balance, false);
      if e.Some? {
        return e;
      }
      err := CreateAccount(db, r, allocs[i].address);
      if err.Some? {
        return;
      }
      i := i + 1;
    }
    return None;
  }

  // ----- One transaction -----

  datatype Outcome = Applied(success: bool, refunded: bool) | Rejected(error: S.Error)

  method Charge(db: Database, tx: T.Transaction) returns (err: Option<S.Error>)
    requires db.Valid()
    modifies db
    ensures db.Valid()
    ensures var s := T.Charge(old(db.view), tx); db.view == s.ledger && err == ErrorOf(s)
  {
    TouchRepresents(db.store, db.view, db.view.(touched := {}));
    db.view := db.view.(touched := {});
    db.accessed := {};
    err := Verify(db, tx.auth, tx.action);
    if err.Some? {
      return;
    }
    err := Deduct(db, tx.auth, tx.maxFee);
  }

  method ExecuteOrRollback(db: Database, r: A.Rules, auth: A.Auth, a: A.Action) returns (success: bool)
    requires db.Valid()
    modifies db
    ensures db.Valid()
    ensures var e := A.Execute(r, old(db.view), auth, a);
      db.view == T.Commit(old(db.view), e) && success == e.Done?
  {
    var charged := db.store;
    ghost var chargedView := db.view;
    var err := Execute(db, r, auth, a);
    if err.Some? {
      db.Rollback(charged, chargedView);
    }
    success := err.None?;
  }

  /** `o` is what the typed outcome `s` reports, and `view` the ledger it leaves if applied. */
  ghost predicate Reports(s: T.Outcome, o: Outcome, view: S.Ledger) {
    match s
    case Applied(l, success, refunded) => view == l && o == Applied(success, refunded)
    case Rejected(_, error) => o == Rejected(error)
  }

  method RefundUnused(db: Database, tx: T.Transaction, success: bool,
    ghost start: S.Ledger, ghost charged: S.Ledger, ghost e: S.Step<()>) returns (o: Outcome)
    requires db.Valid() && db.view == T.Commit(charged, e) && success == e.Done?
    modifies db
    ensures db.Valid() && Reports(T.Settle(start, charged, e, tx), o, db.view)
  {
    var paid, err := Refund(db, tx.auth, tx.maxFee - tx.fee);
    o := if err.None? then Applied(success, paid) else Rejected(err.value);
  }

  method ExecuteAndRefund(db: Database, r: A.Rules, tx: T.Transaction, ghost start: S.Ledger) returns (o: Outcome)
    requires db.Valid()
    modifies db
    ensures db.Valid()
    ensures Reports(T.Settle(start, old(db.view), A.Execute(r, old(db.view), tx.auth, tx.action), tx), o, db.view)
  {
    ghost var charged := db.view;
    var success := ExecuteOrRollback(db, r, tx.auth, tx.action);
    o := RefundUnused(db, tx, success, start, charged, A.Execute(r, charged, tx.auth, tx.action));
  }

  /** The driver's treatment of a transaction. A rejected transaction leaves the bytes as
      they were; a failed action leaves only its fee. */
  method Apply(db: Database, r: A.Rules, tx: T.Transaction) returns (o: Outcome)
    requires db.Valid()
    modifies db
    ensures db.Valid()
    ensures Reports(T.Apply(r, old(db.view), tx), o, db.view)
    ensures o.Rejected? ==> db.store == old(db.store) && db.view == old(db.view)
  {
    var start := db.store;
    ghost var startView, startAccessed := db.view, db.accessed;
    var err := Charge(db, tx);
    if err.Some? {
      o := Rejected(err.value);
    } else {
      o := ExecuteAndRefund(db, r, tx, startView);
    }
    if o.Rejected? {
      db.store, db.view, db.accessed := start, startView, startAccessed;
    }
  }

  /** Accesses are checked on bytes: the byte keys a transaction that succeeds touches are
      among the byte keys it declared exactly when the typed condition holds. */
  lemma ByteFootprintExact(r: A.Rules, l: S.Ledger, tx: T.Transaction)
    requires T.Apply(r, l, tx).Applied? && T.Apply(r, l, tx).success
    ensures Image(T.Apply(r, l, tx).ledger.touched) <= Image(F.Declared(r, tx))
      <==> F.WithinDeclared(l, tx.auth, tx.action)
  {
    F.FootprintExact(r, l, tx);
    ImageSubset(T.Apply(r, l, tx).ledger.touched, F.Declared(r, tx));
  }

  /** A transaction that goes beyond its typed keys goes beyond its byte keys. */
  lemma BeyondOnBytes(r: A.Rules, l: S.Ledger, tx: T.Transaction)
    requires U.GoesBeyond(r, l, tx)
    ensures !(Image(T.Apply(r, l, tx).ledger.touched) <= Image(F.Declared(r, tx)))
  {
    ImageSubset(T.Apply(r, l, tx).ledger.touched, F.Declared(r, tx));
  }

  method Run(db: Database, r: A.Rules, txs: seq<T.Transaction>)
    requires db.Valid()
    modifies db
    ensures db.Valid() && db.view == T.Run(r, old(db.view), txs)
  {
    var i := 0;
    while i < |txs|
      invariant 0 <= i <= |txs|
      invariant db.Valid()
      invariant T.Run(r, db.view, txs[i..]) == T.Run(r, old(db.view), txs)
    {
      assert txs[i..][0] == txs[i] && txs[i..][1..] == txs[i + 1..];
      var _ := Apply(db, r, txs[i]);
      i := i + 1;
    }
  }

  /** The chain from genesis on, over bytes: after any transactions the stored bytes represent
      a ledger that keeps the lockup invariant and whose supply and burned fees add up to what
      genesis allocated. */
  method Chain(r: A.Rules, allocs: seq<T.Allocation>, txs: seq<T.Transaction>)
    returns (db: Database, err: Option<S.Error>)
    ensures fresh(db) && db.Valid()
    ensures err == ErrorOf(T.Load(r, T.EMPTY_LEDGER, allocs))
    ensures err.None? ==> db.view == T.Run(r, T.Load(r, T.EMPTY_LEDGER, allocs).ledger, txs)
    ensures err.None? && L.ValidRules(r) && G.Distinct(allocs) ==> L.LockupInvariant(r.stateLockup, db.view)
    ensures err.None? && C.Allocated(allocs) < TWO_64 ==>
      C.Supply(db.view) + C.RunBurned(r, T.Load(r, T.EMPTY_LEDGER, allocs).ledger, txs) == C.Allocated(allocs)
  {
    db := new Database();
    err := Load(db, r, allocs);
    if err.Some? {
      return;
    }
    ghost var start := db.view;
    Run(db, r, txs);
    if L.ValidRules(r) && G.Distinct(allocs) {
      G.GenesisLockup(r, allocs);
      L.RunKeeps(r, start, txs);
    }
    if C.Allocated(allocs) < TWO_64 {
      C.GenesisConserves(r, allocs, txs);
    }
  }
}
