/**
 The lockup invariant: the locked part of every balance is an exact count of the state
 the account occupies, one unit of lockup for the balance itself, one for each permission
 record it granted and one for each content it owns.
 */
module Lockup {
  import opened Base
  import opened Storage
  import opened Actions
  import opened Transactions

  function Grants(p: map<Grant, Permissions>, a: PublicKey): set<Grant> {
    set g | g in p && g.actor == a
  }

  function Owned(c: map<ID, Content>, a: PublicKey): set<ID> {
    set id | id in c && c[id].owner == a
  }

  function Occupied(l: Ledger, a: PublicKey): nat {
    1 + |Grants(l.permissions, a)| + |Owned(l.content, a)|
  }

  /** The lockup of `n` pieces of state. */
  function Cost(lockup: nat, n: nat): nat {
    if n == 0 then 0 else Cost(lockup, n - 1) + lockup
  }

  lemma {:induction false} CostIsProduct(lockup: nat, n: nat)
    ensures Cost(lockup, n) == lockup * n
  {
    if n > 0 {
      CostIsProduct(lockup, n - 1);
      assert lockup * n == lockup * (n - 1) + lockup;
    }
  }

  lemma {:induction false} CostMonotone(lockup: nat, m: nat, n: nat)
    requires m <= n
    ensures Cost(lockup, m) <= Cost(lockup, n)
    ensures lockup > 0 && m < n ==> Cost(lockup, m) < Cost(lockup, n)
  {
    if m < n {
      CostMonotone(lockup, m, n - 1);
    }
  }

  lemma CostOfTwo(lockup: nat)
    ensures Cost(lockup, 2) == lockup * 2
  {
    assert Cost(lockup, 1) == lockup;
  }

  predicate AccountOk(lockup: nat, l: Ledger, a: PublicKey) {
    var b := BalanceOf(l, a);
    if b.locked == 0 then
      b.unlocked == 0 && Grants(l.permissions, a) == {} && Owned(l.content, a) == {}
    else
      b.locked == Cost(lockup, Occupied(l, a))
  }

  ghost predicate NoZeroGrant(l: Ledger) {
    forall g :: g in l.permissions ==> l.permissions[g] != NO_PERMISSIONS
  }

  ghost predicate LockupInvariant(lockup: nat, l: Ledger) {
    && (forall a :: AccountOk(lockup, l, a))
    && NoZeroGrant(l)
  }

  /** A lockup of zero, or one whose double wraps, defeats the bookkeeping. */
  predicate ValidRules(r: Rules) {
    0 < r.stateLockup && r.stateLockup * 2 < TWO_64
  }

  // ----- How single writes change the counted sets -----

  lemma GrantsAfterSet(p: map<Grant, Permissions>, g: Grant, v: Permissions, a: PublicKey)
    ensures Grants(p[g := v], a) == if a == g.actor then Grants(p, a) + {g} else Grants(p, a)
  {}

  lemma GrantsAfterDelete(p: map<Grant, Permissions>, g: Grant, a: PublicKey)
    ensures Grants(p - {g}, a) == Grants(p, a) - {g}
  {}

  lemma OwnedAfterAdd(c: map<ID, Content>, id: ID, v: Content, a: PublicKey)
    requires id !in c
    ensures Owned(c[id := v], a) == if a == v.owner then Owned(c, a) + {id} else Owned(c, a)
  {}

  lemma OwnedAfterReplace(c: map<ID, Content>, id: ID, v: Content, a: PublicKey)
    requires id in c && c[id].owner == v.owner
    ensures Owned(c[id := v], a) == Owned(c, a)
  {}

  lemma OwnedAfterRemove(c: map<ID, Content>, id: ID, a: PublicKey)
    ensures Owned(c - {id}, a) == Owned(c, a) - {id}
  {}

  /** An account with a permission record exists and locks at least two units. */
  lemma GrantingAccountExists(lockup: nat, l: Ledger, g: Grant)
    requires lockup > 0 && LockupInvariant(lockup, l)
    requires g in l.permissions
    ensures BalanceOf(l, g.actor).locked >= 2 * lockup > 0
  {
    var a := g.actor;
    assert AccountOk(lockup, l, a);
    assert g in Grants(l.permissions, a);
    assert {g} <= Grants(l.permissions, a);
    SubsetSize({g}, Grants(l.permissions, a));
    CostMonotone(lockup, 2, Occupied(l, a));
  }

  lemma SubsetSize<T>(x: set<T>, y: set<T>)
    requires x <= y
    ensures |x| <= |y|
  {
    assert y == x + (y - x);
  }

  lemma OwnerExists(lockup: nat, l: Ledger, id: ID)
    requires lockup > 0 && LockupInvariant(lockup, l)
    requires id in l.content
    ensures Exists(l, l.content[id].owner)
  {
    var a := l.content[id].owner;
    assert AccountOk(lockup, l, a);
    assert id in Owned(l.content, a);
  }

  /** A permission that passes the check is a stored record. */
  lemma VerifiedGrantStored(l: Ledger, auth: Auth, a: Action)
    requires Verify(l, auth, a).Done?
    ensures Grant(Actor(auth), auth.signer) in l.permissions
    ensures CheckBit(l.permissions[Grant(Actor(auth), auth.signer)].action, ActionIndex(a))
    ensures Payer(auth) == Actor(auth) ==>
      CheckBit(l.permissions[Grant(Actor(auth), auth.signer)].misc, ACTOR_PAYS_BIT)
  {
    CheckBitExtremes(ActionIndex(a));
  }

  // ----- Every action keeps the invariant -----

  /** Moving unlocked funds between existing accounts keeps the invariant. */
  lemma UnlockedUpdateKeeps(lockup: nat, l: Ledger, pk: PublicKey, l': Ledger, u: uint64)
    requires LockupInvariant(lockup, l)
    requires l'.permissions == l.permissions && l'.content == l.content
    requires l'.balances == l.balances[pk := Balance(u, BalanceOf(l, pk).locked)]
    requires Exists(l, pk) || u == 0
    ensures LockupInvariant(lockup, l')
  {
    forall a ensures AccountOk(lockup, l', a) {
      assert AccountOk(lockup, l, a);
    }
  }

  lemma SubKeeps(lockup: nat, l: Ledger, pk: PublicKey, amount: uint64)
    requires LockupInvariant(lockup, l)
    ensures SubUnlocked(l, pk, amount).Done? ==> LockupInvariant(lockup, SubUnlocked(l, pk, amount).ledger)
  {
    assert AccountOk(lockup, l, pk);
    var s := SubUnlocked(l, pk, amount);
    if s.Done? {
      UnlockedUpdateKeeps(lockup, l, pk, s.ledger, BalanceOf(l, pk).unlocked - amount);
    }
  }

  lemma AddKeeps(lockup: nat, l: Ledger, pk: PublicKey, amount: uint64, dropIfGone: bool)
    requires LockupInvariant(lockup, l)
    requires Exists(l, pk) || dropIfGone
    ensures AddUnlocked(l, pk, amount, dropIfGone).Done? ==>
      LockupInvariant(lockup, AddUnlocked(l, pk, amount, dropIfGone).ledger)
  {
    var s := AddUnlocked(l, pk, amount, dropIfGone);
    if s.Done? {
      if Exists(l, pk) {
        UnlockedUpdateKeeps(lockup, l, pk, s.ledger, BalanceOf(l, pk).unlocked + amount);
      } else {
        TouchKeeps(lockup, l, s.ledger);
      }
    }
  }

  /** The invariant does not depend on which keys were accessed. */
  lemma TouchKeeps(lockup: nat, l: Ledger, l': Ledger)
    requires LockupInvariant(lockup, l)
    requires l' == l.(touched := l'.touched)
    ensures LockupInvariant(lockup, l')
  {
    forall a ensures AccountOk(lockup, l', a) {
      assert AccountOk(lockup, l, a);
    }
  }

  /** Two units locked and one own record turn an account that does not exist into one
      that is in order. */
  lemma AccountAdded(lockup: nat, l: Ledger, l': Ledger, pk: PublicKey, b: Balance)
    requires lockup > 0 && LockupInvariant(lockup, l) && !Exists(l, pk)
    requires b.locked == lockup * 2
    requires l'.balances == l.balances[pk := b] && l'.content == l.content
    requires l'.permissions == l.permissions[Grant(pk, pk) := DEFAULT_PERMISSIONS]
    ensures LockupInvariant(lockup, l')
  {
    forall a ensures AccountOk(lockup, l', a) {
      assert AccountOk(lockup, l, a);
      GrantsAfterSet(l.permissions, Grant(pk, pk), DEFAULT_PERMISSIONS, a);
      if a == pk {
        assert Grants(l.permissions, pk) == {};
        NewAccountOk(lockup, l', pk);
      } else {
        AccountUnchanged(lockup, l, l', a);
      }
    }
  }

  lemma AccountUnchanged(lockup: nat, l: Ledger, l': Ledger, a: PublicKey)
    requires AccountOk(lockup, l, a) && BalanceOf(l', a) == BalanceOf(l, a)
    requires Grants(l'.permissions, a) == Grants(l.permissions, a) && Owned(l'.content, a) == Owned(l.content, a)
    ensures AccountOk(lockup, l', a)
  {}

  lemma NewAccountOk(lockup: nat, l: Ledger, a: PublicKey)
    requires BalanceOf(l, a).locked == lockup * 2 > 0
    requires Grants(l.permissions, a) == {Grant(a, a)} && Owned(l.content, a) == {}
    ensures AccountOk(lockup, l, a)
  {
    CostOfTwo(lockup);
  }

  lemma PayKeeps(r: Rules, l: Ledger, to: PublicKey, amount: uint64)
    requires ValidRules(r) && LockupInvariant(r.stateLockup, l)
    ensures PayOrCreate(r, l, to, amount).Done? ==>
      LockupInvariant(r.stateLockup, PayOrCreate(r, l, to, amount).ledger)
  {
    var s := AddUnlocked(l, to, amount, false);
    if s.Done? {
      if Exists(l, to) {
        AddKeeps(r.stateLockup, l, to, amount, false);
      } else {
        var c := CreateAccount(r, s.ledger, to);
        if c.Done? {
          AccountAdded(r.stateLockup, l, c.ledger, to, BalanceOf(c.ledger, to));
        }
      }
    }
  }

  lemma TransferKeeps(r: Rules, l: Ledger, actor: PublicKey, to: PublicKey, value: uint64)
    requires ValidRules(r) && LockupInvariant(r.stateLockup, l)
    ensures ExecuteTransfer(r, l, actor, to, value).Done? ==>
      LockupInvariant(r.stateLockup, ExecuteTransfer(r, l, actor, to, value).ledger)
  {
    var s := SubUnlocked(l, actor, value);
    if s.Done? {
      SubKeeps(r.stateLockup, l, actor, value);
      PayKeeps(r, s.ledger, to, value);
    }
  }

  /** An account stays in order when its count and its locked units move together. */
  lemma Recount(lockup: nat, l: Ledger, l': Ledger, x: PublicKey)
    requires lockup > 0 && AccountOk(lockup, l, x) && Exists(l, x)
    requires
      || (&& Occupied(l', x) == Occupied(l, x) + 1
          && BalanceOf(l', x).locked == BalanceOf(l, x).locked + lockup)
      || (&& Occupied(l', x) == Occupied(l, x) - 1
          && BalanceOf(l', x).locked == BalanceOf(l, x).locked - lockup)
    ensures AccountOk(lockup, l', x)
  {
    CostMonotone(lockup, 0, Occupied(l', x));
  }

  /** One more record, one more unit locked. */
  lemma RecordAdded(lockup: nat, l: Ledger, l': Ledger, g: Grant, p: Permissions, b: Balance)
    requires lockup > 0 && LockupInvariant(lockup, l) && Exists(l, g.actor)
    requires g !in l.permissions && p != NO_PERMISSIONS
    requires b.locked == BalanceOf(l, g.actor).locked + lockup
    requires l'.balances == l.balances[g.actor := b]
    requires l'.permissions == l.permissions[g := p] && l'.content == l.content
    ensures LockupInvariant(lockup, l')
  {
    forall x ensures AccountOk(lockup, l', x) {
      assert AccountOk(lockup, l, x);
      GrantsAfterSet(l.permissions, g, p, x);
      if x == g.actor {
        assert g !in Grants(l.permissions, x);
        Recount(lockup, l, l', x);
      } else {
        AccountUnchanged(lockup, l, l', x);
      }
    }
  }

  /** One record less, one unit less locked. */
  lemma RecordRemoved(lockup: nat, l: Ledger, l': Ledger, g: Grant, b: Balance)
    requires lockup > 0 && LockupInvariant(lockup, l) && Exists(l, g.actor)
    requires g in l.permissions
    requires b.locked == BalanceOf(l, g.actor).locked - lockup
    requires l'.balances == l.balances[g.actor := b]
    requires l'.permissions == l.permissions - {g} && l'.content == l.content
    ensures LockupInvariant(lockup, l')
  {
    forall x ensures AccountOk(lockup, l', x) {
      assert AccountOk(lockup, l, x);
      GrantsAfterDelete(l.permissions, g, x);
      if x == g.actor {
        assert g in Grants(l.permissions, x);
        Recount(lockup, l, l', x);
      } else {
        assert Grants(l.permissions, x) - {g} == Grants(l.permissions, x);
        AccountUnchanged(lockup, l, l', x);
      }
    }
  }

  lemma RecordReplaced(lockup: nat, l: Ledger, l': Ledger, g: Grant, p: Permissions)
    requires LockupInvariant(lockup, l) && g in l.permissions && p != NO_PERMISSIONS
    requires l'.balances == l.balances
    requires l'.permissions == l.permissions[g := p] && l'.content == l.content
    ensures LockupInvariant(lockup, l')
  {
    forall x ensures AccountOk(lockup, l', x) {
      assert AccountOk(lockup, l, x);
      assert Grants(l'.permissions, x) == Grants(l.permissions, x);
    }
  }

  lemma AuthorizeKeeps(r: Rules, l: Ledger, actor: PublicKey, a: Action)
    requires a.Authorize?
    requires ValidRules(r) && LockupInvariant(r.stateLockup, l) && Exists(l, actor)
    ensures ExecuteAuthorize(r, l, actor, a).Done? ==>
      LockupInvariant(r.stateLockup, ExecuteAuthorize(r, l, actor, a).ledger)
  {
    var s := ExecuteAuthorize(r, l, actor, a);
    if s.Done? {
      var g, b' := Grant(a.actor, a.signer), BalanceOf(s.ledger, a.actor);
      if g !in l.permissions {
        RecordAdded(r.stateLockup, l, s.ledger, g, a.permissions, b');
      } else if a.permissions == NO_PERMISSIONS {
        RecordRemoved(r.stateLockup, l, s.ledger, g, b');
      } else {
        RecordReplaced(r.stateLockup, l, s.ledger, g, a.permissions);
      }
    }
  }

  /** When Clear runs, the signer's record is the only state left beside the balance. */
  lemma ClearedAccountIsBare(r: Rules, l: Ledger, g: Grant)
    requires ValidRules(r) && LockupInvariant(r.stateLockup, l)
    requires g in l.permissions
    requires BalanceOf(l, g.actor).locked == r.stateLockup * 2
    ensures Grants(l.permissions, g.actor) == {g}
    ensures Owned(l.content, g.actor) == {}
  {
    var a := g.actor;
    assert AccountOk(r.stateLockup, l, a);
    if Occupied(l, a) > 2 {
      CostMonotone(r.stateLockup, 2, Occupied(l, a));
    }
    assert g in Grants(l.permissions, a);
    var rest := Grants(l.permissions, a) - {g};
    assert Grants(l.permissions, a) == rest + {g};
    assert |rest| == 0 && |Owned(l.content, a)| == 0;
  }

  lemma EmptiedKeeps(r: Rules, l: Ledger, g: Grant)
    requires ValidRules(r) && LockupInvariant(r.stateLockup, l)
    requires g in l.permissions
    requires BalanceOf(l, g.actor).locked == r.stateLockup * 2
    ensures LockupInvariant(r.stateLockup, Emptied(l, g))
  {
    ClearedAccountIsBare(r, l, g);
    var l' := Emptied(l, g);
    forall x ensures AccountOk(r.stateLockup, l', x) {
      assert AccountOk(r.stateLockup, l, x);
      GrantsAfterDelete(l.permissions, g, x);
      if x != g.actor {
        assert Grants(l.permissions, x) - {g} == Grants(l.permissions, x);
        AccountUnchanged(r.stateLockup, l, l', x);
      }
    }
  }

  lemma ClearKeeps(r: Rules, l: Ledger, g: Grant, to: PublicKey)
    requires ValidRules(r) && LockupInvariant(r.stateLockup, l)
    requires g in l.permissions
    ensures ExecuteClear(r, l, g.actor, g.signer, to).Done? ==>
      LockupInvariant(r.stateLockup, ExecuteClear(r, l, g.actor, g.signer, to).ledger)
  {
    var b, l1 := BalanceOf(l, g.actor), Touch(l, BalanceKey(g.actor));
    if b.locked == r.stateLockup * 2 {
      TouchKeeps(r.stateLockup, l, l1);
      EmptiedKeeps(r, l1, g);
      PayKeeps(r, Emptied(l1, g), to, WrappingAdd(b.unlocked, b.locked));
    }
  }

  lemma PayParentKeeps(r: Rules, l: Ledger, actor: PublicKey, a: Action)
    requires a.Index?
    requires ValidRules(r) && LockupInvariant(r.stateLockup, l) && Exists(l, actor)
    ensures PayParent(l, actor, a).Done? ==>
      && LockupInvariant(r.stateLockup, PayParent(l, actor, a).ledger)
      && Exists(PayParent(l, actor, a).ledger, actor)
  {
    var s := PayParent(l, actor, a);
    if s.Done? && a.parent != EMPTY_ID {
      var t := Touch(l, ContentKey(a.parent));
      TouchKeeps(r.stateLockup, l, t);
      if a.parent in l.content {
        var c := l.content[a.parent];
        OwnerExists(r.stateLockup, l, a.parent);
        SubKeeps(r.stateLockup, t, actor, c.royalty);
        AddKeeps(r.stateLockup, SubUnlocked(t, actor, c.royalty).ledger, c.owner, c.royalty, false);
      }
    }
  }

  /** One more content, one more unit locked. */
  lemma ContentAdded(lockup: nat, l: Ledger, l': Ledger, id: ID, c: Content, b: Balance)
    requires lockup > 0 && LockupInvariant(lockup, l) && Exists(l, c.owner)
    requires id !in l.content
    requires b.locked == BalanceOf(l, c.owner).locked + lockup
    requires l'.balances == l.balances[c.owner := b]
    requires l'.content == l.content[id := c] && l'.permissions == l.permissions
    ensures LockupInvariant(lockup, l')
  {
    forall x ensures AccountOk(lockup, l', x) {
      assert AccountOk(lockup, l, x);
      OwnedAfterAdd(l.content, id, c, x);
      if x == c.owner {
        assert id !in Owned(l.content, x);
        Recount(lockup, l, l', x);
      } else {
        AccountUnchanged(lockup, l, l', x);
      }
    }
  }

  lemma RegisterKeeps(r: Rules, l: Ledger, actor: PublicKey, a: Action)
    requires a.Index?
    requires ValidRules(r) && LockupInvariant(r.stateLockup, l) && Exists(l, actor)
    ensures RegisterContent(r, l, actor, a).Done? ==>
      && LockupInvariant(r.stateLockup, RegisterContent(r, l, actor, a).ledger)
      && Exists(RegisterContent(r, l, actor, a).ledger, actor)
  {
    var s := RegisterContent(r, l, actor, a);
    if s.Done? && a.royalty > 0 {
      ContentAdded(r.stateLockup, l, s.ledger, ContentID(r, a), Content(actor, a.royalty),
                   BalanceOf(s.ledger, actor));
    }
  }

  lemma PayServicerKeeps(r: Rules, l: Ledger, actor: PublicKey, a: Action)
    requires a.Index?
    requires ValidRules(r) && LockupInvariant(r.stateLockup, l) && Exists(l, actor)
    ensures PayServicer(l, actor, a).Done? ==> LockupInvariant(r.stateLockup, PayServicer(l, actor, a).ledger)
  {
    if PayServicer(l, actor, a).Done? && a.servicer != EMPTY_KEY && a.commission > 0 {
      SubKeeps(r.stateLockup, l, actor, a.commission);
      AddKeeps(r.stateLockup, SubUnlocked(l, actor, a.commission).ledger, a.servicer, a.commission, false);
    }
  }

  lemma IndexKeeps(r: Rules, l: Ledger, actor: PublicKey, a: Action)
    requires a.Index?
    requires ValidRules(r) && LockupInvariant(r.stateLockup, l) && Exists(l, actor)
    ensures ExecuteIndex(r, l, actor, a).Done? ==> LockupInvariant(r.stateLockup, ExecuteIndex(r, l, actor, a).ledger)
  {
    if ExecuteIndex(r, l, actor, a).Done? {
      PayParentKeeps(r, l, actor, a);
      var l1 := PayParent(l, actor, a).ledger;
      RegisterKeeps(r, l1, actor, a);
      PayServicerKeeps(r, RegisterContent(r, l1, actor, a).ledger, actor, a);
    }
  }

  /** One content less, one unit less locked. */
  lemma ContentRemoved(lockup: nat, l: Ledger, l': Ledger, id: ID, owner: PublicKey, b: Balance)
    requires lockup > 0 && LockupInvariant(lockup, l) && Exists(l, owner)
    requires id in l.content && l.content[id].owner == owner
    requires b.locked == BalanceOf(l, owner).locked - lockup
    requires l'.balances == l.balances[owner := b]
    requires l'.content == l.content - {id} && l'.permissions == l.permissions
    ensures LockupInvariant(lockup, l')
  {
    forall x ensures AccountOk(lockup, l', x) {
      assert AccountOk(lockup, l, x);
      OwnedAfterRemove(l.content, id, x);
      if x == owner {
        assert id in Owned(l.content, x);
        Recount(lockup, l, l', x);
      } else {
        assert Owned(l.content, x) - {id} == Owned(l.content, x);
        AccountUnchanged(lockup, l, l', x);
      }
    }
  }

  lemma UnindexKeeps(r: Rules, l: Ledger, actor: PublicKey, id: ID)
    requires ValidRules(r) && LockupInvariant(r.stateLockup, l) && Exists(l, actor)
    ensures ExecuteUnindex(r, l, actor, id).Done? ==>
      LockupInvariant(r.stateLockup, ExecuteUnindex(r, l, actor, id).ledger)
  {
    var s := ExecuteUnindex(r, l, actor, id);
    if s.Done? {
      ContentRemoved(r.stateLockup, l, s.ledger, id, actor, BalanceOf(s.ledger, actor));
    }
  }

  lemma ModifyKeeps(r: Rules, l: Ledger, actor: PublicKey, id: ID, royalty: uint64)
    requires LockupInvariant(r.stateLockup, l)
    ensures ExecuteModify(l, actor, id, royalty).Done? ==>
      LockupInvariant(r.stateLockup, ExecuteModify(l, actor, id, royalty).ledger)
  {
    var s := ExecuteModify(l, actor, id, royalty);
    if s.Done? {
      forall x ensures AccountOk(r.stateLockup, s.ledger, x) {
        assert AccountOk(r.stateLockup, l, x);
        OwnedAfterReplace(l.content, id, Content(actor, royalty), x);
      }
    }
  }

  lemma ExecuteKeeps(r: Rules, l: Ledger, auth: Auth, a: Action)
    requires ValidRules(r) && LockupInvariant(r.stateLockup, l)
    requires Grant(Actor(auth), auth.signer) in l.permissions
    ensures Execute(r, l, auth, a).Done? ==> LockupInvariant(r.stateLockup, Execute(r, l, auth, a).ledger)
  {
    var g := Grant(Actor(auth), auth.signer);
    GrantingAccountExists(r.stateLockup, l, g);
    match a
    case Authorize(_, _, _) => AuthorizeKeeps(r, l, g.actor, a);
    case Transfer(to, value) => TransferKeeps(r, l, g.actor, to, value);
    case Clear(to) => ClearKeeps(r, l, g, to);
    case Index(_, _, _, _, _, _, _) => IndexKeeps(r, l, g.actor, a);
    case Unindex(id) => UnindexKeeps(r, l, g.actor, id);
    case Modify(id, royalty) => ModifyKeeps(r, l, g.actor, id, royalty);
  }

  // ----- Transactions and runs -----

  /** The same state, whatever was accessed. */
  predicate SameState(l: Ledger, l': Ledger) {
    l'.balances == l.balances && l'.permissions == l.permissions && l'.content == l.content
  }

  lemma AuthorizedReads(l: Ledger, a: Action, g: Grant, actorPays: bool)
    ensures SameState(l, Authorized(l, a, g, actorPays).ledger)
  {}

  /** Checking an authorization only reads. */
  lemma VerifyReads(l: Ledger, auth: Auth, a: Action)
    ensures SameState(l, Verify(l, auth, a).ledger)
  {
    AuthorizedReads(l, a, Grant(Actor(auth), auth.signer), auth.Direct? || auth.actorPays);
  }

  ghost predicate Debited(l: Ledger, l': Ledger, pk: PublicKey, amount: nat) {
    && BalanceOf(l, pk).unlocked >= amount
    && l'.balances == l.balances[pk := Balance(BalanceOf(l, pk).unlocked - amount, BalanceOf(l, pk).locked)]
    && l'.permissions == l.permissions && l'.content == l.content
  }

  lemma DeductEffect(l: Ledger, auth: Auth, amount: uint64)
    requires Deduct(l, auth, amount).Done?
    ensures Debited(l, Deduct(l, auth, amount).ledger, Payer(auth), amount)
  {}

  /** A charge is one debit of the payer, and nothing else. */
  lemma ChargeEffect(l: Ledger, tx: Transaction)
    requires Charge(l, tx).Done?
    ensures Debited(l, Charge(l, tx).ledger, Payer(tx.auth), tx.maxFee)
  {
    var l0 := l.(touched := {});
    var l1 := Verify(l0, tx.auth, tx.action).ledger;
    VerifyReads(l0, tx.auth, tx.action);
    DeductEffect(l1, tx.auth, tx.maxFee);
  }

  lemma ChargeKeeps(lockup: nat, l: Ledger, tx: Transaction)
    requires LockupInvariant(lockup, l)
    requires Charge(l, tx).Done?
    ensures LockupInvariant(lockup, Charge(l, tx).ledger)
    ensures Charge(l, tx).ledger.permissions == l.permissions
    ensures Charge(l, tx).ledger.content == l.content
    ensures Grant(Actor(tx.auth), tx.auth.signer) in l.permissions
  {
    var l0 := l.(touched := {});
    VerifiedGrantStored(l0, tx.auth, tx.action);
    var l1 := Verify(l0, tx.auth, tx.action).ledger;
    TouchKeeps(lockup, l, l1);
    SubKeeps(lockup, l1, Payer(tx.auth), tx.maxFee);
  }

  lemma SettleKeeps(lockup: nat, l: Ledger, c: Ledger, e: Step<()>, tx: Transaction)
    requires LockupInvariant(lockup, l) && LockupInvariant(lockup, c)
    requires e.Done? ==> LockupInvariant(lockup, e.ledger)
    ensures LockupInvariant(lockup, Settle(l, c, e, tx).ledger)
  {
    var l3 := Commit(c, e);
    if e.Failed? {
      TouchKeeps(lockup, c, l3);
    }
    AddKeeps(lockup, l3, Payer(tx.auth), tx.maxFee - tx.fee, true);
  }

  lemma ApplyKeeps(r: Rules, l: Ledger, tx: Transaction)
    requires ValidRules(r) && LockupInvariant(r.stateLockup, l)
    ensures LockupInvariant(r.stateLockup, Apply(r, l, tx).ledger)
  {
    var c := Charge(l, tx);
    if c.Done? {
      ChargeKeeps(r.stateLockup, l, tx);
      ExecuteKeeps(r, c.ledger, tx.auth, tx.action);
      SettleKeeps(r.stateLockup, l, c.ledger, Execute(r, c.ledger, tx.auth, tx.action), tx);
    }
  }

  lemma {:induction false} RunKeeps(r: Rules, l: Ledger, txs: seq<Transaction>)
    requires ValidRules(r) && LockupInvariant(r.stateLockup, l)
    ensures LockupInvariant(r.stateLockup, Run(r, l, txs))
    decreases |txs|
  {
    if txs != [] {
      ApplyKeeps(r, l, txs[0]);
      RunKeeps(r, Apply(r, l, txs[0]).ledger, txs[1..]);
    }
  }
}
