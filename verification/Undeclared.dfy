/**
 Transactions that succeed and touch keys they did not declare: for each kind of action that
 can, exactly when a charged transaction does, and a run from genesis that reaches one.
 */
module Undeclared {
  import opened Base
  import opened Storage
  import opened Actions
  import opened Transactions
  import opened Lockup
  import opened Conservation
  import opened Effects
  import opened Guarantees
  import opened Closing
  import opened Footprint
  import opened Genesis

  /** The transaction is applied, its action succeeds, and it touches an undeclared key. */
  ghost predicate GoesBeyond(r: Rules, l: Ledger, tx: Transaction) {
    var o := Apply(r, l, tx);
    o.Applied? && o.success && !(o.ledger.touched <= Declared(r, tx))
  }

  /** A charged transaction goes beyond its keys exactly if its action succeeds outside the
      condition; Transfer, Unindex and Modify therefore never do. */
  lemma BeyondExactly(r: Rules, l: Ledger, tx: Transaction)
    requires Sound(r, l) && Charge(l, tx).Done?
    ensures GoesBeyond(r, l, tx) <==>
      && Execute(r, Charge(l, tx).ledger, tx.auth, tx.action).Done?
      && !WithinDeclared(l, tx.auth, tx.action)
    ensures tx.action.Transfer? || tx.action.Unindex? || tx.action.Modify? ==> !GoesBeyond(r, l, tx)
  {
    ApplyConserves(r, l, tx);
    if Apply(r, l, tx).success {
      FootprintExact(r, l, tx);
    }
  }

  // ----- When each action goes beyond -----

  /** A Clear, exactly if the signer's record is the only state left and the record of the
      account it opens, which is not declared, is not the signer's. */
  lemma ClearGoesBeyond(r: Rules, l: Ledger, tx: Transaction)
    requires Sound(r, l) && Charge(l, tx).Done? && tx.action.Clear?
    ensures var actor, to := Actor(tx.auth), tx.action.to;
      GoesBeyond(r, l, tx) <==>
        && Grants(l.permissions, actor) == {Grant(actor, tx.auth.signer)} && Owned(l.content, actor) == {}
        && (if to == actor then tx.auth.signer != actor else !Exists(l, to))
  {
    ChargedIsSound(r, l, tx);
    ClearSucceedsExactly(r, Charge(l, tx).ledger, Grant(Actor(tx.auth), tx.auth.signer), tx.action.to);
    BeyondExactly(r, l, tx);
  }

  /** An Authorize, exactly if the payer is not the actor, whose balance is then not declared,
      and a record is added, for which the actor has the funds, or removed. */
  lemma AuthorizeGoesBeyond(r: Rules, l: Ledger, tx: Transaction)
    requires Sound(r, l) && Charge(l, tx).Done? && tx.action.Authorize?
    ensures var actor, g := Actor(tx.auth), Grant(tx.action.actor, tx.action.signer);
      GoesBeyond(r, l, tx) <==>
        && tx.action.actor == actor && Payer(tx.auth) != actor
        && (if g in l.permissions then tx.action.permissions == NO_PERMISSIONS
            else tx.action.permissions != NO_PERMISSIONS && BalanceOf(l, actor).unlocked >= r.stateLockup)
  {
    var c, actor := Charge(l, tx).ledger, Actor(tx.auth);
    ChargedIsSound(r, l, tx);
    ChargeMoves(l, tx, actor);
    if tx.action.actor == actor {
      AuthorizeSucceedsExactly(r, c, tx.action);
    }
    BeyondExactly(r, l, tx);
  }

  /** An Index, exactly if it succeeds, its parent belongs to the empty key, whose balance is
      never declared as searcher's, and that key neither acts nor pays. */
  lemma IndexGoesBeyond(r: Rules, l: Ledger, tx: Transaction)
    requires Sound(r, l) && Charge(l, tx).Done? && tx.action.Index?
    ensures var actor := Actor(tx.auth);
      GoesBeyond(r, l, tx) <==>
        && CanIndex(r, Charge(l, tx).ledger, actor, tx.action) && PaysEmptyOwner(l, tx.action)
        && actor != EMPTY_KEY && Payer(tx.auth) != EMPTY_KEY
  {
    var c, actor := Charge(l, tx).ledger, Actor(tx.auth);
    ChargedIsSound(r, l, tx);
    ActingAccountLocksTwo(r, c, Grant(actor, tx.auth.signer));
    IndexSucceedsExactly(r, c, actor, tx.action);
    BeyondExactly(r, l, tx);
  }

  // ----- Accounts from genesis -----

  lemma LoadIsSound(r: Rules, allocs: seq<Allocation>)
    requires ValidRules(r) && Distinct(allocs) && Allocated(allocs) < TWO_64 && Load(r, EMPTY_LEDGER, allocs).Done?
    ensures Sound(r, Load(r, EMPTY_LEDGER, allocs).ledger)
  {
    GenesisLockup(r, allocs);
    LoadConserves(r, EMPTY_LEDGER, allocs);
  }

  lemma OneAccount(r: Rules, x: Allocation)
    requires ValidRules(r) && x.balance >= r.stateLockup * 2
    ensures Load(r, EMPTY_LEDGER, [x]).Done?
    ensures var l := Load(r, EMPTY_LEDGER, [x]).ledger;
      && Sound(r, l) && l.content == map[]
      && l.balances == map[x.address := Balance(x.balance - r.stateLockup * 2, r.stateLockup * 2)]
      && l.permissions == map[Grant(x.address, x.address) := DEFAULT_PERMISSIONS]
  {
    LoadOneResult(r, EMPTY_LEDGER, x);
    LoadSingle(r, EMPTY_LEDGER, x);
    assert Allocated([x]) == x.balance by {
      assert [x][1..] == [];
    }
    LoadIsSound(r, [x]);
  }

  lemma TwoAccounts(r: Rules, x: Allocation, y: Allocation)
    requires ValidRules(r) && x.address != y.address && x.balance + y.balance < TWO_64
    requires x.balance >= r.stateLockup * 2 && y.balance >= r.stateLockup * 2
    ensures Load(r, EMPTY_LEDGER, [x, y]).Done?
    ensures var l := Load(r, EMPTY_LEDGER, [x, y]).ledger;
      && Sound(r, l) && l.content == map[]
      && PermissionsOf(l, Grant(x.address, x.address)) == DEFAULT_PERMISSIONS
      && PermissionsOf(l, Grant(y.address, y.address)) == DEFAULT_PERMISSIONS
      && BalanceOf(l, x.address).unlocked == x.balance - r.stateLockup * 2
      && BalanceOf(l, y.address).unlocked == y.balance - r.stateLockup * 2
  {
    LoadOneResult(r, EMPTY_LEDGER, x);
    var l1 := LoadOne(r, EMPTY_LEDGER, x).ledger;
    LoadOneResult(r, l1, y);
    LoadPair(r, EMPTY_LEDGER, x, y);
    AllocatedPair(x, y);
    LoadIsSound(r, [x, y]);
  }

  // ----- Runs that reach such a transaction -----

  /** From a genesis with one account, its Clear to any other key. */
  lemma ClearExample(r: Rules, a: PublicKey, to: PublicKey)
    requires ValidRules(r) && a != to
    ensures var s := Load(r, EMPTY_LEDGER, [Allocation(a, r.stateLockup * 2)]);
      s.Done? && GoesBeyond(r, s.ledger, Own(a, Clear(to), 0, 0))
  {
    var x := Allocation(a, r.stateLockup * 2);
    OneAccount(r, x);
    var l := Load(r, EMPTY_LEDGER, [x]).ledger;
    var _ := FreeCharge(l, a, Clear(to));
    assert Grants(l.permissions, a) == {Grant(a, a)} && Owned(l.content, a) == {};
    ClearGoesBeyond(r, l, Own(a, Clear(to), 0, 0));
  }

  /** The signer acts for `a` and pays. */
  function ForOther(a: PublicKey, signer: PublicKey, action: Action): Transaction {
    Transaction(Delegate(a, signer, false), action, 0, 0)
  }

  lemma ForOtherIsCharged(l: Ledger, a: PublicKey, s: PublicKey, action: Action)
    requires a != s && PermissionsOf(l, Grant(a, s)) == DEFAULT_PERMISSIONS
    ensures Charge(l, ForOther(a, s, action)).Done?
  {
    CheckBitExtremes(ActionIndex(action));
  }

  /** `a` gives `s` its full permissions, at no fee. */
  lemma Delegation(r: Rules, l: Ledger, a: PublicKey, s: PublicKey) returns (l': Ledger)
    requires Sound(r, l) && PermissionsOf(l, Grant(a, a)) == DEFAULT_PERMISSIONS
    requires a != s && Grant(a, s) !in l.permissions && BalanceOf(l, a).unlocked >= r.stateLockup
    ensures l' == Apply(r, l, Own(a, Authorize(a, s, DEFAULT_PERMISSIONS), 0, 0)).ledger
    ensures Sound(r, l') && l'.permissions == l.permissions[Grant(a, s) := DEFAULT_PERMISSIONS]
    ensures BalanceOf(l', a).unlocked == BalanceOf(l, a).unlocked - r.stateLockup
  {
    var tx := Own(a, Authorize(a, s, DEFAULT_PERMISSIONS), 0, 0);
    var c := FreeCharge(l, a, tx.action);
    assert SameBalance(l, c, a);
    ChargedIsSound(r, l, tx);
    AuthorizeSucceedsExactly(r, c, tx.action);
    StaysSound(r, l, tx);
    var e := ExecuteAuthorize(r, c, a, tx.action);
    FreeTransaction(r, l, tx, c, e);
    l' := Apply(r, l, tx).ledger;
    assert SameBalance(e.ledger, l', a);
  }

  /** From a genesis with one account that gives `s` its permissions, `s` both adding a record
      for `t` and removing its own. */
  lemma AuthorizeExample(r: Rules, a: PublicKey, s: PublicKey, t: PublicKey)
    requires ValidRules(r) && r.stateLockup * 4 < TWO_64 && a != s && t != a && t != s
    ensures var g := Load(r, EMPTY_LEDGER, [Allocation(a, r.stateLockup * 4)]);
      var l := Apply(r, g.ledger, Own(a, Authorize(a, s, DEFAULT_PERMISSIONS), 0, 0)).ledger;
      && g.Done?
      && GoesBeyond(r, l, ForOther(a, s, Authorize(a, t, DEFAULT_PERMISSIONS)))
      && GoesBeyond(r, l, ForOther(a, s, Authorize(a, s, NO_PERMISSIONS)))
  {
    var x := Allocation(a, r.stateLockup * 4);
    OneAccount(r, x);
    var g := Load(r, EMPTY_LEDGER, [x]).ledger;
    var l := Delegation(r, g, a, s);
    DelegateGoesBeyond(r, l, a, s, t, DEFAULT_PERMISSIONS);
    DelegateGoesBeyond(r, l, a, s, s, NO_PERMISSIONS);
  }

  lemma DelegateGoesBeyond(r: Rules, l: Ledger, a: PublicKey, s: PublicKey, t: PublicKey, p: Permissions)
    requires Sound(r, l) && a != s && PermissionsOf(l, Grant(a, s)) == DEFAULT_PERMISSIONS
    requires if Grant(a, t) in l.permissions then p == NO_PERMISSIONS
             else p != NO_PERMISSIONS && BalanceOf(l, a).unlocked >= r.stateLockup
    ensures GoesBeyond(r, l, ForOther(a, s, Authorize(a, t, p)))
  {
    var tx := ForOther(a, s, Authorize(a, t, p));
    ForOtherIsCharged(l, a, s, tx.action);
    AuthorizeGoesBeyond(r, l, tx);
  }

  const BODY: Bytes := [0]

  /** An object with a royalty of one and no parent. */
  function Root(schema: ID): Action {
    Index(schema, BODY, 1, EMPTY_ID, EMPTY_KEY, EMPTY_KEY, 0)
  }

  /** An object without royalty under `parent`, whose owner is the empty key. */
  function Child(schema: ID, parent: ID): Action {
    Index(schema, BODY, 0, parent, EMPTY_KEY, EMPTY_KEY, 0)
  }

  lemma RootSucceeds(r: Rules, l: Ledger, a: PublicKey, schema: ID)
    requires Sound(r, l) && Grant(a, a) in l.permissions
    requires schema != EMPTY_ID && BalanceOf(l, a).unlocked >= r.stateLockup
    requires ContentID(r, Root(schema)) !in l.content
    ensures var e := ExecuteIndex(r, l, a, Root(schema));
      && e.Done? && e.ledger.permissions == l.permissions
      && e.ledger.content == l.content[ContentID(r, Root(schema)) := Content(a, 1)]
      && forall x :: x != a ==> SameBalance(l, e.ledger, x)
  {
    ActingAccountLocksTwo(r, l, Grant(a, a));
    IndexSucceedsExactly(r, l, a, Root(schema));
    var e := ExecuteIndex(r, l, a, Root(schema));
    IndexEffect(r, l, a, Root(schema), a);
    forall x | x != a ensures SameBalance(l, e.ledger, x) {
      IndexEffect(r, l, a, Root(schema), x);
    }
  }

  lemma Registration(r: Rules, l: Ledger, a: PublicKey, schema: ID) returns (l': Ledger)
    requires Sound(r, l) && PermissionsOf(l, Grant(a, a)) == DEFAULT_PERMISSIONS
    requires schema != EMPTY_ID && BalanceOf(l, a).unlocked >= r.stateLockup
    requires ContentID(r, Root(schema)) !in l.content
    ensures l' == Apply(r, l, Own(a, Root(schema), 0, 0)).ledger
    ensures Sound(r, l') && l'.permissions == l.permissions
    ensures l'.content == l.content[ContentID(r, Root(schema)) := Content(a, 1)]
    ensures forall x :: x != a ==> SameBalance(l, l', x)
  {
    var tx := Own(a, Root(schema), 0, 0);
    var c := FreeCharge(l, a, tx.action);
    assert SameBalance(l, c, a);
    ChargedIsSound(r, l, tx);
    RootSucceeds(r, c, a, schema);
    StaysSound(r, l, tx);
    var e := ExecuteIndex(r, c, a, tx.action);
    FreeTransaction(r, l, tx, c, e);
    l' := Apply(r, l, tx).ledger;
    forall x | x != a ensures SameBalance(l, l', x) {
      assert SameBalance(l, c, x) && SameBalance(c, e.ledger, x) && SameBalance(e.ledger, l', x);
    }
  }

  /** From a genesis that lists the empty key and another one: the empty key registers
      content, and the other indexes under it. */
  lemma IndexExample(r: Rules, a: PublicKey, schema: ID)
    requires ValidRules(r) && r.stateLockup * 5 + 1 < TWO_64 && a != EMPTY_KEY
    requires schema != EMPTY_ID && ContentID(r, Root(schema)) != EMPTY_ID
    ensures var x, y := Allocation(EMPTY_KEY, r.stateLockup * 3), Allocation(a, r.stateLockup * 2 + 1);
      var g := Load(r, EMPTY_LEDGER, [x, y]);
      var l := Apply(r, g.ledger, Own(EMPTY_KEY, Root(schema), 0, 0)).ledger;
      g.Done? && GoesBeyond(r, l, Own(a, Child(schema, ContentID(r, Root(schema))), 0, 0))
  {
    var x, y := Allocation(EMPTY_KEY, r.stateLockup * 3), Allocation(a, r.stateLockup * 2 + 1);
    TwoAccounts(r, x, y);
    var g, id := Load(r, EMPTY_LEDGER, [x, y]).ledger, ContentID(r, Root(schema));
    var l := Registration(r, g, EMPTY_KEY, schema);
    assert SameBalance(g, l, a);
    ChildGoesBeyond(r, l, a, schema, id);
  }

  lemma ChildGoesBeyond(r: Rules, l: Ledger, a: PublicKey, schema: ID, parent: ID)
    requires Sound(r, l) && PermissionsOf(l, Grant(a, a)) == DEFAULT_PERMISSIONS
    requires a != EMPTY_KEY && schema != EMPTY_ID && parent != EMPTY_ID
    requires parent in l.content && l.content[parent].owner == EMPTY_KEY
    requires BalanceOf(l, a).unlocked >= l.content[parent].royalty
    ensures GoesBeyond(r, l, Own(a, Child(schema, parent), 0, 0))
  {
    var tx := Own(a, Child(schema, parent), 0, 0);
    var c := FreeCharge(l, a, tx.action);
    assert SameBalance(l, c, a);
    ChargedIsSound(r, l, tx);
    IndexGoesBeyond(r, l, tx);
  }
}
