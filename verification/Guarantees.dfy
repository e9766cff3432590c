/**
 Exactly when the actions succeed, in every state that keeps the lockup invariant and
 whose supply fits in 64 bits: closing an account is exact, and lockups can always be
 recovered by the account that paid them.
 */
module Guarantees {
  import opened Base
  import opened Storage
  import opened Actions
  import opened Transactions
  import opened Lockup
  import opened Conservation
  import Genesis

  /** The states in which actions run. */
  ghost predicate Sound(r: Rules, l: Ledger) {
    ValidRules(r) && LockupInvariant(r.stateLockup, l) && Supply(l) < TWO_64
  }

  /** The states reached by any transactions from a genesis whose addresses are distinct and
      whose allocations add up to less than 2^64. */
  ghost predicate FundedReachable(r: Rules, l: Ledger) {
    exists allocs: seq<Allocation>, txs: seq<Transaction>
      {:trigger Run(r, Load(r, EMPTY_LEDGER, allocs).ledger, txs)} ::
      && Genesis.Distinct(allocs)
      && Allocated(allocs) < TWO_64
      && Load(r, EMPTY_LEDGER, allocs).Done?
      && l == Run(r, Load(r, EMPTY_LEDGER, allocs).ledger, txs)
  }

  lemma ReachableIsSound(r: Rules, l: Ledger)
    requires ValidRules(r) && FundedReachable(r, l)
    ensures Sound(r, l)
  {
    var allocs: seq<Allocation>, txs: seq<Transaction> :|
      && Genesis.Distinct(allocs)
      && Allocated(allocs) < TWO_64
      && Load(r, EMPTY_LEDGER, allocs).Done?
      && l == Run(r, Load(r, EMPTY_LEDGER, allocs).ledger, txs);
    Genesis.GenesisLockup(r, allocs);
    RunKeeps(r, Load(r, EMPTY_LEDGER, allocs).ledger, txs);
    GenesisConserves(r, allocs, txs);
  }

  // ----- Paying -----

  /** A payment of existing money succeeds unless it is too small to open an account. */
  lemma PaySucceeds(r: Rules, l: Ledger, to: PublicKey, amount: uint64)
    requires ValidRules(r) && LockupInvariant(r.stateLockup, l) && Supply(l) + amount < TWO_64
    ensures PayOrCreate(r, l, to, amount).Done? <==> Exists(l, to) || amount >= r.stateLockup * 2
  {
    AddSucceeds(l, to, amount, false);
    assert AccountOk(r.stateLockup, l, to);
  }

  /** What a payment does to its recipient. */
  lemma PayEffect(r: Rules, l: Ledger, to: PublicKey, amount: uint64)
    requires ValidRules(r) && LockupInvariant(r.stateLockup, l)
    requires PayOrCreate(r, l, to, amount).Done?
    ensures var l', b := PayOrCreate(r, l, to, amount).ledger, BalanceOf(l, to);
      && to in l'.balances && l'.balances == l.balances[to := l'.balances[to]]
      && l'.content == l.content
      && (Exists(l, to) ==>
            && l'.balances[to].unlocked == b.unlocked + amount && l'.balances[to].locked == b.locked
            && l'.permissions == l.permissions)
      && (!Exists(l, to) ==>
            && l'.balances[to].unlocked == amount - r.stateLockup * 2
            && l'.balances[to].locked == r.stateLockup * 2
            && l'.permissions == l.permissions[Grant(to, to) := DEFAULT_PERMISSIONS])
  {
    assert AccountOk(r.stateLockup, l, to);
  }

  lemma TransferSucceedsExactly(r: Rules, l: Ledger, actor: PublicKey, to: PublicKey, value: uint64)
    requires Sound(r, l)
    ensures ExecuteTransfer(r, l, actor, to, value).Done? <==>
      && 0 < value <= BalanceOf(l, actor).unlocked
      && (Exists(l, to) || value >= r.stateLockup * 2)
  {
    var s := SubUnlocked(l, actor, value);
    if s.Done? {
      SubKeeps(r.stateLockup, l, actor, value);
      SubConserves(l, actor, value);
      PaySucceeds(r, s.ledger, to, value);
    }
  }

  // ----- Closing an account -----

  /** An account that acts locks at least two units: its balance and the signer's record. */
  lemma ActingAccountLocksTwo(r: Rules, l: Ledger, g: Grant)
    requires Sound(r, l) && g in l.permissions
    ensures BalanceOf(l, g.actor).locked >= r.stateLockup * 2
  {
    GrantingAccountExists(r.stateLockup, l, g);
  }

  /** Clear succeeds exactly when the signer's record is the only state left beside the
      balance, whoever the recipient is. */
  lemma ClearSucceedsExactly(r: Rules, l: Ledger, g: Grant, to: PublicKey)
    requires Sound(r, l) && g in l.permissions
    ensures ExecuteClear(r, l, g.actor, g.signer, to).Done? <==>
      Grants(l.permissions, g.actor) == {g} && Owned(l.content, g.actor) == {}
  {
    var b, l1 := BalanceOf(l, g.actor), Touch(l, BalanceKey(g.actor));
    ActingAccountLocksTwo(r, l, g);
    if b.locked == r.stateLockup * 2 {
      ClearedAccountIsBare(r, l, g);
      TouchKeeps(r.stateLockup, l, l1);
      EmptiedKeeps(r, l1, g);
      SupplyChange(l, Emptied(l1, g), g.actor);
      ClearAddsExactly(l, g.actor);
      PaySucceeds(r, Emptied(l1, g), to, WrappingAdd(b.unlocked, b.locked));
    } else {
      assert AccountOk(r.stateLockup, l, g.actor);
      if Grants(l.permissions, g.actor) == {g} && Owned(l.content, g.actor) == {} {
        CostOfTwo(r.stateLockup);
        assert false;
      }
    }
  }

  /** The state between the deletions and the payment of a Clear that succeeds. */
  lemma ClearEmpties(r: Rules, l: Ledger, g: Grant, to: PublicKey)
    requires Sound(r, l) && g in l.permissions
    requires ExecuteClear(r, l, g.actor, g.signer, to).Done?
    ensures var b, e := BalanceOf(l, g.actor), Emptied(Touch(l, BalanceKey(g.actor)), g);
      && b.locked == r.stateLockup * 2 && b.unlocked + b.locked < TWO_64
      && LockupInvariant(r.stateLockup, e)
      && Grants(e.permissions, g.actor) == {} && Owned(e.content, g.actor) == {}
      && PayOrCreate(r, e, to, b.unlocked + b.locked) == ExecuteClear(r, l, g.actor, g.signer, to)
  {
    var l1 := Touch(l, BalanceKey(g.actor));
    ClearAddsExactly(l, g.actor);
    ClearedAccountIsBare(r, l, g);
    TouchKeeps(r.stateLockup, l, l1);
    EmptiedKeeps(r, l1, g);
    GrantsAfterDelete(l.permissions, g, g.actor);
  }

  /** Clear leaves nothing of the old account behind. */
  lemma ClearLeavesNothing(r: Rules, l: Ledger, g: Grant, to: PublicKey)
    requires Sound(r, l) && g in l.permissions && to != g.actor
    requires ExecuteClear(r, l, g.actor, g.signer, to).Done?
    ensures var l' := ExecuteClear(r, l, g.actor, g.signer, to).ledger;
      g.actor !in l'.balances && Grants(l'.permissions, g.actor) == {} && Owned(l'.content, g.actor) == {}
  {
    var b, e := BalanceOf(l, g.actor), Emptied(Touch(l, BalanceKey(g.actor)), g);
    ClearEmpties(r, l, g, to);
    PayToOther(r, e, g.actor, to, b.unlocked + b.locked);
  }

  /** Paying `to` brings nothing back of an account that is gone. */
  lemma PayToOther(r: Rules, e: Ledger, gone: PublicKey, to: PublicKey, amount: uint64)
    requires ValidRules(r) && LockupInvariant(r.stateLockup, e) && gone != to && gone !in e.balances
    requires Grants(e.permissions, gone) == {} && Owned(e.content, gone) == {}
    requires PayOrCreate(r, e, to, amount).Done?
    ensures var l' := PayOrCreate(r, e, to, amount).ledger;
      gone !in l'.balances && Grants(l'.permissions, gone) == {} && Owned(l'.content, gone) == {}
  {
    PayEffect(r, e, to, amount);
    GrantsAfterSet(e.permissions, Grant(to, to), DEFAULT_PERMISSIONS, gone);
  }

  /** Clear pays all of the old account to the recipient, whose account it opens if need be. */
  lemma ClearPaysOut(r: Rules, l: Ledger, g: Grant, to: PublicKey)
    requires Sound(r, l) && g in l.permissions && to != g.actor
    requires ExecuteClear(r, l, g.actor, g.signer, to).Done?
    ensures var l', b, c := ExecuteClear(r, l, g.actor, g.signer, to).ledger, BalanceOf(l, g.actor), BalanceOf(l, to);
      && (Exists(l, to) ==>
            && BalanceOf(l', to).unlocked == c.unlocked + b.unlocked + b.locked
            && BalanceOf(l', to).locked == c.locked)
      && (!Exists(l, to) ==>
            && BalanceOf(l', to).unlocked == b.unlocked
            && BalanceOf(l', to).locked == r.stateLockup * 2 && Grant(to, to) in l'.permissions)
  {
    var b, e := BalanceOf(l, g.actor), Emptied(Touch(l, BalanceKey(g.actor)), g);
    ClearEmpties(r, l, g, to);
    assert BalanceOf(e, to) == BalanceOf(l, to);
    PayRecipient(r, e, to, b.unlocked + b.locked);
  }

  /** The recipient after a payment. */
  lemma PayRecipient(r: Rules, e: Ledger, to: PublicKey, amount: uint64)
    requires ValidRules(r) && LockupInvariant(r.stateLockup, e) && PayOrCreate(r, e, to, amount).Done?
    ensures var l', c := PayOrCreate(r, e, to, amount).ledger, BalanceOf(e, to);
      && (Exists(e, to) ==>
            BalanceOf(l', to).unlocked == c.unlocked + amount && BalanceOf(l', to).locked == c.locked)
      && (!Exists(e, to) ==>
            && BalanceOf(l', to).unlocked == amount - r.stateLockup * 2
            && BalanceOf(l', to).locked == r.stateLockup * 2 && Grant(to, to) in l'.permissions)
  {
    PayEffect(r, e, to, amount);
  }

  /** Clearing an account into itself keeps its balance and resets its records to the
      default one. */
  lemma ClearToSelfResets(r: Rules, l: Ledger, g: Grant)
    requires Sound(r, l) && g in l.permissions
    requires ExecuteClear(r, l, g.actor, g.signer, g.actor).Done?
    ensures var l' := ExecuteClear(r, l, g.actor, g.signer, g.actor).ledger;
      && l'.balances == l.balances && l'.content == l.content
      && l'.permissions == (l.permissions - {g})[Grant(g.actor, g.actor) := DEFAULT_PERMISSIONS]
      && Grants(l'.permissions, g.actor) == {Grant(g.actor, g.actor)}
  {
    var b, e := BalanceOf(l, g.actor), Emptied(Touch(l, BalanceKey(g.actor)), g);
    var l' := ExecuteClear(r, l, g.actor, g.signer, g.actor).ledger;
    ClearEmpties(r, l, g, g.actor);
    PayEffect(r, e, g.actor, b.unlocked + b.locked);
    assert l'.balances == l.balances by {
      assert l'.balances[g.actor] == b;
      assert g.actor in l.balances;
    }
    GrantsAfterSet(e.permissions, Grant(g.actor, g.actor), DEFAULT_PERMISSIONS, g.actor);
  }

  // ----- Recovering lockups -----

  /** The owner of content can always unindex it (unless its digest is the empty ID), and
      gets exactly one unit of lockup back. */
  lemma UnindexSucceedsExactly(r: Rules, l: Ledger, actor: PublicKey, id: ID)
    requires Sound(r, l)
    ensures ExecuteUnindex(r, l, actor, id).Done? <==>
      id != EMPTY_ID && id in l.content && l.content[id].owner == actor
    ensures ExecuteUnindex(r, l, actor, id).Done? ==>
      var l', b := ExecuteUnindex(r, l, actor, id).ledger, BalanceOf(l, actor);
      && l'.balances == l.balances[actor := Balance(b.unlocked + r.stateLockup, b.locked - r.stateLockup)]
      && l'.content == l.content - {id} && l'.permissions == l.permissions
  {
    if id != EMPTY_ID && id in l.content && l.content[id].owner == actor {
      OwnerExists(r.stateLockup, l, id);
      assert AccountOk(r.stateLockup, l, actor);
      CostMonotone(r.stateLockup, 1, Occupied(l, actor));
      assert Cost(r.stateLockup, 1) == r.stateLockup;
      UnlockSucceeds(l, actor, r.stateLockup);
    }
  }

  /** Authorize succeeds exactly when it changes something and a new record is paid for;
      revoking a record therefore never fails, and returns exactly one unit. */
  lemma AuthorizeSucceedsExactly(r: Rules, l: Ledger, a: Action)
    requires Sound(r, l) && a.Authorize?
    ensures var g := Grant(a.actor, a.signer);
      ExecuteAuthorize(r, l, a.actor, a).Done? <==>
        && PermissionsOf(l, g) != a.permissions
        && (g !in l.permissions ==> BalanceOf(l, a.actor).unlocked >= r.stateLockup)
  {
    var g := Grant(a.actor, a.signer);
    WorthBounded(l, a.actor);
    if g in l.permissions {
      GrantingAccountExists(r.stateLockup, l, g);
      UnlockSucceeds(l, a.actor, r.stateLockup);
    }
  }

  lemma RevokeReturnsLockup(r: Rules, l: Ledger, g: Grant)
    requires Sound(r, l) && g in l.permissions
    ensures var s := ExecuteAuthorize(r, l, g.actor, Authorize(g.actor, g.signer, NO_PERMISSIONS));
      var b := BalanceOf(l, g.actor);
      && s.Done?
      && s.ledger.balances == l.balances[g.actor := Balance(b.unlocked + r.stateLockup, b.locked - r.stateLockup)]
      && s.ledger.permissions == l.permissions - {g} && s.ledger.content == l.content
  {
    AuthorizeSucceedsExactly(r, l, Authorize(g.actor, g.signer, NO_PERMISSIONS));
  }

  // ----- Indexing -----

  /** The royalty the parent asks for, and the part of it that comes back to the actor. */
  function ParentFee(l: Ledger, a: Action): nat
    requires a.Index?
  {
    if a.parent != EMPTY_ID && a.parent in l.content then l.content[a.parent].royalty else 0
  }

  function ParentCost(l: Ledger, actor: PublicKey, a: Action): nat
    requires a.Index?
  {
    if a.parent != EMPTY_ID && a.parent in l.content && l.content[a.parent].owner == actor then 0 else ParentFee(l, a)
  }

  function ParentOwner(l: Ledger, a: Action): PublicKey
    requires a.Index?
  {
    if a.parent != EMPTY_ID && a.parent in l.content then l.content[a.parent].owner else EMPTY_KEY
  }

  lemma ParentSucceedsExactly(l: Ledger, actor: PublicKey, a: Action)
    requires a.Index? && Supply(l) < TWO_64
    ensures PayParent(l, actor, a).Done? <==>
      a.searcher == ParentOwner(l, a) && BalanceOf(l, actor).unlocked >= ParentFee(l, a)
  {
    if a.parent != EMPTY_ID && a.parent in l.content {
      var c, t := l.content[a.parent], Touch(l, ContentKey(a.parent));
      var s := SubUnlocked(t, actor, c.royalty);
      if s.Done? {
        SubConserves(t, actor, c.royalty);
        AddSucceeds(s.ledger, c.owner, c.royalty, false);
      }
    }
  }

  lemma ParentEffect(l: Ledger, actor: PublicKey, a: Action)
    requires a.Index? && PayParent(l, actor, a).Done?
    ensures var l1 := PayParent(l, actor, a).ledger;
      && l1.content == l.content
      && (forall x :: BalanceOf(l1, x).locked == BalanceOf(l, x).locked)
      && BalanceOf(l1, actor).unlocked == BalanceOf(l, actor).unlocked - ParentCost(l, actor, a)
  {
    if a.parent != EMPTY_ID && a.parent in l.content {
      var c, t := l.content[a.parent], Touch(l, ContentKey(a.parent));
      var l1 := SubUnlocked(t, actor, c.royalty).ledger;
      assert PayParent(l, actor, a).ledger == AddUnlocked(l1, c.owner, c.royalty, false).ledger;
    }
  }

  lemma RegisterSucceedsExactly(r: Rules, l: Ledger, actor: PublicKey, a: Action)
    requires a.Index? && Supply(l) < TWO_64
    ensures RegisterContent(r, l, actor, a).Done? <==>
      (a.royalty > 0 ==> ContentID(r, a) !in l.content && BalanceOf(l, actor).unlocked >= r.stateLockup)
    ensures RegisterContent(r, l, actor, a).Done? ==> var l1 := RegisterContent(r, l, actor, a).ledger;
      && Supply(l1) == Supply(l)
      && (forall x :: x != actor ==> BalanceOf(l1, x) == BalanceOf(l, x))
      && BalanceOf(l1, actor).locked >= BalanceOf(l, actor).locked
      && BalanceOf(l1, actor).unlocked == BalanceOf(l, actor).unlocked - if a.royalty > 0 then r.stateLockup else 0
  {
    WorthBounded(l, actor);
    if RegisterContent(r, l, actor, a).Done? {
      RegisterConserves(r, l, actor, a);
    }
  }

  lemma ServicerSucceedsExactly(l: Ledger, actor: PublicKey, a: Action)
    requires a.Index? && Supply(l) < TWO_64
    ensures PayServicer(l, actor, a).Done? <==>
      a.commission > 0 ==>
        a.servicer != EMPTY_KEY && Exists(l, a.servicer) && BalanceOf(l, actor).unlocked >= a.commission
  {
    if a.servicer != EMPTY_KEY && a.commission > 0 {
      var s := SubUnlocked(l, actor, a.commission);
      if s.Done? {
        SubConserves(l, actor, a.commission);
        AddSucceeds(s.ledger, a.servicer, a.commission, false);
      }
    }
  }

  /** The object is well formed, names the parent's owner, its content is new, its servicer
      exists, and the actor can pay the royalty, then the lockup, then the commission. */
  predicate CanIndex(r: Rules, l: Ledger, actor: PublicKey, a: Action)
    requires a.Index?
  {
    var u := BalanceOf(l, actor).unlocked;
    var lockup := if a.royalty > 0 then r.stateLockup else 0;
    && a.schema != EMPTY_ID && |a.body| <= 1_600
    && a.searcher == ParentOwner(l, a) && u >= ParentFee(l, a)
    && (a.royalty > 0 ==> ContentID(r, a) !in l.content && u - ParentCost(l, actor, a) >= lockup)
    && (a.commission > 0 ==>
          && a.servicer != EMPTY_KEY && Exists(l, a.servicer)
          && u - ParentCost(l, actor, a) - lockup >= a.commission)
  }

  lemma IndexSucceedsExactly(r: Rules, l: Ledger, actor: PublicKey, a: Action)
    requires Sound(r, l) && Exists(l, actor) && a.Index?
    ensures ExecuteIndex(r, l, actor, a).Done? <==> CanIndex(r, l, actor, a)
  {
    var p := PayParent(l, actor, a);
    ParentSucceedsExactly(l, actor, a);
    if p.Done? {
      ParentConserves(l, actor, a);
      ParentEffect(l, actor, a);
      RegisterSucceedsExactly(r, p.ledger, actor, a);
      var q := RegisterContent(r, p.ledger, actor, a);
      if q.Done? {
        ServicerSucceedsExactly(q.ledger, actor, a);
        assert Exists(q.ledger, a.servicer) == Exists(l, a.servicer);
      }
    }
  }

  // ----- The same at the level of transactions -----

  lemma ChargedIsSound(r: Rules, l: Ledger, tx: Transaction)
    requires Sound(r, l) && Charge(l, tx).Done?
    ensures Sound(r, Charge(l, tx).ledger)
    ensures Grant(Actor(tx.auth), tx.auth.signer) in Charge(l, tx).ledger.permissions
    ensures Charge(l, tx).ledger.content == l.content
    ensures Charge(l, tx).ledger.permissions == l.permissions
  {
    ChargeKeeps(r.stateLockup, l, tx);
    ChargeConserves(l, tx);
  }

  /** `x` is credited `gain` and charged `loss` from its unlocked funds, and locks `more`. */
  ghost predicate Moves(l: Ledger, l': Ledger, x: PublicKey, gain: int, loss: int, more: int) {
    && BalanceOf(l', x).unlocked == BalanceOf(l, x).unlocked + gain - loss
    && BalanceOf(l', x).locked == BalanceOf(l, x).locked + more
  }

  function When(c: bool, amount: int): int {
    if c then amount else 0
  }

  lemma ChargeMoves(l: Ledger, tx: Transaction, x: PublicKey)
    requires Charge(l, tx).Done?
    ensures var c := Charge(l, tx).ledger;
      && Moves(l, c, x, 0, When(x == Payer(tx.auth), tx.maxFee), 0)
      && BalanceOf(l, Payer(tx.auth)).unlocked >= tx.maxFee
  {
    ChargeEffect(l, tx);
  }

  /** A refund credits the payer, if it still exists, and changes nothing else. */
  lemma SettleMoves(l: Ledger, c: Ledger, e: Step<()>, tx: Transaction, x: PublicKey)
    requires Settle(l, c, e, tx).Applied?
    ensures var o, l3, payer := Settle(l, c, e, tx), Commit(c, e), Payer(tx.auth);
      && o.success == e.Done?
      && Moves(l3, o.ledger, x, When(x == payer && Exists(l3, payer), tx.maxFee - tx.fee), 0, 0)
      && o.ledger.permissions == l3.permissions && o.ledger.content == l3.content
  {}

  /** One unit of lockup comes back to `actor`, the payer pays the fee, and no other balance
      changes. */
  ghost predicate ReturnsLockup(r: Rules, l: Ledger, l': Ledger, tx: Transaction, x: PublicKey) {
    Moves(l, l', x, When(x == Actor(tx.auth), r.stateLockup), When(x == Payer(tx.auth), tx.fee),
          -When(x == Actor(tx.auth), r.stateLockup))
  }

  /** From `c` to `l'` one unit of the actor's lockup becomes unlocked. */
  ghost predicate Released(r: Rules, c: Ledger, l': Ledger, actor: PublicKey) {
    var b := BalanceOf(c, actor);
    && b.locked >= r.stateLockup && b.unlocked + r.stateLockup < TWO_64
    && l'.balances == c.balances[actor := Balance(b.unlocked + r.stateLockup, b.locked - r.stateLockup)]
  }

  lemma ReleaseMoves(r: Rules, l: Ledger, tx: Transaction, c: Ledger, e: Step<()>, x: PublicKey)
    requires Sound(r, l) && Debited(l, c, Payer(tx.auth), tx.maxFee)
    requires e.Done? && Released(r, c, e.ledger, Actor(tx.auth)) && Exists(e.ledger, Actor(tx.auth))
    requires Settle(l, c, e, tx).Applied?
    ensures ReturnsLockup(r, l, Settle(l, c, e, tx).ledger, tx, x)
  {
    SettleMoves(l, c, e, tx, x);
    assert AccountOk(r.stateLockup, l, Payer(tx.auth));
    if !Exists(l, Payer(tx.auth)) {
      assert tx.maxFee == 0;
    }
  }

  /** A transaction whose action releases a unit of lockup is applied, returns that unit and
      costs the payer the fee beside it. */
  lemma ReleaseTakesEffect(r: Rules, l: Ledger, tx: Transaction, c: Ledger, e: Step<()>)
    requires Sound(r, l) && Charge(l, tx) == Done(c, ()) && Execute(r, c, tx.auth, tx.action) == e
    requires e.Done? && Released(r, c, e.ledger, Actor(tx.auth)) && Exists(e.ledger, Actor(tx.auth))
    ensures var o := Apply(r, l, tx);
      && o.Applied? && o.success
      && o.ledger.permissions == e.ledger.permissions && o.ledger.content == e.ledger.content
      && forall x :: ReturnsLockup(r, l, o.ledger, tx, x)
  {
    ApplyConserves(r, l, tx);
    assert Apply(r, l, tx) == Settle(l, c, e, tx);
    ChargeEffect(l, tx);
    SettleMoves(l, c, e, tx, Actor(tx.auth));
    forall x ensures ReturnsLockup(r, l, Settle(l, c, e, tx).ledger, tx, x) {
      ReleaseMoves(r, l, tx, c, e, x);
    }
  }

  lemma UnindexTakesEffect(r: Rules, l: Ledger, tx: Transaction)
    requires Sound(r, l) && Charge(l, tx).Done? && tx.action.Unindex?
    requires tx.action.id != EMPTY_ID
    requires tx.action.id in l.content && l.content[tx.action.id].owner == Actor(tx.auth)
    ensures var o := Apply(r, l, tx);
      && o.Applied? && o.success
      && o.ledger.content == l.content - {tx.action.id} && o.ledger.permissions == l.permissions
      && forall x :: ReturnsLockup(r, l, o.ledger, tx, x)
  {
    var c, actor := Charge(l, tx).ledger, Actor(tx.auth);
    var e := ExecuteUnindex(r, c, actor, tx.action.id);
    ChargedIsSound(r, l, tx);
    UnindexSucceedsExactly(r, c, actor, tx.action.id);
    assert Released(r, c, e.ledger, actor) && Exists(e.ledger, actor) by {
      ActingAccountLocksTwo(r, c, Grant(actor, tx.auth.signer));
      WorthBounded(c, actor);
    }
    ReleaseTakesEffect(r, l, tx, c, e);
  }

  lemma RevokeTakesEffect(r: Rules, l: Ledger, tx: Transaction, g: Grant)
    requires Sound(r, l) && Charge(l, tx).Done? && g.actor == Actor(tx.auth)
    requires tx.action == Authorize(g.actor, g.signer, NO_PERMISSIONS) && g in l.permissions
    ensures var o := Apply(r, l, tx);
      && o.Applied? && o.success
      && o.ledger.permissions == l.permissions - {g} && o.ledger.content == l.content
      && forall x :: ReturnsLockup(r, l, o.ledger, tx, x)
  {
    var c := Charge(l, tx).ledger;
    var e := ExecuteAuthorize(r, c, g.actor, tx.action);
    ChargedIsSound(r, l, tx);
    RevokeReturnsLockup(r, c, g);
    assert Released(r, c, e.ledger, g.actor) && Exists(e.ledger, g.actor) by {
      ActingAccountLocksTwo(r, c, g);
      WorthBounded(c, g.actor);
    }
    ReleaseTakesEffect(r, l, tx, c, e);
  }

  /** In every reachable state a verified, funded Unindex by the owner takes effect: exactly
      one unit of lockup comes back to it, and the payer pays exactly the fee. */
  lemma OwnerCanAlwaysUnindex(r: Rules, l: Ledger, tx: Transaction)
    requires ValidRules(r) && FundedReachable(r, l)
    requires Charge(l, tx).Done? && tx.action.Unindex?
    requires tx.action.id != EMPTY_ID
    requires tx.action.id in l.content && l.content[tx.action.id].owner == Actor(tx.auth)
    ensures var o := Apply(r, l, tx);
      && o.Applied? && o.success
      && o.ledger.content == l.content - {tx.action.id} && o.ledger.permissions == l.permissions
      && forall x :: ReturnsLockup(r, l, o.ledger, tx, x)
  {
    ReachableIsSound(r, l);
    UnindexTakesEffect(r, l, tx);
  }

  /** In every reachable state a verified, funded revocation takes effect in the same way. */
  lemma ActorCanAlwaysRevoke(r: Rules, l: Ledger, tx: Transaction, g: Grant)
    requires ValidRules(r) && FundedReachable(r, l)
    requires Charge(l, tx).Done? && g.actor == Actor(tx.auth)
    requires tx.action == Authorize(g.actor, g.signer, NO_PERMISSIONS) && g in l.permissions
    ensures var o := Apply(r, l, tx);
      && o.Applied? && o.success
      && o.ledger.permissions == l.permissions - {g} && o.ledger.content == l.content
      && forall x :: ReturnsLockup(r, l, o.ledger, tx, x)
  {
    ReachableIsSound(r, l);
    RevokeTakesEffect(r, l, tx, g);
  }
}
