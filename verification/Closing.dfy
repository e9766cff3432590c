/**
 Closing an account from any state: its owner can release every lockup one transaction at a
 time and then clear the account, and what arrives at the recipient is the account's whole
 worth less the fees.
 */
module Closing {
  import opened Base
  import opened Storage
  import opened Actions
  import opened Transactions
  import opened Lockup
  import opened Conservation
  import opened Guarantees
  import Genesis

  /** A transaction that `a` signs and pays for itself. */
  function Own(a: PublicKey, action: Action, maxFee: uint64, fee: uint64): Transaction
    requires fee <= maxFee
  {
    Transaction(Direct(a), action, maxFee, fee)
  }

  /** A record that lets its holder take the action with this index and have the actor pay. */
  predicate Allows(p: Permissions, index: nat) {
    CheckBit(p.action, index) && CheckBit(p.misc, ACTOR_PAYS_BIT)
  }

  lemma DefaultAllows(index: nat)
    requires index <= 5
    ensures Allows(DEFAULT_PERMISSIONS, index)
  {
    CheckBitExtremes(index);
    CheckBitExtremes(ACTOR_PAYS_BIT);
  }

  lemma OwnIsCharged(l: Ledger, a: PublicKey, action: Action, maxFee: uint64, fee: uint64)
    requires Allows(PermissionsOf(l, Grant(a, a)), ActionIndex(action))
    requires fee <= maxFee <= BalanceOf(l, a).unlocked
    ensures Charge(l, Own(a, action, maxFee, fee)).Done?
  {}

  function Others(l: Ledger, a: PublicKey): set<Grant> {
    Grants(l.permissions, a) - {Grant(a, a)}
  }

  /** The account's own record lets it clear itself, unindex its content if it has any, and
      revoke its other records if it granted any; none of its content is under the empty ID. */
  ghost predicate Closable(r: Rules, l: Ledger, a: PublicKey) {
    var own := PermissionsOf(l, Grant(a, a));
    && Sound(r, l)
    && Allows(own, ActionIndex(Clear(a)))
    && (Owned(l.content, a) != {} ==> Allows(own, ActionIndex(Unindex(EMPTY_ID))))
    && (Others(l, a) != {} ==> Allows(own, ActionIndex(Authorize(a, a, NO_PERMISSIONS))))
    && EMPTY_ID !in Owned(l.content, a)
  }

  lemma OwnRecordStored(l: Ledger, a: PublicKey, index: nat)
    requires Allows(PermissionsOf(l, Grant(a, a)), index)
    ensures Grant(a, a) in l.permissions
  {
    CheckBitExtremes(index);
  }

  /** The state to release before the account can be cleared. */
  function Extra(l: Ledger, a: PublicKey): nat {
    |Others(l, a)| + |Owned(l.content, a)|
  }

  /** The account can pay for every transaction in advance, each release having returned one
      unit of lockup and cost one fee. */
  ghost predicate Affords(r: Rules, l: Ledger, a: PublicKey, maxFee: nat, fee: nat) {
    var u, n := BalanceOf(l, a).unlocked, Extra(l, a);
    u >= maxFee && u + Cost(r.stateLockup, n) >= maxFee + Cost(fee, n)
  }

  lemma {:induction false} CostGrows(x: nat, y: nat, n: nat)
    requires x <= y
    ensures Cost(x, n) <= Cost(y, n)
  {
    if n > 0 {
      CostGrows(x, y, n - 1);
    }
  }

  predicate SameBalance(l: Ledger, l': Ledger, x: PublicKey) {
    BalanceOf(l', x) == BalanceOf(l, x)
  }

  /** No account but those of `some` has another balance in `l'` than in `l`. */
  ghost predicate OnlyMoves(l: Ledger, l': Ledger, some: set<PublicKey>) {
    forall x :: x !in some ==> SameBalance(l, l', x)
  }

  lemma CostStep(x: nat, n: nat, m: nat)
    requires n == m + 1
    ensures Cost(x, n) == Cost(x, m) + x
  {}

  /** One release: the next state is as closable, with one piece less and one unit more to
      spend, less the fee; no other balance changed. */
  ghost predicate ReleasedOne(r: Rules, l: Ledger, l1: Ledger, a: PublicKey, maxFee: nat, fee: nat) {
    && Closable(r, l1, a) && Affords(r, l1, a, maxFee, fee)
    && Extra(l1, a) == Extra(l, a) - 1
    && WorthAt(l1.balances, a) == WorthAt(l.balances, a) - fee
    && OnlyMoves(l, l1, {a})
  }

  lemma StaysSound(r: Rules, l: Ledger, tx: Transaction)
    requires Sound(r, l)
    ensures Sound(r, Apply(r, l, tx).ledger)
  {
    ApplyKeeps(r, l, tx);
    ApplyConserves(r, l, tx);
  }

  lemma StillAffords(r: Rules, l: Ledger, l1: Ledger, a: PublicKey, maxFee: nat, fee: nat)
    requires Affords(r, l, a, maxFee, fee) && Extra(l, a) > 0 && Extra(l1, a) == Extra(l, a) - 1
    requires BalanceOf(l1, a).unlocked == BalanceOf(l, a).unlocked + r.stateLockup - fee
    ensures Affords(r, l1, a, maxFee, fee)
  {
    var n, m := Extra(l, a), Extra(l1, a);
    CostStep(r.stateLockup, n, m);
    CostStep(fee, n, m);
    if r.stateLockup < fee {
      CostGrows(r.stateLockup, fee, m);
    }
  }

  lemma StillClosable(r: Rules, l: Ledger, l1: Ledger, a: PublicKey)
    requires Closable(r, l, a) && Sound(r, l1) && PermissionsOf(l1, Grant(a, a)) == PermissionsOf(l, Grant(a, a))
    requires Owned(l1.content, a) <= Owned(l.content, a) && Others(l1, a) <= Others(l, a)
    ensures Closable(r, l1, a)
  {}

  lemma ReleaseContent(r: Rules, l: Ledger, a: PublicKey, id: ID, maxFee: uint64, fee: uint64)
    requires Closable(r, l, a) && fee <= maxFee && Affords(r, l, a, maxFee, fee)
    requires id in Owned(l.content, a)
    ensures ReleasedOne(r, l, Apply(r, l, Own(a, Unindex(id), maxFee, fee)).ledger, a, maxFee, fee)
  {
    var tx := Own(a, Unindex(id), maxFee, fee);
    var l1 := Apply(r, l, tx).ledger;
    OwnIsCharged(l, a, tx.action, maxFee, fee);
    UnindexTakesEffect(r, l, tx);
    StaysSound(r, l, tx);
    OwnedAfterRemove(l.content, id, a);
    assert Extra(l1, a) == Extra(l, a) - 1 && Others(l1, a) == Others(l, a);
    StillClosable(r, l, l1, a);
    Moved(r, l, l1, tx);
    StillAffords(r, l, l1, a, maxFee, fee);
  }

  lemma OneRecordLess(l: Ledger, l1: Ledger, g: Grant)
    requires g in l.permissions && g.signer != g.actor
    requires l1.permissions == l.permissions - {g} && l1.content == l.content
    ensures Extra(l1, g.actor) == Extra(l, g.actor) - 1 && Others(l1, g.actor) <= Others(l, g.actor)
  {
    GrantsAfterDelete(l.permissions, g, g.actor);
    assert Others(l1, g.actor) == Others(l, g.actor) - {g} && g in Others(l, g.actor);
  }

  lemma ReleaseRecord(r: Rules, l: Ledger, g: Grant, maxFee: uint64, fee: uint64)
    requires Closable(r, l, g.actor) && fee <= maxFee && Affords(r, l, g.actor, maxFee, fee)
    requires g in l.permissions && g.signer != g.actor
    ensures var tx := Own(g.actor, Authorize(g.actor, g.signer, NO_PERMISSIONS), maxFee, fee);
      ReleasedOne(r, l, Apply(r, l, tx).ledger, g.actor, maxFee, fee)
  {
    var a := g.actor;
    var tx := Own(a, Authorize(a, g.signer, NO_PERMISSIONS), maxFee, fee);
    var l1 := Apply(r, l, tx).ledger;
    assert g in Others(l, a);
    OwnIsCharged(l, a, tx.action, maxFee, fee);
    RevokeTakesEffect(r, l, tx, g);
    StaysSound(r, l, tx);
    OneRecordLess(l, l1, g);
    StillClosable(r, l, l1, a);
    Moved(r, l, l1, tx);
    StillAffords(r, l, l1, a, maxFee, fee);
  }

  lemma Moved(r: Rules, l: Ledger, l1: Ledger, tx: Transaction)
    requires tx.auth.Direct? && forall x :: ReturnsLockup(r, l, l1, tx, x)
    ensures var a := tx.auth.signer;
      && BalanceOf(l1, a).unlocked == BalanceOf(l, a).unlocked + r.stateLockup - tx.fee
      && WorthAt(l1.balances, a) == WorthAt(l.balances, a) - tx.fee
      && OnlyMoves(l, l1, {a})
  {
    assert ReturnsLockup(r, l, l1, tx, tx.auth.signer);
    forall x | x != tx.auth.signer ensures SameBalance(l, l1, x) {
      assert ReturnsLockup(r, l, l1, tx, x);
    }
  }

  /** The account is gone, and the recipient is richer by all of it less `cost`. */
  ghost predicate Closed(l: Ledger, l': Ledger, a: PublicKey, to: PublicKey, cost: nat) {
    && a !in l'.balances && Grants(l'.permissions, a) == {} && Owned(l'.content, a) == {}
    && WorthAt(l'.balances, to) == WorthAt(l.balances, to) + WorthAt(l.balances, a) - cost
    && OnlyMoves(l, l', {a, to})
  }

  /** The last transaction; the account that would be refunded is gone, so that it costs the
      whole maximum fee. */
  lemma ClearCloses(r: Rules, l: Ledger, a: PublicKey, to: PublicKey, maxFee: uint64, fee: uint64)
    returns (txs: seq<Transaction>, l': Ledger)
    requires Closable(r, l, a) && to != a && fee <= maxFee <= BalanceOf(l, a).unlocked && Extra(l, a) == 0
    ensures txs == [Own(a, Clear(to), maxFee, fee)]
    ensures l' == Run(r, l, txs) && Closed(l, l', a, to, maxFee)
  {
    var tx, g := Own(a, Clear(to), maxFee, fee), Grant(a, a);
    OwnRecordStored(l, a, ActionIndex(tx.action));
    OwnIsCharged(l, a, tx.action, maxFee, fee);
    var c := Charge(l, tx).ledger;
    ChargedIsSound(r, l, tx);
    OnlyOwnRecord(c, a);
    ClearSucceedsExactly(r, c, g, to);
    var e := ExecuteClear(r, c, a, a, to);
    ClearLeavesNothing(r, c, g, to);
    ClearMoves(r, c, g, to);
    ChargeEffect(l, tx);
    ClosedLater(l, c, e.ledger, a, to, 0, maxFee);
    UnrefundedSettle(l, c, e, tx);
    txs, l' := [tx] + [], Settle(l, c, e, tx).ledger;
    RunCons(r, l, tx, l', []);
  }

  lemma OnlyOwnRecord(l: Ledger, a: PublicKey)
    requires Grant(a, a) in l.permissions && Extra(l, a) == 0
    ensures Grants(l.permissions, a) == {Grant(a, a)} && Owned(l.content, a) == {}
  {
    assert Grants(l.permissions, a) == Others(l, a) + {Grant(a, a)};
  }

  /** Clear in terms of worth. */
  lemma ClearMoves(r: Rules, l: Ledger, g: Grant, to: PublicKey)
    requires Sound(r, l) && g in l.permissions && to != g.actor
    requires ExecuteClear(r, l, g.actor, g.signer, to).Done?
    ensures var l' := ExecuteClear(r, l, g.actor, g.signer, to).ledger;
      && WorthAt(l'.balances, to) == WorthAt(l.balances, to) + WorthAt(l.balances, g.actor)
      && OnlyMoves(l, l', {g.actor, to})
  {
    var b, e := BalanceOf(l, g.actor), Emptied(Touch(l, BalanceKey(g.actor)), g);
    assert AccountOk(r.stateLockup, l, to);
    ClearEmpties(r, l, g, to);
    assert BalanceOf(e, to) == BalanceOf(l, to);
    PayEffect(r, e, to, b.unlocked + b.locked);
  }

  lemma UnrefundedSettle(l: Ledger, c: Ledger, e: Step<()>, tx: Transaction)
    requires e.Done? && Payer(tx.auth) !in e.ledger.balances
    ensures var l' := Settle(l, c, e, tx).ledger; SameState(e.ledger, l')
  {}

  /** Signed and paid for by `a`, at the same fees. */
  predicate PaidBy(tx: Transaction, a: PublicKey, maxFee: uint64, fee: uint64) {
    tx.auth == Direct(a) && tx.maxFee == maxFee && tx.fee == fee
  }

  ghost predicate AllPaidBy(txs: seq<Transaction>, a: PublicKey, maxFee: uint64, fee: uint64) {
    forall i :: 0 <= i < |txs| ==> PaidBy(txs[i], a, maxFee, fee)
  }

  lemma PaidCons(tx: Transaction, rest: seq<Transaction>, a: PublicKey, maxFee: uint64, fee: uint64)
    requires PaidBy(tx, a, maxFee, fee) && AllPaidBy(rest, a, maxFee, fee)
    ensures AllPaidBy([tx] + rest, a, maxFee, fee)
  {}

  lemma ReleaseSome(r: Rules, l: Ledger, a: PublicKey, maxFee: uint64, fee: uint64)
    returns (tx: Transaction, l1: Ledger)
    requires Closable(r, l, a) && fee <= maxFee && Affords(r, l, a, maxFee, fee) && Extra(l, a) > 0
    ensures PaidBy(tx, a, maxFee, fee) && (tx.action.Unindex? || tx.action.Authorize?)
    ensures l1 == Apply(r, l, tx).ledger && ReleasedOne(r, l, l1, a, maxFee, fee)
  {
    if id :| id in Owned(l.content, a) {
      tx := Own(a, Unindex(id), maxFee, fee);
      ReleaseContent(r, l, a, id, maxFee, fee);
    } else {
      var g :| g in Others(l, a);
      tx := Own(a, Authorize(a, g.signer, NO_PERMISSIONS), maxFee, fee);
      ReleaseRecord(r, l, g, maxFee, fee);
    }
    l1 := Apply(r, l, tx).ledger;
  }

  lemma RunCons(r: Rules, l: Ledger, tx: Transaction, l1: Ledger, rest: seq<Transaction>)
    requires l1 == Apply(r, l, tx).ledger
    ensures Run(r, l, [tx] + rest) == Run(r, l1, rest)
  {
    assert ([tx] + rest)[1..] == rest;
  }

  /** From every sound state an account whose own record allows what is needed, with no content
      under the empty ID, that can pay in advance has transactions, one for each record and content to
      release and a last one that clears it, after which nothing of it is left and the
      recipient has all it was worth less the fees. */
  lemma {:induction false} CanAlwaysClose(r: Rules, l: Ledger, a: PublicKey, to: PublicKey, maxFee: uint64, fee: uint64)
    returns (txs: seq<Transaction>, l': Ledger, cost: nat)
    requires Closable(r, l, a) && to != a && fee <= maxFee && Affords(r, l, a, maxFee, fee)
    ensures |txs| == Extra(l, a) + 1 && AllPaidBy(txs, a, maxFee, fee)
    ensures l' == Run(r, l, txs) && Closed(l, l', a, to, cost)
    ensures cost == maxFee + Cost(fee, Extra(l, a))
    decreases Extra(l, a)
  {
    if Extra(l, a) == 0 {
      txs, l' := ClearCloses(r, l, a, to, maxFee, fee);
      cost := maxFee;
    } else {
      var tx, l1 := ReleaseSome(r, l, a, maxFee, fee);
      var rest, last, rests := CanAlwaysClose(r, l1, a, to, maxFee, fee);
      RunCons(r, l, tx, l1, rest);
      PaidCons(tx, rest, a, maxFee, fee);
      ClosedLater(l, l1, last, a, to, rests, fee);
      CostStep(fee, Extra(l, a), Extra(l1, a));
      txs, l', cost := [tx] + rest, last, rests + fee;
    }
  }

  /** Closing an account that has paid `fee` since. */
  lemma ClosedLater(l: Ledger, l1: Ledger, l': Ledger, a: PublicKey, to: PublicKey, cost: nat, fee: nat)
    requires a != to && Closed(l1, l', a, to, cost)
    requires WorthAt(l1.balances, a) == WorthAt(l.balances, a) - fee
    requires OnlyMoves(l, l1, {a})
    ensures Closed(l, l', a, to, cost + fee)
  {
    assert SameBalance(l, l1, to);
    forall x | x !in {a, to} ensures SameBalance(l, l', x) {
      assert SameBalance(l, l1, x) && SameBalance(l1, l', x);
    }
  }

  // ----- Beyond the supply bound -----

  /** A refund of nothing changes nothing. */
  lemma FreeSettle(l: Ledger, c: Ledger, e: Step<()>, tx: Transaction)
    requires tx.maxFee == 0 && e.Done?
    ensures var o := Settle(l, c, e, tx);
      && o.Applied? && o.success && Supply(o.ledger) == Supply(e.ledger)
      && o.ledger.permissions == e.ledger.permissions && o.ledger.content == e.ledger.content
      && forall x :: SameBalance(e.ledger, o.ledger, x)
  {
    AddConserves(e.ledger, Payer(tx.auth), 0, true);
    forall x ensures SameBalance(e.ledger, Settle(l, c, e, tx).ledger, x) {
      SettleMoves(l, c, e, tx, x);
    }
    SettleMoves(l, c, e, tx, Payer(tx.auth));
  }

  /** A transaction without fees does what its action does. */
  lemma FreeTransaction(r: Rules, l: Ledger, tx: Transaction, c: Ledger, e: Step<()>)
    requires tx.maxFee == 0 && Charge(l, tx) == Done(c, ()) && Execute(r, c, tx.auth, tx.action) == e && e.Done?
    ensures var o := Apply(r, l, tx);
      && o.Applied? && o.success && Supply(o.ledger) == Supply(e.ledger)
      && o.ledger.permissions == e.ledger.permissions && o.ledger.content == e.ledger.content
      && forall x :: SameBalance(e.ledger, o.ledger, x)
  {
    FreeSettle(l, c, e, tx);
    assert Apply(r, l, tx) == Settle(l, c, e, tx);
  }

  lemma FreeCharge(l: Ledger, a: PublicKey, action: Action) returns (c: Ledger)
    requires PermissionsOf(l, Grant(a, a)) == DEFAULT_PERMISSIONS
    ensures Charge(l, Own(a, action, 0, 0)) == Done(c, ())
    ensures c.permissions == l.permissions && Supply(c) == Supply(l)
    ensures forall x :: SameBalance(l, c, x)
  {
    var tx := Own(a, action, 0, 0);
    DefaultAllows(ActionIndex(action));
    OwnIsCharged(l, a, action, 0, 0);
    c := Charge(l, tx).ledger;
    ChargeEffect(l, tx);
    ChargeConserves(l, tx);
  }

  /** An account whose worth is exactly 2^64, cleared at no fee. */
  lemma WrappingClear(r: Rules, l: Ledger, a: PublicKey, b: PublicKey)
    requires ValidRules(r) && a != b && Exists(l, b) && PermissionsOf(l, Grant(a, a)) == DEFAULT_PERMISSIONS
    requires BalanceOf(l, a) == Balance(TWO_64 - r.stateLockup * 2, r.stateLockup * 2)
    ensures var o := Apply(r, l, Own(a, Clear(b), 0, 0));
      && o.Applied? && o.success && SameBalance(l, o.ledger, b) && Supply(o.ledger) == Supply(l) - TWO_64
  {
    var c := FreeCharge(l, a, Clear(b));
    assert SameBalance(l, c, a) && SameBalance(l, c, b);
    ClearSupply(r, c, a, a, b);
    FreeTransaction(r, l, Own(a, Clear(b), 0, 0), c, ExecuteClear(r, c, a, a, b));
    assert SameBalance(ExecuteClear(r, c, a, a, b).ledger, Apply(r, l, Own(a, Clear(b), 0, 0)).ledger, b);
  }

  /** One unit paid to an account that exists, at no fee. */
  lemma PayOneMore(r: Rules, l: Ledger, b: PublicKey, a: PublicKey)
    requires a != b && Exists(l, a) && PermissionsOf(l, Grant(b, b)) == DEFAULT_PERMISSIONS
    requires BalanceOf(l, b).unlocked >= 1 && BalanceOf(l, a).unlocked + 1 < TWO_64
    ensures var o := Apply(r, l, Own(b, Transfer(a, 1), 0, 0));
      && o.Applied? && o.success && Supply(o.ledger) == Supply(l) && o.ledger.permissions == l.permissions
      && BalanceOf(o.ledger, a) == Balance(BalanceOf(l, a).unlocked + 1, BalanceOf(l, a).locked)
      && BalanceOf(o.ledger, b) == Balance(BalanceOf(l, b).unlocked - 1, BalanceOf(l, b).locked)
  {
    var tx := Own(b, Transfer(a, 1), 0, 0);
    var c := FreeCharge(l, b, Transfer(a, 1));
    assert SameBalance(l, c, a) && SameBalance(l, c, b);
    var e := ExecuteTransfer(r, c, b, a, 1);
    TransferConserves(r, c, b, a, 1);
    FreeTransaction(r, l, tx, c, e);
    assert SameBalance(e.ledger, Apply(r, l, tx).ledger, a) && SameBalance(e.ledger, Apply(r, l, tx).ledger, b);
  }

  lemma RunPair(r: Rules, l: Ledger, first: Transaction, second: Transaction)
    ensures Run(r, l, [first, second]) == Apply(r, Apply(r, l, first).ledger, second).ledger
  {
    var l1 := Apply(r, l, first).ledger;
    RunCons(r, l, first, l1, [second]);
    RunCons(r, l1, second, Apply(r, l1, second).ledger, []);
    assert [first] + [second] == [first, second] && [second] + [] == [second];
  }

  /** Genesis does not check its sum. */
  lemma OverfullGenesis(r: Rules, a: PublicKey, b: PublicKey)
    requires ValidRules(r) && a != b
    ensures var g := Load(r, EMPTY_LEDGER, [Allocation(a, TWO_64 - 1), Allocation(b, r.stateLockup * 2 + 1)]);
      && g.Done? && Supply(g.ledger) == TWO_64 + r.stateLockup * 2
      && BalanceOf(g.ledger, a) == Balance(TWO_64 - 1 - r.stateLockup * 2, r.stateLockup * 2)
      && BalanceOf(g.ledger, b) == Balance(1, r.stateLockup * 2)
      && PermissionsOf(g.ledger, Grant(a, a)) == PermissionsOf(g.ledger, Grant(b, b)) == DEFAULT_PERMISSIONS
  {
    var x, y := Allocation(a, TWO_64 - 1), Allocation(b, r.stateLockup * 2 + 1);
    Genesis.LoadOneResult(r, EMPTY_LEDGER, x);
    Genesis.LoadOneResult(r, LoadOne(r, EMPTY_LEDGER, x).ledger, y);
    Genesis.LoadPair(r, EMPTY_LEDGER, x, y);
    LoadConserves(r, EMPTY_LEDGER, [x, y]);
    AllocatedPair(x, y);
    assert Supply(EMPTY_LEDGER) == 0;
  }

  /** With 2^64 - 1 for one account at genesis, and enough for another that pays it one more,
      the first one's Clear pays out nothing, and of the whole supply only the lockup of the
      other account is left. */
  lemma ClearLosesUnboundedSupply(r: Rules, a: PublicKey, b: PublicKey)
    requires ValidRules(r) && a != b
    ensures var g := Load(r, EMPTY_LEDGER, [Allocation(a, TWO_64 - 1), Allocation(b, r.stateLockup * 2 + 1)]);
      var l := Run(r, g.ledger, [Own(b, Transfer(a, 1), 0, 0), Own(a, Clear(b), 0, 0)]);
      && g.Done? && Supply(g.ledger) == TWO_64 + r.stateLockup * 2
      && Supply(l) == r.stateLockup * 2 && BalanceOf(l, b) == Balance(0, r.stateLockup * 2)
  {
    OverfullGenesis(r, a, b);
    var x, y := Allocation(a, TWO_64 - 1), Allocation(b, r.stateLockup * 2 + 1);
    PayThenClear(r, Load(r, EMPTY_LEDGER, [x, y]).ledger, a, b);
  }

  lemma PayThenClear(r: Rules, l: Ledger, a: PublicKey, b: PublicKey)
    requires ValidRules(r) && a != b
    requires BalanceOf(l, a) == Balance(TWO_64 - 1 - r.stateLockup * 2, r.stateLockup * 2)
    requires BalanceOf(l, b) == Balance(1, r.stateLockup * 2)
    requires PermissionsOf(l, Grant(a, a)) == PermissionsOf(l, Grant(b, b)) == DEFAULT_PERMISSIONS
    ensures var l' := Run(r, l, [Own(b, Transfer(a, 1), 0, 0), Own(a, Clear(b), 0, 0)]);
      Supply(l') == Supply(l) - TWO_64 && BalanceOf(l', b) == Balance(0, r.stateLockup * 2)
  {
    var first, second := Own(b, Transfer(a, 1), 0, 0), Own(a, Clear(b), 0, 0);
    RunPair(r, l, first, second);
    PayOneMore(r, l, b, a);
    WrappingClear(r, Apply(r, l, first).ledger, a, b);
  }

  lemma AllocatedPair(x: Allocation, y: Allocation)
    ensures Allocated([x, y]) == x.balance + y.balance
  {
    assert [x, y][1..] == [y] && [y][1..] == [];
    assert Allocated([y]) == y.balance;
  }
}
