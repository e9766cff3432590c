/**
 Who can lose what: a transaction takes from nobody but its actor and its fee payer, and
 only with the permission bits the actor granted to the signer.
 */
module Authority {
  import opened Base
  import opened Storage
  import opened Actions
  import opened Transactions
  import opened Lockup

  /** From `l` to `l'` account `x` lost no funds, no permission record and no content, and
      granted nothing but the record every new account has. */
  ghost predicate LosesNothing(l: Ledger, l': Ledger, x: PublicKey) {
    && BalanceOf(l, x).unlocked <= BalanceOf(l', x).unlocked
    && BalanceOf(l, x).locked <= BalanceOf(l', x).locked
    && RecordsKept(l, l', x)
  }

  ghost predicate RecordsKept(l: Ledger, l': Ledger, x: PublicKey) {
    && (forall g :: g in l.permissions && g.actor == x ==>
          g in l'.permissions && l'.permissions[g] == l.permissions[g])
    && (forall g :: g in l'.permissions && g.actor == x ==> g in l.permissions || g == Grant(x, x))
    && (forall id :: id in l.content && l.content[id].owner == x ==>
          id in l'.content && l'.content[id] == l.content[id])
  }

  lemma RecordsKeptTrans(l: Ledger, l1: Ledger, l2: Ledger, x: PublicKey)
    requires RecordsKept(l, l1, x) && RecordsKept(l1, l2, x)
    ensures RecordsKept(l, l2, x)
  {}

  lemma LosesNothingTrans(l: Ledger, l1: Ledger, l2: Ledger, x: PublicKey)
    requires LosesNothing(l, l1, x) && LosesNothing(l1, l2, x)
    ensures LosesNothing(l, l2, x)
  {
    RecordsKeptTrans(l, l1, l2, x);
  }

  /** A payment takes from nobody. */
  lemma PayTakesNothing(r: Rules, l: Ledger, to: PublicKey, amount: uint64, x: PublicKey)
    requires ValidRules(r) && LockupInvariant(r.stateLockup, l)
    requires PayOrCreate(r, l, to, amount).Done?
    ensures LosesNothing(l, PayOrCreate(r, l, to, amount).ledger, x)
  {
    assert AccountOk(r.stateLockup, l, to);
    forall g | g in l.permissions && g.actor == to ensures g in Grants(l.permissions, to) {}
  }

  lemma TransferFrame(r: Rules, l: Ledger, actor: PublicKey, to: PublicKey, value: uint64, x: PublicKey)
    requires ValidRules(r) && LockupInvariant(r.stateLockup, l) && x != actor
    requires ExecuteTransfer(r, l, actor, to, value).Done?
    ensures LosesNothing(l, ExecuteTransfer(r, l, actor, to, value).ledger, x)
  {
    SubKeeps(r.stateLockup, l, actor, value);
    var l1 := SubUnlocked(l, actor, value).ledger;
    PayTakesNothing(r, l1, to, value, x);
    LosesNothingTrans(l, l1, ExecuteTransfer(r, l, actor, to, value).ledger, x);
  }

  lemma ClearFrame(r: Rules, l: Ledger, g: Grant, to: PublicKey, x: PublicKey)
    requires ValidRules(r) && LockupInvariant(r.stateLockup, l) && x != g.actor && g in l.permissions
    requires ExecuteClear(r, l, g.actor, g.signer, to).Done?
    ensures LosesNothing(l, ExecuteClear(r, l, g.actor, g.signer, to).ledger, x)
  {
    var b, l1 := BalanceOf(l, g.actor), Touch(l, BalanceKey(g.actor));
    TouchKeeps(r.stateLockup, l, l1);
    EmptiedKeeps(r, l1, g);
    var e := Emptied(l1, g);
    PayTakesNothing(r, e, to, WrappingAdd(b.unlocked, b.locked), x);
    LosesNothingTrans(l, e, ExecuteClear(r, l, g.actor, g.signer, to).ledger, x);
  }

  lemma AuthorizeFrame(r: Rules, l: Ledger, actor: PublicKey, a: Action, x: PublicKey)
    requires a.Authorize? && x != actor
    requires ExecuteAuthorize(r, l, actor, a).Done?
    ensures LosesNothing(l, ExecuteAuthorize(r, l, actor, a).ledger, x)
  {}

  lemma ParentFrame(l: Ledger, actor: PublicKey, a: Action, x: PublicKey)
    requires a.Index? && x != actor
    requires PayParent(l, actor, a).Done?
    ensures LosesNothing(l, PayParent(l, actor, a).ledger, x)
  {
    if a.parent != EMPTY_ID && a.parent in l.content {
      var c, t := l.content[a.parent], Touch(l, ContentKey(a.parent));
      var l1 := SubUnlocked(t, actor, c.royalty).ledger;
      var l2 := AddUnlocked(l1, c.owner, c.royalty, false).ledger;
      assert BalanceOf(l1, x) == BalanceOf(l, x);
      assert PayParent(l, actor, a).ledger == l2;
    }
  }

  lemma RegisterFrame(r: Rules, l: Ledger, actor: PublicKey, a: Action, x: PublicKey)
    requires a.Index? && x != actor
    requires RegisterContent(r, l, actor, a).Done?
    ensures LosesNothing(l, RegisterContent(r, l, actor, a).ledger, x)
  {}

  lemma ServicerFrame(l: Ledger, actor: PublicKey, a: Action, x: PublicKey)
    requires a.Index? && x != actor
    requires PayServicer(l, actor, a).Done?
    ensures LosesNothing(l, PayServicer(l, actor, a).ledger, x)
  {}

  lemma IndexFrame(r: Rules, l: Ledger, actor: PublicKey, a: Action, x: PublicKey)
    requires a.Index? && x != actor
    requires ExecuteIndex(r, l, actor, a).Done?
    ensures LosesNothing(l, ExecuteIndex(r, l, actor, a).ledger, x)
  {
    var l1 := PayParent(l, actor, a).ledger;
    var l2 := RegisterContent(r, l1, actor, a).ledger;
    var l3 := PayServicer(l2, actor, a).ledger;
    assert LosesNothing(l, l1, x) by { ParentFrame(l, actor, a, x); }
    assert LosesNothing(l1, l2, x) by { RegisterFrame(r, l1, actor, a, x); }
    assert LosesNothing(l2, l3, x) by { ServicerFrame(l2, actor, a, x); }
    LosesNothingTrans(l, l1, l2, x);
    LosesNothingTrans(l, l2, l3, x);
  }

  lemma ExecuteFrame(r: Rules, l: Ledger, auth: Auth, a: Action, x: PublicKey)
    requires ValidRules(r) && LockupInvariant(r.stateLockup, l)
    requires Grant(Actor(auth), auth.signer) in l.permissions
    requires Execute(r, l, auth, a).Done? && x != Actor(auth)
    ensures LosesNothing(l, Execute(r, l, auth, a).ledger, x)
  {
    var g := Grant(Actor(auth), auth.signer);
    match a
    case Authorize(_, _, _) => AuthorizeFrame(r, l, g.actor, a, x);
    case Transfer(to, value) => TransferFrame(r, l, g.actor, to, value, x);
    case Clear(to) => ClearFrame(r, l, g, to, x);
    case Index(_, _, _, _, _, _, _) => IndexFrame(r, l, g.actor, a, x);
    case Unindex(id) =>
    case Modify(id, royalty) =>
  }

  // ----- Transactions -----

  /** A transaction is applied only with the action's bit, and with the pay bit when the
      actor pays, in the record the actor granted to the signer. */
  /** Which bit of a record each action needs: under a delegate, the record its actor granted
      it, and the first of the other bits if the actor pays. A delegate that is its own actor
      is refused whatever the record. */
  lemma DelegateMay(l: Ledger, actor: PublicKey, signer: PublicKey, actorPays: bool, a: Action, action: bv8, misc: bv8)
    requires PermissionsOf(l, Grant(actor, signer)) == Permissions(action as int, misc as int)
    ensures var ok, may := Verify(l, Delegate(actor, signer, actorPays), a).Done?,
        actor != signer && (actorPays ==> misc & 1 != 0);
      && (a.Authorize? ==> (ok <==> may && action & 1 != 0))
      && (a.Transfer? ==> (ok <==> may && action & 2 != 0))
      && (a.Clear? ==> (ok <==> may && action & 4 != 0))
      && (a.Index? ==> (ok <==> may && action & 8 != 0))
      && (a.Unindex? ==> (ok <==> may && action & 16 != 0))
      && (a.Modify? ==> (ok <==> may && action & 32 != 0))
  {
    MaskValues();
    CheckBitIsMaskTest(action, ActionIndex(a));
    CheckBitIsMaskTest(misc, 0);
  }

  /** Acting for itself, a key needs the same bits of its own record, and always the first of
      the other bits. */
  lemma DirectMay(l: Ledger, signer: PublicKey, a: Action, action: bv8, misc: bv8)
    requires PermissionsOf(l, Grant(signer, signer)) == Permissions(action as int, misc as int)
    ensures var ok, may := Verify(l, Direct(signer), a).Done?, misc & 1 != 0;
      && (a.Authorize? ==> (ok <==> may && action & 1 != 0))
      && (a.Transfer? ==> (ok <==> may && action & 2 != 0))
      && (a.Clear? ==> (ok <==> may && action & 4 != 0))
      && (a.Index? ==> (ok <==> may && action & 8 != 0))
      && (a.Unindex? ==> (ok <==> may && action & 16 != 0))
      && (a.Modify? ==> (ok <==> may && action & 32 != 0))
  {
    MaskValues();
    CheckBitIsMaskTest(action, ActionIndex(a));
    CheckBitIsMaskTest(misc, 0);
  }

  /** Whose balance the fee is taken from: the signer's own when it acts for itself, the
      actor's when the delegate says that the actor pays, and else the delegate's. */
  lemma WhoPays(l: Ledger, tx: Transaction)
    requires Charge(l, tx).Done?
    ensures var c := Charge(l, tx).ledger;
      && (tx.auth.Direct? ==> Debited(l, c, tx.auth.signer, tx.maxFee))
      && (tx.auth.Delegate? && tx.auth.actorPays ==> Debited(l, c, tx.auth.onBehalfOf, tx.maxFee))
      && (tx.auth.Delegate? && !tx.auth.actorPays ==> Debited(l, c, tx.auth.signer, tx.maxFee))
  {
    ChargeEffect(l, tx);
  }

  lemma AppliedIsAuthorized(r: Rules, l: Ledger, tx: Transaction)
    requires Apply(r, l, tx).Applied?
    ensures var g := Grant(Actor(tx.auth), tx.auth.signer);
      && g in l.permissions
      && CheckBit(l.permissions[g].action, ActionIndex(tx.action))
      && (Payer(tx.auth) == g.actor ==> CheckBit(l.permissions[g].misc, ACTOR_PAYS_BIT))
      && (Payer(tx.auth) == g.actor || Payer(tx.auth) == tx.auth.signer)
  {
    VerifiedGrantStored(l.(touched := {}), tx.auth, tx.action);
  }

  /** The refund reaches the payer, and takes from nobody. */
  lemma SettlePays(l: Ledger, c: Ledger, e: Step<()>, tx: Transaction, x: PublicKey)
    requires e.Done? ==> LosesNothing(c, e.ledger, x)
    requires Settle(l, c, e, tx).Applied?
    ensures var o := Settle(l, c, e, tx);
      && LosesNothing(c, o.ledger, x)
      && (x == Payer(tx.auth) && Exists(c, x) ==>
            BalanceOf(c, x).unlocked + tx.maxFee - tx.fee <= BalanceOf(o.ledger, x).unlocked)
  {
    var l3, o := Commit(c, e), Settle(l, c, e, tx);
    assert LosesNothing(c, l3, x);
    assert LosesNothing(l3, o.ledger, x);
    LosesNothingTrans(c, l3, o.ledger, x);
  }

  /** The charge takes nothing but the deduction from the payer. */
  lemma ChargeFrame(lockup: nat, l: Ledger, tx: Transaction, x: PublicKey)
    requires LockupInvariant(lockup, l) && Charge(l, tx).Done?
    ensures var c := Charge(l, tx).ledger;
      && RecordsKept(l, c, x) && BalanceOf(c, x).locked == BalanceOf(l, x).locked
      && (x == Payer(tx.auth) ==> BalanceOf(c, x).unlocked == BalanceOf(l, x).unlocked - tx.maxFee)
      && (x != Payer(tx.auth) ==> BalanceOf(c, x) == BalanceOf(l, x))
      && (x == Payer(tx.auth) && !Exists(l, x) ==> tx.maxFee == 0)
  {
    ChargeEffect(l, tx);
    assert AccountOk(lockup, l, x);
  }

  /** An account that is neither the actor nor the payer loses nothing at all; a payer that
      is not the actor loses nothing but the fee. */
  lemma TransactionFrame(r: Rules, l: Ledger, tx: Transaction, x: PublicKey)
    requires ValidRules(r) && LockupInvariant(r.stateLockup, l)
    requires x != Actor(tx.auth)
    ensures x != Payer(tx.auth) ==> LosesNothing(l, Apply(r, l, tx).ledger, x)
    ensures x == Payer(tx.auth) ==> var l' := Apply(r, l, tx).ledger;
      && BalanceOf(l, x).unlocked - tx.fee <= BalanceOf(l', x).unlocked
      && BalanceOf(l, x).locked <= BalanceOf(l', x).locked
      && RecordsKept(l, l', x)
  {
    var c := Charge(l, tx);
    if c.Done? {
      ChargeKeeps(r.stateLockup, l, tx);
      ChargeFrame(r.stateLockup, l, tx, x);
      var e := Execute(r, c.ledger, tx.auth, tx.action);
      if e.Done? {
        ExecuteFrame(r, c.ledger, tx.auth, tx.action, x);
      }
      if Settle(l, c.ledger, e, tx).Applied? {
        SettlePays(l, c.ledger, e, tx, x);
        RecordsKeptTrans(l, c.ledger, Settle(l, c.ledger, e, tx).ledger, x);
      }
    }
  }

  // ----- Runs -----

  /** The keys that can act for `x`: itself, and every signer it granted a record. */
  ghost predicate Controls(l: Ledger, s: PublicKey, x: PublicKey) {
    s == x || Grant(x, s) in l.permissions
  }

  ghost predicate NoneControls(l: Ledger, txs: seq<Transaction>, x: PublicKey) {
    forall i :: 0 <= i < |txs| ==> !Controls(l, txs[i].auth.signer, x)
  }

  /** A transaction signed by a key that does not control `x` takes nothing from `x`. */
  lemma StrangerTakesNothing(r: Rules, l: Ledger, tx: Transaction, x: PublicKey)
    requires ValidRules(r) && LockupInvariant(r.stateLockup, l)
    requires !Controls(l, tx.auth.signer, x)
    ensures LosesNothing(l, Apply(r, l, tx).ledger, x)
  {
    if Apply(r, l, tx).Applied? {
      AppliedIsAuthorized(r, l, tx);
      TransactionFrame(r, l, tx, x);
    }
  }

  /** Over any run in which no transaction is signed by a key that controls `x` at the
      start, `x` loses no funds, no records and no content. */
  lemma {:induction false} RunTakesNothing(r: Rules, l: Ledger, txs: seq<Transaction>, x: PublicKey)
    requires ValidRules(r) && LockupInvariant(r.stateLockup, l)
    requires NoneControls(l, txs, x)
    ensures LosesNothing(l, Run(r, l, txs), x)
    decreases |txs|
  {
    if txs != [] {
      assert !Controls(l, txs[0].auth.signer, x);
      StrangerTakesNothing(r, l, txs[0], x);
      var l1, rest := Apply(r, l, txs[0]).ledger, txs[1..];
      ApplyKeeps(r, l, txs[0]);
      forall i | 0 <= i < |rest| ensures !Controls(l1, rest[i].auth.signer, x) {
        assert !Controls(l, txs[i + 1].auth.signer, x);
      }
      RunTakesNothing(r, l1, rest, x);
      LosesNothingTrans(l, l1, Run(r, l1, rest), x);
    }
  }
}
