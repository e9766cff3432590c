/**
 What a transaction that succeeds does to every account, fee included, for each action: the
 effects of the actions carried through Verify, Deduct and Refund.
 */
module Outcomes {
  import opened Base
  import opened Storage
  import opened Actions
  import opened Transactions
  import opened Lockup
  import opened Conservation
  import opened Effects
  import opened Guarantees

  /** The transaction was applied and its action succeeded. */
  predicate Succeeds(r: Rules, l: Ledger, tx: Transaction) {
    Apply(r, l, tx).Applied? && Apply(r, l, tx).success
  }

  /** What an action does to `x` between the charge and the refund is what the transaction does
      to it, less the fee if it pays, as long as the payer does not lose its account. */
  lemma SettleCarries(r: Rules, l: Ledger, tx: Transaction, c: Ledger, e: Step<()>, x: PublicKey,
    gain: int, loss: int, more: int)
    requires Sound(r, l) && Debited(l, c, Payer(tx.auth), tx.maxFee) && e.Done? && Settle(l, c, e, tx).Applied?
    requires Moves(c, e.ledger, x, gain, loss, more)
    requires Exists(l, Payer(tx.auth)) ==> Exists(e.ledger, Payer(tx.auth))
    ensures Moves(l, Settle(l, c, e, tx).ledger, x, gain, loss + When(x == Payer(tx.auth), tx.fee), more)
  {
    SettleMoves(l, c, e, tx, x);
    assert AccountOk(r.stateLockup, l, Payer(tx.auth));
    if !Exists(l, Payer(tx.auth)) {
      assert tx.maxFee == 0;
    }
  }

  /** The stages of a transaction that succeeds. */
  lemma Stages(r: Rules, l: Ledger, tx: Transaction) returns (c: Ledger, e: Step<()>)
    requires Sound(r, l) && Succeeds(r, l, tx)
    ensures Charge(l, tx) == Done(c, ()) && Debited(l, c, Payer(tx.auth), tx.maxFee) && Sound(r, c)
    ensures Grant(Actor(tx.auth), tx.auth.signer) in c.permissions
    ensures e == Execute(r, c, tx.auth, tx.action) && e.Done? && Apply(r, l, tx) == Settle(l, c, e, tx)
    ensures Apply(r, l, tx).ledger.permissions == e.ledger.permissions
    ensures Apply(r, l, tx).ledger.content == e.ledger.content
  {
    c := Charge(l, tx).ledger;
    e := Execute(r, c, tx.auth, tx.action);
    ChargeEffect(l, tx);
    ChargedIsSound(r, l, tx);
    SettleMoves(l, c, e, tx, Payer(tx.auth));
  }

  /** The record given is the record stored, under the keys given; the actor locks one unit for
      a new one and gets one back for a removed one. */
  lemma AuthorizeOutcome(r: Rules, l: Ledger, tx: Transaction, x: PublicKey)
    requires Sound(r, l) && Succeeds(r, l, tx) && tx.action.Authorize?
    ensures var l', a, g := Apply(r, l, tx).ledger, tx.action, Grant(tx.action.actor, tx.action.signer);
      var zeros, lockup := Permissions(0, 0), r.stateLockup;
      && a.actor == Actor(tx.auth)
      && l'.permissions == (if a.permissions == zeros then l.permissions - {g} else l.permissions[g := a.permissions])
      && l'.content == l.content
      && Moves(l, l', x,
           When(x == a.actor && a.permissions == zeros, lockup),
           When(x == a.actor && g !in l.permissions, lockup) + When(x == Payer(tx.auth), tx.fee),
           When(x == a.actor && g !in l.permissions, lockup) - When(x == a.actor && a.permissions == zeros, lockup))
  {
    var c, e := Stages(r, l, tx);
    var a, g, lockup, zeros := tx.action, Grant(tx.action.actor, tx.action.signer), r.stateLockup, Permissions(0, 0);
    AuthorizeEffect(r, c, a, x);
    AuthorizeEffect(r, c, a, Payer(tx.auth));
    ActingAccountLocksTwo(r, c, Grant(Actor(tx.auth), tx.auth.signer));
    SettleCarries(r, l, tx, c, e, x,
      When(x == a.actor && a.permissions == zeros, lockup),
      When(x == a.actor && g !in l.permissions, lockup),
      When(x == a.actor && g !in l.permissions, lockup) - When(x == a.actor && a.permissions == zeros, lockup));
  }

  /** The value goes from the actor to the recipient; opening an account locks two units of it
      and stores the full record. */
  lemma TransferOutcome(r: Rules, l: Ledger, tx: Transaction, x: PublicKey)
    requires Sound(r, l) && Succeeds(r, l, tx) && tx.action.Transfer?
    ensures var l', to, value := Apply(r, l, tx).ledger, tx.action.to, tx.action.value;
      var deposit := When(!Exists(l, to), r.stateLockup * 2);
      && Moves(l, l', x, When(x == to, value - deposit),
           When(x == Actor(tx.auth), value) + When(x == Payer(tx.auth), tx.fee), When(x == to, deposit))
      && l'.permissions ==
           (if Exists(l, to) then l.permissions else l.permissions[Grant(to, to) := Permissions(255, 255)])
      && l'.content == l.content
  {
    var c, e := Stages(r, l, tx);
    var to, value, actor := tx.action.to, tx.action.value, Actor(tx.auth);
    var deposit := When(!Exists(l, to), r.stateLockup * 2);
    TransferEffect(r, c, actor, to, value, x);
    TransferEffect(r, c, actor, to, value, Payer(tx.auth));
    SettleCarries(r, l, tx, c, e, x, When(x == to, value - deposit), When(x == actor, value), When(x == to, deposit));
  }

  /** The parent's owner gets its royalty, the servicer its commission, and the actor pays both
      and locks one unit for content it registers. */
  lemma IndexOutcome(r: Rules, l: Ledger, tx: Transaction, x: PublicKey)
    requires Sound(r, l) && Succeeds(r, l, tx) && tx.action.Index?
    ensures var l', a, actor := Apply(r, l, tx).ledger, tx.action, Actor(tx.auth);
      var royalty, lockup := ParentFee(l, a), When(a.royalty > 0, r.stateLockup);
      && Moves(l, l', x,
           When(x == ParentOwner(l, a), royalty) + When(x == a.servicer, a.commission),
           When(x == actor, royalty + lockup + a.commission) + When(x == Payer(tx.auth), tx.fee),
           When(x == actor, lockup))
      && l'.permissions == l.permissions
      && l'.content ==
           (if a.royalty > 0 then l.content[r.contentID(a.parent, a.body) := Content(actor, a.royalty)] else l.content)
  {
    var c, e := Stages(r, l, tx);
    var a, actor := tx.action, Actor(tx.auth);
    var royalty, lockup := ParentFee(l, a), When(a.royalty > 0, r.stateLockup);
    IndexEffect(r, c, actor, a, x);
    IndexEffect(r, c, actor, a, Payer(tx.auth));
    SettleCarries(r, l, tx, c, e, x,
      When(x == ParentOwner(l, a), royalty) + When(x == a.servicer, a.commission),
      When(x == actor, royalty + lockup + a.commission), When(x == actor, lockup));
  }

  /** The actor's own content changes its royalty, and only the fee is paid. */
  lemma ModifyOutcome(r: Rules, l: Ledger, tx: Transaction, x: PublicKey)
    requires Sound(r, l) && Succeeds(r, l, tx) && tx.action.Modify?
    ensures var l', a := Apply(r, l, tx).ledger, tx.action;
      && a.id in l.content && l.content[a.id].owner == Actor(tx.auth)
      && l'.content == l.content[a.id := Content(Actor(tx.auth), a.newRoyalty)]
      && l'.permissions == l.permissions
      && Moves(l, l', x, 0, When(x == Payer(tx.auth), tx.fee), 0)
  {
    var c, e := Stages(r, l, tx);
    ModifyEffect(c, Actor(tx.auth), tx.action.id, tx.action.newRoyalty);
    SettleCarries(r, l, tx, c, e, x, 0, 0, 0);
  }
}
