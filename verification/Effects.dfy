/** What each successful action does to every account, and what a failed one costs. */
module Effects {
  import opened Base
  import opened Storage
  import opened Actions
  import opened Transactions
  import opened Lockup
  import opened Guarantees

  lemma TransferEffect(r: Rules, l: Ledger, actor: PublicKey, to: PublicKey, value: uint64, x: PublicKey)
    requires Sound(r, l) && ExecuteTransfer(r, l, actor, to, value).Done?
    ensures var l', deposit := ExecuteTransfer(r, l, actor, to, value).ledger, When(!Exists(l, to), r.stateLockup * 2);
      && Moves(l, l', x, When(x == to, value - deposit), When(x == actor, value), When(x == to, deposit))
      && l'.permissions ==
           (if Exists(l, to) then l.permissions else l.permissions[Grant(to, to) := Permissions(255, 255)])
      && l'.content == l.content
  {
    SubKeeps(r.stateLockup, l, actor, value);
    assert AccountOk(r.stateLockup, l, to);
    PayEffect(r, SubUnlocked(l, actor, value).ledger, to, value);
  }

  /** Authorize stores the record it was given, or removes the old one if it was given zeros.
      A new record moves one unit of the actor's funds into its lockup, a removed one moves it
      back, and an override moves nothing. */
  lemma AuthorizeEffect(r: Rules, l: Ledger, a: Action, x: PublicKey)
    requires Sound(r, l) && a.Authorize? && ExecuteAuthorize(r, l, a.actor, a).Done?
    ensures var l', g, zeros := ExecuteAuthorize(r, l, a.actor, a).ledger, Grant(a.actor, a.signer), Permissions(0, 0);
      && l'.permissions == (if a.permissions == zeros then l.permissions - {g} else l.permissions[g := a.permissions])
      && l'.content == l.content
      && Moves(l, l', x,
           When(x == a.actor && a.permissions == zeros, r.stateLockup),
           When(x == a.actor && g !in l.permissions, r.stateLockup),
           When(x == a.actor && g !in l.permissions, r.stateLockup)
           - When(x == a.actor && a.permissions == zeros, r.stateLockup))
  {}

  /** The owner of the parent is paid its royalty, the servicer its commission, and the actor
      pays both and locks one unit if the content is registered to it. */
  lemma IndexEffect(r: Rules, l: Ledger, actor: PublicKey, a: Action, x: PublicKey)
    requires a.Index? && ExecuteIndex(r, l, actor, a).Done?
    ensures var l' := ExecuteIndex(r, l, actor, a).ledger;
      var fee, lockup := ParentFee(l, a), When(a.royalty > 0, r.stateLockup);
      && Moves(l, l', x,
           When(x == ParentOwner(l, a), fee) + When(x == a.servicer, a.commission),
           When(x == actor, fee + lockup + a.commission), When(x == actor, lockup))
      && l'.permissions == l.permissions
      && l'.content ==
           (if a.royalty > 0 then l.content[r.contentID(a.parent, a.body) := Content(actor, a.royalty)] else l.content)
  {
    var l1 := PayParent(l, actor, a).ledger;
    ParentMoves(l, actor, a, x);
    RegisterMoves(r, l1, actor, a, x);
    ServicerMoves(RegisterContent(r, l1, actor, a).ledger, actor, a, x);
  }

  /** Modify succeeds exactly for the owner's content and a new, positive royalty, and changes
      nothing else. */
  lemma ModifyEffect(l: Ledger, actor: PublicKey, id: ID, royalty: uint64)
    ensures var s := ExecuteModify(l, actor, id, royalty);
      && (s.Done? <==>
            && id != EMPTY_ID && id in l.content && l.content[id].owner == actor
            && royalty != 0 && royalty != l.content[id].royalty)
      && (s.Done? ==>
            && s.ledger.content == l.content[id := l.content[id].(royalty := royalty)]
            && s.ledger.balances == l.balances && s.ledger.permissions == l.permissions)
  {}

  lemma ParentMoves(l: Ledger, actor: PublicKey, a: Action, x: PublicKey)
    requires a.Index? && PayParent(l, actor, a).Done?
    ensures var l1, fee := PayParent(l, actor, a).ledger, ParentFee(l, a);
      && Moves(l, l1, x, When(x == ParentOwner(l, a), fee), When(x == actor, fee), 0)
      && l1.permissions == l.permissions && l1.content == l.content
  {
    if a.parent != EMPTY_ID && a.parent in l.content {
      var c, t := l.content[a.parent], Touch(l, ContentKey(a.parent));
      var l1 := SubUnlocked(t, actor, c.royalty).ledger;
      assert PayParent(l, actor, a).ledger == AddUnlocked(l1, c.owner, c.royalty, false).ledger;
    }
  }

  lemma RegisterMoves(r: Rules, l: Ledger, actor: PublicKey, a: Action, x: PublicKey)
    requires a.Index? && RegisterContent(r, l, actor, a).Done?
    ensures var l1, lockup := RegisterContent(r, l, actor, a).ledger, When(a.royalty > 0, r.stateLockup);
      && Moves(l, l1, x, 0, When(x == actor, lockup), When(x == actor, lockup))
      && l1.permissions == l.permissions
      && l1.content == (if a.royalty > 0 then l.content[ContentID(r, a) := Content(actor, a.royalty)] else l.content)
  {}

  lemma ServicerMoves(l: Ledger, actor: PublicKey, a: Action, x: PublicKey)
    requires a.Index? && PayServicer(l, actor, a).Done?
    ensures var l1 := PayServicer(l, actor, a).ledger;
      && Moves(l, l1, x, When(x == a.servicer, a.commission), When(x == actor, a.commission), 0)
      && l1.permissions == l.permissions && l1.content == l.content
  {}

  /** A transaction whose action fails costs its payer the fee and changes nothing else. */
  lemma FailureCostsFee(r: Rules, l: Ledger, tx: Transaction, x: PublicKey)
    requires Sound(r, l)
    requires Apply(r, l, tx).Applied? && !Apply(r, l, tx).success
    ensures var l' := Apply(r, l, tx).ledger;
      && Moves(l, l', x, 0, When(x == Payer(tx.auth), tx.fee), 0)
      && l'.permissions == l.permissions && l'.content == l.content
  {
    assert AccountOk(r.stateLockup, l, Payer(tx.auth));
    ChargeKeeps(r.stateLockup, l, tx);
    var c := Charge(l, tx).ledger;
    var e := Execute(r, c, tx.auth, tx.action);
    SettleMoves(l, c, e, tx, x);
    ChargeMoves(l, tx, x);
    if !Exists(l, Payer(tx.auth)) {
      assert tx.maxFee == 0;
    }
  }
}
