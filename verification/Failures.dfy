/**
 Why a transaction fails, told from the state before it: which error each step reports, and
 which errors the invariants rule out.
 */
module Failures {
  import opened Base
  import opened Storage
  import opened Actions
  import opened Transactions
  import opened Lockup
  import opened Conservation
  import opened Guarantees
  import opened Wrappers

  function ErrorOf<T>(s: Step<T>): Option<Error> {
    if s.Failed? then Some(s.error) else None
  }

  /** A delegate that is its own actor is told so; every other refusal is for want of a bit. */
  lemma VerifyErrors(l: Ledger, auth: Auth, a: Action)
    ensures var s := Verify(l, auth, a);
      s.Failed? ==>
        s.error == if auth.Delegate? && auth.onBehalfOf == auth.signer then ErrActorEqualsSigner else ErrNotAllowed
  {}

  /** A charge fails as its check does, or for want of funds. */
  lemma ChargeErrors(l: Ledger, tx: Transaction)
    ensures var v := Verify(l.(touched := {}), tx.auth, tx.action);
      Charge(l, tx).Failed? <==> v.Failed? || BalanceOf(l, Payer(tx.auth)).unlocked < tx.maxFee
    ensures var v := Verify(l.(touched := {}), tx.auth, tx.action);
      Charge(l, tx).Failed? ==> Charge(l, tx).error == if v.Failed? then v.error else ErrInvalidBalance
  {
    VerifyReads(l.(touched := {}), tx.auth, tx.action);
  }

  /** Moving funds fails only for want of them, or of room for them. */
  lemma BalanceErrors(l: Ledger, pk: PublicKey, amount: uint64, dropIfGone: bool)
    ensures var b := BalanceOf(l, pk);
      && ErrorOf(AddUnlocked(l, pk, amount, dropIfGone)) ==
           (if (b.locked > 0 || !dropIfGone) && b.unlocked + amount >= TWO_64 then Some(ErrInvalidBalance) else None)
      && ErrorOf(SubUnlocked(l, pk, amount)) == (if b.unlocked < amount then Some(ErrInvalidBalance) else None)
      && ErrorOf(LockBalance(l, pk, amount)) ==
           (if b.unlocked < amount || b.locked + amount >= TWO_64 then Some(ErrInvalidBalance) else None)
      && ErrorOf(UnlockBalance(l, pk, amount)) ==
           (if b.locked < amount || b.unlocked + amount >= TWO_64 then Some(ErrInvalidBalance) else None)
  {}

  /** Content needs a royalty to be registered, and is registered once. */
  lemma ContentErrors(l: Ledger, id: ID, owner: PublicKey, royalty: uint64)
    ensures ErrorOf(IndexContent(l, id, owner, royalty)) ==
      if royalty == 0 then Some(ErrInsufficientTip)
      else if id in l.content then Some(ErrContentAlreadyExists)
      else None
  {}

  lemma AuthorizeErrors(r: Rules, l: Ledger, actor: PublicKey, a: Action)
    requires Sound(r, l) && a.Authorize?
    ensures var g := Grant(a.actor, a.signer);
      ErrorOf(ExecuteAuthorize(r, l, actor, a)) ==
        if actor != a.actor then Some(OutputActorMismatch)
        else if PermissionsOf(l, g) == a.permissions then Some(OutputPermissionsUseless)
        else if g !in l.permissions && BalanceOf(l, actor).unlocked < r.stateLockup then Some(ErrInvalidBalance)
        else None
  {
    if actor == a.actor {
      AuthorizeSucceedsExactly(r, l, a);
    }
  }

  lemma TransferErrors(r: Rules, l: Ledger, actor: PublicKey, to: PublicKey, value: uint64)
    requires Sound(r, l)
    ensures ErrorOf(ExecuteTransfer(r, l, actor, to, value)) ==
      if value == 0 then Some(OutputValueZero)
      else if value > BalanceOf(l, actor).unlocked || (!Exists(l, to) && value < r.stateLockup * 2)
      then Some(ErrInvalidBalance) else None
  {
    TransferSucceedsExactly(r, l, actor, to, value);
  }

  /** An account that acts always has a balance, so that Clear never says otherwise. */
  lemma ClearErrors(r: Rules, l: Ledger, g: Grant, to: PublicKey)
    requires Sound(r, l) && g in l.permissions
    ensures ErrorOf(ExecuteClear(r, l, g.actor, g.signer, to)) ==
      if Grants(l.permissions, g.actor) == {g} && Owned(l.content, g.actor) == {} then None
      else Some(OutputAccountNotEmpty)
  {
    ClearSucceedsExactly(r, l, g, to);
    ActingAccountLocksTwo(r, l, g);
    if BalanceOf(l, g.actor).locked == r.stateLockup * 2 {
      ClearedAccountIsBare(r, l, g);
    }
  }

  /** The owner's Unindex never fails in unlocking. */
  lemma UnindexErrors(r: Rules, l: Ledger, actor: PublicKey, id: ID)
    requires Sound(r, l)
    ensures ErrorOf(ExecuteUnindex(r, l, actor, id)) ==
      if id == EMPTY_ID then Some(OutputInvalidContent)
      else if id !in l.content then Some(ErrContentMissing)
      else if l.content[id].owner != actor then Some(ErrWrongOwner)
      else None
  {
    UnindexSucceedsExactly(r, l, actor, id);
  }

  lemma ModifyErrors(l: Ledger, actor: PublicKey, id: ID, royalty: uint64)
    ensures ErrorOf(ExecuteModify(l, actor, id, royalty)) ==
      if id == EMPTY_ID then Some(OutputContentEmpty)
      else if royalty == 0 then Some(OutputInvalidObject)
      else if id !in l.content then Some(OutputContentMissing)
      else if l.content[id].owner != actor then Some(OutputWrongOwner)
      else if l.content[id].royalty == royalty then Some(OutputInvalidObject)
      else None
  {}

  /** Index, stage by stage: the object, the parent and its royalty, the content and its
      lockup, the servicer and its commission, each paid from what the ones before left. */
  function IndexError(r: Rules, l: Ledger, actor: PublicKey, a: Action): Option<Error>
    requires a.Index?
  {
    var u := BalanceOf(l, actor).unlocked;
    var afterParent := u - ParentCost(l, actor, a);
    var afterLockup := afterParent - if a.royalty > 0 then r.stateLockup else 0;
    if a.schema == EMPTY_ID then Some(OutputInvalidSchema)
    else if |a.body| > 1_600 then Some(OutputInvalidContent)
    else if a.parent == EMPTY_ID && a.searcher != EMPTY_KEY then Some(OutputInvalidObject)
    else if u < ParentFee(l, a) then Some(ErrInvalidBalance)
    else if a.searcher != ParentOwner(l, a) then Some(OutputWrongOwner)
    else if a.royalty > 0 && r.contentID(a.parent, a.body) in l.content then Some(ErrContentAlreadyExists)
    else if afterLockup < 0 then Some(ErrInvalidBalance)
    else if a.commission == 0 then None
    else if a.servicer == EMPTY_KEY then Some(OutputInvalidObject)
    else if afterLockup < a.commission then Some(ErrInvalidBalance)
    else if !Exists(l, a.servicer) then Some(OutputServicerMissing)
    else None
  }

  lemma ParentErrors(l: Ledger, actor: PublicKey, a: Action)
    requires a.Index? && Supply(l) < TWO_64
    ensures ErrorOf(PayParent(l, actor, a)) ==
      if a.parent == EMPTY_ID && a.searcher != EMPTY_KEY then Some(OutputInvalidObject)
      else if BalanceOf(l, actor).unlocked < ParentFee(l, a) then Some(ErrInvalidBalance)
      else if a.searcher != ParentOwner(l, a) then Some(OutputWrongOwner)
      else None
  {
    if a.parent != EMPTY_ID && a.parent in l.content {
      var c, t := l.content[a.parent], Touch(l, ContentKey(a.parent));
      var s := SubUnlocked(t, actor, c.royalty);
      if s.Done? {
        SubConserves(t, actor, c.royalty);
        AddSucceeds(s.ledger, c.owner, c.royalty, false);
      }
    }
  }

  lemma RegisterErrors(r: Rules, l: Ledger, actor: PublicKey, a: Action)
    requires a.Index? && Supply(l) < TWO_64
    ensures ErrorOf(RegisterContent(r, l, actor, a)) ==
      if a.royalty > 0 && r.contentID(a.parent, a.body) in l.content then Some(ErrContentAlreadyExists)
      else if a.royalty > 0 && BalanceOf(l, actor).unlocked < r.stateLockup then Some(ErrInvalidBalance)
      else None
  {
    RegisterSucceedsExactly(r, l, actor, a);
  }

  lemma ServicerErrors(l: Ledger, actor: PublicKey, a: Action)
    requires a.Index? && Supply(l) < TWO_64
    ensures ErrorOf(PayServicer(l, actor, a)) ==
      if a.commission == 0 then None
      else if a.servicer == EMPTY_KEY then Some(OutputInvalidObject)
      else if BalanceOf(l, actor).unlocked < a.commission then Some(ErrInvalidBalance)
      else if !Exists(l, a.servicer) then Some(OutputServicerMissing)
      else None
  {
    if a.servicer != EMPTY_KEY && a.commission > 0 {
      var s := SubUnlocked(l, actor, a.commission);
      if s.Done? {
        SubConserves(l, actor, a.commission);
        AddSucceeds(s.ledger, a.servicer, a.commission, false);
      }
    }
  }

  lemma IndexErrors(r: Rules, l: Ledger, actor: PublicKey, a: Action)
    requires Sound(r, l) && Exists(l, actor) && a.Index?
    ensures ErrorOf(ExecuteIndex(r, l, actor, a)) == IndexError(r, l, actor, a)
  {
    var p := PayParent(l, actor, a);
    ParentErrors(l, actor, a);
    if p.Done? {
      ParentConserves(l, actor, a);
      ParentEffect(l, actor, a);
      RegisterErrors(r, p.ledger, actor, a);
      RegisterSucceedsExactly(r, p.ledger, actor, a);
      var q := RegisterContent(r, p.ledger, actor, a);
      if q.Done? {
        ServicerErrors(q.ledger, actor, a);
        assert Exists(q.ledger, a.servicer) == Exists(l, a.servicer);
      }
    }
  }
}
