/**
 Conservation of funds: no action creates or destroys money, a transaction changes the
 sum of all balances by exactly the fee it keeps, and sums that fit in 64 bits at genesis
 never let any credit, refund or the unchecked addition in Clear overflow.
 */
module Conservation {
  import opened Base
  import opened Storage
  import opened Actions
  import opened Transactions

  function Worth(b: Balance): nat {
    b.unlocked + b.locked
  }

  function WorthAt(m: map<PublicKey, Balance>, k: PublicKey): nat {
    if k in m then Worth(m[k]) else 0
  }

  ghost function Sum(m: map<PublicKey, Balance>, ks: set<PublicKey>): nat {
    if ks == {} then 0
    else var k :| k in ks; WorthAt(m, k) + Sum(m, ks - {k})
  }

  /** The sum of all balances, unlocked and locked. */
  ghost function Supply(l: Ledger): nat {
    Sum(l.balances, l.balances.Keys)
  }

  lemma {:induction false} SumRemove(m: map<PublicKey, Balance>, ks: set<PublicKey>, k: PublicKey)
    requires k in ks
    ensures Sum(m, ks) == WorthAt(m, k) + Sum(m, ks - {k})
  {
    var x :| x in ks && Sum(m, ks) == WorthAt(m, x) + Sum(m, ks - {x});
    if x != k {
      SumRemove(m, ks - {x}, k);
      SumRemove(m, ks - {k}, x);
      assert ks - {x} - {k} == ks - {k} - {x};
    }
  }

  lemma {:induction false} SumFrame(m: map<PublicKey, Balance>, m': map<PublicKey, Balance>, ks: set<PublicKey>)
    requires forall k :: k in ks ==> WorthAt(m, k) == WorthAt(m', k)
    ensures Sum(m, ks) == Sum(m', ks)
  {
    if ks != {} {
      var k :| k in ks && Sum(m, ks) == WorthAt(m, k) + Sum(m, ks - {k});
      SumRemove(m', ks, k);
      SumFrame(m, m', ks - {k});
    }
  }

  /** The worth of one account against the rest. */
  lemma SumSplit(m: map<PublicKey, Balance>, k: PublicKey)
    ensures Sum(m, m.Keys) == WorthAt(m, k) + Sum(m, m.Keys - {k})
  {
    if k in m {
      SumRemove(m, m.Keys, k);
    } else {
      assert m.Keys - {k} == m.Keys;
    }
  }

  /** Changing one balance changes the sum by the difference. */
  lemma SumChange(m: map<PublicKey, Balance>, m': map<PublicKey, Balance>, k: PublicKey)
    requires m'.Keys - {k} == m.Keys - {k}
    requires forall x :: x in m.Keys - {k} ==> m'[x] == m[x]
    ensures Sum(m', m'.Keys) == Sum(m, m.Keys) - WorthAt(m, k) + WorthAt(m', k)
  {
    SumSplit(m, k);
    SumSplit(m', k);
    SumFrame(m, m', m.Keys - {k});
  }

  lemma SupplyChange(l: Ledger, l': Ledger, k: PublicKey)
    requires l'.balances == l.balances - {k} || (k in l'.balances && l'.balances == l.balances[k := l'.balances[k]])
    ensures Supply(l') == Supply(l) - WorthAt(l.balances, k) + WorthAt(l'.balances, k)
  {
    SumChange(l.balances, l'.balances, k);
  }

  lemma WorthAtBounded(m: map<PublicKey, Balance>, k: PublicKey)
    ensures WorthAt(m, k) <= Sum(m, m.Keys)
  {
    SumSplit(m, k);
  }

  lemma WorthBounded(l: Ledger, pk: PublicKey)
    ensures BalanceOf(l, pk).unlocked + BalanceOf(l, pk).locked <= Supply(l)
  {
    WorthAtBounded(l.balances, pk);
  }

  // ----- Storage operations -----

  lemma AddConserves(l: Ledger, pk: PublicKey, amount: uint64, dropIfGone: bool)
    requires AddUnlocked(l, pk, amount, dropIfGone).Done?
    ensures var s := AddUnlocked(l, pk, amount, dropIfGone);
      Supply(s.ledger) == Supply(l) + if dropIfGone && !s.value then 0 else amount
  {
    var s := AddUnlocked(l, pk, amount, dropIfGone);
    if !dropIfGone || s.value {
      SupplyChange(l, s.ledger, pk);
    }
  }

  /** A credit that keeps the supply within 64 bits cannot fail. */
  lemma AddSucceeds(l: Ledger, pk: PublicKey, amount: uint64, dropIfGone: bool)
    requires Supply(l) + amount < TWO_64
    ensures AddUnlocked(l, pk, amount, dropIfGone).Done?
  {
    WorthBounded(l, pk);
  }

  lemma SubConserves(l: Ledger, pk: PublicKey, amount: uint64)
    requires SubUnlocked(l, pk, amount).Done?
    ensures Supply(SubUnlocked(l, pk, amount).ledger) == Supply(l) - amount
  {
    SupplyChange(l, SubUnlocked(l, pk, amount).ledger, pk);
  }

  lemma LockConserves(l: Ledger, pk: PublicKey, amount: uint64)
    requires LockBalance(l, pk, amount).Done?
    ensures Supply(LockBalance(l, pk, amount).ledger) == Supply(l)
  {
    SupplyChange(l, LockBalance(l, pk, amount).ledger, pk);
  }

  lemma UnlockConserves(l: Ledger, pk: PublicKey, amount: uint64)
    requires UnlockBalance(l, pk, amount).Done?
    ensures Supply(UnlockBalance(l, pk, amount).ledger) == Supply(l)
  {
    SupplyChange(l, UnlockBalance(l, pk, amount).ledger, pk);
  }

  /** Within 64 bits of supply, unlocking fails only for want of locked funds. */
  lemma UnlockSucceeds(l: Ledger, pk: PublicKey, amount: uint64)
    requires Supply(l) < TWO_64
    ensures UnlockBalance(l, pk, amount).Done? <==> BalanceOf(l, pk).locked >= amount
  {
    WorthBounded(l, pk);
  }

  // ----- Actions -----

  lemma PayConserves(r: Rules, l: Ledger, to: PublicKey, amount: uint64)
    requires PayOrCreate(r, l, to, amount).Done?
    ensures Supply(PayOrCreate(r, l, to, amount).ledger) == Supply(l) + amount
  {
    AddConserves(l, to, amount, false);
    var s := AddUnlocked(l, to, amount, false);
    if !s.value {
      LockConserves(s.ledger, to, WrappingAdd(r.stateLockup, r.stateLockup));
    }
  }

  lemma AuthorizeConserves(r: Rules, l: Ledger, actor: PublicKey, a: Action)
    requires a.Authorize? && ExecuteAuthorize(r, l, actor, a).Done?
    ensures Supply(ExecuteAuthorize(r, l, actor, a).ledger) == Supply(l)
  {
    var g := Grant(a.actor, a.signer);
    var l1 := Touch(l, PermissionsKey(g));
    if PermissionsOf(l, g) == NO_PERMISSIONS {
      LockConserves(l1, a.actor, r.stateLockup);
    } else if a.permissions == NO_PERMISSIONS {
      UnlockConserves(l1, a.actor, r.stateLockup);
    }
  }

  lemma TransferConserves(r: Rules, l: Ledger, actor: PublicKey, to: PublicKey, value: uint64)
    requires ExecuteTransfer(r, l, actor, to, value).Done?
    ensures Supply(ExecuteTransfer(r, l, actor, to, value).ledger) == Supply(l)
  {
    SubConserves(l, actor, value);
    PayConserves(r, SubUnlocked(l, actor, value).ledger, to, value);
  }

  /** The unchecked addition in Clear is exact whenever the supply fits in 64 bits. */
  lemma ClearAddsExactly(l: Ledger, a: PublicKey)
    requires Supply(l) < TWO_64
    ensures var b := BalanceOf(l, a); WrappingAdd(b.unlocked, b.locked) == b.unlocked + b.locked
  {
    WorthBounded(l, a);
  }

  /** Whatever the supply, Clear loses nothing, or exactly 2^64 if its addition wraps. */
  lemma ClearSupply(r: Rules, l: Ledger, actor: PublicKey, signer: PublicKey, to: PublicKey)
    requires ExecuteClear(r, l, actor, signer, to).Done?
    ensures var b := BalanceOf(l, actor);
      Supply(ExecuteClear(r, l, actor, signer, to).ledger)
      == Supply(l) - if b.unlocked + b.locked < TWO_64 then 0 else TWO_64
  {
    var b, e := BalanceOf(l, actor), Emptied(Touch(l, BalanceKey(actor)), Grant(actor, signer));
    SupplyChange(l, e, actor);
    PayConserves(r, e, to, WrappingAdd(b.unlocked, b.locked));
  }

  lemma ClearConserves(r: Rules, l: Ledger, actor: PublicKey, signer: PublicKey, to: PublicKey)
    requires Supply(l) < TWO_64 && ExecuteClear(r, l, actor, signer, to).Done?
    ensures Supply(ExecuteClear(r, l, actor, signer, to).ledger) == Supply(l)
  {
    WorthBounded(l, actor);
    ClearSupply(r, l, actor, signer, to);
  }

  lemma ParentConserves(l: Ledger, actor: PublicKey, a: Action)
    requires a.Index? && PayParent(l, actor, a).Done?
    ensures Supply(PayParent(l, actor, a).ledger) == Supply(l)
  {
    if a.parent != EMPTY_ID && a.parent in l.content {
      var c, t := l.content[a.parent], Touch(l, ContentKey(a.parent));
      SubConserves(t, actor, c.royalty);
      AddConserves(SubUnlocked(t, actor, c.royalty).ledger, c.owner, c.royalty, false);
    }
  }

  lemma RegisterConserves(r: Rules, l: Ledger, actor: PublicKey, a: Action)
    requires a.Index? && RegisterContent(r, l, actor, a).Done?
    ensures Supply(RegisterContent(r, l, actor, a).ledger) == Supply(l)
  {
    if a.royalty > 0 {
      LockConserves(IndexContent(l, ContentID(r, a), actor, a.royalty).ledger, actor, r.stateLockup);
    }
  }

  lemma ServicerConserves(l: Ledger, actor: PublicKey, a: Action)
    requires a.Index? && PayServicer(l, actor, a).Done?
    ensures Supply(PayServicer(l, actor, a).ledger) == Supply(l)
  {
    if a.servicer != EMPTY_KEY && a.commission > 0 {
      SubConserves(l, actor, a.commission);
      AddConserves(SubUnlocked(l, actor, a.commission).ledger, a.servicer, a.commission, false);
    }
  }

  lemma IndexConserves(r: Rules, l: Ledger, actor: PublicKey, a: Action)
    requires a.Index? && ExecuteIndex(r, l, actor, a).Done?
    ensures Supply(ExecuteIndex(r, l, actor, a).ledger) == Supply(l)
  {
    ParentConserves(l, actor, a);
    var l1 := PayParent(l, actor, a).ledger;
    RegisterConserves(r, l1, actor, a);
    ServicerConserves(RegisterContent(r, l1, actor, a).ledger, actor, a);
  }

  lemma UnindexConserves(r: Rules, l: Ledger, actor: PublicKey, id: ID)
    requires ExecuteUnindex(r, l, actor, id).Done?
    ensures Supply(ExecuteUnindex(r, l, actor, id).ledger) == Supply(l)
  {
    UnlockConserves(UnindexContent(l, id, actor).ledger, actor, r.stateLockup);
  }

  /** No action creates or destroys money. */
  lemma ExecuteConserves(r: Rules, l: Ledger, auth: Auth, a: Action)
    requires Supply(l) < TWO_64 && Execute(r, l, auth, a).Done?
    ensures Supply(Execute(r, l, auth, a).ledger) == Supply(l)
  {
    match a
    case Authorize(_, _, _) => AuthorizeConserves(r, l, Actor(auth), a);
    case Transfer(to, value) => TransferConserves(r, l, Actor(auth), to, value);
    case Clear(to) => ClearConserves(r, l, Actor(auth), auth.signer, to);
    case Index(_, _, _, _, _, _, _) => IndexConserves(r, l, Actor(auth), a);
    case Unindex(id) => UnindexConserves(r, l, Actor(auth), id);
    case Modify(_, _) =>
  }

  // ----- Transactions and runs -----

  /** What a transaction takes out of circulation. */
  function Burned(o: Outcome, tx: Transaction): nat {
    if o.Rejected? then 0 else if o.refunded then tx.fee else tx.maxFee
  }

  lemma ChargeConserves(l: Ledger, tx: Transaction)
    requires Charge(l, tx).Done?
    ensures Supply(Charge(l, tx).ledger) == Supply(l) - tx.maxFee
  {
    SubConserves(Verify(l.(touched := {}), tx.auth, tx.action).ledger, Payer(tx.auth), tx.maxFee);
  }

  /** Under the supply bound the refund cannot fail; it is dropped exactly when the payer's
      account is gone. */
  lemma SettleConserves(l: Ledger, c: Ledger, e: Step<()>, tx: Transaction)
    requires Supply(c) + tx.maxFee < TWO_64
    requires e.Done? ==> Supply(e.ledger) == Supply(c)
    ensures var o := Settle(l, c, e, tx);
      && o.Applied?
      && o.refunded == Exists(o.ledger, Payer(tx.auth))
      && Supply(o.ledger) == Supply(c) + tx.maxFee - Burned(o, tx)
  {
    var l3 := Commit(c, e);
    AddSucceeds(l3, Payer(tx.auth), tx.maxFee - tx.fee, true);
    AddConserves(l3, Payer(tx.auth), tx.maxFee - tx.fee, true);
  }

  /** Every transaction that is charged is applied, and changes the supply by exactly what
      was deducted less what was refunded. */
  lemma ApplyConserves(r: Rules, l: Ledger, tx: Transaction)
    requires Supply(l) < TWO_64
    ensures var o := Apply(r, l, tx);
      && o.Applied? == Charge(l, tx).Done?
      && Supply(o.ledger) == Supply(l) - Burned(o, tx)
      && (o.Applied? ==> o.refunded == Exists(o.ledger, Payer(tx.auth)))
  {
    var c := Charge(l, tx);
    if c.Done? {
      ChargeConserves(l, tx);
      var e := Execute(r, c.ledger, tx.auth, tx.action);
      if e.Done? {
        ExecuteConserves(r, c.ledger, tx.auth, tx.action);
      }
      SettleConserves(l, c.ledger, e, tx);
    }
  }

  function RunBurned(r: Rules, l: Ledger, txs: seq<Transaction>): nat
    decreases |txs|
  {
    if txs == [] then 0
    else Burned(Apply(r, l, txs[0]), txs[0]) + RunBurned(r, Apply(r, l, txs[0]).ledger, txs[1..])
  }

  lemma {:induction false} RunConserves(r: Rules, l: Ledger, txs: seq<Transaction>)
    requires Supply(l) < TWO_64
    ensures Supply(Run(r, l, txs)) + RunBurned(r, l, txs) == Supply(l)
    decreases |txs|
  {
    if txs != [] {
      ApplyConserves(r, l, txs[0]);
      RunConserves(r, Apply(r, l, txs[0]).ledger, txs[1..]);
    }
  }

  // ----- Genesis -----

  function Allocated(allocs: seq<Allocation>): nat {
    if allocs == [] then 0 else allocs[0].balance + Allocated(allocs[1..])
  }

  lemma {:induction false} LoadConserves(r: Rules, l: Ledger, allocs: seq<Allocation>)
    requires Load(r, l, allocs).Done?
    ensures Supply(Load(r, l, allocs).ledger) == Supply(l) + Allocated(allocs)
    decreases |allocs|
  {
    if allocs != [] {
      var a := allocs[0];
      AddConserves(l, a.address, a.balance, false);
      LockConserves(AddUnlocked(l, a.address, a.balance, false).ledger, a.address,
                    WrappingAdd(r.stateLockup, r.stateLockup));
      LoadConserves(r, LoadOne(r, l, a).ledger, allocs[1..]);
    }
  }

  /** From genesis on, what is in circulation and what was burned add up to the allocation. */
  lemma GenesisConserves(r: Rules, allocs: seq<Allocation>, txs: seq<Transaction>)
    requires Load(r, EMPTY_LEDGER, allocs).Done? && Allocated(allocs) < TWO_64
    ensures var l := Load(r, EMPTY_LEDGER, allocs).ledger;
      Supply(Run(r, l, txs)) + RunBurned(r, l, txs) == Allocated(allocs)
  {
    LoadConserves(r, EMPTY_LEDGER, allocs);
    RunConserves(r, Load(r, EMPTY_LEDGER, allocs).ledger, txs);
  }
}
