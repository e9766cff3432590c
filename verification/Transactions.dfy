/**
 One transaction as the driver applies it, and runs of transactions from genesis.
 The driver itself is not part of this model; what is taken from it is the order
 Verify, Deduct, Execute, Refund, the discarding of the writes of an Execute that fails,
 and that a transaction whose Verify, Deduct or Refund fails leaves the state as it was.
 */
module Transactions {
  import opened Base
  import opened Storage
  import opened Actions

  datatype RawTransaction = Transaction(auth: Auth, action: Action, maxFee: uint64, fee: uint64)

  /** The units used never exceed the units paid for in advance. */
  type Transaction = t: RawTransaction | t.fee <= t.maxFee
    witness Transaction(Direct(EMPTY_KEY), Clear(EMPTY_KEY), 0, 0)

  datatype Outcome =
    | Applied(ledger: Ledger, success: bool, refunded: bool)
    | Rejected(ledger: Ledger, error: Error)

  /** What Execute leaves for Refund: its own result, or the state before it. */
  function Commit(before: Ledger, s: Step<()>): Ledger {
    if s.Done? then s.ledger else before.(touched := s.ledger.touched)
  }

  function Charge(l: Ledger, tx: Transaction): Step<()> {
    var (l1, _) :- Verify(l.(touched := {}), tx.auth, tx.action);
    Deduct(l1, tx.auth, tx.maxFee)
  }

  /** The end of a transaction that was charged and then executed with result `e`. */
  function Settle(start: Ledger, charged: Ledger, e: Step<()>, tx: Transaction): Outcome {
    var f := Refund(Commit(charged, e), tx.auth, tx.maxFee - tx.fee);
    if f.Failed? then Rejected(start, f.error) else Applied(f.ledger, e.Done?, f.value)
  }

  function Apply(r: Rules, l: Ledger, tx: Transaction): Outcome {
    var c := Charge(l, tx);
    if c.Failed? then
      Rejected(l, c.error)
    else
      Settle(l, c.ledger, Execute(r, c.ledger, tx.auth, tx.action), tx)
  }

  function Run(r: Rules, l: Ledger, txs: seq<Transaction>): Ledger
    decreases |txs|
  {
    if txs == [] then l else Run(r, Apply(r, l, txs[0]).ledger, txs[1..])
  }

  // ----- Genesis -----

  datatype Allocation = Allocation(address: PublicKey, balance: uint64)

  const EMPTY_LEDGER := Ledger(map[], map[], map[], {})

  function LoadOne(r: Rules, l: Ledger, a: Allocation): Step<()> {
    var (l1, _) :- AddUnlocked(l, a.address, a.balance, false);
    CreateAccount(r, l1, a.address)
  }

  function Load(r: Rules, l: Ledger, allocs: seq<Allocation>): Step<()>
    decreases |allocs|
  {
    if allocs == [] then
      Done(l, ())
    else
      var (l1, _) :- LoadOne(r, l, allocs[0]);
      Load(r, l1, allocs[1..])
  }
}
