/**
 The payload of a block under the quorum store: batches are requested from a batch reader,
 awaited one by one, requested again after a failure, and cached once complete.
 */
module Payload {
  import opened Wrappers

  datatype LogicalTime = LogicalTime(epoch: nat, round: nat)

  type Digest = nat
  type Txn = nat

  datatype ProofOfStore = ProofOfStore(digest: Digest, expiration: LogicalTime)

  /** What awaiting a receiver can give: the sender is gone, a batch, or an error. */
  datatype Reply = Gone | Batch(txns: seq<Txn>) | Failure(error: nat)

  /** A receiver is tied to the request it answers, numbered in order of issue. */
  datatype Receiver = Receiver(digest: Digest, request: nat)

  datatype DataStatus = Requested(receivers: seq<Receiver>) | Cached(txns: seq<Txn>)

  datatype Error = DataNotFound(digest: Digest) | ReaderError(error: nat)

  type Result<T> = Wrappers.Result<T, Error>

  /** The batch reader: an answer for every request, and the batch behind every digest. */
  datatype Environment = Environment(reply: (nat, Digest) -> Reply, batch: Digest -> seq<Txn>)

  /** A digest identifies its batch: a reply that carries data carries that batch. */
  ghost predicate Honest(env: Environment) {
    forall n, d :: env.reply(n, d).Batch? ==> env.reply(n, d).txns == env.batch(d)
  }

  predicate NotAfter(a: LogicalTime, b: LogicalTime) {
    a.epoch < b.epoch || (a.epoch == b.epoch && a.round <= b.round)
  }

  /** The digests of the proofs that have not expired, in order. */
  function Live(proofs: seq<ProofOfStore>, time: LogicalTime): seq<Digest> {
    if proofs == [] then []
    else
      var n := |proofs| - 1;
      Live(proofs[..n], time) + if NotAfter(time, proofs[n].expiration) then [proofs[n].digest] else []
  }

  /** The transactions of the batches behind `digests`, one batch after the other. */
  function Transactions(env: Environment, digests: seq<Digest>): seq<Txn> {
    if digests == [] then []
    else Transactions(env, digests[..|digests| - 1]) + env.batch(digests[|digests| - 1])
  }

  /** Receivers for `digests`, their requests numbered from `next`. */
  function Receivers(digests: seq<Digest>, next: nat): (rs: seq<Receiver>)
    ensures |rs| == |digests|
  {
    if digests == [] then []
    else Receivers(digests[..|digests| - 1], next) + [Receiver(digests[|digests| - 1], next + |digests| - 1)]
  }

  // ----- Which proofs, in which order -----

  /** A proof that has not expired at the time of the block: its expiration is of a later
      epoch, or of the same one and a round not before the block's. */
  predicate Unexpired(p: ProofOfStore, time: LogicalTime) {
    || p.expiration.epoch > time.epoch
    || (p.expiration.epoch == time.epoch && p.expiration.round >= time.round)
  }

  /** `at` are the positions of the unexpired proofs, in order. */
  ghost predicate Positions(proofs: seq<ProofOfStore>, time: LogicalTime, at: seq<nat>) {
    && (forall i :: 0 <= i < |at| ==> at[i] < |proofs| && Unexpired(proofs[at[i]], time))
    && (forall i, j :: 0 <= i < j < |at| ==> at[i] < at[j])
    && (forall k :: 0 <= k < |proofs| && Unexpired(proofs[k], time) ==> k in at)
  }

  /** `digests` are those of the unexpired proofs, each as often as listed and in order. */
  ghost predicate UnexpiredDigests(proofs: seq<ProofOfStore>, time: LogicalTime, digests: seq<Digest>) {
    exists at ::
      && Positions(proofs, time, at) && |at| == |digests|
      && forall i :: 0 <= i < |at| ==> digests[i] == proofs[at[i]].digest
  }

  lemma {:induction false} LiveAt(proofs: seq<ProofOfStore>, time: LogicalTime) returns (at: seq<nat>)
    ensures Positions(proofs, time, at) && |at| == |Live(proofs, time)|
    ensures forall i :: 0 <= i < |at| ==> Live(proofs, time)[i] == proofs[at[i]].digest
  {
    if proofs == [] {
      at := [];
    } else {
      var n := |proofs| - 1;
      var before := LiveAt(proofs[..n], time);
      at := before + if Unexpired(proofs[n], time) then [n] else [];
      forall k | 0 <= k < |proofs| && Unexpired(proofs[k], time) ensures k in at {
        assert k < n ==> proofs[..n][k] == proofs[k] && k in before;
      }
    }
  }

  lemma LiveMeaning(proofs: seq<ProofOfStore>, time: LogicalTime)
    ensures UnexpiredDigests(proofs, time, Live(proofs, time))
  {
    var at := LiveAt(proofs, time);
  }

  /** Batches come one after the other, in the order of the digests. */
  lemma {:induction false} TransactionsAppend(env: Environment, xs: seq<Digest>, ys: seq<Digest>)
    ensures Transactions(env, xs + ys) == Transactions(env, xs) + Transactions(env, ys)
    decreases |ys|
  {
    if ys == [] {
      assert xs + ys == xs;
    } else {
      var n := |ys| - 1;
      assert (xs + ys)[..|xs + ys| - 1] == xs + ys[..n];
      TransactionsAppend(env, xs, ys[..n]);
    }
  }

  lemma TransactionsOne(env: Environment, d: Digest)
    ensures Transactions(env, []) == [] && Transactions(env, [d]) == env.batch(d)
  {
    assert [d][..0] == [];
  }

  lemma {:induction false} ReceiversAt(digests: seq<Digest>, next: nat, i: nat)
    requires i < |digests|
    ensures Receivers(digests, next)[i] == Receiver(digests[i], next + i)
  {
    if i < |digests| - 1 {
      ReceiversAt(digests[..|digests| - 1], next, i);
    }
  }

  // ----- The protocol as a state machine -----

  /** The status of the payload and the number of requests issued so far. */
  datatype State = State(status: Option<DataStatus>, issued: nat)

  /** Calls for this payload, and requests that other blocks make of the same reader. */
  datatype Op = Prefetch | Read | Elsewhere(requests: nat)

  function Request(digests: seq<Digest>, issued: nat): State {
    State(Some(Requested(Receivers(digests, issued))), issued + |digests|)
  }

  function PrefetchStep(digests: seq<Digest>, s: State): State {
    if s.status.None? then Request(digests, s.issued) else s
  }

  /** The outcome of awaiting receivers in order, up to the first failure. */
  function Await(env: Environment, rs: seq<Receiver>): Result<seq<Txn>> {
    if rs == [] then Ok([])
    else
      var n := |rs| - 1;
      var before := Await(env, rs[..n]);
      if before.Err? then before
      else
        match env.reply(rs[n].request, rs[n].digest)
        case Gone => Err(DataNotFound(rs[n].digest))
        case Batch(txns) => Ok(before.value + txns)
        case Failure(e) => Err(ReaderError(e))
  }

  function ReadStep(env: Environment, digests: seq<Digest>, s: State): (State, Result<seq<Txn>>)
    requires s.status.Some?
  {
    match s.status.value
    case Cached(txns) => (s, Ok(txns))
    case Requested(rs) =>
      var r := Await(env, rs);
      if r.Ok? then (s.(status := Some(Cached(r.value))), r) else (Request(digests, s.issued), r)
  }

  /** `rs` are the receivers of requests already issued, one for each of `digests` in order. */
  ghost predicate Pending(digests: seq<Digest>, rs: seq<Receiver>, issued: nat) {
    exists next: nat :: next + |digests| <= issued && rs == Receivers(digests, next)
  }

  /** Between calls: pending receivers stand for the live proofs in order, and a cache holds
      exactly the live batches in order. */
  ghost predicate Consistent(env: Environment, digests: seq<Digest>, s: State) {
    match s.status
    case None => true
    case Some(Requested(rs)) => Pending(digests, rs, s.issued)
    case Some(Cached(txns)) => txns == Transactions(env, digests)
  }

  /** Receiver `i` gives no batch, and this is what is reported. */
  predicate FailsAt(env: Environment, rs: seq<Receiver>, i: nat, e: Error)
    requires i < |rs|
  {
    match env.reply(rs[i].request, rs[i].digest)
    case Gone => e == DataNotFound(rs[i].digest)
    case Batch(_) => false
    case Failure(code) => e == ReaderError(code)
  }

  ghost predicate AllBatches(env: Environment, rs: seq<Receiver>) {
    forall i :: 0 <= i < |rs| ==> env.reply(rs[i].request, rs[i].digest).Batch?
  }

  /** Awaiting succeeds exactly if every receiver gives a batch, and else reports the first
      that does not. */
  lemma {:induction false} AwaitMeaning(env: Environment, rs: seq<Receiver>)
    ensures Await(env, rs).Ok? <==> AllBatches(env, rs)
    ensures Await(env, rs).Err? ==>
      exists i :: 0 <= i < |rs| && FailsAt(env, rs, i, Await(env, rs).error) && AllBatches(env, rs[..i])
  {
    if rs != [] {
      var n := |rs| - 1;
      AwaitMeaning(env, rs[..n]);
      var before := Await(env, rs[..n]);
      if before.Err? {
        var i :| 0 <= i < n && FailsAt(env, rs[..n], i, before.error) && AllBatches(env, rs[..n][..i]);
        assert rs[..n][..i] == rs[..i] && FailsAt(env, rs, i, before.error);
        assert !AllBatches(env, rs);
      } else if Await(env, rs).Err? {
        assert FailsAt(env, rs, n, Await(env, rs).error);
      }
    }
  }

  lemma {:induction false} AwaitGivesTransactions(env: Environment, digests: seq<Digest>, next: nat)
    requires Honest(env)
    ensures Await(env, Receivers(digests, next)).Ok? ==>
      Await(env, Receivers(digests, next)).value == Transactions(env, digests)
  {
    if digests != [] {
      var n := |digests| - 1;
      AwaitGivesTransactions(env, digests[..n], next);
      var rs := Receivers(digests, next);
      assert rs[..n] == Receivers(digests[..n], next);
      assert rs[n] == Receiver(digests[n], next + n);
    }
  }

  lemma ReadKeepsConsistent(env: Environment, digests: seq<Digest>, s: State)
    requires Honest(env) && s.status.Some? && Consistent(env, digests, s)
    ensures var (s', r) := ReadStep(env, digests, s);
      && s'.status.Some? && Consistent(env, digests, s')
      && (r.Ok? ==> r.value == Transactions(env, digests))
      && (r.Ok? ==> s' == State(Some(Cached(r.value)), s.issued))
      && (r.Err? ==> s' == State(Some(Requested(Receivers(digests, s.issued))), s.issued + |digests|))
  {
    if s.status.value.Requested? {
      var next: nat :| next + |digests| <= s.issued && s.status.value.receivers == Receivers(digests, next);
      AwaitGivesTransactions(env, digests, next);
    }
  }

  /** The state after a run of calls, and what its reads returned. */
  function RunOps(env: Environment, digests: seq<Digest>, s: State, ops: seq<Op>): (State, seq<Result<seq<Txn>>>)
    requires s.status.Some?
    decreases |ops|
  {
    if ops == [] then (s, [])
    else if ops[0].Prefetch? then RunOps(env, digests, PrefetchStep(digests, s), ops[1..])
    else if ops[0].Elsewhere? then RunOps(env, digests, s.(issued := s.issued + ops[0].requests), ops[1..])
    else
      var (s1, r) := ReadStep(env, digests, s);
      var (s2, rs) := RunOps(env, digests, s1, ops[1..]);
      (s2, [r] + rs)
  }

  lemma {:induction false} RunKeepsConsistent(env: Environment, digests: seq<Digest>, s: State, ops: seq<Op>)
    requires Honest(env) && s.status.Some? && Consistent(env, digests, s)
    ensures var (s', rs) := RunOps(env, digests, s, ops);
      && s'.status.Some? && Consistent(env, digests, s')
      && forall i :: 0 <= i < |rs| && rs[i].Ok? ==> rs[i].value == Transactions(env, digests)
    decreases |ops|
  {
    if ops != [] {
      if ops[0].Prefetch? {
        RunKeepsConsistent(env, digests, s, ops[1..]);
      } else if ops[0].Elsewhere? {
        RunKeepsConsistent(env, digests, s.(issued := s.issued + ops[0].requests), ops[1..]);
      } else {
        ReadKeepsConsistent(env, digests, s);
        RunKeepsConsistent(env, digests, ReadStep(env, digests, s).0, ops[1..]);
      }
    }
  }

  /** Over every run that starts with a prefetch of a fresh payload, whatever other blocks
      request of the reader in between, the status is never
      empty between calls, pending receivers match the live proofs in order even after failed
      reads, and every successful read returns the live batches in proof order. */
  lemma PayloadProtocol(env: Environment, proofs: seq<ProofOfStore>, time: LogicalTime, issued: nat, ops: seq<Op>)
    requires Honest(env)
    ensures var digests := Live(proofs, time);
      var (s, rs) := RunOps(env, digests, PrefetchStep(digests, State(None, issued)), ops);
      && UnexpiredDigests(proofs, time, digests)
      && s.status.Some?
      && (s.status.value.Requested? ==> Pending(digests, s.status.value.receivers, s.issued))
      && (forall i :: 0 <= i < |rs| && rs[i].Ok? ==> rs[i].value == Transactions(env, digests))
  {
    var digests := Live(proofs, time);
    LiveMeaning(proofs, time);
    RunKeepsConsistent(env, digests, PrefetchStep(digests, State(None, issued)), ops);
  }

  /** Once a read has succeeded, every later read succeeds with the same transactions. */
  lemma {:induction false} CachedForever(env: Environment, digests: seq<Digest>, s: State, ops: seq<Op>)
    requires s.status.Some? && s.status.value.Cached?
    ensures var (s', rs) := RunOps(env, digests, s, ops);
      s'.status == s.status && forall i :: 0 <= i < |rs| ==> rs[i] == Ok(s.status.value.txns)
    decreases |ops|
  {
    if ops != [] {
      CachedForever(env, digests, if ops[0].Elsewhere? then s.(issued := s.issued + ops[0].requests) else s, ops[1..]);
    }
  }

  /** From a consistent status, a read that succeeds gives the batches of the unexpired proofs
      in order. */
  ghost predicate ReadsUnexpired(env: Environment, proofs: seq<ProofOfStore>, time: LogicalTime, s: State,
    r: Result<seq<Txn>>)
  {
    Honest(env) && Consistent(env, Live(proofs, time), s) && r.Ok? ==>
      exists digests :: UnexpiredDigests(proofs, time, digests) && r.value == Transactions(env, digests)
  }

  lemma ReadMeaning(env: Environment, proofs: seq<ProofOfStore>, time: LogicalTime, s: State)
    requires s.status.Some?
    ensures ReadsUnexpired(env, proofs, time, s, ReadStep(env, Live(proofs, time), s).1)
  {
    LiveMeaning(proofs, time);
    if Honest(env) && Consistent(env, Live(proofs, time), s) {
      ReadKeepsConsistent(env, Live(proofs, time), s);
    }
  }

  // ----- The manager -----

  class BatchReader {
    const env: Environment
    var issued: nat

    constructor (env: Environment)
      ensures this.env == env && issued == 0
    {
      this.env := env;
      issued := 0;
    }

    method GetBatch(p: ProofOfStore) returns (r: Receiver)
      modifies this
      ensures r == Receiver(p.digest, old(issued)) && issued == old(issued) + 1
    {
      r := Receiver(p.digest, issued);
      issued := issued + 1;
    }
  }

  class ProofWithStatus {
    const proofs: seq<ProofOfStore>
    var status: Option<DataStatus>

    constructor (proofs: seq<ProofOfStore>)
      ensures this.proofs == proofs && status == None
    {
      this.proofs := proofs;
      status := None;
    }
  }

  datatype Payload = DirectMempool(txns: seq<Txn>) | InQuorumStore(data: ProofWithStatus)

  datatype Block = Block(time: LogicalTime, payload: Option<Payload>)

  datatype PayloadManager = Direct | QuorumStore(reader: BatchReader)

  /** The combinations the code can be called with; the others are marked unreachable. */
  predicate Matches(m: PayloadManager, b: Block) {
    b.payload.Some? ==> (m.QuorumStore? <==> b.payload.value.InQuorumStore?)
  }

  method RequestTransactions(proofs: seq<ProofOfStore>, time: LogicalTime, reader: BatchReader)
    returns (receivers: seq<Receiver>)
    modifies reader
    ensures receivers == Receivers(Live(proofs, time), old(reader.issued))
    ensures reader.issued == old(reader.issued) + |receivers|
    ensures exists at ::
      && Positions(proofs, time, at) && |at| == |receivers|
      && forall i :: 0 <= i < |at| ==> receivers[i] == Receiver(proofs[at[i]].digest, old(reader.issued) + i)
  {
    receivers := [];
    for i := 0 to |proofs|
      invariant receivers == Receivers(Live(proofs[..i], time), old(reader.issued))
      invariant reader.issued == old(reader.issued) + |Live(proofs[..i], time)|
    {
      assert proofs[..i + 1][..i] == proofs[..i];
      if NotAfter(time, proofs[i].expiration) {
        ghost var live := Live(proofs[..i + 1], time);
        assert live[..|live| - 1] == Live(proofs[..i], time);
        var rx := reader.GetBatch(proofs[i]);
        receivers := receivers + [rx];
      } else {
        assert Live(proofs[..i + 1], time) == Live(proofs[..i], time);
      }
    }
    assert proofs[..|proofs|] == proofs;
    ghost var at := LiveAt(proofs, time);
    forall i | 0 <= i < |at| ensures receivers[i] == Receiver(proofs[at[i]].digest, old(reader.issued) + i) {
      ReceiversAt(Live(proofs, time), old(reader.issued), i);
    }
  }

  /** Asks for the live batches and keeps the receivers as the status. */
  method RequestInto(reader: BatchReader, p: ProofWithStatus, time: LogicalTime)
    modifies reader, p
    ensures State(p.status, reader.issued) == Request(Live(p.proofs, time), old(reader.issued))
  {
    var receivers := RequestTransactions(p.proofs, time, reader);
    p.status := Some(Requested(receivers));
  }

  method PrefetchPayloadData(m: PayloadManager, b: Block)
    requires Matches(m, b)
    modifies if m.QuorumStore? && b.payload.Some? then {m.reader, b.payload.value.data} else {}
    ensures m.QuorumStore? && b.payload.Some? ==>
      var p := b.payload.value.data;
      State(p.status, m.reader.issued)
        == PrefetchStep(Live(p.proofs, b.time), State(old(p.status), old(m.reader.issued)))
  {
    if b.payload.None? {
      return;
    }
    match m
    case Direct =>
    case QuorumStore(reader) =>
      var p := b.payload.value.data;
      if p.status.None? {
        RequestInto(reader, p, b.time);
      }
  }

  /** Awaits the receivers one by one, up to the first that gives no batch. */
  method AwaitReceivers(reader: BatchReader, receivers: seq<Receiver>) returns (r: Result<seq<Txn>>)
    ensures r == Await(reader.env, receivers)
  {
    var txns: seq<Txn> := [];
    for i := 0 to |receivers|
      invariant Await(reader.env, receivers[..i]) == Ok(txns)
    {
      assert receivers[..i + 1][..i] == receivers[..i];
      var rx := receivers[i];
      var reply := reader.env.reply(rx.request, rx.digest);
      if !reply.Batch? {
        r := Err(if reply.Gone? then DataNotFound(rx.digest) else ReaderError(reply.error));
        AwaitFailsEarly(reader.env, receivers, i + 1, r.error);
        return;
      }
      txns := txns + reply.txns;
    }
    assert receivers[..|receivers|] == receivers;
    return Ok(txns);
  }

  /** The quorum store's read. The status is taken while the call runs and always put back
      before it returns; a success is cached. */
  method ReadBatches(reader: BatchReader, p: ProofWithStatus, time: LogicalTime) returns (r: Result<seq<Txn>>)
    requires p.status.Some?
    modifies reader, p
    ensures (State(p.status, reader.issued), r)
      == ReadStep(reader.env, Live(p.proofs, time), State(old(p.status), old(reader.issued)))
    ensures r.Ok? ==> p.status == Some(Cached(r.value)) && reader.issued == old(reader.issued)
  {
    var status := p.status.value;
    p.status := None;
    match status
    case Cached(data) =>
      p.status := Some(Cached(data));
      r := Ok(data);
    case Requested(receivers) =>
      r := AwaitReceivers(reader, receivers);
      if r.Err? {
        RequestInto(reader, p, time);
        return;
      }
      p.status := Some(Cached(r.value));
  }

  method GetTransactions(m: PayloadManager, b: Block) returns (r: Result<seq<Txn>>)
    requires Matches(m, b)
    requires m.QuorumStore? && b.payload.Some? ==> b.payload.value.data.status.Some?
    modifies if m.QuorumStore? && b.payload.Some? then {m.reader, b.payload.value.data} else {}
    ensures b.payload.None? ==> r == Ok([])
    ensures m.Direct? && b.payload.Some? ==> r == Ok(b.payload.value.txns)
    ensures m.QuorumStore? && b.payload.Some? ==>
      var p := b.payload.value.data;
      var before := State(old(p.status), old(m.reader.issued));
      && (State(p.status, m.reader.issued), r) == ReadStep(m.reader.env, Live(p.proofs, b.time), before)
      && (r.Ok? ==> p.status == Some(Cached(r.value)) && m.reader.issued == old(m.reader.issued))
      && ReadsUnexpired(m.reader.env, p.proofs, b.time, before, r)
  {
    if b.payload.None? {
      return Ok([]);
    }
    if m.Direct? {
      return Ok(b.payload.value.txns);
    }
    ghost var p := b.payload.value.data;
    ReadMeaning(m.reader.env, p.proofs, b.time, State(p.status, m.reader.issued));
    r := ReadBatches(m.reader, b.payload.value.data, b.time);
  }

  lemma {:induction false} AwaitFailsEarly(env: Environment, rs: seq<Receiver>, n: nat, e: Error)
    requires n <= |rs| && Await(env, rs[..n]) == Err(e)
    ensures Await(env, rs) == Err(e)
    decreases |rs| - n
  {
    if n < |rs| {
      assert rs[..n + 1][..n] == rs[..n];
      AwaitFailsEarly(env, rs, n + 1, e);
    } else {
      assert rs[..n] == rs;
    }
  }
}
