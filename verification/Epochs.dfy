/**
 The epoch manager: it tears down the components of one epoch, starts those of the next and
 routes incoming messages to them. Channels are tagged here with the epoch they were opened
 for, and every push is recorded, so that isolation between epochs can be stated.
 */
module Epochs {
  import opened Wrappers

  datatype Kind =
    | Proposal | SyncInfo | Vote
    | CommitVote | CommitDecision
    | Fragment | BatchRequest | Batch | SignedDigest | ProofOfStore

  datatype Message =
    | Consensus(kind: Kind, epoch: nat)
    | EpochChangeProof(proofEpoch: nat)
    | EpochRetrievalRequest(startEpoch: nat, endEpoch: nat)
    | Unexpected

  datatype Event = Verified(kind: Kind, epoch: nat) | LocalTimeout(round: nat)

  /** A channel, tagged with the epoch it was opened for. */
  datatype Channel = Channel(epoch: nat)

  datatype Target = RoundManager | BufferManager | QuorumStore

  datatype Push = Push(target: Target, channel: Channel, event: Event)

  /** The configuration of an epoch, read from the chain or, if it cannot be read, the default
      one, and what storage can recover. */
  datatype Reconfig = Reconfig(epoch: nat, config: Config, recovery: Recovery)
  datatype Config = Config(decoupledExecution: bool, quorumStore: bool)
  datatype Recovery = FullRecovery | PartialRecovery

  /** What the main loop takes, with what the outside world decides about it: whether the
      event or the epoch proof verifies, and the reconfiguration that follows a proof. */
  datatype Input =
    | Network(message: Message, verifies: bool, next: Reconfig)
    | BlockRetrieval
    | Timeout(round: nat)

  datatype State = State(
    epoch: Option<nat>,
    quorumStoreEnabled: bool,
    roundManagerTx: Option<Channel>,
    roundManagerCloseTx: Option<Channel>,
    bufferManagerMsgTx: Option<Channel>,
    bufferManagerResetTx: Option<Channel>,
    blockRetrievalTx: Option<Channel>,
    quorumStoreMsgTx: Option<Channel>,
    quorumStoreCoordinatorTx: Option<Channel>,
    pushed: seq<Push>)

  const FRESH := State(None, false, None, None, None, None, None, None, None, [])

  predicate IsQuorumStore(k: Kind) {
    k.Fragment? || k.BatchRequest? || k.Batch? || k.SignedDigest? || k.ProofOfStore?
  }

  predicate IsCommit(k: Kind) {
    k.CommitVote? || k.CommitDecision?
  }

  // ----- Epoch changes -----

  function Shutdown(s: State): State {
    s.(roundManagerTx := None, roundManagerCloseTx := None,
       bufferManagerMsgTx := None, bufferManagerResetTx := None,
       blockRetrievalTx := None, quorumStoreCoordinatorTx := None)
  }

  function StartRoundManager(s: State, epoch: nat, c: Config): State {
    var ch := Some(Channel(epoch));
    s.(quorumStoreEnabled := c.quorumStore,
       quorumStoreMsgTx := if c.quorumStore then ch else None,
       quorumStoreCoordinatorTx := if c.quorumStore then ch else None,
       bufferManagerMsgTx := if c.decoupledExecution then ch else s.bufferManagerMsgTx,
       bufferManagerResetTx := if c.decoupledExecution then ch else s.bufferManagerResetTx,
       roundManagerTx := ch, roundManagerCloseTx := ch, blockRetrievalTx := ch)
  }

  function StartRecoveryManager(s: State, epoch: nat): State {
    s.(roundManagerTx := Some(Channel(epoch)), roundManagerCloseTx := Some(Channel(epoch)))
  }

  ghost predicate Stopped(s: State) {
    s.bufferManagerMsgTx.None? && s.bufferManagerResetTx.None? && s.blockRetrievalTx.None?
  }

  /** Starting an epoch after a shutdown makes the manager ready for it, and pushes nothing. */
  function StartEpoch(s: State, r: Reconfig): (s': State)
    ensures Stopped(s) ==> Ready(s') && s'.epoch == Some(r.epoch)
    ensures s'.pushed == s.pushed
  {
    var s1 := s.(epoch := Some(r.epoch));
    match r.recovery
    case FullRecovery => StartRoundManager(s1, r.epoch, r.config)
    case PartialRecovery => StartRecoveryManager(s1, r.epoch)
  }

  function InitiateNewEpoch(s: State, verifies: bool, next: Reconfig): State {
    if verifies then StartEpoch(Shutdown(s), next) else s
  }

  // ----- Messages -----

  /** At the head of the main loop: an epoch is under way, the round manager's channel and
      all other open channels but the quorum store's belong to it. */
  ghost predicate Ready(s: State) {
    && s.epoch.Some?
    && s.roundManagerTx == Some(Channel(s.epoch.value))
    && s.roundManagerCloseTx == s.roundManagerTx
    && (s.bufferManagerMsgTx.Some? ==> s.bufferManagerMsgTx == s.roundManagerTx)
    && s.bufferManagerResetTx == s.bufferManagerMsgTx
    && (s.blockRetrievalTx.Some? ==> s.blockRetrievalTx == s.roundManagerTx)
  }

  function Deliver(s: State, target: Target, channel: Channel, e: Event): State {
    s.(pushed := s.pushed + [Push(target, channel, e)])
  }

  function ForwardToRoundManager(s: State, e: Event): State
    requires s.roundManagerTx.Some?
  {
    Deliver(s, RoundManager, s.roundManagerTx.value, e)
  }

  function ProcessEvent(s: State, k: Kind, epoch: nat): State
    requires s.roundManagerTx.Some?
  {
    var e := Verified(k, epoch);
    if IsQuorumStore(k) then
      if s.quorumStoreMsgTx.Some? then Deliver(s, QuorumStore, s.quorumStoreMsgTx.value, e) else s
    else if IsCommit(k) then
      if s.bufferManagerMsgTx.Some? then Deliver(s, BufferManager, s.bufferManagerMsgTx.value, e) else s
    else
      ForwardToRoundManager(s, e)
  }

  function ProcessMessage(s: State, m: Message, verifies: bool, next: Reconfig): State
    requires s.epoch.Some? && s.roundManagerTx.Some?
  {
    match m
    case Consensus(k, epoch) =>
      if epoch != s.epoch.value then s
      else if IsQuorumStore(k) && !s.quorumStoreEnabled then s
      else if !verifies then s
      else ProcessEvent(s, k, epoch)
    case EpochChangeProof(epoch) =>
      if epoch == s.epoch.value then InitiateNewEpoch(s, verifies, next) else s
    case EpochRetrievalRequest(_, _) => s
    case Unexpected => s
  }

  function Step(s: State, i: Input): State
    requires s.epoch.Some? && s.roundManagerTx.Some?
  {
    match i
    case Network(m, verifies, next) => ProcessMessage(s, m, verifies, next)
    case BlockRetrieval => s
    case Timeout(round) => ForwardToRoundManager(s, LocalTimeout(round))
  }

  // ----- What a start opens and what a step delivers -----

  /** From full recovery data: a round manager with block retrieval, a buffer manager exactly if
      execution is decoupled, and a quorum store exactly if it is enabled. */
  lemma FullStartOpens(s: State, r: Reconfig)
    requires r.recovery.FullRecovery?
    ensures var s', ch := StartEpoch(s, r), Some(Channel(r.epoch));
      && s'.epoch == Some(r.epoch) && s'.quorumStoreEnabled == r.config.quorumStore
      && s'.roundManagerTx == s'.roundManagerCloseTx == s'.blockRetrievalTx == ch
      && (r.config.decoupledExecution ==> s'.bufferManagerMsgTx == s'.bufferManagerResetTx == ch)
      && (!r.config.decoupledExecution ==>
            s'.bufferManagerMsgTx == s.bufferManagerMsgTx && s'.bufferManagerResetTx == s.bufferManagerResetTx)
      && s'.quorumStoreMsgTx == s'.quorumStoreCoordinatorTx == (if r.config.quorumStore then ch else None)
  {}

  /** From partial recovery data: a round manager and nothing else. */
  lemma PartialStartOpens(s: State, r: Reconfig)
    requires r.recovery.PartialRecovery?
    ensures var ch := Some(Channel(r.epoch));
      StartEpoch(s, r) == s.(epoch := Some(r.epoch), roundManagerTx := ch, roundManagerCloseTx := ch)
  {}

  /** An epoch change stops all but the quorum store's message channel before it starts. */
  lemma ChangeStopsFirst(s: State, next: Reconfig)
    ensures InitiateNewEpoch(s, false, next) == s
    ensures InitiateNewEpoch(s, true, next) == StartEpoch(
      FRESH.(epoch := s.epoch, quorumStoreEnabled := s.quorumStoreEnabled, quorumStoreMsgTx := s.quorumStoreMsgTx,
             pushed := s.pushed), next)
  {}

  /** A consensus message of the epoch under way that verifies, and is not for a quorum store
      that is disabled, is delivered; any other is dropped. */
  predicate Admitted(s: State, k: Kind, epoch: nat, verifies: bool) {
    && verifies && s.epoch == Some(epoch)
    && (k in {Fragment, BatchRequest, Batch, SignedDigest, ProofOfStore} ==> s.quorumStoreEnabled)
  }

  /** What a step delivers, by what comes in: nothing or one event, to the component for its
      kind, if that has a channel. */
  lemma StepDelivers(s: State, i: Input)
    requires Ready(s)
    ensures i.Timeout? ==>
      Step(s, i) == s.(pushed := s.pushed + [Push(RoundManager, Channel(s.epoch.value), LocalTimeout(i.round))])
    ensures i.BlockRetrieval? ==> Step(s, i) == s
    ensures i.Network? && (i.message.Unexpected? || i.message.EpochRetrievalRequest?) ==> Step(s, i) == s
    ensures i.Network? && i.message.EpochChangeProof? ==> var s' := Step(s, i);
      && s'.pushed == s.pushed
      && (if i.verifies && s.epoch == Some(i.message.proofEpoch) then s'.epoch == Some(i.next.epoch) else s' == s)
    ensures i.Network? && i.message.Consensus? ==> var k, epoch := i.message.kind, i.message.epoch;
      var event := Verified(k, epoch);
      if !Admitted(s, k, epoch, i.verifies) then Step(s, i) == s
      else if k in {Proposal, SyncInfo, Vote} then
        Step(s, i) == s.(pushed := s.pushed + [Push(RoundManager, Channel(epoch), event)])
      else if k in {CommitVote, CommitDecision} then
        if s.bufferManagerMsgTx.None? then Step(s, i) == s
        else Step(s, i) == s.(pushed := s.pushed + [Push(BufferManager, Channel(epoch), event)])
      else
        if s.quorumStoreMsgTx.None? then Step(s, i) == s
        else Step(s, i) == s.(pushed := s.pushed + [Push(QuorumStore, s.quorumStoreMsgTx.value, event)])
  {}

  /** The input that a push answers to: a timeout of the same round, or a consensus message of
      the same kind and epoch that verified. */
  predicate AnswersTo(p: Push, i: Input) {
    match p.event
    case LocalTimeout(round) => i == Timeout(round) && p.target.RoundManager?
    case Verified(k, epoch) => i.Network? && i.verifies && i.message == Consensus(k, epoch)
  }

  lemma StepAnswers(s: State, i: Input, p: Push)
    requires Ready(s) && p in Step(s, i).pushed
    ensures p in s.pushed || AnswersTo(p, i)
  {
    StepDelivers(s, i);
  }

  lemma StepReady(s: State, i: Input)
    requires Ready(s)
    ensures Ready(Step(s, i))
  {
    assert Stopped(Shutdown(s));
  }

  // ----- Isolation -----

  /** A consensus event reaches the round or the buffer manager only on a channel of its own
      epoch. */
  predicate Isolated(p: Push) {
    p.event.Verified? && !p.target.QuorumStore? ==> p.channel.epoch == p.event.epoch
  }

  ghost predicate AllIsolated(s: State) {
    forall p :: p in s.pushed ==> Isolated(p)
  }

  /** A step pushes at most one event; a consensus event it pushes carries the epoch under
      way, and so do the channels of the round and the buffer manager it may be pushed to. */
  lemma StepPushes(s: State, i: Input)
    requires Ready(s)
    ensures var s' := Step(s, i);
      || s'.pushed == s.pushed
      || exists p ::
           && s'.pushed == s.pushed + [p] && s'.epoch == s.epoch
           && (p.event.Verified? ==> p.event.epoch == s.epoch.value)
           && (!p.target.QuorumStore? ==> p.channel.epoch == s.epoch.value)
  {
    match i
    case BlockRetrieval =>
    case Timeout(round) =>
      assert Step(s, i).pushed == s.pushed + [Push(RoundManager, s.roundManagerTx.value, LocalTimeout(round))];
    case Network(m, verifies, next) =>
      if m.Consensus? && Step(s, i).pushed != s.pushed {
        var target := if IsQuorumStore(m.kind) then QuorumStore
                      else if IsCommit(m.kind) then BufferManager else RoundManager;
        var ch := if target.QuorumStore? then s.quorumStoreMsgTx.value
                  else if target.BufferManager? then s.bufferManagerMsgTx.value else s.roundManagerTx.value;
        assert Step(s, i).pushed == s.pushed + [Push(target, ch, Verified(m.kind, m.epoch))];
      }
  }

  lemma StepIsolated(s: State, i: Input)
    requires Ready(s) && AllIsolated(s)
    ensures AllIsolated(Step(s, i))
  {
    StepPushes(s, i);
  }

  ghost function Run(s: State, inputs: seq<Input>): State
    requires Ready(s)
    decreases |inputs|
  {
    if inputs == [] then s
    else
      StepReady(s, inputs[0]);
      Run(Step(s, inputs[0]), inputs[1..])
  }

  lemma {:induction false} RunIsolated(s: State, inputs: seq<Input>)
    requires Ready(s) && AllIsolated(s)
    ensures Ready(Run(s, inputs)) && AllIsolated(Run(s, inputs))
    decreases |inputs|
  {
    if inputs != [] {
      StepReady(s, inputs[0]);
      StepIsolated(s, inputs[0]);
      RunIsolated(Step(s, inputs[0]), inputs[1..]);
    }
  }

  /** Whatever arrives after the first reconfiguration, the loop never finds the round manager
      missing, its channel and any buffer manager channel belong to the epoch under way, and
      no consensus event was ever pushed to either on a channel of another epoch. */
  lemma EpochIsolation(first: Reconfig, inputs: seq<Input>)
    ensures var s := Run(StartEpoch(FRESH, first), inputs);
      Ready(s) && AllIsolated(s)
  {
    RunIsolated(StartEpoch(FRESH, first), inputs);
  }

  /** Over every run each event that was pushed answers to an input of that run: no consensus
      event that did not verify, and no timeout of another round, was ever delivered. */
  lemma {:induction false} RunAnswers(s: State, inputs: seq<Input>, p: Push)
    requires Ready(s) && p in Run(s, inputs).pushed && p !in s.pushed
    ensures exists i :: 0 <= i < |inputs| && AnswersTo(p, inputs[i])
    decreases |inputs|
  {
    StepReady(s, inputs[0]);
    var s1 := Step(s, inputs[0]);
    if p in s1.pushed {
      StepAnswers(s, inputs[0], p);
    } else {
      RunAnswers(s1, inputs[1..], p);
      var i :| 0 <= i < |inputs[1..]| && AnswersTo(p, inputs[1..][i]);
      assert AnswersTo(p, inputs[i + 1]);
    }
  }

  // ----- The quorum store's channel -----

  ghost predicate QuorumStoreCurrent(s: State) {
    s.quorumStoreMsgTx.Some? ==> s.epoch == Some(s.quorumStoreMsgTx.value.epoch)
  }

  /** The quorum store's channel is not closed at shutdown: after an epoch change it belongs
      to the new epoch, if it is open at all, exactly when the epoch was started from full
      recovery data, or it was not open before, or the epoch number did not change. */
  lemma QuorumStoreAfterEpochChange(s: State, next: Reconfig)
    requires Ready(s) && QuorumStoreCurrent(s)
    ensures QuorumStoreCurrent(InitiateNewEpoch(s, true, next)) <==>
      next.recovery.FullRecovery? || s.quorumStoreMsgTx.None? || next.epoch == s.epoch.value
  {}

  /** The reconfiguration a step carries out, if any. */
  function Started(s: State, i: Input): Option<Reconfig>
    requires s.epoch.Some?
  {
    if i.Network? && i.message.EpochChangeProof? && i.message.proofEpoch == s.epoch.value && i.verifies
    then Some(i.next) else None
  }

  /** The later of two reconfigurations that was started from full recovery data. */
  function LaterFull(last: Option<Reconfig>, r: Option<Reconfig>): Option<Reconfig> {
    if r.Some? && r.value.recovery.FullRecovery? then r else last
  }

  /** The last reconfiguration of a run that was started from full recovery data. */
  ghost function LastFull(s: State, inputs: seq<Input>, last: Option<Reconfig>): Option<Reconfig>
    requires Ready(s)
    decreases |inputs|
  {
    if inputs == [] then last
    else
      StepReady(s, inputs[0]);
      LastFull(Step(s, inputs[0]), inputs[1..], LaterFull(last, Started(s, inputs[0])))
  }

  /** The channel of the quorum store that a reconfiguration starts. */
  function StoreOf(r: Option<Reconfig>): Option<Channel> {
    if r.Some? && r.value.config.quorumStore then Some(Channel(r.value.epoch)) else None
  }

  /** The quorum store's channel is that of the last full start; the store itself runs, its
      coordinator being there, only if that was the start of the epoch under way. */
  ghost predicate Tracks(s: State, last: Option<Reconfig>) {
    && s.quorumStoreMsgTx == StoreOf(last)
    && (s.quorumStoreCoordinatorTx.Some? ==> s.quorumStoreCoordinatorTx == s.quorumStoreMsgTx && QuorumStoreCurrent(s))
  }

  lemma StepTracks(s: State, i: Input, last: Option<Reconfig>)
    requires Ready(s) && Tracks(s, last)
    ensures Tracks(Step(s, i), LaterFull(last, Started(s, i)))
  {}

  lemma {:induction false} RunTracks(s: State, inputs: seq<Input>, last: Option<Reconfig>)
    requires Ready(s) && Tracks(s, last)
    ensures Tracks(Run(s, inputs), LastFull(s, inputs, last))
    decreases |inputs|
  {
    if inputs != [] {
      StepReady(s, inputs[0]);
      StepTracks(s, inputs[0], last);
      RunTracks(Step(s, inputs[0]), inputs[1..], LaterFull(last, Started(s, inputs[0])));
    }
  }

  /** Over every run the quorum store's channel is that of the last epoch started from full
      recovery data, so that it belongs to the epoch under way exactly if that one does, or has
      no quorum store; and a quorum store that runs always belongs to the epoch under way. */
  lemma QuorumStoreOverRuns(first: Reconfig, inputs: seq<Input>)
    ensures var s0 := StartEpoch(FRESH, first);
      var s, last := Run(s0, inputs), LastFull(s0, inputs, LaterFull(None, Some(first)));
      && Tracks(s, last)
      && (QuorumStoreCurrent(s) <==> StoreOf(last).None? || s.epoch == Some(last.value.epoch))
  {
    RunTracks(StartEpoch(FRESH, first), inputs, LaterFull(None, Some(first)));
  }

  /** A run in which a batch of epoch 2 is pushed on the channel of epoch 1's quorum store,
      which the change of epoch has shut down. */
  lemma StaleQuorumStoreChannel()
    ensures var first := Reconfig(1, Config(true, true), FullRecovery);
      var inputs := [Network(EpochChangeProof(1), true, Reconfig(2, Config(true, true), PartialRecovery)),
                     Network(Consensus(Batch, 2), true, first)];
      var s := Run(StartEpoch(FRESH, first), inputs);
      && s.pushed == [Push(QuorumStore, Channel(1), Verified(Batch, 2))]
      && s.quorumStoreCoordinatorTx.None?
  {
    var first := Reconfig(1, Config(true, true), FullRecovery);
    var i0 := Network(EpochChangeProof(1), true, Reconfig(2, Config(true, true), PartialRecovery));
    var i1 := Network(Consensus(Batch, 2), true, first);
    var s0 := StartEpoch(FRESH, first);
    var s1 := Step(s0, i0);
    assert [i0, i1][1..] == [i1] && [i1][1..] == [];
    assert Run(s0, [i0, i1]) == Run(s1, [i1]);
    assert Run(s1, [i1]) == Step(s1, i1);
  }
}
