/** The epoch manager as an object: its fields are set, taken and cleared across the loop. */
module EpochManager {
  import opened Epochs
  import opened Wrappers
  import E = Epochs

  class Manager {
    var epochState: Option<nat>
    var quorumStoreEnabled: bool
    var roundManagerTx: Option<Channel>
    var roundManagerCloseTx: Option<Channel>
    var bufferManagerMsgTx: Option<Channel>
    var bufferManagerResetTx: Option<Channel>
    var blockRetrievalTx: Option<Channel>
    var quorumStoreMsgTx: Option<Channel>
    var quorumStoreCoordinatorTx: Option<Channel>
    ghost var pushed: seq<Push>

    ghost function State(): State
      reads this
    {
      E.State(epochState, quorumStoreEnabled, roundManagerTx, roundManagerCloseTx,
        bufferManagerMsgTx, bufferManagerResetTx, blockRetrievalTx, quorumStoreMsgTx,
        quorumStoreCoordinatorTx, pushed)
    }

    constructor ()
      ensures State() == FRESH
    {
      epochState, quorumStoreEnabled := None, false;
      roundManagerTx, roundManagerCloseTx := None, None;
      bufferManagerMsgTx, bufferManagerResetTx := None, None;
      blockRetrievalTx, quorumStoreMsgTx, quorumStoreCoordinatorTx := None, None, None;
      pushed := [];
    }

    /** Leaves no component of the epoch but the quorum store's message channel, which is not
        closed, and touches neither the epoch nor what was pushed. */
    method ShutdownCurrentProcessor()
      modifies this
      ensures State() == Shutdown(old(State()))
      ensures Stopped(State()) && roundManagerTx.None? && roundManagerCloseTx.None? && quorumStoreCoordinatorTx.None?
      ensures quorumStoreMsgTx == old(quorumStoreMsgTx) && epochState == old(epochState) && pushed == old(pushed)
    {
      roundManagerCloseTx := None;
      roundManagerTx := None;
      bufferManagerMsgTx := None;
      bufferManagerResetTx := None;
      blockRetrievalTx := None;
      quorumStoreCoordinatorTx := None;
    }

    method SpawnDecoupledExecution(epoch: nat)
      modifies this`bufferManagerMsgTx, this`bufferManagerResetTx
      ensures bufferManagerMsgTx == bufferManagerResetTx == Some(Channel(epoch))
    {
      bufferManagerMsgTx := Some(Channel(epoch));
      bufferManagerResetTx := Some(Channel(epoch));
    }

    /** After a shutdown every channel there is belongs to the epoch, the quorum store's
        included; without one, a buffer manager of the old epoch would be left. */
    method StartRoundManager(epoch: nat, config: Config)
      requires quorumStoreEnabled == config.quorumStore
      modifies this
      ensures State() == E.StartRoundManager(old(State()), epoch, config)
      ensures epochState == Some(epoch) ==> QuorumStoreCurrent(State())
      ensures epochState == Some(epoch) && old(bufferManagerMsgTx == bufferManagerResetTx) ==>
        (Ready(State()) <==>
          config.decoupledExecution || old(bufferManagerMsgTx).None? || old(bufferManagerMsgTx) == Some(Channel(epoch)))
      ensures pushed == old(pushed)
    {
      quorumStoreMsgTx := if quorumStoreEnabled then Some(Channel(epoch)) else None;
      if config.decoupledExecution {
        SpawnDecoupledExecution(epoch);
      }
      quorumStoreCoordinatorTx := if quorumStoreEnabled then Some(Channel(epoch)) else None;
      roundManagerTx := Some(Channel(epoch));
      roundManagerCloseTx := Some(Channel(epoch));
      blockRetrievalTx := Some(Channel(epoch));
    }

    /** After a shutdown the epoch has a round manager and nothing else; the quorum store's
        channel stays what it was. */
    method StartRecoveryManager(epoch: nat)
      modifies this
      ensures State() == E.StartRecoveryManager(old(State()), epoch)
      ensures old(Stopped(State())) && epochState == Some(epoch) ==> Ready(State()) && Stopped(State())
      ensures quorumStoreMsgTx == old(quorumStoreMsgTx) && pushed == old(pushed)
    {
      roundManagerTx := Some(Channel(epoch));
      roundManagerCloseTx := Some(Channel(epoch));
    }

    method StartNewEpoch(r: Reconfig)
      modifies this
      ensures State() == StartEpoch(old(State()), r)
      ensures old(Stopped(State())) ==> Ready(State()) && epochState == Some(r.epoch)
    {
      epochState := Some(r.epoch);
      match r.recovery
      case FullRecovery =>
        quorumStoreEnabled := r.config.quorumStore;
        StartRoundManager(r.epoch, r.config);
      case PartialRecovery =>
        StartRecoveryManager(r.epoch);
    }

    method InitiateNewEpoch(verifies: bool, next: Reconfig)
      modifies this
      ensures State() == E.InitiateNewEpoch(old(State()), verifies, next)
      ensures verifies ==> Ready(State()) && epochState == Some(next.epoch)
    {
      if !verifies {
        return;
      }
      ShutdownCurrentProcessor();
      StartNewEpoch(next);
    }

    /** One push; with the manager ready, a consensus event of the epoch is isolated. */
    method ForwardToRoundManager(e: Event)
      requires roundManagerTx.Some?
      modifies this`pushed
      ensures State() == E.ForwardToRoundManager(old(State()), e)
      ensures exists p ::
        && pushed == old(pushed) + [p] && p.target.RoundManager? && p.event == e
        && (Ready(State()) && (e.Verified? ==> e.epoch == epochState.value) ==> Isolated(p))
    {
      pushed := pushed + [Push(RoundManager, roundManagerTx.value, e)];
    }

    /** At most one push, to the component of the event's kind: none exactly if that component
        has no channel. With the manager ready, an event of the epoch is isolated. */
    method ProcessEvent(k: Kind, epoch: nat)
      requires roundManagerTx.Some?
      modifies this`pushed
      ensures State() == E.ProcessEvent(old(State()), k, epoch)
      ensures pushed == old(pushed) <==>
        (IsQuorumStore(k) && quorumStoreMsgTx.None?) || (IsCommit(k) && bufferManagerMsgTx.None?)
      ensures pushed != old(pushed) ==> exists p ::
        && pushed == old(pushed) + [p] && p.event == Verified(k, epoch)
        && (p.target.QuorumStore? <==> IsQuorumStore(k)) && (p.target.BufferManager? <==> IsCommit(k))
        && (Ready(State()) && epoch == epochState.value ==> Isolated(p))
    {
      if IsQuorumStore(k) {
        if quorumStoreMsgTx.Some? {
          pushed := pushed + [Push(QuorumStore, quorumStoreMsgTx.value, Verified(k, epoch))];
        }
      } else if IsCommit(k) {
        if bufferManagerMsgTx.Some? {
          pushed := pushed + [Push(BufferManager, bufferManagerMsgTx.value, Verified(k, epoch))];
        }
      } else {
        ForwardToRoundManager(Verified(k, epoch));
      }
    }

    /** The event to verify, if the message is one of the epoch under way. */
    method CheckEpoch(m: Message, verifies: bool, next: Reconfig) returns (event: Option<(Kind, nat)>)
      requires epochState.Some?
      modifies this
      ensures m.EpochChangeProof? && m.proofEpoch == old(epochState).value ==>
        event.None? && State() == E.InitiateNewEpoch(old(State()), verifies, next)
      ensures !(m.EpochChangeProof? && m.proofEpoch == old(epochState).value) ==> State() == old(State())
      ensures event == if m.Consensus? && m.epoch == old(epochState).value then Some((m.kind, m.epoch)) else None
    {
      match m
      case Consensus(kind, epoch) =>
        if epoch == epochState.value {
          return Some((kind, epoch));
        }
        return None;
      case EpochChangeProof(epoch) =>
        if epoch == epochState.value {
          InitiateNewEpoch(verifies, next);
        }
        return None;
      case EpochRetrievalRequest(_, _) =>
        return None;
      case Unexpected =>
        return None;
    }

    method ProcessMessage(m: Message, verifies: bool, next: Reconfig)
      requires epochState.Some? && roundManagerTx.Some?
      modifies this
      ensures State() == E.ProcessMessage(old(State()), m, verifies, next)
      ensures m.Consensus? && !Admitted(old(State()), m.kind, m.epoch, verifies) ==> State() == old(State())
      ensures m.Consensus? ==> epochState == old(epochState) && old(pushed) <= pushed && |pushed| <= |old(pushed)| + 1
      ensures m.Consensus? && pushed != old(pushed) ==> pushed[|old(pushed)|].event == Verified(m.kind, m.epoch)
    {
      var event := CheckEpoch(m, verifies, next);
      if event.Some? {
        var (kind, epoch) := event.value;
        if IsQuorumStore(kind) && !quorumStoreEnabled {
          return;
        }
        if !verifies {
          return;
        }
        ProcessEvent(kind, epoch);
      }
    }

    /** The main loop, from the first reconfiguration on. */
    method Start(first: Reconfig, inputs: seq<Input>)
      requires State() == FRESH
      modifies this
      ensures State() == Run(StartEpoch(FRESH, first), inputs)
      ensures Ready(State()) && AllIsolated(State())
    {
      StartNewEpoch(first);
      ghost var s0 := State();
      var i := 0;
      while i < |inputs|
        invariant 0 <= i <= |inputs|
        invariant Ready(State()) && AllIsolated(State())
        invariant Run(State(), inputs[i..]) == Run(s0, inputs)
      {
        ghost var s := State();
        StepReady(s, inputs[i]);
        StepIsolated(s, inputs[i]);
        assert inputs[i..][0] == inputs[i] && inputs[i..][1..] == inputs[i + 1..];
        match inputs[i] {
          case Network(m, verifies, next) => ProcessMessage(m, verifies, next);
          case BlockRetrieval =>
          case Timeout(round) => ForwardToRoundManager(LocalTimeout(round));
        }
        i := i + 1;
      }
    }
  }
}
