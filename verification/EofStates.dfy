/**
 The per-client EOF state machine: the seven states, the guard that a control
 message must pass, and the registry of client states that every worker keeps.
 */
module EofStates {

  /** Declared in the order of the integer values -1, ..., 5. */
  datatype EofState =
    | Inactive
    | Active
    | PendingEof
    | RequestSent
    | ResponseSent
    | ConsensusAchieved
    | FinishEnabled

  function Rank(state: EofState): int {
    match state
    case Inactive => -1
    case Active => 0
    case PendingEof => 1
    case RequestSent => 2
    case ResponseSent => 3
    case ConsensusAchieved => 4
    case FinishEnabled => 5
  }

  /** The only way down: a failed round sends ResponseSent back to PendingEof. */
  predicate ConsensusFailed(state: EofState, target: EofState) {
    state == ResponseSent && target == PendingEof
  }

  predicate RecentlyInitiated(state: EofState, target: EofState) {
    (state == Inactive || state == Active) && target == PendingEof
  }

  /** The guard on incoming control messages. */
  predicate ValidTransition(state: EofState, target: EofState) {
    ConsensusFailed(state, target) || Rank(target) - Rank(state) == 1 || RecentlyInitiated(state, target)
  }

  /** The assignment: an update that is neither a failed round nor a step up is ignored. */
  function Update(state: EofState, target: EofState): EofState {
    if ConsensusFailed(state, target) || Rank(state) < Rank(target) then target else state
  }

  /** The transitions that let a control message pass, all of them. */
  lemma TransitionsAre(state: EofState, target: EofState)
    ensures ValidTransition(state, target) <==> (state, target) in {
              (Inactive, Active), (Inactive, PendingEof), (Active, PendingEof), (PendingEof, RequestSent),
              (RequestSent, ResponseSent), (ResponseSent, PendingEof), (ResponseSent, ConsensusAchieved),
              (ConsensusAchieved, FinishEnabled)}
  {
  }

  const ORDER := [Inactive, Active, PendingEof, RequestSent, ResponseSent, ConsensusAchieved, FinishEnabled]

  /** An update goes up in that order, or back from ResponseSent to PendingEof, and is ignored otherwise. */
  lemma UpdatesAre(i: nat, j: nat)
    requires i < |ORDER| && j < |ORDER|
    ensures Update(ORDER[i], ORDER[j]) == if i < j || (i, j) == (4, 2) then ORDER[j] else ORDER[i]
  {
    assert forall k :: 0 <= k < |ORDER| ==> Rank(ORDER[k]) == k - 1;
  }

  /** The state after a run of updates. */
  function Run(state: EofState, targets: seq<EofState>): EofState
    decreases targets
  {
    if targets == [] then state else Run(Update(state, targets[0]), targets[1..])
  }

  function MaxRank(floor: int, targets: seq<EofState>): int
    decreases targets
  {
    if targets == [] then floor
    else MaxRank(if floor < Rank(targets[0]) then Rank(targets[0]) else floor, targets[1..])
  }

  /**
   Once consensus is achieved no run of updates ever leaves that region
   downward: the state is the highest one seen, whatever the order.
   */
  lemma {:induction false} AchievedIsNeverLeftDownward(state: EofState, targets: seq<EofState>)
    requires Rank(state) >= Rank(ConsensusAchieved)
    ensures Rank(Run(state, targets)) == MaxRank(Rank(state), targets)
    ensures Rank(state) <= Rank(Run(state, targets))
    decreases targets
  {
    if targets != [] {
      AchievedIsNeverLeftDownward(Update(state, targets[0]), targets[1..]);
    }
  }

  /**
   Over any run the rank goes down somewhere only if the run visits
   ResponseSent and is then told to go to PendingEof.
   */
  lemma {:induction false} OnlyFailedRoundsGoDown(state: EofState, targets: seq<EofState>)
    requires Rank(Run(state, targets)) < Rank(state)
    ensures exists k :: 0 <= k < |targets| && Run(state, targets[..k]) == ResponseSent && targets[k] == PendingEof
    decreases targets
  {
    var next := Update(state, targets[0]);
    if Rank(next) < Rank(state) {
      assert Run(state, targets[..0]) == ResponseSent && targets[0] == PendingEof;
    } else {
      OnlyFailedRoundsGoDown(next, targets[1..]);
      var k :| 0 <= k < |targets[1..]| && Run(next, targets[1..][..k]) == ResponseSent && targets[1..][k] == PendingEof;
      assert targets[..k + 1][1..] == targets[1..][..k];
      assert Run(state, targets[..k + 1]) == ResponseSent && targets[k + 1] == PendingEof;
    }
  }

  /** The state object of one client. */
  class ClientEofState {
    var state: EofState

    constructor ()
      ensures state == Inactive
    {
      state := Inactive;
    }

    method UpdateState(target: EofState)
      modifies this
      ensures state == Update(old(state), target)
    {
      if (state == ResponseSent && target == PendingEof) || Rank(state) < Rank(target) {
        state := target;
      }
    }
  }

  /** The dictionary of client states shared by the threads of one worker. */
  class ClientRegistry {
    var clients: map<string, ClientEofState>
    ghost var states: map<string, EofState>
    ghost var entries: set<ClientEofState>

    ghost predicate Valid()
      reads this, entries
    {
      && states.Keys == clients.Keys
      && (forall a :: a in clients ==> clients[a] in entries && clients[a].state == states[a])
      && (forall a, b :: a in clients && b in clients && a != b ==> clients[a] != clients[b])
    }

    ghost function StateOf(client: string): EofState
      reads this
    {
      if client in states then states[client] else Inactive
    }

    constructor ()
      ensures Valid() && clients == map[] && states == map[] && entries == {}
    {
      clients, states, entries := map[], map[], {};
    }

    /** The entry of a client, created on first use. */
    method SetDefault(client: string) returns (entry: ClientEofState)
      requires Valid()
      modifies this
      ensures Valid() && fresh(entries - old(entries))
      ensures client in clients && clients[client] == entry && entry in entries
      ensures states == old(states)[client := old(StateOf(client))]
    {
      if client !in clients {
        var created := new ClientEofState();
        clients := clients[client := created];
        states := states[client := Inactive];
        entries := entries + {created};
      }
      entry := clients[client];
    }

    method MarkAs(client: string, target: EofState)
      requires Valid()
      modifies this, entries
      ensures Valid() && fresh(entries - old(entries))
      ensures states == old(states)[client := Update(old(StateOf(client)), target)]
    {
      var entry := SetDefault(client);
      entry.UpdateState(target);
      states := states[client := entry.state];
    }

    method WithValidTransitionTo(client: string, target: EofState) returns (valid: bool)
      requires Valid()
      modifies this
      ensures Valid() && fresh(entries - old(entries))
      ensures valid == ValidTransition(old(StateOf(client)), target)
      ensures states == old(states)[client := old(StateOf(client))]
    {
      var entry := SetDefault(client);
      valid := ValidTransition(entry.state, target);
    }

    /** A late EOF is refused; the first one makes the client active. */
    method CanReceiveInputEof(client: string) returns (accepted: bool)
      requires Valid()
      modifies this, entries
      ensures Valid() && fresh(entries - old(entries))
      ensures accepted <==> Rank(old(StateOf(client))) < Rank(ConsensusAchieved)
      ensures states == old(states)[client := if old(StateOf(client)) == Inactive then Active else old(StateOf(client))]
    {
      var entry := SetDefault(client);
      if Rank(entry.state) >= Rank(ConsensusAchieved) {
        return false;
      }
      if entry.state == Inactive {
        entry.UpdateState(Active);
        states := states[client := Active];
      }
      accepted := true;
    }

    /** True for exactly one caller: the one that takes the client from Active to PendingEof. */
    method TryStartEofConsensus(client: string) returns (started: bool)
      requires Valid()
      modifies this, entries
      ensures Valid() && fresh(entries - old(entries))
      ensures started <==> old(StateOf(client)) == Active
      ensures states == old(states)[client := if started then PendingEof else old(StateOf(client))]
    {
      var entry := SetDefault(client);
      if entry.state != Active {
        return false;
      }
      entry.UpdateState(PendingEof);
      states := states[client := PendingEof];
      started := true;
    }
  }
}
