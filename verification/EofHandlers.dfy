/**
 The handlers of the class EofController.Controller against the steps of
 EofProtocol: a response is handled in one step, and an EOF in the separate
 steps of its registration, which may be interleaved with others; when they are
 not, they do what the handler does. Every other step applies to the worker the
 very function its handler's contract names.
 */
module EofHandlers {
  import opened EofStates
  import opened EofWorker
  import opened EofProtocol
  import opened EofRuns
  import EofController

  // ----- A response -----

  /** A decision of the leader, as the other workers receive it. */
  function AsReceived(m: EofController.Message): ToWorker
    requires m.ConsensusOk? || m.ConsensusFail?
  {
    if m.ConsensusOk? then ConsensusOk else ConsensusFail
  }

  /** What Controller.OnConsensusResponse appends to its messages for each outcome. */
  function Announced(client: string, outcome: Outcome): EofController.Outbox {
    match outcome
    case Incomplete => []
    case Ok => [(client, EofController.ConsensusOk)]
    case Fail => [(client, EofController.ConsensusFail)]
  }

  /** The messages, in order, as a channel carries them. */
  function Channelled(sent: EofController.Outbox): (down: seq<ToWorker>)
    requires forall k :: 0 <= k < |sent| ==> sent[k].1.ConsensusOk? || sent[k].1.ConsensusFail?
    ensures |down| == |sent| && forall k :: 0 <= k < |sent| ==> down[k] == AsReceived(sent[k].1)
  {
    seq(|sent|, k requires 0 <= k < |sent| => AsReceived(sent[k].1))
  }

  /**
   The leader's step on a response is what Controller.OnConsensusResponse
   ensures: the same records, and every other worker's channel grows by the
   messages the handler sends. An OK goes out exactly if the totals agree on
   complete partials, a FAIL exactly if they disagree.
   */
  lemma ResponseStepIsTheHandler(c: Config, s: System, w: nat, client: string)
    requires Enabled(c, s, LeaderGetsResponse(w))
    ensures var x, counts := s.nodes[0].worker, s.nodes[w].up[0].counts;
            var r := Apply(c, s, LeaderGetsResponse(w));
            var valid := ValidTransition(x.state, ResponseSent);
            var recorded := RecordPartials(x, w, counts);
            var outcome := if valid then Decide(recorded, c.n, c.auxiliary) else Incomplete;
            && |r.nodes| == |s.nodes|
            && r.nodes[0].worker == (if valid then CollectResponse(x, c.n, c.auxiliary, w, counts) else x)
            && forall i :: 0 < i < |s.nodes| ==>
                 && r.nodes[i].worker == s.nodes[i].worker
                 && r.nodes[i].down == s.nodes[i].down + Channelled(Announced(client, outcome))
                 && r.nodes[i].down == s.nodes[i].down +
                      if !valid || !HaveAllPartials(recorded, c.n) then []
                      else if TotalsAgree(recorded, c.auxiliary) then [ConsensusOk]
                      else [ConsensusFail]
  {
    hide TotalsAgree, HaveAllPartials, TotalsKnown, SnapshotsComplete;
    assert forall down: seq<ToWorker> :: down + [] == down;
    if ValidTransition(s.nodes[0].worker.state, ResponseSent) {
      assert Stored(s, w).nodes[0].worker == RecordPartials(s.nodes[0].worker, w, s.nodes[w].up[0].counts);
    }
    assert Channelled(Announced(client, Ok)) == [ConsensusOk];
    assert Channelled(Announced(client, Fail)) == [ConsensusFail];
  }

  // ----- An EOF -----

  /** The steps lead from s to r. */
  ghost predicate Leads(c: Config, s: System, steps: seq<Step>, r: System) {
    Runs(c, s, steps) && After(c, s, steps) == r
  }

  lemma LeadsOn(c: Config, s: System, steps: seq<Step>, mid: System, step: Step, r: System)
    requires Leads(c, s, steps, mid) && Enabled(c, mid, step) && r == Apply(c, mid, step)
    ensures Leads(c, s, steps + [step], r)
  {
    RunsExtend(c, s, steps, step);
  }

  /** The steps of one EOF: its arrival, the blocks of its registration, the check. */
  function EofSteps(w: nat, t: nat, p: Prefix): seq<Step> {
    [EofArrives(w, t, p)] + [Register(w, t)] + [Register(w, t)] + [Register(w, t)]
    + (if t == 0 then [] else [Register(w, t)]) + [Register(w, t)]
  }

  /** If the check starts consensus the leader goes on with its snapshot and its request. */
  function RoundSteps(starts: bool): seq<Step> {
    if starts then [LeaderSnapshot, LeaderRequest] else []
  }

  /** Before the check: everything is registered and, on an input thread, passed on. */
  function RegisteredSystem(c: Config, s: System, w: nat, t: nat, p: Prefix): System
    requires w < |s.nodes| && t < |s.nodes[w].pcs|
  {
    var x := s.nodes[w];
    var y := x.(worker := AddTotal(InitCount(AddEof(Activated(x.worker), p), p), p, c.announced[p]),
                pcs := x.pcs[t := Checking(p)],
                past := x.past.(arrived := x.past.arrived + {p}));
    var moved := Put(s, w, y);
    if t == 0 then moved else moved.(nodes := Copied(moved.nodes, w, p))
  }

  /** A block that only changes the worker's own records. */
  lemma OwnBlock(c: Config, s: System, w: nat, t: nat, steps: seq<Step>, x: Node, y: Node)
    requires w < |s.nodes| && t < |x.pcs| && (x.pcs[t].AddingEof? || x.pcs[t].InitCounting? || x.pcs[t].AddingTotal?)
    requires Leads(c, s, steps, Put(s, w, x)) && y == RegisterAt(c, x, t)
    ensures Leads(c, s, steps + [Register(w, t)], Put(s, w, y))
  {
    hide Runs, After;
    assert Put(Put(s, w, x), w, y) == Put(s, w, y);
    LeadsOn(c, s, steps, Put(s, w, x), Register(w, t), Put(s, w, y));
  }

  /** The arrival and the three locked blocks. */
  lemma BlocksRecord(c: Config, s: System, w: nat, t: nat, p: Prefix, y: Node)
    requires Enabled(c, s, EofArrives(w, t, p)) && AcceptsEof(s.nodes[w].worker)
    requires y == RegisterAt(c, RegisterAt(c, RegisterAt(c, EofAt(s.nodes[w], t, p), t), t), t)
    ensures Leads(c, s, EofSteps(w, t, p)[..4], Put(s, w, y))
  {
    hide Leads, AddEof, InitCount, AddTotal, Activated;
    var one := EofAt(s.nodes[w], t, p);
    var two := RegisterAt(c, one, t);
    var three := RegisterAt(c, two, t);
    var steps := [] + [EofArrives(w, t, p)];
    LeadsNowhere(c, s);
    LeadsOn(c, s, [], s, EofArrives(w, t, p), Put(s, w, one));
    OwnBlock(c, s, w, t, steps, one, two);
    OwnBlock(c, s, w, t, steps + [Register(w, t)], two, three);
    OwnBlock(c, s, w, t, steps + [Register(w, t)] + [Register(w, t)], three, y);
    assert EofSteps(w, t, p)[..4] == steps + [Register(w, t)] + [Register(w, t)] + [Register(w, t)];
  }

  lemma BlocksRegister(c: Config, s: System, w: nat, t: nat, p: Prefix)
    requires Enabled(c, s, EofArrives(w, t, p)) && AcceptsEof(s.nodes[w].worker)
    ensures Leads(c, s, EofSteps(w, t, p)[..|EofSteps(w, t, p)| - 1], RegisteredSystem(c, s, w, t, p))
  {
    hide Leads, AddEof, InitCount, AddTotal, Activated;
    var x := s.nodes[w];
    var four := RegisterAt(c, RegisterAt(c, RegisterAt(c, EofAt(x, t, p), t), t), t);
    var steps := EofSteps(w, t, p)[..4];
    BlocksRecord(c, s, w, t, p, four);
    if t == 0 {
      assert four.pcs == x.pcs[t := Checking(p)];
      assert EofSteps(w, t, p)[..|EofSteps(w, t, p)| - 1] == steps;
    } else {
      var five := RegisterAt(c, four, t);
      assert five.pcs == x.pcs[t := Checking(p)];
      assert Put(Put(s, w, four), w, five) == Put(s, w, five);
      LeadsOn(c, s, steps, Put(s, w, four), Register(w, t), RegisteredSystem(c, s, w, t, p));
      assert EofSteps(w, t, p)[..|EofSteps(w, t, p)| - 1] == steps + [Register(w, t)];
    }
  }

  lemma LeadsNowhere(c: Config, s: System)
    ensures Leads(c, s, [], s)
  {
  }

  /** After the check. */
  function CheckedSystem(c: Config, s: System, w: nat, t: nat, starts: bool): System
    requires w < |s.nodes| && t < |s.nodes[w].pcs|
  {
    var x := s.nodes[w];
    var moved := Put(s, w, x.(worker := CheckStart(x.worker, |c.fluxes|), pcs := x.pcs[t := Idle]));
    if starts then moved.(opening := Snapshotting(t), history := s.history.(starts := s.history.starts + 1)) else moved
  }

  lemma CheckRuns(c: Config, s: System, w: nat, t: nat, p: Prefix, steps: seq<Step>, mid: System, starts: bool)
    requires Leads(c, s, steps, mid) && w < |mid.nodes| && t < |mid.nodes[w].pcs| && mid.nodes[w].pcs[t] == Checking(p)
    requires starts == (w == 0 && StartsConsensus(mid.nodes[w].worker, |c.fluxes|))
    ensures Leads(c, s, steps + [Register(w, t)], CheckedSystem(c, mid, w, t, starts))
  {
    LeadsOn(c, s, steps, mid, Register(w, t), CheckedSystem(c, mid, w, t, starts));
  }

  /** The leader opens the round at once. */
  lemma RoundOpens(c: Config, s: System, steps: seq<Step>, mid: System)
    requires Leads(c, s, steps, mid) && mid.nodes != [] && mid.opening.Snapshotting?
    ensures Leads(c, s, steps + RoundSteps(true), ApplyRequest(ApplySnapshot(mid)))
  {
    hide Runs, After, AllProcessed;
    LeadsOn(c, s, steps, mid, LeaderSnapshot, ApplySnapshot(mid));
    LeadsOn(c, s, steps + [LeaderSnapshot], ApplySnapshot(mid), LeaderRequest, ApplyRequest(ApplySnapshot(mid)));
    assert steps + [LeaderSnapshot] + [LeaderRequest] == steps + RoundSteps(true);
  }

  /** The worker w has the given records again, and the others were told no more than this. */
  ghost predicate Handled(s: System, w: nat, worker: Worker, copies: set<Prefix>, asked: seq<ToWorker>, r: System)
    requires w < |s.nodes|
  {
    && |r.nodes| == |s.nodes|
    && r.nodes[w].worker == worker && r.nodes[w].pcs == s.nodes[w].pcs
    && (forall i :: 0 <= i < |s.nodes| && i != w ==>
          && r.nodes[i].worker == s.nodes[i].worker
          && r.nodes[i].copies == s.nodes[i].copies + copies
          && r.nodes[i].down == s.nodes[i].down + asked)
  }

  lemma CheckedHandled(c: Config, s: System, w: nat, t: nat, p: Prefix, registered: Worker, starts: bool)
    requires w < |s.nodes| && t < |s.nodes[w].pcs| && s.nodes[w].pcs[t] == Idle
    requires registered == AddTotal(InitCount(AddEof(Activated(s.nodes[w].worker), p), p), p, c.announced[p])
    ensures var r := CheckedSystem(c, RegisteredSystem(c, s, w, t, p), w, t, starts);
            Handled(s, w, CheckStart(registered, |c.fluxes|), if t == 0 then {} else {p}, [], r)
  {
    hide AddEof, InitCount, AddTotal, Activated, CheckStart;
    assert s.nodes[w].pcs[t := Checking(p)][t := Idle] == s.nodes[w].pcs;
    assert forall i :: 0 <= i < |s.nodes| ==> s.nodes[i].down + [] == s.nodes[i].down;
  }

  lemma OpenedHandled(c: Config, s: System, worker: Worker, copies: set<Prefix>, mid: System)
    requires s.nodes != [] && Handled(s, 0, worker, copies, [], mid) && mid.opening.Snapshotting?
    ensures Handled(s, 0, MarkRequestSent(SnapshotOwn(worker, 0)), copies, [Request(worker.eofs)],
                    ApplyRequest(ApplySnapshot(mid)))
  {
    hide AllProcessed;
  }

  /**
   An EOF that is refused changes nothing. One that is accepted, when its steps
   run without interruption, leaves what Controller.OnInputEof and OnEofCopy
   ensure: the worker's records, a copy for every other worker if it came on an
   input thread, and a request to them if the check started consensus.
   */
  lemma EofStepsAreTheHandler(c: Config, s: System, w: nat, t: nat, p: Prefix, ctrl: EofController.Controller)
    requires Enabled(c, s, EofArrives(w, t, p)) && ctrl.id == w && ctrl.quantity == |c.fluxes|
    ensures !AcceptsEof(s.nodes[w].worker) ==> Apply(c, s, EofArrives(w, t, p)) == s
    ensures var registered := ctrl.Registered(s.nodes[w].worker, p, c.announced[p]);
            var starts := w == 0 && StartsConsensus(registered, |c.fluxes|);
            var steps := EofSteps(w, t, p) + RoundSteps(starts);
            AcceptsEof(s.nodes[w].worker) ==>
              && Runs(c, s, steps)
              && After(c, s, steps).opening == (if starts then NotOpening else s.opening)
              && Handled(s, w, ctrl.Checked(registered), if t == 0 then {} else {p},
                         if starts then [Request(registered.eofs)] else [], After(c, s, steps))
  {
    hide Runs, After, AllProcessed, Handled, AddEof, InitCount, AddTotal, Activated;
    if AcceptsEof(s.nodes[w].worker) {
      var blocks := EofSteps(w, t, p)[..|EofSteps(w, t, p)| - 1];
      var registered := ctrl.Registered(s.nodes[w].worker, p, c.announced[p]);
      var starts := w == 0 && StartsConsensus(registered, |c.fluxes|);
      var mid := CheckedSystem(c, RegisteredSystem(c, s, w, t, p), w, t, starts);
      BlocksRegister(c, s, w, t, p);
      CheckRuns(c, s, w, t, p, blocks, RegisteredSystem(c, s, w, t, p), starts);
      assert blocks + [Register(w, t)] == EofSteps(w, t, p);
      CheckedHandled(c, s, w, t, p, registered, starts);
      if starts {
        RoundOpens(c, s, EofSteps(w, t, p), mid);
        OpenedHandled(c, s, CheckStart(registered, |c.fluxes|), if t == 0 then {} else {p}, mid);
      } else {
        assert EofSteps(w, t, p) + RoundSteps(false) == EofSteps(w, t, p);
      }
    } else {
      assert s.nodes[w := s.nodes[w]] == s.nodes;
    }
  }
}
