/**
 The registration of an EOF takes three locked blocks, so the check that starts
 consensus can run between them. When it never does, consensus is sound and
 every round ends, with no further condition.
 */
module EofCleanRuns {
  import opened Sums
  import opened EofStates
  import opened EofWorker
  import opened EofProtocol
  import opened EofInvariants
  import opened EofReception
  import opened EofDecisionSteps
  import opened EofPostSteps
  import opened EofRuns
  import opened EofSafety
  import opened EofLiveness

  /** Every expected EOF is registered completely. */
  predicate Ready(c: Config, w: Worker) {
    c.fluxes <= w.totals.Keys && c.fluxes <= w.processed.Keys
  }

  /** The step is the check with which the leader starts consensus. */
  predicate Starts(c: Config, s: System, step: Step) {
    && s.nodes != [] && step.Register? && step.w == 0 && step.t < |s.nodes[0].pcs|
    && s.nodes[0].pcs[step.t].Checking? && StartsConsensus(s.nodes[0].worker, |c.fluxes|)
  }

  /** Consensus is only ever started with every expected EOF registered completely. */
  ghost predicate CleanRun(c: Config, s: System, steps: seq<Step>)
    requires Runs(c, s, steps)
    decreases steps
  {
    steps != [] ==>
      && (Starts(c, s, steps[0]) ==> Ready(c, s.nodes[0].worker))
      && CleanRun(c, Apply(c, s, steps[0]), steps[1..])
  }

  /** What a clean run keeps. */
  ghost predicate Clean(c: Config, s: System) {
    && s.nodes != []
    && (Started(s.nodes[0].worker.state) && Alive(s.nodes[0].worker.state) ==> Ready(c, s.nodes[0].worker))
    && (Collecting(s) ==> Covered(c, s))
    && (s.history.decision.Decided? ==> s.history.decision.totalsKnown)
  }

  // ----- Steps that only add to the leader's records -----

  predicate Grows(w: Worker, v: Worker) {
    && (v.state == w.state || !Started(v.state))
    && w.totals.Keys <= v.totals.Keys && w.processed.Keys <= v.processed.Keys
  }

  lemma NodeStepClean(c: Config, s: System, w: nat, y: Node, r: System)
    requires Clean(c, s) && w < |s.nodes| && r.nodes == s.nodes[w := y]
    requires r.history == s.history && r.opening == s.opening
    requires w == 0 ==> Grows(s.nodes[0].worker, y.worker)
    ensures Clean(c, r)
  {
  }

  lemma DataStepClean(c: Config, s: System, step: Step, r: System)
    requires Clean(c, s) && Enabled(c, s, step) && r == Apply(c, s, step)
    requires step.Take? || step.SendCounted? || step.ProcessedCounted? || step.EofArrives?
    ensures Clean(c, r)
  {
  }

  lemma WorkerStepClean(c: Config, s: System, step: Step, r: System)
    requires Clean(c, s) && Enabled(c, s, step) && r == Apply(c, s, step)
    requires step.AnswersRequest? || step.ReceivesFail? || step.ReceivesOk? || step.SendsPost?
    ensures Clean(c, r)
  {
  }

  lemma RegisterClean(c: Config, s: System, w: nat, t: nat, r: System)
    requires Clean(c, s) && w < |s.nodes| && t < |s.nodes[w].pcs| && s.nodes[w].pcs[t] != Idle
    requires r == ApplyRegister(c, s, w, t)
    requires Starts(c, s, Register(w, t)) ==> Ready(c, s.nodes[0].worker)
    ensures Clean(c, r)
  {
  }

  // ----- Steps of the leader -----

  lemma SnapshotClean(c: Config, s: System, r: System)
    requires Inv(c, s) && Clean(c, s) && s.opening.Snapshotting? && r == ApplySnapshot(s)
    ensures Clean(c, r)
  {
    InvAt(c, s, 0);
    assert s.nodes[0].worker.processed.Keys == c.fluxes;
  }

  lemma RequestClean(c: Config, s: System, r: System)
    requires Inv(c, s) && Clean(c, s) && s.opening.Requesting? && r == ApplyRequest(s)
    ensures Clean(c, r)
  {
    InvAt(c, s, 0);
  }

  lemma StoredClean(c: Config, s: System, w: nat, r: System)
    requires Clean(c, s) && 0 < w < |s.nodes| && s.nodes[w].up != [] && s.nodes[w].up[0].Response?
    requires r == Stored(s, w)
    ensures Clean(c, r)
  {
  }

  lemma AgreedClean(c: Config, s: System, r: System)
    requires Clean(c, s) && s.nodes[0].worker.state == RequestSent && s.opening == NotOpening && r == Agreed(c, s)
    ensures Clean(c, r)
  {
  }

  lemma FailedClean(c: Config, s: System, r: System)
    requires Clean(c, s) && s.nodes[0].worker.state == RequestSent && r == Failed(s)
    ensures Clean(c, r)
  {
  }

  lemma ResponseClean(c: Config, s: System, w: nat, r: System)
    requires Inv(c, s) && Clean(c, s) && 0 < w < c.n && s.nodes[w].up != [] && s.nodes[w].up[0].Response?
    requires r == ApplyResponse(c, s, w)
    ensures Clean(c, r)
  {
    var t := Stored(s, w);
    ResponseExpected(c, s, w);
    StoredKeeps(c, s, w, t);
    StoredClean(c, s, w, t);
    InvAt(c, t, 0);
    DecidesExactlyIfComplete(c, s, w, t, r);
    if HaveAllPartials(t.nodes[0].worker, c.n) {
      if TotalsAgree(t.nodes[0].worker, c.auxiliary) {
        AgreedClean(c, t, r);
      } else {
        FailedClean(c, t, r);
      }
    }
  }

  lemma PostClean(c: Config, s: System, w: nat, sends: Counts)
    requires Clean(c, s) && s.nodes[0].worker.state == ConsensusAchieved
    ensures Clean(c, ApplyPost(c, s, w, sends))
  {
  }

  lemma LeaderStepClean(c: Config, s: System, step: Step, r: System)
    requires Inv(c, s) && Clean(c, s) && Enabled(c, s, step) && r == Apply(c, s, step)
    requires step.LeaderSnapshot? || step.LeaderRequest? || step.LeaderGetsResponse?
             || step.LeaderOwnPost? || step.LeaderGetsPost?
    ensures Clean(c, r)
  {
    match step
    case LeaderSnapshot => SnapshotClean(c, s, r);
    case LeaderRequest => RequestClean(c, s, r);
    case LeaderGetsResponse(w) => ResponseClean(c, s, w, r);
    case LeaderOwnPost =>
      OwnPostExpected(c, s);
      NodeStepClean(c, s, 0, s.nodes[0].(callback := false), Put(s, 0, s.nodes[0].(callback := false)));
      PostClean(c, Put(s, 0, s.nodes[0].(callback := false)), 0, s.nodes[0].worker.sent);
    case LeaderGetsPost(w) =>
      PostExpected(c, s, w);
      var x := s.nodes[w].(up := s.nodes[w].up[1..]);
      NodeStepClean(c, s, w, x, Put(s, w, x));
      PostClean(c, Put(s, w, x), w, s.nodes[w].up[0].sends);
  }

  lemma StepClean(c: Config, s: System, step: Step, r: System)
    requires Inv(c, s) && Clean(c, s) && Enabled(c, s, step) && r == Apply(c, s, step)
    requires Starts(c, s, step) ==> Ready(c, s.nodes[0].worker)
    ensures Clean(c, r)
  {
    if step.Take? || step.SendCounted? || step.ProcessedCounted? || step.EofArrives? {
      DataStepClean(c, s, step, r);
    } else if step.Register? {
      RegisterClean(c, s, step.w, step.t, r);
    } else if step.AnswersRequest? || step.ReceivesFail? || step.ReceivesOk? || step.SendsPost? {
      WorkerStepClean(c, s, step, r);
    } else {
      LeaderStepClean(c, s, step, r);
    }
  }

  lemma {:induction false} CleanRunKeeps(c: Config, s: System, steps: seq<Step>)
    requires Inv(c, s) && Clean(c, s) && Runs(c, s, steps) && CleanRun(c, s, steps)
    ensures Clean(c, After(c, s, steps))
    decreases steps
  {
    if steps != [] {
      var r := Apply(c, s, steps[0]);
      StepKeeps(c, s, steps[0], r);
      StepClean(c, s, steps[0], r);
      CleanRunKeeps(c, r, steps[1..]);
    }
  }

  // ----- What clean runs guarantee -----

  lemma {:induction false} InitRunClean(c: Config, steps: seq<Step>)
    requires ValidConfig(c) && Runs(c, Init(c), steps) && CleanRun(c, Init(c), steps)
    ensures var s := After(c, Init(c), steps); Reachable(c, s) && Clean(c, s)
  {
    InitHolds(c);
    CleanRunKeeps(c, Init(c), steps);
  }

  /**
   After a clean run: if the leader decided OK every announced packet has been
   processed, the downstream EOF is exact, and until the leader is done some
   control step is enabled.
   */
  lemma CleanRunsAreCorrect(c: Config, steps: seq<Step>)
    requires ValidConfig(c) && Runs(c, Init(c), steps) && CleanRun(c, Init(c), steps)
    ensures var s := After(c, Init(c), steps);
            && s.nodes != []
            && (s.history.decision.Decided? ==> AllProcessed(s) && EveryPacketCounted(c, s.nodes))
            && (s.history.emitted != [] ==> ExactTotals(c, s.history.emitted[0], s.nodes))
            && (Started(s.nodes[0].worker.state) && s.nodes[0].worker.state != FinishEnabled ==>
                  exists step :: Control(step) && Enabled(c, s, step))
  {
    var s := After(c, Init(c), steps);
    InitRunClean(c, steps);
    if s.history.decision.Decided? {
      ConsensusSound(c, s);
    }
    if s.history.emitted != [] {
      DownstreamTotalsExact(c, s);
    }
    if Started(s.nodes[0].worker.state) && s.nodes[0].worker.state != FinishEnabled {
      ControlProgress(c, s);
    }
  }

  lemma SingleFluxReady(c: Config, s: System, step: Step)
    requires Inv(c, s) && |c.fluxes| == 1 && Starts(c, s, step)
    ensures Ready(c, s.nodes[0].worker)
  {
    InvAt(c, s, 0);
    var x := s.nodes[0];
    assert PcOk(x, x.pcs[step.t]);
    var p := x.pcs[step.t].p;
    assert p in c.fluxes;
    SubsetSameSize({p}, c.fluxes);
  }

  /** With a single upstream flux every run is clean: the checking thread has just registered it. */
  lemma {:induction false} SingleFluxIsClean(c: Config, s: System, steps: seq<Step>)
    requires Inv(c, s) && Runs(c, s, steps) && |c.fluxes| == 1
    ensures CleanRun(c, s, steps)
    decreases steps
  {
    if steps != [] {
      if Starts(c, s, steps[0]) {
        SingleFluxReady(c, s, steps[0]);
      }
      var r := Apply(c, s, steps[0]);
      StepKeeps(c, s, steps[0], r);
      SingleFluxIsClean(c, r, steps[1..]);
    }
  }
}
