/** No control message is lost, every covered round ends, and some control step stays enabled. */
module EofLiveness {
  import opened Sums
  import opened EofStates
  import opened EofWorker
  import opened EofProtocol
  import opened EofInvariants
  import opened EofReception
  import opened EofSoundness
  import opened EofControlSteps
  import opened EofDecisionSteps
  import opened EofPostSteps
  import opened EofRuns

  // ----- Where a worker's part of the round is -----

  function Count(b: bool): nat {
    if b then 1 else 0
  }

  lemma OnePlace(c: Config, v: View, w: nat, x: Node)
    requires Tied(c, v, w, x) && w > 0 && v.state == RequestSent
    ensures Count(Request(c.fluxes) in x.down) + Count(exists m :: m in x.up && m.Response?) + Count(w in v.recorded) == 1
    ensures forall m :: m in x.up ==> m.Response? && m.counts.Keys == c.fluxes
  {
  }

  /**
   While the leader waits, each other worker is in exactly one of three places,
   and its response, if it is on its way, carries every expected prefix.
   */
  lemma ExactlyOnePlace(c: Config, s: System, w: nat)
    requires Reachable(c, s) && 0 < w < |s.nodes| && s.nodes[0].worker.state == RequestSent
    ensures Count(Request(c.fluxes) in s.nodes[w].down)
          + Count(exists m :: m in s.nodes[w].up && m.Response?)
          + Count(w in s.history.recorded) == 1
    ensures forall m :: m in s.nodes[w].up ==> m.Response? && m.counts.Keys == c.fluxes
  {
    ReachableInv(c, s);
    TiedAt(c, s, w);
    OnePlace(c, ViewOf(s), w, s.nodes[w]);
  }

  /** The state guards never refuse a control message. */
  lemma NothingRefused(c: Config, s: System, step: Step)
    requires Reachable(c, s) && Enabled(c, s, step)
    ensures step.LeaderGetsResponse? ==> ValidTransition(s.nodes[0].worker.state, ResponseSent)
    ensures step.LeaderGetsPost? ==> ValidTransition(s.nodes[0].worker.state, FinishEnabled)
    ensures step.ReceivesOk? ==> ValidTransition(s.nodes[step.w].worker.state, ConsensusAchieved)
    ensures step.ReceivesFail? ==> ValidTransition(s.nodes[step.w].worker.state, PendingEof)
  {
    ReachableInv(c, s);
    match step
    case LeaderGetsResponse(w) => ResponseExpected(c, s, w);
    case LeaderGetsPost(w) => PostExpected(c, s, w);
    case ReceivesOk(w) =>
      InvAt(c, s, w);
      OkNode(c, ViewOf(s), w, s.nodes[w]);
    case ReceivesFail(w) =>
      InvAt(c, s, w);
      FailNode(c, ViewOf(s), w, s.nodes[w]);
    case _ =>
  }

  // ----- When a round can end -----

  /** The leader's own snapshot of this round covers every expected prefix. */
  predicate Covered(c: Config, s: System) {
    s.history.snapshotKeys == c.fluxes
  }

  ghost predicate EveryoneRecorded(c: Config, recorded: set<nat>) {
    forall i :: 0 < i < c.n ==> i in recorded
  }

  /** All partials are in exactly if everyone answered and the leader's snapshot is covered. */
  lemma CompleteExactly(c: Config, s: System)
    requires Inv(c, s) && s.nodes[0].worker.state == RequestSent
    ensures HaveAllPartials(s.nodes[0].worker, c.n) <==> EveryoneRecorded(c, s.history.recorded) && Covered(c, s)
  {
    if HaveAllPartials(s.nodes[0].worker, c.n) {
      AllRecorded(c, s);
    }
    if EveryoneRecorded(c, s.history.recorded) && Covered(c, s) {
      InvAt(c, s, 0);
      CoveredMeansComplete(c, s.nodes[0].worker, ViewOf(s), s.opening, s.history);
    }
  }

  lemma CoveredMeansComplete(c: Config, w: Worker, v: View, opening: Opening, h: History)
    requires PartialsShape(c, v, opening, h) && v.collecting && v.partials == w.partials && w.eofs == c.fluxes
    requires EveryoneRecorded(c, h.recorded) && h.snapshotKeys == c.fluxes && c.n > 0
    ensures HaveAllPartials(w, c.n)
  {
    forall p | p in c.fluxes
      ensures p in w.partials && w.partials[p].Keys == Ids(c.n)
    {
      assert Has(w.partials, p, 0);
      forall i: nat | i < c.n
        ensures i in w.partials[p]
      {
        assert i == 0 || i in h.recorded;
        assert Has(w.partials, p, i);
      }
      assert forall i :: i in w.partials[p] ==> Has(w.partials, p, i);
    }
  }

  /** What the leader does with the last response, seen from the recorded state. */
  lemma DecidesExactlyIfComplete(c: Config, s: System, w: nat, t: System, r: System)
    requires 0 < w < |s.nodes| && s.nodes[w].up != [] && s.nodes[w].up[0].Response?
    requires s.nodes[0].worker.state == RequestSent && t == Stored(s, w) && r == ApplyResponse(c, s, w)
    ensures t.nodes[0].worker.state == RequestSent && t.history.snapshotKeys == s.history.snapshotKeys
    ensures t.history.recorded == s.history.recorded + {w}
    ensures r.nodes != []
    ensures HaveAllPartials(t.nodes[0].worker, c.n) ==>
              r.nodes[0].worker.state == (if TotalsAgree(t.nodes[0].worker, c.auxiliary) then ConsensusAchieved else PendingEof)
    ensures !HaveAllPartials(t.nodes[0].worker, c.n) ==> r == t
  {
    hide HaveAllPartials, TotalsAgree, TotalsKnown, SnapshotsComplete;
    assert t.nodes[0].worker == RecordPartials(s.nodes[0].worker, w, s.nodes[w].up[0].counts);
  }

  /** The last response ends the round, in OK or in FAIL, exactly if the leader's snapshot was covered. */
  lemma RoundEndsExactlyIfCovered(c: Config, s: System, w: nat)
    requires Reachable(c, s) && Enabled(c, s, LeaderGetsResponse(w))
    requires EveryoneRecorded(c, s.history.recorded + {w})
    ensures var r := Apply(c, s, LeaderGetsResponse(w));
            && r.nodes != []
            && (Covered(c, s) ==> r.nodes[0].worker.state == ConsensusAchieved || r.nodes[0].worker.state == PendingEof)
            && (!Covered(c, s) ==> r.nodes[0].worker.state == RequestSent)
  {
    ReachableInv(c, s);
    ResponseEnds(c, s, w, Stored(s, w), ApplyResponse(c, s, w));
  }

  lemma ResponseEnds(c: Config, s: System, w: nat, t: System, r: System)
    requires Inv(c, s) && 0 < w < c.n && s.nodes[w].up != [] && s.nodes[w].up[0].Response?
    requires t == Stored(s, w) && r == ApplyResponse(c, s, w)
    ensures r.nodes != [] && Inv(c, t) && t.nodes[0].worker.state == RequestSent
    ensures EveryoneRecorded(c, s.history.recorded + {w}) && Covered(c, s) ==>
              r.nodes[0].worker.state == ConsensusAchieved || r.nodes[0].worker.state == PendingEof
    ensures !Covered(c, s) || !EveryoneRecorded(c, s.history.recorded + {w}) ==>
              r == t && !HaveAllPartials(t.nodes[0].worker, c.n)
  {
    ResponseExpected(c, s, w);
    DecidesExactlyIfComplete(c, s, w, t, r);
    StoredKeeps(c, s, w, t);
    CompleteExactly(c, t);
  }

  /** While the leader waits, only responses change what it decides on. */
  ghost predicate SameRound(s: System, r: System) {
    && s.nodes != [] && r.nodes != []
    && r.nodes[0].worker.state == s.nodes[0].worker.state && r.nodes[0].worker.partials == s.nodes[0].worker.partials
    && r.history.snapshotKeys == s.history.snapshotKeys && r.history.recorded == s.history.recorded
  }

  lemma NodeKeepsRound(s: System, w: nat, y: Node, r: System)
    requires w < |s.nodes| && r.nodes == s.nodes[w := y] && r.history == s.history
    requires w == 0 ==> y.worker.state == s.nodes[0].worker.state && y.worker.partials == s.nodes[0].worker.partials
    ensures SameRound(s, r)
  {
  }

  lemma DataKeepsRound(c: Config, s: System, step: Step, r: System)
    requires Enabled(c, s, step) && r == Apply(c, s, step) && s.nodes[0].worker.state == RequestSent
    requires step.Take? || step.SendCounted? || step.ProcessedCounted? || step.EofArrives?
    ensures SameRound(s, r)
  {
    match step
    case Take(w, p) => NodeKeepsRound(s, w, TakeAt(c, s.nodes[w], p), r);
    case SendCounted(w, output) => NodeKeepsRound(s, w, SendAt(s.nodes[w], output), r);
    case ProcessedCounted(w, p) => NodeKeepsRound(s, w, ProcessedAt(s.nodes[w], p), r);
    case EofArrives(w, t, p) => NodeKeepsRound(s, w, EofAt(s.nodes[w], t, p), r);
  }

  lemma RegisterKeepsRound(c: Config, s: System, w: nat, t: nat)
    requires w < |s.nodes| && t < |s.nodes[w].pcs| && s.nodes[w].pcs[t] != Idle
    requires s.nodes[0].worker.state == RequestSent
    ensures SameRound(s, ApplyRegister(c, s, w, t))
  {
  }

  lemma WorkerKeepsRound(c: Config, s: System, step: Step)
    requires Enabled(c, s, step) && s.nodes[0].worker.state == RequestSent
    requires step.AnswersRequest? || step.ReceivesFail? || step.ReceivesOk? || step.SendsPost?
    ensures SameRound(s, Apply(c, s, step))
  {
  }

  lemma OtherStepsKeepRound(c: Config, s: System, step: Step)
    requires Inv(c, s) && Enabled(c, s, step) && s.nodes[0].worker.state == RequestSent && !step.LeaderGetsResponse?
    ensures SameRound(s, Apply(c, s, step))
  {
    InvAt(c, s, 0);
    if step.Take? || step.SendCounted? || step.ProcessedCounted? || step.EofArrives? {
      DataKeepsRound(c, s, step, Apply(c, s, step));
    } else if step.Register? {
      RegisterKeepsRound(c, s, step.w, step.t);
    } else if step.AnswersRequest? || step.ReceivesFail? || step.ReceivesOk? || step.SendsPost? {
      WorkerKeepsRound(c, s, step);
    } else if step.LeaderGetsPost? {
      PostExpected(c, s, step.w);
    }
  }

  /** No step leaves a round that is not covered: the leader waits for ever. */
  lemma UncoveredStaysStuck(c: Config, s: System, step: Step)
    requires Inv(c, s) && Enabled(c, s, step) && s.nodes[0].worker.state == RequestSent && !Covered(c, s)
    ensures var r := Apply(c, s, step);
            r.nodes != [] && r.nodes[0].worker.state == RequestSent && !Covered(c, r)
  {
    if step.LeaderGetsResponse? {
      ResponseEnds(c, s, step.w, Stored(s, step.w), ApplyResponse(c, s, step.w));
    } else {
      OtherStepsKeepRound(c, s, step);
    }
  }

  lemma {:induction false} UncoveredNeverEnds(c: Config, s: System, steps: seq<Step>)
    requires Inv(c, s) && Runs(c, s, steps) && s.nodes[0].worker.state == RequestSent && !Covered(c, s)
    ensures var r := After(c, s, steps);
            r.nodes != [] && r.nodes[0].worker.state == RequestSent && r.history.decision == Undecided && r.history.emitted == []
    decreases steps
  {
    if steps == [] {
      InvAt(c, s, 0);
    } else {
      var r := Apply(c, s, steps[0]);
      UncoveredStaysStuck(c, s, steps[0]);
      StepKeeps(c, s, steps[0], r);
      UncoveredNeverEnds(c, r, steps[1..]);
    }
  }

  // ----- Progress -----

  /** A leader that waits still misses something. */
  ghost predicate Waiting(c: Config, s: System) {
    s.nodes != [] && (s.nodes[0].worker.state == RequestSent ==> !EveryoneRecorded(c, s.history.recorded) || !Covered(c, s))
  }

  lemma StepKeepsWaiting(c: Config, s: System, step: Step, r: System)
    requires Inv(c, s) && Inv(c, r) && Waiting(c, s) && Enabled(c, s, step) && r == Apply(c, s, step)
    ensures Waiting(c, r)
  {
    if s.nodes[0].worker.state == RequestSent {
      if step.LeaderGetsResponse? {
        ResponseEnds(c, s, step.w, Stored(s, step.w), r);
        if r.nodes[0].worker.state == RequestSent {
          CompleteExactly(c, r);
        }
      } else {
        OtherStepsKeepRound(c, s, step);
      }
    } else if r.nodes[0].worker.state == RequestSent {
      OnlyARequestWaits(c, s, step, r);
      assert s.history.recorded == {};
      assert 1 < c.n;
    }
  }

  /** The leader is not waiting for responses. */
  predicate NotWaiting(s: System) {
    s.nodes != [] && s.nodes[0].worker.state != RequestSent
  }

  lemma DataNeverWaits(c: Config, s: System, step: Step)
    requires Enabled(c, s, step) && NotWaiting(s)
    requires step.Take? || step.SendCounted? || step.ProcessedCounted? || step.EofArrives?
    ensures NotWaiting(Apply(c, s, step))
  {
  }

  lemma RegisterNeverWaits(c: Config, s: System, w: nat, t: nat)
    requires w < |s.nodes| && t < |s.nodes[w].pcs| && s.nodes[w].pcs[t] != Idle && NotWaiting(s)
    ensures NotWaiting(ApplyRegister(c, s, w, t))
  {
  }

  lemma WorkerNeverWaits(c: Config, s: System, step: Step)
    requires Enabled(c, s, step) && NotWaiting(s)
    requires step.AnswersRequest? || step.ReceivesFail? || step.ReceivesOk? || step.SendsPost?
    ensures NotWaiting(Apply(c, s, step))
  {
  }

  lemma PostNeverWaits(c: Config, s: System, w: nat, sends: Counts)
    requires NotWaiting(s)
    ensures NotWaiting(ApplyPost(c, s, w, sends))
  {
  }

  /** The only step into RequestSent at the leader is its own request. */
  lemma OnlyARequestWaits(c: Config, s: System, step: Step, r: System)
    requires Inv(c, s) && Enabled(c, s, step) && r == Apply(c, s, step)
    requires s.nodes[0].worker.state != RequestSent && r.nodes != [] && r.nodes[0].worker.state == RequestSent
    ensures step == LeaderRequest && r.history == s.history
  {
    if step.Take? || step.SendCounted? || step.ProcessedCounted? || step.EofArrives? {
      DataNeverWaits(c, s, step);
    } else if step.Register? {
      RegisterNeverWaits(c, s, step.w, step.t);
    } else if step.AnswersRequest? || step.ReceivesFail? || step.ReceivesOk? || step.SendsPost? {
      WorkerNeverWaits(c, s, step);
    } else if step.LeaderGetsResponse? {
      ResponseExpected(c, s, step.w);
    } else if step.LeaderGetsPost? {
      PostNeverWaits(c, Put(s, step.w, s.nodes[step.w].(up := s.nodes[step.w].up[1..])), step.w, s.nodes[step.w].up[0].sends);
    } else if step.LeaderOwnPost? {
      PostNeverWaits(c, Put(s, 0, s.nodes[0].(callback := false)), 0, s.nodes[0].worker.sent);
    }
  }

  lemma {:induction false} RunKeepsWaiting(c: Config, s: System, steps: seq<Step>)
    requires Inv(c, s) && Waiting(c, s) && Runs(c, s, steps)
    ensures Waiting(c, After(c, s, steps))
    decreases steps
  {
    if steps != [] {
      var r := Apply(c, s, steps[0]);
      StepKeeps(c, s, steps[0], r);
      StepKeepsWaiting(c, s, steps[0], r);
      RunKeepsWaiting(c, r, steps[1..]);
    }
  }

  lemma ReachableWaits(c: Config, s: System)
    requires Reachable(c, s)
    ensures Inv(c, s) && Waiting(c, s)
  {
    ReachableInv(c, s);
    InitHolds(c);
    var steps :| Runs(c, Init(c), steps) && s == After(c, Init(c), steps);
    RunKeepsWaiting(c, Init(c), steps);
  }

  /** Steps of the control plane: registrations under way, and everything about consensus. */
  predicate Control(step: Step) {
    !step.Take? && !step.SendCounted? && !step.ProcessedCounted? && !step.EofArrives?
  }

  /** The control step that w, or the leader about w, can take. */
  lemma WorkerCanMove(c: Config, s: System, w: nat) returns (step: Step)
    requires Inv(c, s) && 0 < w < c.n && Free(s, 0) && s.nodes[w].pcs[0] == Idle
    requires s.nodes[w].down != [] || s.nodes[w].up != [] || s.nodes[w].callback
    ensures Control(step) && Enabled(c, s, step)
  {
    InvAt(c, s, w);
    var x := s.nodes[w];
    if x.callback {
      step := SendsPost(w);
    } else if x.down != [] {
      step := match x.down[0]
        case Request(_) => AnswersRequest(w)
        case ConsensusOk => ReceivesOk(w)
        case ConsensusFail => ReceivesFail(w);
    } else {
      step := match x.up[0]
        case Response(_) => LeaderGetsResponse(w)
        case Post(_) => LeaderGetsPost(w);
    }
  }

  /** A worker whose response or report is missing has something to do. */
  lemma MissingCanMove(c: Config, v: View, i: nat, x: Node)
    requires Link(c, v, i, x)
    requires (v.state == RequestSent && i !in v.recorded) || (v.state == ConsensusAchieved && i !in v.posts)
    ensures x.down != [] || x.up != [] || x.callback
  {
  }

  lemma MissingId(n: nat, posts: set<nat>) returns (w: nat)
    requires posts <= Ids(n) && posts != Ids(n)
    ensures w < n && w !in posts
  {
    assert posts + (Ids(n) - posts) == Ids(n);
    w :| w in Ids(n) - posts;
  }

  /** Someone other than the leader is not done yet. */
  lemma SomeoneToMove(c: Config, s: System) returns (w: nat)
    requires Inv(c, s) && Waiting(c, s) && !s.nodes[0].callback
    requires (s.nodes[0].worker.state == RequestSent && Covered(c, s)) || s.nodes[0].worker.state == ConsensusAchieved
    ensures 0 < w < c.n && (s.nodes[w].down != [] || s.nodes[w].up != [] || s.nodes[w].callback)
  {
    InvAt(c, s, 0);
    if s.nodes[0].worker.state == RequestSent {
      w :| 0 < w < c.n && w !in s.history.recorded;
    } else {
      w := MissingId(c.n, s.nodes[0].worker.posts);
    }
    InvAt(c, s, w);
    MissingCanMove(c, ViewOf(s), w, s.nodes[w]);
  }

  lemma ThreadsAt(c: Config, s: System, w: nat)
    requires Inv(c, s) && w < c.n
    ensures |s.nodes[w].pcs| == c.threads > 0
  {
    InvAt(c, s, w);
  }

  lemma NextControlStep(c: Config, s: System) returns (step: Step)
    requires Inv(c, s) && Waiting(c, s)
    requires Started(s.nodes[0].worker.state) && s.nodes[0].worker.state != FinishEnabled
    requires s.nodes[0].worker.state == RequestSent ==> Covered(c, s)
    ensures Control(step) && Enabled(c, s, step)
  {
    hide Local, Tied, PartialsShape, WorkConserved, DecisionOk, Waiting, Covered;
    InvAt(c, s, 0);
    if w, t :| 0 <= w < |s.nodes| && 0 <= t < |s.nodes[w].pcs| && s.nodes[w].pcs[t] != Idle {
      step := Register(w, t);
    } else if s.opening.Snapshotting? {
      step := LeaderSnapshot;
    } else if s.opening.Requesting? {
      step := LeaderRequest;
    } else if s.nodes[0].callback {
      step := LeaderOwnPost;
    } else {
      var w := SomeoneToMove(c, s);
      ThreadsAt(c, s, w);
      ThreadsAt(c, s, 0);
      step := WorkerCanMove(c, s, w);
    }
  }

  /**
   From the start of consensus until the leader finishes some control step is
   enabled, unless the leader waits in a round that its snapshot does not cover.
   */
  lemma ControlProgress(c: Config, s: System)
    requires Reachable(c, s) && s.nodes != []
    requires Started(s.nodes[0].worker.state) && s.nodes[0].worker.state != FinishEnabled
    requires s.nodes[0].worker.state == RequestSent ==> Covered(c, s)
    ensures exists step :: Control(step) && Enabled(c, s, step)
  {
    ReachableWaits(c, s);
    var step := NextControlStep(c, s);
  }

  // ----- Completeness -----

  ghost predicate AllLate(nodes: seq<Node>) {
    forall i :: 0 <= i < |nodes| ==> nodes[i].past.late
  }

  /** If every stored partial was taken after all processing, the partials are complete. */
  lemma LatePartialsComplete(c: Config, s: System)
    requires Inv(c, s) && s.nodes[0].worker.state == RequestSent && AllLate(s.nodes)
    requires EveryoneRecorded(c, s.history.recorded)
    ensures SnapshotsComplete(c, s.nodes[0].worker.partials)
  {
    var m := s.nodes[0].worker.partials;
    InvAt(c, s, 0);
    assert AllProcessed(s);
    forall i: nat, p | i < c.n && p in c.fluxes
      ensures GetById(m, p, i) == s.nodes[i].past.counted[p]
    {
      InvAt(c, s, i);
      assert PartialOk(c, ViewOf(s), i, s.nodes[i]);
    }
    forall i | 0 <= i < c.n
      ensures PacketsOk(c, s.nodes[i])
    {
      InvAt(c, s, i);
    }
    FinalMeansComplete(c, s, m);
  }

  lemma WorkFluxComplete(c: Config, s: System, m: CountsById, p: Prefix)
    requires |s.nodes| == c.n && WorkConserved(c, s) && AllProcessed(s) && p in c.fluxes && !Broadcast(c, p)
    requires forall i: nat :: i < c.n ==> GetById(m, p, i) == s.nodes[i].past.counted[p]
    ensures Sum(Ids(c.n), (i: nat) => GetById(m, p, i)) == c.announced[p]
  {
    SumSame(Ids(c.n), (i: nat) => GetById(m, p, i), (i: nat) => Load(s.nodes, i, p));
  }

  lemma FinalMeansComplete(c: Config, s: System, m: CountsById)
    requires |s.nodes| == c.n && WorkConserved(c, s) && AllProcessed(s)
    requires forall i :: 0 <= i < c.n ==> PacketsOk(c, s.nodes[i])
    requires forall i: nat, p :: i < c.n && p in c.fluxes ==> GetById(m, p, i) == s.nodes[i].past.counted[p]
    ensures SnapshotsComplete(c, m)
  {
    forall p | p in c.fluxes
      ensures if Broadcast(c, p) then forall i: nat :: i < c.n ==> GetById(m, p, i) == c.announced[p]
              else Sum(Ids(c.n), (i: nat) => GetById(m, p, i)) == c.announced[p]
    {
      if Broadcast(c, p) {
        forall i: nat | i < c.n
          ensures GetById(m, p, i) == c.announced[p]
        {
          assert PacketsOk(c, s.nodes[i]);
          assert s.nodes[i].own == multiset{};
        }
      } else {
        WorkFluxComplete(c, s, m, p);
      }
    }
  }

  /** Complete partials of late snapshots agree with totals that are known. */
  lemma LatePartialsAgree(c: Config, t: System)
    requires Inv(c, t) && t.nodes[0].worker.state == RequestSent && AllLate(t.nodes)
    requires EveryoneRecorded(c, t.history.recorded) && Covered(c, t) && TotalsKnown(c, t.nodes[0].worker.totals)
    ensures HaveAllPartials(t.nodes[0].worker, c.n) && TotalsAgree(t.nodes[0].worker, c.auxiliary)
  {
    hide TotalsAgree, SnapshotsComplete, HaveAllPartials, TotalsKnown, Tied, PartialsShape, WorkConserved, DecisionOk;
    CompleteExactly(c, t);
    LatePartialsComplete(c, t);
    InvAt(c, t, 0);
    CompleteMeansAgreement(c, t.nodes[0].worker);
  }

  /** The last response in a late round, seen from the recorded state. */
  lemma LateResponse(c: Config, s: System, w: nat, t: System)
    requires Inv(c, s) && 0 < w < c.n && s.nodes[w].up != [] && s.nodes[w].up[0].Response? && t == Stored(s, w)
    requires EveryoneRecorded(c, s.history.recorded + {w}) && Covered(c, s)
    requires AllLate(s.nodes) && TotalsKnown(c, s.nodes[0].worker.totals)
    ensures s.nodes[0].worker.state == RequestSent && t.nodes != []
    ensures HaveAllPartials(t.nodes[0].worker, c.n) && TotalsAgree(t.nodes[0].worker, c.auxiliary)
  {
    hide TotalsAgree, HaveAllPartials, TotalsKnown, Local, Tied, LeaderOk, PartialsShape, WorkConserved, DecisionOk;
    ResponseExpected(c, s, w);
    StoredKeeps(c, s, w, t);
    DecidesExactlyIfComplete(c, s, w, t, ApplyResponse(c, s, w));
    StoredLate(s, w, t);
    LatePartialsAgree(c, t);
  }

  lemma LateResponseAgrees(c: Config, s: System, w: nat, r: System)
    requires Inv(c, s) && 0 < w < c.n && s.nodes[w].up != [] && s.nodes[w].up[0].Response? && r == ApplyResponse(c, s, w)
    requires EveryoneRecorded(c, s.history.recorded + {w}) && Covered(c, s)
    requires AllLate(s.nodes) && TotalsKnown(c, s.nodes[0].worker.totals)
    ensures r.nodes != [] && r.nodes[0].worker.state == ConsensusAchieved
  {
    hide TotalsAgree, HaveAllPartials, TotalsKnown, Local, Tied, LeaderOk, PartialsShape, WorkConserved, DecisionOk;
    LateResponse(c, s, w, Stored(s, w));
    DecidesExactlyIfComplete(c, s, w, Stored(s, w), r);
  }

  /**
   A round whose snapshots were all taken after the last announced packet was
   processed, and whose totals are known, ends in OK. So a FAIL means that some
   packet was unprocessed at some worker's snapshot, or a total was missing.
   */
  lemma LateRoundSucceeds(c: Config, s: System, w: nat)
    requires Reachable(c, s) && Enabled(c, s, LeaderGetsResponse(w))
    requires EveryoneRecorded(c, s.history.recorded + {w}) && Covered(c, s)
    requires AllLate(s.nodes) && TotalsKnown(c, s.nodes[0].worker.totals)
    ensures var r := Apply(c, s, LeaderGetsResponse(w));
            r.nodes != [] && r.nodes[0].worker.state == ConsensusAchieved
  {
    hide Reachable, ApplyResponse, TotalsKnown, AllLate, EveryoneRecorded, Covered, Local, Tied, LeaderOk, PartialsShape,
         WorkConserved, DecisionOk;
    ReachableInv(c, s);
    LateResponseAgrees(c, s, w, ApplyResponse(c, s, w));
  }

  /** So a round that fails had a snapshot taken too early, or a total was missing. */
  lemma FailMeansUnprocessed(c: Config, s: System, w: nat)
    requires Reachable(c, s) && Enabled(c, s, LeaderGetsResponse(w))
    requires var r := Apply(c, s, LeaderGetsResponse(w)); r.nodes != [] && r.nodes[0].worker.state == PendingEof
    ensures !AllLate(s.nodes) || !TotalsKnown(c, s.nodes[0].worker.totals)
  {
    ReachableInv(c, s);
    ResponseExpected(c, s, w);
    ResponseEnds(c, s, w, Stored(s, w), ApplyResponse(c, s, w));
    if AllLate(s.nodes) && TotalsKnown(c, s.nodes[0].worker.totals) {
      LateRoundSucceeds(c, s, w);
    }
  }

  lemma StoredLate(s: System, w: nat, t: System)
    requires 0 < w < |s.nodes| && s.nodes[w].up != [] && s.nodes[w].up[0].Response? && t == Stored(s, w)
    ensures AllLate(s.nodes) ==> AllLate(t.nodes)
    ensures t.nodes[0].worker.totals == s.nodes[0].worker.totals
  {
  }
}
