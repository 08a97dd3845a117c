/** Stages that are linked: the conditions of the results about consecutive stages can be met. */
module EofLinkExample {
  import opened Sums
  import opened EofStates
  import opened EofWorker
  import opened EofProtocol
  import opened EofInvariants
  import opened EofSafety
  import opened EofCleanRuns
  import opened EofTermination
  import opened EofExample
  import opened EofPipeline

  lemma {:induction false} RunsJoin(s: System, first: seq<Step>, rest: seq<Step>)
    requires Runs(ONE, s, first) && Runs(ONE, After(ONE, s, first), rest)
    ensures Runs(ONE, s, first + rest) && After(ONE, s, first + rest) == After(ONE, After(ONE, s, first), rest)
    decreases first
  {
    hide Enabled, Apply;
    if first == [] {
      assert first + rest == rest;
    } else {
      assert (first + rest)[0] == first[0] && (first + rest)[1..] == first[1..] + rest;
      RunsJoin(Apply(ONE, s, first[0]), first[1..], rest);
    }
  }

  predicate SameSends(s: System, r: System) {
    |r.nodes| == |s.nodes| && forall i :: 0 <= i < |s.nodes| ==> r.nodes[i].past.sent == s.nodes[i].past.sent
  }

  lemma WorkerStepSendless(c: Config, s: System, step: Step)
    requires Enabled(c, s, step) && !step.SendCounted?
    requires step.Take? || step.ProcessedCounted? || step.EofArrives? || step.AnswersRequest?
             || step.ReceivesFail? || step.ReceivesOk? || step.SendsPost?
    ensures SameSends(s, Apply(c, s, step))
  {
    hide AllProcessed;
  }

  lemma RegisterSendless(c: Config, s: System, w: nat, t: nat)
    requires Enabled(c, s, Register(w, t))
    ensures SameSends(s, ApplyRegister(c, s, w, t))
  {
  }

  lemma ResponseSendless(c: Config, s: System, w: nat)
    requires Enabled(c, s, LeaderGetsResponse(w))
    ensures SameSends(s, ApplyResponse(c, s, w))
  {
    hide Decide, TotalsKnown, SnapshotsComplete, RecordPartials;
    if ValidTransition(s.nodes[0].worker.state, ResponseSent) {
      assert SameSends(s, Stored(s, w));
    }
  }

  lemma PostSendless(c: Config, s: System, step: Step)
    requires Enabled(c, s, step) && (step.LeaderOwnPost? || step.LeaderGetsPost?)
    ensures SameSends(s, Apply(c, s, step))
  {
    hide EofTotals, CollectPost, EmitsEof;
  }

  lemma StepSendless(c: Config, s: System, step: Step)
    requires Enabled(c, s, step) && !step.SendCounted?
    ensures SameSends(s, Apply(c, s, step))
  {
    hide SameSends, Enabled, ApplyRegister, ApplyResponse, ApplySnapshot, ApplyRequest, ApplyOwnPost, ApplyGetsPost, AllProcessed;
    match step
    case Register(w, t) => RegisterSendless(c, s, w, t);
    case LeaderSnapshot => OpeningSendless(c, s, step);
    case LeaderRequest => OpeningSendless(c, s, step);
    case LeaderGetsResponse(w) => ResponseSendless(c, s, w);
    case LeaderOwnPost => PostSendless(c, s, step);
    case LeaderGetsPost(_) => PostSendless(c, s, step);
    case _ => WorkerStepSendless(c, s, step);
  }

  lemma OpeningSendless(c: Config, s: System, step: Step)
    requires Enabled(c, s, step) && (step.LeaderSnapshot? || step.LeaderRequest?)
    ensures SameSends(s, Apply(c, s, step))
  {
    hide AllProcessed;
  }

  lemma {:induction false} RunSendless(s: System, steps: seq<Step>)
    requires Runs(ONE, s, steps) && Sendless(steps)
    ensures SameSends(s, After(ONE, s, steps))
    decreases steps
  {
    hide Enabled, Apply;
    if steps != [] {
      assert !steps[0].SendCounted?;
      StepSendless(ONE, s, steps[0]);
      RunSendless(Apply(ONE, s, steps[0]), steps[1..]);
    }
  }

  /** The completed stage, whose workers sent nothing. */
  lemma CompletedStage() returns (s: System)
    ensures SoundlyDecided(EofPipeline.Stage(ONE, s)) && s.history.emitted != []
    ensures |s.nodes| == 2 && forall i :: 0 <= i < 2 ==> s.nodes[i].past.sent == multiset{}
  {
    hide Enabled, Apply;
    StartLeads();
    var steps, started := StartedLeads();
    InitHolds(ONE);
    SingleFluxIsClean(ONE, Init(ONE), steps);
    EndOfDataCanBeReached(ONE, steps, started);
    var rest :| Runs(ONE, started, rest) && ControlOnly(rest) && |After(ONE, started, rest).history.emitted| == 1;
    s := After(ONE, started, rest);
    RunsJoin(Init(ONE), steps, rest);
    SingleFluxIsClean(ONE, Init(ONE), steps + rest);
    RunSendless(Init(ONE), steps);
    assert Sendless(rest);
    RunSendless(started, rest);
    EmittedMeansDecided(s);
    CleanDecisionsAreSound(ONE, steps + rest);
  }

  lemma EmittedMeansDecided(s: System)
    requires Reachable(ONE, s) && s.history.emitted != []
    ensures s.history.decision.Decided?
  {
    hide Reachable;
    DownstreamTotalsExact(ONE, s);
  }

  lemma NothingSent(s: System)
    requires SoundlyDecided(EofPipeline.Stage(ONE, s)) && s.history.emitted != []
    requires |s.nodes| == 2 && forall i :: 0 <= i < 2 ==> s.nodes[i].past.sent == multiset{}
    ensures SentBy(s.nodes, EofRace.P) == 0
    ensures var stage := EofPipeline.Stage(ONE, s); Linked(stage, EofRace.P, stage, EofRace.P)
  {
    hide Reachable;
    SumOfZeros(Ids(2), (i: nat) => SentAt(s.nodes, i, EofRace.P));
    DownstreamTotalsExact(ONE, s);
  }

  lemma NothingCounted(s: System)
    requires SoundlyDecided(EofPipeline.Stage(ONE, s)) && SentBy(s.nodes, EofRace.P) == 0 && |s.nodes| == 2
    requires var stage := EofPipeline.Stage(ONE, s); Linked(stage, EofRace.P, stage, EofRace.P)
    ensures forall i :: 0 <= i < 2 ==> s.nodes[i].past.counted[EofRace.P] == 0
  {
    hide Linked, SoundlyDecided, SentBy;
    var stage := EofPipeline.Stage(ONE, s);
    var none, counted := (i: nat) => 0, (i: nat) => CountedAt(s.nodes, i, EofRace.P);
    SendsAreProcessed(stage, EofRace.P, stage, EofRace.P);
    SumOfZeros(Ids(2), none);
    SumTight(Ids(2), none, counted);
    forall i | 0 <= i < 2
      ensures s.nodes[i].past.counted[EofRace.P] == 0
    {
      assert i in Ids(2) && counted(i) == none(i);
    }
  }

  /** A stage that can follow itself, as it announces and sends nothing. */
  lemma SomeStagesAreLinked()
    ensures exists up, output, down, flux, sent: seq<seq<(nat, int)>>, got: seq<seq<(nat, int)>> ::
              RoutedHop(up, output, down, flux, sent, got)
  {
    hide Linked, SoundlyDecided, SentBy;
    var s := CompletedStage();
    var stage := EofPipeline.Stage(ONE, s);
    NothingSent(s);
    NothingCounted(s);
    var none: seq<seq<(nat, int)>> := [[], []];
    assert RoutedHop(stage, EofRace.P, stage, EofRace.P, none, none);
  }
}
