/** The invariant holds in every reachable state of every run. */
module EofRuns {
  import opened EofProtocol
  import opened EofInvariants
  import opened EofDataSteps
  import opened EofReception
  import opened EofControlSteps
  import opened EofDecisionSteps
  import opened EofPostSteps

  lemma DataStepKeeps(c: Config, s: System, step: Step, r: System)
    requires Inv(c, s) && Enabled(c, s, step) && r == Apply(c, s, step)
    requires step.Take? || step.SendCounted? || step.ProcessedCounted? || step.EofArrives? || step.Register?
    ensures Inv(c, r)
  {
    match step
    case Take(w, p) => TakeKeeps(c, s, w, p);
    case SendCounted(w, o) => SendKeeps(c, s, w, o);
    case ProcessedCounted(w, p) => ProcessedKeeps(c, s, w, p);
    case EofArrives(w, t, p) =>
      InvAt(c, s, w);
      EofArrivesKeeps(c, s, w, t, p);
    case Register(w, t) =>
      InvAt(c, s, w);
      RegisterKeeps(c, s, w, t);
  }

  lemma WorkerStepKeeps(c: Config, s: System, step: Step, r: System)
    requires Inv(c, s) && Enabled(c, s, step) && r == Apply(c, s, step)
    requires step.AnswersRequest? || step.ReceivesFail? || step.ReceivesOk? || step.SendsPost?
    ensures Inv(c, r)
  {
    match step
    case AnswersRequest(w) => AnswersRequestKeeps(c, s, w, r);
    case ReceivesFail(w) => ReceivesFailKeeps(c, s, w, r);
    case ReceivesOk(w) => ReceivesOkKeeps(c, s, w, r);
    case SendsPost(w) => SendsPostKeeps(c, s, w, r);
  }

  lemma LeaderStepKeeps(c: Config, s: System, step: Step, r: System)
    requires Inv(c, s) && Enabled(c, s, step) && r == Apply(c, s, step)
    requires step.LeaderSnapshot? || step.LeaderRequest? || step.LeaderGetsResponse?
             || step.LeaderOwnPost? || step.LeaderGetsPost?
    ensures Inv(c, r)
  {
    match step
    case LeaderSnapshot => SnapshotKeeps(c, s, r);
    case LeaderRequest => RequestKeeps(c, s, r);
    case LeaderGetsResponse(w) => ResponseKeeps(c, s, w, r);
    case LeaderOwnPost => OwnPostKeeps(c, s, r);
    case LeaderGetsPost(w) => GetsPostKeeps(c, s, w, r);
  }

  lemma StepKeeps(c: Config, s: System, step: Step, r: System)
    requires Inv(c, s) && Enabled(c, s, step) && r == Apply(c, s, step)
    ensures Inv(c, r)
  {
    if step.Take? || step.SendCounted? || step.ProcessedCounted? || step.EofArrives? || step.Register? {
      DataStepKeeps(c, s, step, r);
    } else if step.AnswersRequest? || step.ReceivesFail? || step.ReceivesOk? || step.SendsPost? {
      WorkerStepKeeps(c, s, step, r);
    } else {
      LeaderStepKeeps(c, s, step, r);
    }
  }

  lemma {:induction false} RunKeeps(c: Config, s: System, steps: seq<Step>)
    requires Inv(c, s) && Runs(c, s, steps)
    ensures Inv(c, After(c, s, steps))
    decreases steps
  {
    if steps != [] {
      var r := Apply(c, s, steps[0]);
      StepKeeps(c, s, steps[0], r);
      RunKeeps(c, r, steps[1..]);
    }
  }

  /** The invariant holds in every state any run can reach. */
  lemma ReachableInv(c: Config, s: System)
    requires Reachable(c, s)
    ensures Inv(c, s)
  {
    InitHolds(c);
    var steps :| Runs(c, Init(c), steps) && s == After(c, Init(c), steps);
    RunKeeps(c, Init(c), steps);
  }

  // ----- One more step -----

  lemma RunsOne(c: Config, s: System, step: Step)
    requires Enabled(c, s, step)
    ensures Runs(c, s, [step]) && After(c, s, [step]) == Apply(c, s, step)
  {
  }

  lemma {:induction false} RunsExtend(c: Config, s: System, steps: seq<Step>, step: Step)
    requires Runs(c, s, steps) && Enabled(c, After(c, s, steps), step)
    ensures Runs(c, s, steps + [step])
    ensures After(c, s, steps + [step]) == Apply(c, After(c, s, steps), step)
    decreases steps
  {
    if steps == [] {
      RunsOne(c, s, step);
      assert steps + [step] == [step];
    } else {
      assert (steps + [step])[1..] == steps[1..] + [step];
      RunsExtend(c, Apply(c, s, steps[0]), steps[1..], step);
    }
  }
}
