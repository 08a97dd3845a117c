/**
 The supervisor that restarts containers whose heartbeats stop: two threads share
 the time of the last sign of life and the containers being restarted. A thread
 reads the clock before it takes the lock, so a reading may be old when it is used.
 */
module Recovery {

  /** Until when heartbeats of a container are ignored. */
  datatype Until = Forever | Until(time: real)

  datatype State = State(lastHeartbeat: map<string, real>, resetting: map<string, Until>)

  datatype Config = Config(timeout: real, grace: real)

  /** The grace period equals the heartbeat timeout. */
  predicate ValidConfig(c: Config) {
    c.timeout > 0.0 && c.grace == c.timeout
  }

  predicate Ignored(s: State, container: string, read: real) {
    container in s.resetting && (s.resetting[container].Forever? || read < s.resetting[container].time)
  }

  // ----- The four locked blocks -----

  function AfterHeartbeat(s: State, container: string, read: real): State {
    if container !in s.lastHeartbeat || Ignored(s, container, read) then s
    else State(s.lastHeartbeat[container := read], s.resetting - {container})
  }

  function Expired(s: State, read: real): set<string> {
    set c | c in s.lastHeartbeat && c in s.resetting && !Ignored(s, c, read)
  }

  function AfterCheck(s: State, read: real): State {
    s.(resetting := s.resetting - Expired(s, read))
  }

  function Overdue(c: Config, s: State, read: real): set<string> {
    set x | x in s.lastHeartbeat && !Ignored(s, x, read) && read - s.lastHeartbeat[x] > c.timeout
  }

  /** Whether a restart is committed: known, not being restarted, and silent for too long. */
  predicate Commits(c: Config, s: State, container: string, read: real) {
    && container in s.lastHeartbeat && container !in s.resetting
    && read - s.lastHeartbeat[container] > c.timeout
  }

  function AfterBegin(c: Config, s: State, container: string, read: real): State {
    if Commits(c, s, container, read) then s.(resetting := s.resetting[container := Forever]) else s
  }

  function AfterEnd(c: Config, s: State, container: string, read: real, restarted: bool): State {
    if restarted then
      State(s.lastHeartbeat[container := read], s.resetting[container := Until(read + c.grace)])
    else s.(resetting := s.resetting - {container})
  }

  class RecoveryNode {
    const config: Config
    var lastHeartbeat: map<string, real>
    var resetting: map<string, Until>

    function View(): State
      reads this
    {
      State(lastHeartbeat, resetting)
    }

    constructor (config: Config, containers: set<string>, now: real)
      ensures View() == State(map c | c in containers :: now, map[]) && this.config == config
    {
      this.config := config;
      lastHeartbeat := map c | c in containers :: now;
      resetting := map[];
    }

    method ProcessHeartbeat(container: string, read: real)
      modifies this
      ensures View() == AfterHeartbeat(old(View()), container, read)
    {
      if container !in lastHeartbeat {
        return;
      }
      if container in resetting {
        if resetting[container].Forever? || read < resetting[container].time {
          return;
        }
      }
      resetting := resetting - {container};
      lastHeartbeat := lastHeartbeat[container := read];
    }

    /** Ends every grace period that is over, and names the containers that are overdue. */
    method CheckHeartbeats(read: real) returns (overdue: set<string>)
      modifies `resetting
      ensures View() == AfterCheck(old(View()), read)
      ensures overdue == Overdue(config, old(View()), read)
    {
      overdue := {};
      ghost var before := View();
      var rest := lastHeartbeat.Keys;
      while rest != {}
        invariant rest <= lastHeartbeat.Keys
        invariant forall x :: x in resetting ==> x in before.resetting && resetting[x] == before.resetting[x]
        invariant forall x :: x in before.resetting ==> (x in resetting <==> x in rest || x !in Expired(before, read))
        invariant forall x :: x in overdue <==> x !in rest && x in Overdue(config, before, read)
        decreases |rest|
      {
        var c :| c in rest;
        rest := rest - {c};
        if c in resetting {
          if resetting[c].Forever? || read < resetting[c].time {
            continue;
          }
          resetting := resetting - {c};
        }
        if read - lastHeartbeat[c] > config.timeout {
          overdue := overdue + {c};
        }
      }
      assert resetting == before.resetting - Expired(before, read);
    }

    method ResetBegin(container: string, read: real) returns (committed: bool)
      modifies `resetting
      ensures committed == Commits(config, old(View()), container, read)
      ensures View() == AfterBegin(config, old(View()), container, read)
    {
      if container !in lastHeartbeat || container in resetting || read - lastHeartbeat[container] <= config.timeout {
        return false;
      }
      resetting := resetting[container := Forever];
      committed := true;
    }

    method ResetEnd(container: string, read: real, restarted: bool)
      modifies this
      ensures View() == AfterEnd(config, old(View()), container, read, restarted)
    {
      if restarted {
        resetting := resetting[container := Until(read + config.grace)];
        lastHeartbeat := lastHeartbeat[container := read];
      } else {
        resetting := resetting - {container};
      }
    }
  }

  // ----- Runs -----

  /** A locked block: when it runs, and what the clock said when it was read. */
  datatype Step =
    | Heartbeat(container: string, read: real, now: real)
    | Check(read: real, now: real)
    | Begin(container: string, read: real, now: real, committed: bool)
    | End(container: string, read: real, now: real, restarted: bool)

  /** The state with what happened: the time, restarts in progress, and the last successful ones. */
  datatype World = World(state: State, clock: real, running: set<string>, completed: map<string, real>)

  function Start(containers: set<string>, now: real): World {
    World(State(map c | c in containers :: now, map[]), now, {}, map[])
  }

  /** Time does not go back, a reading is not in the future, and only a running restart ends. */
  predicate Enabled(c: Config, w: World, step: Step) {
    && w.clock <= step.now && step.read <= step.now
    && (step.Begin? ==> step.committed == Commits(c, w.state, step.container, step.read))
    && (step.End? ==> step.container in w.running)
  }

  function Apply(c: Config, w: World, step: Step): World {
    match step
    case Heartbeat(x, read, now) => w.(state := AfterHeartbeat(w.state, x, read), clock := now)
    case Check(read, now) => w.(state := AfterCheck(w.state, read), clock := now)
    case Begin(x, read, now, committed) =>
      w.(state := AfterBegin(c, w.state, x, read), clock := now,
         running := if committed then w.running + {x} else w.running)
    case End(x, read, now, restarted) =>
      w.(state := AfterEnd(c, w.state, x, read, restarted), clock := now, running := w.running - {x},
         completed := if restarted then w.completed[x := read] else w.completed)
  }

  ghost predicate Runs(c: Config, w: World, steps: seq<Step>)
    decreases steps
  {
    steps != [] ==> Enabled(c, w, steps[0]) && Runs(c, Apply(c, w, steps[0]), steps[1..])
  }

  function After(c: Config, w: World, steps: seq<Step>): World
    decreases steps
  {
    if steps == [] then w else After(c, Apply(c, w, steps[0]), steps[1..])
  }

  /** Every clock reading is used at once. */
  predicate Prompt(steps: seq<Step>) {
    forall i :: 0 <= i < |steps| ==> steps[i].read == steps[i].now
  }

  ghost predicate Inv(c: Config, w: World) {
    && (forall x :: x in w.running <==> x in w.state.resetting && w.state.resetting[x].Forever?)
    && (forall x :: x in w.state.resetting ==> x in w.state.lastHeartbeat)
    && (forall x :: x in w.completed && x in w.state.resetting && w.state.resetting[x].Until? ==>
          w.state.resetting[x].time == w.completed[x] + c.grace)
    && (forall x :: x in w.completed && (x !in w.state.resetting || w.state.resetting[x].Forever?) ==>
          w.completed[x] + c.grace <= w.clock)
    && (forall x :: x in w.state.resetting && w.state.resetting[x].Until? ==> x in w.completed)
  }

  /** With prompt readings the last sign of life is never older than the last restart. */
  ghost predicate Fresh(w: World) {
    && (forall x :: x in w.state.lastHeartbeat ==> w.state.lastHeartbeat[x] <= w.clock)
    && (forall x :: x in w.completed ==> x in w.state.lastHeartbeat && w.completed[x] <= w.state.lastHeartbeat[x])
  }

  lemma StepKeeps(c: Config, w: World, step: Step)
    requires ValidConfig(c) && Inv(c, w) && Enabled(c, w, step)
    ensures Inv(c, Apply(c, w, step))
    ensures Fresh(w) && step.read == step.now ==> Fresh(Apply(c, w, step))
  {
    match step
    case Heartbeat(x, read, now) =>
    case Check(read, now) =>
    case Begin(x, read, now, _) =>
    case End(x, read, now, restarted) =>
  }

  lemma {:induction false} RunKeeps(c: Config, w: World, steps: seq<Step>)
    requires ValidConfig(c) && Inv(c, w) && Runs(c, w, steps)
    ensures Inv(c, After(c, w, steps))
    ensures Fresh(w) && Prompt(steps) ==> Fresh(After(c, w, steps))
    decreases steps
  {
    if steps != [] {
      StepKeeps(c, w, steps[0]);
      assert Prompt(steps) ==> steps[0].read == steps[0].now && Prompt(steps[1..]);
      RunKeeps(c, Apply(c, w, steps[0]), steps[1..]);
    }
  }

  /**
   After any run, a restart is committed only for a container that is not being
   restarted and whose last accepted sign of life is older than the timeout. If
   an earlier restart succeeded, the timeout has passed since; it has been
   exceeded if clock readings are used at once.
   */
  lemma RestartsAreSpaced(c: Config, containers: set<string>, start: real, steps: seq<Step>,
                         x: string, read: real, now: real)
    requires ValidConfig(c) && Runs(c, Start(containers, start), steps)
    requires var w := After(c, Start(containers, start), steps);
             Enabled(c, w, Begin(x, read, now, true))
    ensures var w := After(c, Start(containers, start), steps);
            && x !in w.running
            && read - w.state.lastHeartbeat[x] > c.timeout
            && (x in w.completed ==> now - w.completed[x] >= c.timeout)
            && (x in w.completed && Prompt(steps) && read == now ==> now - w.completed[x] > c.timeout)
  {
    RunKeeps(c, Start(containers, start), steps);
  }

  // ----- What the steps of a run say about a container -----

  /** A restart of x has begun and not ended. */
  ghost predicate Running(steps: seq<Step>, x: string) {
    exists i :: 0 <= i < |steps| && Begun(steps[i], x) && forall j :: i < j < |steps| ==> !Ended(steps[j], x)
  }

  predicate Begun(step: Step, x: string) {
    step.Begin? && step.committed && step.container == x
  }

  predicate Ended(step: Step, x: string) {
    step.End? && step.container == x
  }

  ghost predicate LastEnd(steps: seq<Step>, x: string, i: int) {
    0 <= i < |steps| && Ended(steps[i], x) && forall j :: i < j < |steps| ==> !Ended(steps[j], x)
  }

  /** The grace of the last restart of x, if that succeeded, is over. */
  ghost predicate GraceOver(c: Config, steps: seq<Step>, x: string, read: real) {
    forall i :: LastEnd(steps, x, i) && steps[i].restarted ==> read >= steps[i].read + c.grace
  }

  predicate IsHeartbeat(step: Step, x: string) {
    step.Heartbeat? && step.container == x
  }

  /** A heartbeat that came while no restart of x was running and its grace was over. */
  ghost predicate Counts(c: Config, steps: seq<Step>, i: int, x: string) {
    && 0 <= i < |steps| && IsHeartbeat(steps[i], x)
    && !Running(steps[..i], x) && GraceOver(c, steps[..i], x, steps[i].read)
  }

  /** One thread handles heartbeats, one checks and restarts; each reads the clock after its previous block. */
  ghost predicate InOrder(start: real, steps: seq<Step>) {
    && (forall i :: 0 <= i < |steps| ==> start <= steps[i].read)
    && (forall i, j :: 0 <= i < j < |steps| && steps[i].Heartbeat? == steps[j].Heartbeat? ==> steps[i].now <= steps[j].read)
  }

  /** A heartbeat of x, or a restart of it that succeeded. */
  predicate Sign(step: Step, x: string) {
    IsHeartbeat(step, x) || (Ended(step, x) && step.restarted)
  }

  /** All signs of life of x are older than the timeout. */
  ghost predicate Silent(c: Config, start: real, steps: seq<Step>, x: string, read: real) {
    read - start > c.timeout && forall i :: 0 <= i < |steps| && Sign(steps[i], x) ==> read - steps[i].read > c.timeout
  }

  // ----- One more step -----

  lemma {:induction false} RunsSnoc(c: Config, w: World, front: seq<Step>, last: Step)
    requires Runs(c, w, front + [last])
    ensures Runs(c, w, front) && Enabled(c, After(c, w, front), last)
    ensures After(c, w, front + [last]) == Apply(c, After(c, w, front), last)
    decreases front
  {
    hide Enabled, Apply;
    if front == [] {
      assert front + [last] == [last] && [last][1..] == [];
    } else {
      assert (front + [last])[0] == front[0] && (front + [last])[1..] == front[1..] + [last];
      RunsSnoc(c, Apply(c, w, front[0]), front[1..], last);
    }
  }

  lemma RunningSnoc(front: seq<Step>, last: Step, x: string)
    ensures Running(front + [last], x) <==> Begun(last, x) || (Running(front, x) && !Ended(last, x))
  {
    var all := front + [last];
    if Begun(last, x) {
      assert Begun(all[|front|], x);
    } else if Running(front, x) && !Ended(last, x) {
      var i :| 0 <= i < |front| && Begun(front[i], x) && forall j :: i < j < |front| ==> !Ended(front[j], x);
      assert Begun(all[i], x) && forall j :: i < j < |all| ==> !Ended(all[j], x);
    }
    if Running(all, x) {
      var i :| 0 <= i < |all| && Begun(all[i], x) && forall j :: i < j < |all| ==> !Ended(all[j], x);
      if i < |front| {
        assert !Ended(all[|front|], x);
        assert Begun(front[i], x) && forall j :: i < j < |front| ==> !Ended(front[j], x) by {
          assert forall j :: 0 <= j < |front| ==> all[j] == front[j];
        }
      }
    }
  }

  lemma LastEndSnoc(front: seq<Step>, last: Step, x: string, i: int)
    ensures LastEnd(front + [last], x, i) <==> if Ended(last, x) then i == |front| else LastEnd(front, x, i)
  {
    var all := front + [last];
    assert all[|front|] == last && forall j :: 0 <= j < |front| ==> all[j] == front[j];
  }

  lemma CountsSnoc(c: Config, front: seq<Step>, last: Step, i: int, x: string)
    ensures Counts(c, front + [last], i, x) <==>
            if i == |front| then IsHeartbeat(last, x) && !Running(front, x) && GraceOver(c, front, x, last.read)
            else Counts(c, front, i, x)
  {
    var all := front + [last];
    assert all[..|front|] == front;
    if 0 <= i < |front| {
      assert all[..i] == front[..i] && all[i] == front[i];
    }
  }

  // ----- The supervisor's state is what the steps say -----

  /** What is kept of x: whether it is being restarted, until when its grace lasts, and its last sign of life. */
  ghost predicate Kept(c: Config, start: real, steps: seq<Step>, w: World, x: string) {
    && (x in w.state.resetting && w.state.resetting[x].Forever? <==> Running(steps, x))
    && (x in w.state.resetting && w.state.resetting[x].Until? ==>
          exists i :: LastEnd(steps, x, i) && steps[i].restarted && w.state.resetting[x].time == steps[i].read + c.grace)
    && (x in w.state.lastHeartbeat ==>
          w.state.lastHeartbeat[x] == start
          || exists i :: 0 <= i < |steps| && Sign(steps[i], x) && steps[i].read == w.state.lastHeartbeat[x])
  }

  lemma KeptSnoc(c: Config, start: real, front: seq<Step>, w: World, last: Step, x: string)
    requires Inv(c, w) && Enabled(c, w, last) && Kept(c, start, front, w, x)
    ensures Kept(c, start, front + [last], Apply(c, w, last), x)
  {
    var all, r := front + [last], Apply(c, w, last);
    RunningSnoc(front, last, x);
    assert all[|front|] == last && forall j :: 0 <= j < |front| ==> all[j] == front[j];
    if x in r.state.resetting && r.state.resetting[x].Until? {
      if Ended(last, x) {
        LastEndSnoc(front, last, x, |front|);
      } else {
        var i :| LastEnd(front, x, i) && front[i].restarted && r.state.resetting[x].time == front[i].read + c.grace;
        LastEndSnoc(front, last, x, i);
      }
    }
    if x in r.state.lastHeartbeat && r.state.lastHeartbeat[x] != start {
      if r.state.lastHeartbeat[x] == w.state.lastHeartbeat[x] {
        var i :| 0 <= i < |front| && Sign(front[i], x) && front[i].read == w.state.lastHeartbeat[x];
        assert Sign(all[i], x);
      } else {
        assert Sign(all[|front|], x);
      }
    }
  }

  lemma {:induction false} RunKept(c: Config, containers: set<string>, start: real, steps: seq<Step>, x: string)
    requires ValidConfig(c) && Runs(c, Start(containers, start), steps)
    ensures var w := After(c, Start(containers, start), steps);
            Inv(c, w) && w.state.lastHeartbeat.Keys == containers && Kept(c, start, steps, w, x)
    decreases |steps|
  {
    hide Kept, Enabled, Apply, Runs, Inv;
    if steps == [] {
      NothingKeptYet(c, containers, start, x);
    } else {
      var front, last := steps[..|steps| - 1], steps[|steps| - 1];
      assert steps == front + [last];
      RunsSnoc(c, Start(containers, start), front, last);
      RunKept(c, containers, start, front, x);
      var w := After(c, Start(containers, start), front);
      KeptSnoc(c, start, front, w, last, x);
      StepKeeps(c, w, last);
      SameContainers(c, w, last);
    }
  }

  lemma NothingKeptYet(c: Config, containers: set<string>, start: real, x: string)
    ensures var w := After(c, Start(containers, start), []);
            Inv(c, w) && w.state.lastHeartbeat.Keys == containers && Kept(c, start, [], w, x)
  {
  }

  lemma SameContainers(c: Config, w: World, step: Step)
    requires Inv(c, w) && Enabled(c, w, step)
    ensures Apply(c, w, step).state.lastHeartbeat.Keys == w.state.lastHeartbeat.Keys
  {
  }

  /** Every heartbeat that counts is a sign of life at least as old as the one kept, and time only goes on. */
  ghost predicate Recorded(c: Config, start: real, steps: seq<Step>, w: World, x: string) {
    && (forall i :: 0 <= i < |steps| ==> steps[i].read <= steps[i].now <= w.clock)
    && (forall i, j :: 0 <= i < j < |steps| ==> steps[i].now <= steps[j].now)
    && (x in w.state.lastHeartbeat ==>
          && start <= w.state.lastHeartbeat[x]
          && forall i :: Counts(c, steps, i, x) ==> steps[i].read <= w.state.lastHeartbeat[x])
  }

  lemma RecordedSnoc(c: Config, start: real, front: seq<Step>, w: World, last: Step, x: string)
    requires Inv(c, w) && Enabled(c, w, last) && Kept(c, start, front, w, x) && Recorded(c, start, front, w, x)
    requires InOrder(start, front + [last])
    ensures Recorded(c, start, front + [last], Apply(c, w, last), x)
  {
    var all, r := front + [last], Apply(c, w, last);
    assert all[|front|] == last && forall j :: 0 <= j < |front| ==> all[j] == front[j];
    if x in r.state.lastHeartbeat {
      KnownStays(c, w, last, x);
      forall i | Counts(c, all, i, x)
        ensures all[i].read <= r.state.lastHeartbeat[x]
      {
        CountsSnoc(c, front, last, i, x);
        if i == |front| {
          HeartbeatTaken(c, start, front, w, last, x);
        } else if Ended(last, x) {
          CountsBeforeBegin(c, front, i, x);
        }
      }
    }
  }

  lemma KnownStays(c: Config, w: World, step: Step, x: string)
    requires Inv(c, w) && Enabled(c, w, step)
    ensures x in Apply(c, w, step).state.lastHeartbeat <==> x in w.state.lastHeartbeat
  {
  }

  /** A heartbeat that counts is not ignored. */
  lemma HeartbeatTaken(c: Config, start: real, front: seq<Step>, w: World, last: Step, x: string)
    requires Kept(c, start, front, w, x) && x in w.state.lastHeartbeat
    requires IsHeartbeat(last, x) && !Running(front, x) && GraceOver(c, front, x, last.read)
    ensures Apply(c, w, last).state.lastHeartbeat[x] == last.read
  {
  }

  /** When a restart is running, the heartbeats that count came before it began. */
  lemma CountsBeforeBegin(c: Config, steps: seq<Step>, i: int, x: string)
    requires Running(steps, x) && Counts(c, steps, i, x)
    ensures exists b :: i < b < |steps| && Begun(steps[b], x)
  {
    var b :| 0 <= b < |steps| && Begun(steps[b], x) && forall j :: b < j < |steps| ==> !Ended(steps[j], x);
    assert Begun(steps[b], x);
  }

  lemma {:induction false} RunRecorded(c: Config, containers: set<string>, start: real, steps: seq<Step>, x: string)
    requires ValidConfig(c) && Runs(c, Start(containers, start), steps) && InOrder(start, steps)
    ensures Recorded(c, start, steps, After(c, Start(containers, start), steps), x)
    decreases |steps|
  {
    hide Kept, Enabled, Apply, Runs, Inv, Recorded;
    if steps == [] {
      NothingRecordedYet(c, containers, start, x);
    } else {
      var front, last := steps[..|steps| - 1], steps[|steps| - 1];
      assert steps == front + [last];
      RunsSnoc(c, Start(containers, start), front, last);
      RunKept(c, containers, start, front, x);
      RunRecorded(c, containers, start, front, x);
      RecordedSnoc(c, start, front, After(c, Start(containers, start), front), last, x);
    }
  }

  lemma NothingRecordedYet(c: Config, containers: set<string>, start: real, x: string)
    ensures Recorded(c, start, [], After(c, Start(containers, start), []), x)
  {
  }

  /**
   From the steps alone: a container is only named by a check, and its restart
   only committed, if it is supervised, no restart of it is running, and the
   start and every heartbeat of it that counts are older than the timeout.
   */
  lemma LiveIsNotRestarted(c: Config, containers: set<string>, start: real, steps: seq<Step>, x: string, read: real, now: real)
    requires ValidConfig(c) && Runs(c, Start(containers, start), steps) && InOrder(start, steps)
    requires var w := After(c, Start(containers, start), steps);
             Enabled(c, w, Begin(x, read, now, true)) || x in Overdue(c, w.state, read)
    ensures x in containers && !Running(steps, x) && read - start > c.timeout
    ensures forall i :: Counts(c, steps, i, x) ==> read - steps[i].read > c.timeout
  {
    RunKept(c, containers, start, steps, x);
    RunRecorded(c, containers, start, steps, x);
  }

  // ----- A silent container is restarted -----

  predicate Concerns(step: Step, x: string) {
    !step.Check? && step.container == x
  }

  lemma OthersLeaveIt(c: Config, w: World, step: Step, x: string)
    requires !Concerns(step, x) && x in w.state.lastHeartbeat && x !in w.state.resetting
    ensures var r := Apply(c, w, step).state;
            x in r.lastHeartbeat && r.lastHeartbeat[x] == w.state.lastHeartbeat[x] && x !in r.resetting
  {
  }

  lemma {:induction false} OtherStepsLeaveIt(c: Config, w: World, steps: seq<Step>, x: string)
    requires (forall k :: 0 <= k < |steps| ==> !Concerns(steps[k], x)) && x in w.state.lastHeartbeat && x !in w.state.resetting
    ensures var r := After(c, w, steps).state;
            x in r.lastHeartbeat && r.lastHeartbeat[x] == w.state.lastHeartbeat[x] && x !in r.resetting
    decreases steps
  {
    hide Apply;
    if steps != [] {
      OthersLeaveIt(c, w, steps[0], x);
      OtherStepsLeaveIt(c, Apply(c, w, steps[0]), steps[1..], x);
    }
  }

  /**
   A supervised container whose signs of life are all older than the timeout,
   and of which no restart is running, is named by the check; and its restart
   commits, whatever the supervisor does with the others in between.
   */
  lemma SilentIsRestarted(c: Config, containers: set<string>, start: real, steps: seq<Step>, x: string, read: real, now: real,
                         more: seq<Step>, later: real)
    requires ValidConfig(c) && Runs(c, Start(containers, start), steps) && x in containers
    requires !Running(steps, x) && Silent(c, start, steps, x, read) && later >= read
    requires forall k :: 0 <= k < |more| ==> !Concerns(more[k], x)
    ensures var w := After(c, Start(containers, start), steps);
            && x in Overdue(c, w.state, read)
            && Commits(c, After(c, Apply(c, w, Check(read, now)), more).state, x, later)
  {
    var w := After(c, Start(containers, start), steps);
    RunKept(c, containers, start, steps, x);
    SilentIsNamed(c, start, steps, w, x, read);
    OtherStepsLeaveIt(c, Apply(c, w, Check(read, now)), more, x);
  }

  lemma SilentIsNamed(c: Config, start: real, steps: seq<Step>, w: World, x: string, read: real)
    requires ValidConfig(c) && Kept(c, start, steps, w, x) && x in w.state.lastHeartbeat
    requires !Running(steps, x) && Silent(c, start, steps, x, read)
    ensures x in Overdue(c, w.state, read) && x !in AfterCheck(w.state, read).resetting
    ensures read - w.state.lastHeartbeat[x] > c.timeout
  {
    if x in w.state.resetting {
      var i :| LastEnd(steps, x, i) && steps[i].restarted && w.state.resetting[x].time == steps[i].read + c.grace;
      assert Sign(steps[i], x);
    }
  }
}
