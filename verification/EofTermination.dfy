/**
 Once consensus has been started cleanly and every announced packet is
 processed, the control plane needs a bounded number of further steps: whatever
 their order, they run out, and when they do the downstream EOF has been sent.
 */
module EofTermination {
  import opened Sums
  import opened EofStates
  import opened EofWorker
  import opened EofProtocol
  import opened EofInvariants
  import opened EofReception
  import opened EofSoundness
  import opened EofDecisionSteps
  import opened EofPostSteps
  import opened EofRuns
  import opened EofLiveness
  import opened EofCleanRuns

  // ----- How many control steps are left -----

  /** Blocks of a registration that are still to run. */
  function PcCost(pc: Pc): nat {
    match pc
    case Idle => 0
    case Checking(_) => 1
    case Rebroadcasting(_) => 2
    case AddingTotal(_) => 3
    case InitCounting(_) => 4
    case AddingEof(_) => 5
  }

  function PcsCost(pcs: seq<Pc>): nat {
    if pcs == [] then 0 else PcCost(pcs[0]) + PcsCost(pcs[1..])
  }

  /** A message to a worker, with the steps it causes up to the leader's reading the answer. */
  function MessageCost(m: ToWorker): nat {
    match m
    case ConsensusFail => 1
    case Request(_) => 2
    case ConsensusOk => 3
  }

  function DownCost(down: seq<ToWorker>): nat {
    if down == [] then 0 else MessageCost(down[0]) + DownCost(down[1..])
  }

  function NodeCost(i: nat, x: Node): nat {
    PcsCost(x.pcs) + if i == 0 then 0 else DownCost(x.down) + |x.up| + if x.callback then 2 else 0
  }

  function CostAt(nodes: seq<Node>, i: nat): int {
    if i < |nodes| then NodeCost(i, nodes[i]) else 0
  }

  ghost function NodesCost(nodes: seq<Node>): int {
    Sum(Ids(|nodes|), (i: nat) => CostAt(nodes, i))
  }

  /** From an OK on: three steps for each other worker and the leader's own report. */
  function AfterOk(c: Config): int {
    3 * (c.n - 1) + 1
  }

  /** What a failed round adds: a FAIL to everyone and a new round. */
  function Retry(c: Config): int {
    3 * (c.n - 1) + 2
  }

  /** The leader's own steps, and those of messages it has not sent yet. */
  function LeaderCost(c: Config, x: Node, opening: Opening): int {
    match opening
    case Snapshotting(_) => 2 + 2 * (c.n - 1) + AfterOk(c)
    case Requesting(_) => 1 + 2 * (c.n - 1) + AfterOk(c)
    case NotOpening => if x.worker.state == RequestSent then AfterOk(c) else if x.callback then 1 else 0
  }

  /** If the worker has answered, its snapshot came after all processing. */
  predicate AnsweredLate(i: nat, x: Node, recorded: set<nat>) {
    (x.up != [] && x.up[0].Response?) || i in recorded ==> x.past.late
  }

  /** Every snapshot taken so far in this round came after all processing. */
  ghost predicate OnTrack(s: System)
    requires s.nodes != []
  {
    match s.opening
    case Snapshotting(_) => true
    case Requesting(_) => s.nodes[0].past.late
    case NotOpening =>
      s.nodes[0].worker.state == RequestSent ==>
        s.nodes[0].past.late && forall i :: 0 < i < |s.nodes| ==> AnsweredLate(i, s.nodes[i], s.history.recorded)
  }

  ghost function Measure(c: Config, s: System): int
    requires s.nodes != []
  {
    LeaderCost(c, s.nodes[0], s.opening) + NodesCost(s.nodes) + if OnTrack(s) then 0 else Retry(c)
  }

  /** A step that leaves less to do, and no snapshot of this round newly taken too early. */
  ghost predicate Nearer(c: Config, s: System, r: System)
    requires s.nodes != []
  {
    r.nodes != [] && AllProcessed(r) && Measure(c, r) < Measure(c, s) && (OnTrack(s) ==> OnTrack(r))
  }

  lemma {:induction false} SumNotNegative(ids: set<nat>, f: nat -> int)
    requires forall i :: i in ids ==> f(i) >= 0
    ensures Sum(ids, f) >= 0
    decreases |ids|
  {
    if ids != {} {
      var i :| i in ids;
      SumTake(ids, f, i);
      SumNotNegative(ids - {i}, f);
    }
  }

  lemma MeasureNotNegative(c: Config, s: System)
    requires s.nodes != [] && c.n > 0
    ensures Measure(c, s) >= 0
  {
    SumNotNegative(Ids(|s.nodes|), (i: nat) => CostAt(s.nodes, i));
  }

  // ----- Sums of costs -----

  lemma NodesCostPut(nodes: seq<Node>, w: nat, y: Node)
    requires w < |nodes|
    ensures NodesCost(nodes[w := y]) == NodesCost(nodes) - NodeCost(w, nodes[w]) + NodeCost(w, y)
  {
    SumChange(Ids(|nodes|), (i: nat) => CostAt(nodes, i), (i: nat) => CostAt(nodes[w := y], i), w);
  }

  lemma NodesCostSame(nodes: seq<Node>, after: seq<Node>)
    requires |after| == |nodes| && forall i :: 0 <= i < |nodes| ==> NodeCost(i, after[i]) == NodeCost(i, nodes[i])
    ensures NodesCost(after) == NodesCost(nodes)
  {
    SumSame(Ids(|nodes|), (i: nat) => CostAt(nodes, i), (i: nat) => CostAt(after, i));
  }

  lemma Distribute(n: int, k: int)
    ensures n * k == (n - 1) * k + k
  {
  }

  /** n times k, for n that are not negative. */
  function Times(n: int, k: int): int
    decreases n
  {
    if n <= 0 then 0 else Times(n - 1, k) + k
  }

  lemma {:induction false} TimesIs(n: nat, k: int)
    ensures Times(n, k) == n * k
  {
    if n > 0 {
      TimesIs(n - 1, k);
      Distribute(n, k);
    }
  }

  lemma {:induction false} SumConstant(n: nat, k: int)
    ensures Sum(Ids(n), (i: nat) => k) == Times(n, k)
  {
    if n > 0 {
      var last: nat := n - 1;
      SumTake(Ids(n), (i: nat) => k, last);
      assert Ids(n) - {last} == Ids(last);
      SumConstant(last, k);
    }
  }

  /** Raising every term but the first by k. */
  lemma SumRaised(n: nat, f: nat -> int, g: nat -> int, k: int)
    requires n > 0 && forall i: nat :: i < n ==> g(i) == if i == 0 then f(i) else f(i) + k
    ensures Sum(Ids(n), g) == Sum(Ids(n), f) + Times(n - 1, k)
  {
    var all := (i: nat) => k;
    var rest := (i: nat) => if i == 0 then 0 else k;
    SumConstant(n, k);
    SumChange(Ids(n), all, rest, 0);
    SumAdd(Ids(n), f, rest, g);
  }

  lemma {:induction false} DownAppend(down: seq<ToWorker>, m: ToWorker)
    ensures DownCost(down + [m]) == DownCost(down) + MessageCost(m)
    decreases down
  {
    if down == [] {
      assert [m][1..] == [];
    } else {
      assert (down + [m])[1..] == down[1..] + [m];
      DownAppend(down[1..], m);
    }
  }

  lemma FanoutCost(nodes: seq<Node>, m: ToWorker, y: Node, after: seq<Node>)
    requires nodes != [] && after == Fanout(nodes, m)[0 := y] && y.pcs == nodes[0].pcs
    ensures NodesCost(after) == NodesCost(nodes) + (|nodes| - 1) * MessageCost(m)
  {
    forall i: nat | i < |nodes|
      ensures CostAt(after, i) == if i == 0 then CostAt(nodes, i) else CostAt(nodes, i) + MessageCost(m)
    {
      DownAppend(nodes[i].down, m);
    }
    SumRaised(|nodes|, (i: nat) => CostAt(nodes, i), (i: nat) => CostAt(after, i), MessageCost(m));
    TimesIs(|nodes| - 1, MessageCost(m));
  }

  lemma {:induction false} PcsCostPut(pcs: seq<Pc>, t: nat, pc: Pc)
    requires t < |pcs|
    ensures PcsCost(pcs[t := pc]) == PcsCost(pcs) - PcCost(pcs[t]) + PcCost(pc)
    decreases t
  {
    if t > 0 {
      assert pcs[t := pc][1..] == pcs[1..][t - 1 := pc];
      PcsCostPut(pcs[1..], t - 1, pc);
    }
  }

  // ----- Steps at one node -----

  /** The node gets cheaper and, if it is the leader, looks the same otherwise. */
  lemma CheaperNode(c: Config, s: System, w: nat, y: Node, r: System)
    requires c.n > 0 && w < |s.nodes| && r.nodes == s.nodes[w := y] && r.opening == s.opening && r.history == s.history
    requires NodeCost(w, y) < NodeCost(w, s.nodes[w])
    requires w == 0 ==>
               y.worker.state == s.nodes[0].worker.state && y.callback == s.nodes[0].callback && y.past.late == s.nodes[0].past.late
    requires w > 0 && AnsweredLate(w, s.nodes[w], s.history.recorded) ==> AnsweredLate(w, y, r.history.recorded)
    ensures Measure(c, r) < Measure(c, s) && (OnTrack(s) ==> OnTrack(r))
  {
    NodesCostPut(s.nodes, w, y);
    if OnTrack(s) && s.opening.NotOpening? && s.nodes[0].worker.state == RequestSent {
      forall i | 0 < i < |r.nodes|
        ensures AnsweredLate(i, r.nodes[i], r.history.recorded)
      {
        assert AnsweredLate(i, s.nodes[i], s.history.recorded);
      }
    }
  }

  lemma AnswerCheaper(c: Config, s: System, w: nat, r: System)
    requires c.n > 0 && 0 < w < |s.nodes| && s.nodes[w].down != [] && s.nodes[w].down[0].Request? && AllProcessed(s)
    requires r == Put(s, w, AnswerAt(s.nodes[w], AllProcessed(s)))
    ensures Nearer(c, s, r)
  {
    CheaperNode(c, s, w, AnswerAt(s.nodes[w], AllProcessed(s)), r);
  }

  lemma FailCheaper(c: Config, s: System, w: nat, r: System)
    requires c.n > 0 && 0 < w < |s.nodes| && s.nodes[w].down != [] && s.nodes[w].down[0].ConsensusFail?
    requires AllProcessed(s)
    requires r == Put(s, w, FailAt(s.nodes[w]))
    ensures Nearer(c, s, r)
  {
    CheaperNode(c, s, w, FailAt(s.nodes[w]), r);
  }

  lemma OkCheaper(c: Config, s: System, w: nat, r: System)
    requires c.n > 0 && 0 < w < |s.nodes| && s.nodes[w].down != [] && s.nodes[w].down[0].ConsensusOk? && AllProcessed(s)
    requires r == Put(s, w, OkAt(s.nodes[w]))
    ensures Nearer(c, s, r)
  {
    CheaperNode(c, s, w, OkAt(s.nodes[w]), r);
  }

  lemma PostCheaper(c: Config, s: System, w: nat, r: System)
    requires c.n > 0 && 0 < w < |s.nodes| && s.nodes[w].callback && AllProcessed(s)
    requires r == Put(s, w, PostAt(s.nodes[w]))
    ensures Nearer(c, s, r)
  {
    CheaperNode(c, s, w, PostAt(s.nodes[w]), r);
  }

  lemma BlockCost(c: Config, x: Node, t: nat)
    requires t < |x.pcs| && x.pcs[t] != Idle
    ensures PcsCost(RegisterAt(c, x, t).pcs) < PcsCost(x.pcs)
    ensures RegisterAt(c, x, t).down == x.down && RegisterAt(c, x, t).up == x.up
    ensures RegisterAt(c, x, t).callback == x.callback
    ensures RegisterAt(c, x, t).past == x.past && SamePlace(x, RegisterAt(c, x, t))
    ensures Started(x.worker.state) ==> RegisterAt(c, x, t).worker.state == x.worker.state
  {
    PcsCostPut(x.pcs, t, RegisterAt(c, x, t).pcs[t]);
  }

  /** No packet of the node moves. */
  predicate SamePlace(x: Node, y: Node) {
    y.own == x.own && y.inFlight == x.inFlight
  }

  lemma CopiesCost(c: Config, s: System, w: nat, p: Prefix, r: System)
    requires s.nodes != [] && r == s.(nodes := Copied(s.nodes, w, p)) && AllProcessed(s)
    ensures Measure(c, r) == Measure(c, s) && AllProcessed(r) && (OnTrack(s) <==> OnTrack(r))
  {
    NodesCostSame(s.nodes, r.nodes);
    assert OnTrack(r) <==> OnTrack(s) by {
      forall i | 0 < i < |s.nodes|
        ensures AnsweredLate(i, r.nodes[i], r.history.recorded) <==> AnsweredLate(i, s.nodes[i], s.history.recorded)
      {
        assert r.nodes[i].up == s.nodes[i].up && r.nodes[i].past == s.nodes[i].past;
      }
    }
  }

  lemma RegisterCheaper(c: Config, s: System, w: nat, t: nat, r: System)
    requires c.n > 0 && w < |s.nodes| && t < |s.nodes[w].pcs| && s.nodes[w].pcs[t] != Idle && AllProcessed(s)
    requires Started(s.nodes[0].worker.state) && r == ApplyRegister(c, s, w, t)
    ensures Nearer(c, s, r)
  {
    var y := RegisterAt(c, s.nodes[w], t);
    var moved := Put(s, w, y);
    BlockCost(c, s.nodes[w], t);
    CheaperNode(c, s, w, y, moved);
    if s.nodes[w].pcs[t].Rebroadcasting? {
      CopiesCost(c, moved, w, s.nodes[w].pcs[t].p, r);
    }
  }

  // ----- Steps of the leader -----

  lemma SnapshotCheaper(c: Config, s: System, r: System)
    requires s.nodes != [] && s.opening.Snapshotting? && r == ApplySnapshot(s) && AllProcessed(s)
    ensures Nearer(c, s, r)
  {
    NodesCostPut(s.nodes, 0, r.nodes[0]);
    assert r.nodes == s.nodes[0 := r.nodes[0]];
  }

  lemma RequestCheaper(c: Config, s: System, r: System)
    requires |s.nodes| == c.n > 0 && s.opening.Requesting? && r == ApplyRequest(s) && AllProcessed(s)
    requires s.nodes[0].worker.state == PendingEof && s.history.recorded == {}
    requires forall i :: 0 < i < c.n ==> s.nodes[i].up == []
    ensures Nearer(c, s, r)
  {
    FanoutCost(s.nodes, Request(s.nodes[0].worker.eofs), r.nodes[0], r.nodes);
    forall i | 0 < i < c.n
      ensures AnsweredLate(i, r.nodes[i], r.history.recorded)
    {
      assert r.nodes[i].up == s.nodes[i].up;
    }
  }

  lemma StoredCheaper(c: Config, s: System, w: nat, t: System)
    requires 0 < w < |s.nodes| && s.nodes[w].up != [] && s.nodes[w].up[0].Response? && AllProcessed(s)
    requires s.nodes[0].worker.state == RequestSent && s.opening == NotOpening && t == Stored(s, w)
    ensures LeaderCost(c, t.nodes[0], t.opening) == LeaderCost(c, s.nodes[0], s.opening) && AllProcessed(t)
    ensures NodesCost(t.nodes) == NodesCost(s.nodes) - 1
    ensures OnTrack(s) ==> OnTrack(t)
  {
    var y := s.nodes[w].(up := s.nodes[w].up[1..]);
    NodesCostPut(s.nodes, w, y);
    NodesCostPut(s.nodes[w := y], 0, t.nodes[0]);
    if OnTrack(s) {
      forall i | 0 < i < |t.nodes|
        ensures AnsweredLate(i, t.nodes[i], t.history.recorded)
      {
        assert AnsweredLate(i, s.nodes[i], s.history.recorded);
      }
    }
  }

  lemma AgreedCost(c: Config, t: System, r: System)
    requires |t.nodes| == c.n > 0 && t.nodes[0].worker.state == RequestSent && t.opening == NotOpening
    requires r == Agreed(c, t) && AllProcessed(t)
    ensures r.nodes != [] && OnTrack(r) && AllProcessed(r)
    ensures LeaderCost(c, r.nodes[0], r.opening) + NodesCost(r.nodes) == LeaderCost(c, t.nodes[0], t.opening) + NodesCost(t.nodes)
  {
    FanoutCost(t.nodes, ConsensusOk, r.nodes[0], r.nodes);
  }

  lemma FailedCost(c: Config, t: System, r: System)
    requires |t.nodes| == c.n > 0 && t.nodes[0].worker.state == RequestSent && t.opening == NotOpening
    requires r == Failed(t) && AllProcessed(t)
    ensures r.nodes != [] && OnTrack(r) && AllProcessed(r)
    ensures LeaderCost(c, r.nodes[0], r.opening) + NodesCost(r.nodes)
         == LeaderCost(c, t.nodes[0], t.opening) + NodesCost(t.nodes) + Retry(c)
  {
    FanoutCost(t.nodes, ConsensusFail, r.nodes[0], r.nodes);
  }

  /** With only late snapshots and known totals, complete partials agree. */
  lemma LateMeansAgreement(c: Config, t: System)
    requires Inv(c, t) && Clean(c, t) && t.nodes[0].worker.state == RequestSent && OnTrack(t)
    requires HaveAllPartials(t.nodes[0].worker, c.n)
    ensures TotalsAgree(t.nodes[0].worker, c.auxiliary)
  {
    hide TotalsAgree, SnapshotsComplete, HaveAllPartials, CountersOk, PacketsOk, RegistrationPending, Link,
         PartialOk, ReportOk, WorkConserved;
    InvAt(c, t, 0);
    CompleteExactly(c, t);
    forall i | 0 <= i < c.n
      ensures t.nodes[i].past.late
    {
      if i > 0 {
        assert i in t.history.recorded;
        assert AnsweredLate(i, t.nodes[i], t.history.recorded);
      }
    }
    LatePartialsComplete(c, t);
    CompleteMeansAgreement(c, t.nodes[0].worker);
  }

  /** The three ways a response is handled once it is stored. */
  lemma ResponseIs(c: Config, s: System, w: nat, t: System, r: System)
    requires 0 < w < |s.nodes| && s.nodes[w].up != [] && s.nodes[w].up[0].Response?
    requires s.nodes[0].worker.state == RequestSent && t == Stored(s, w) && r == ApplyResponse(c, s, w)
    ensures r == if !HaveAllPartials(t.nodes[0].worker, c.n) then t
                 else if TotalsAgree(t.nodes[0].worker, c.auxiliary) then Agreed(c, t)
                 else Failed(t)
  {
  }

  lemma ResponseCheaper(c: Config, s: System, w: nat, r: System)
    requires Inv(c, s) && Clean(c, s) && AllProcessed(s)
    requires 0 < w < c.n && s.nodes[w].up != [] && s.nodes[w].up[0].Response? && r == ApplyResponse(c, s, w)
    ensures Nearer(c, s, r)
  {
    var t := Stored(s, w);
    ResponseExpected(c, s, w);
    InvAt(c, s, 0);
    StoredKeeps(c, s, w, t);
    StoredClean(c, s, w, t);
    StoredCheaper(c, s, w, t);
    ResponseIs(c, s, w, t, r);
    if HaveAllPartials(t.nodes[0].worker, c.n) {
      if TotalsAgree(t.nodes[0].worker, c.auxiliary) {
        AgreedCost(c, t, r);
      } else {
        FailedCost(c, t, r);
        if OnTrack(s) {
          LateMeansAgreement(c, t);
        }
      }
    }
  }

  lemma CollectCost(c: Config, s: System, w: nat, sends: Counts, r: System)
    requires s.nodes != [] && r == ApplyPost(c, s, w, sends) && AllProcessed(s)
    requires s.nodes[0].worker.state == ConsensusAchieved && s.opening == NotOpening
    ensures r.nodes != [] && AllProcessed(r) && OnTrack(r) && NodesCost(r.nodes) == NodesCost(s.nodes)
    ensures LeaderCost(c, r.nodes[0], r.opening) == LeaderCost(c, s.nodes[0], s.opening)
  {
    NodesCostPut(s.nodes, 0, r.nodes[0]);
    assert r.nodes == s.nodes[0 := r.nodes[0]];
  }

  lemma OwnPostCheaper(c: Config, s: System, r: System)
    requires s.nodes != [] && s.nodes[0].callback && r == ApplyOwnPost(c, s) && AllProcessed(s)
    requires s.nodes[0].worker.state == ConsensusAchieved && s.opening == NotOpening
    ensures Nearer(c, s, r)
  {
    var x := s.nodes[0].(callback := false);
    NodesCostPut(s.nodes, 0, x);
    CollectCost(c, Put(s, 0, x), 0, s.nodes[0].worker.sent, r);
  }

  lemma GetsPostCheaper(c: Config, s: System, w: nat, r: System)
    requires 0 < w < |s.nodes| && s.nodes[w].up != [] && s.nodes[w].up[0].Post? && r == ApplyGetsPost(c, s, w)
    requires AllProcessed(s)
    requires s.nodes[0].worker.state == ConsensusAchieved && s.opening == NotOpening
    ensures Nearer(c, s, r)
  {
    var x := s.nodes[w].(up := s.nodes[w].up[1..]);
    NodesCostPut(s.nodes, w, x);
    CollectCost(c, Put(s, w, x), w, s.nodes[w].up[0].sends, r);
  }

  // ----- Every control step -----

  /** Consensus was started cleanly and all packets are processed. */
  ghost predicate Settled(c: Config, s: System) {
    && Inv(c, s) && Waiting(c, s) && Clean(c, s) && AllProcessed(s)
    && Started(s.nodes[0].worker.state)
  }

  lemma LeaderStepCheaper(c: Config, s: System, step: Step, r: System)
    requires Settled(c, s) && Enabled(c, s, step) && r == Apply(c, s, step)
    requires step.LeaderSnapshot? || step.LeaderRequest? || step.LeaderGetsResponse?
             || step.LeaderOwnPost? || step.LeaderGetsPost?
    ensures Nearer(c, s, r)
  {
    InvAt(c, s, 0);
    match step
    case LeaderSnapshot => SnapshotCheaper(c, s, r);
    case LeaderRequest =>
      RoundNotBegun(c, s);
      RequestCheaper(c, s, r);
    case LeaderGetsResponse(w) => ResponseCheaper(c, s, w, r);
    case LeaderOwnPost => OwnPostCheaper(c, s, r);
    case LeaderGetsPost(w) =>
      PostExpected(c, s, w);
      GetsPostCheaper(c, s, w, r);
  }

  lemma RoundNotBegun(c: Config, s: System)
    requires Inv(c, s) && s.opening.Requesting?
    ensures s.nodes[0].worker.state == PendingEof && s.history.recorded == {}
    ensures forall i :: 0 < i < c.n ==> s.nodes[i].up == []
  {
    InvAt(c, s, 0);
    forall i | 0 < i < c.n
      ensures s.nodes[i].up == []
    {
      TiedAt(c, s, i);
    }
  }

  lemma StepCheaper(c: Config, s: System, step: Step, r: System)
    requires Settled(c, s) && Enabled(c, s, step) && Control(step) && r == Apply(c, s, step)
    ensures Nearer(c, s, r)
  {
    if step.Register? {
      RegisterCheaper(c, s, step.w, step.t, r);
    } else if step.AnswersRequest? {
      AnswerCheaper(c, s, step.w, r);
    } else if step.ReceivesFail? {
      FailCheaper(c, s, step.w, r);
    } else if step.ReceivesOk? {
      OkCheaper(c, s, step.w, r);
    } else if step.SendsPost? {
      PostCheaper(c, s, step.w, r);
    } else {
      LeaderStepCheaper(c, s, step, r);
    }
  }

  // ----- Sends and EOFs in between -----

  /** Costs as much as before, or one registration more, and looks the same otherwise. */
  lemma OtherNode(c: Config, s: System, w: nat, y: Node, r: System, extra: nat)
    requires c.n > 0 && w < |s.nodes| && r.nodes == s.nodes[w := y] && r.opening == s.opening && r.history == s.history
    requires NodeCost(w, y) <= NodeCost(w, s.nodes[w]) + extra && y.up == s.nodes[w].up && y.past.late == s.nodes[w].past.late
    requires w == 0 ==> y.worker.state == s.nodes[0].worker.state && y.callback == s.nodes[0].callback
    ensures Measure(c, r) <= Measure(c, s) + extra && (OnTrack(s) <==> OnTrack(r))
  {
    NodesCostPut(s.nodes, w, y);
    forall i | 0 < i < |r.nodes|
      ensures AnsweredLate(i, r.nodes[i], r.history.recorded) <==> AnsweredLate(i, s.nodes[i], s.history.recorded)
    {
    }
  }

  /** The arrival of an EOF that is not refused. */
  predicate Accepted(s: System, step: Step) {
    step.EofArrives? && step.w < |s.nodes| && AcceptsEof(s.nodes[step.w].worker)
  }

  /** Once all packets are processed, only sends of callbacks and EOFs come between control steps. */
  lemma OtherStepCost(c: Config, s: System, step: Step, r: System)
    requires Settled(c, s) && Enabled(c, s, step) && !Control(step) && r == Apply(c, s, step)
    ensures step.SendCounted? || step.EofArrives?
    ensures r.nodes != [] && AllProcessed(r) && (OnTrack(s) <==> OnTrack(r))
    ensures Measure(c, r) <= Measure(c, s) + if Accepted(s, step) then 5 else 0
  {
    hide Local, Tied, LeaderOk, PartialsShape, WorkConserved, DecisionOk, Waiting, Clean, Measure, OnTrack;
    if step.SendCounted? {
      OtherNode(c, s, step.w, SendAt(s.nodes[step.w], step.output), r, 0);
    } else if step.EofArrives? {
      PcsCostPut(s.nodes[step.w].pcs, step.t, AddingEof(step.p));
      OtherNode(c, s, step.w, EofAt(s.nodes[step.w], step.t, step.p), r, if Accepted(s, step) then 5 else 0);
    }
  }

  // ----- Every run -----

  lemma StepKeepsSettled(c: Config, s: System, step: Step, r: System)
    requires Settled(c, s) && Enabled(c, s, step) && r == Apply(c, s, step)
    ensures Settled(c, r)
  {
    InvAt(c, s, 0);
    StepKeeps(c, s, step, r);
    StepKeepsWaiting(c, s, step, r);
    StepClean(c, s, step, r);
    if Control(step) {
      StepCheaper(c, s, step, r);
    } else {
      OtherStepCost(c, s, step, r);
    }
    StartsNeverFall(c, s, step);
    StartedForGood(c, s, step, r);
  }

  lemma StartsNeverFall(c: Config, s: System, step: Step)
    requires Enabled(c, s, step)
    ensures Apply(c, s, step).history.starts >= s.history.starts
  {
  }

  /** Consensus that has started stays started: the number of starts never falls. */
  lemma StartedForGood(c: Config, s: System, step: Step, r: System)
    requires Inv(c, s) && Inv(c, r) && Started(s.nodes[0].worker.state) && r.history.starts >= s.history.starts
    ensures Started(r.nodes[0].worker.state)
  {
    InvAt(c, s, 0);
    InvAt(c, r, 0);
  }

  /** The step ends a round with FAIL. */
  ghost predicate EndsInFail(c: Config, s: System, step: Step)
    requires Enabled(c, s, step)
  {
    var r := Apply(c, s, step);
    && s.nodes != [] && s.nodes[0].worker.state == RequestSent
    && r.nodes != [] && r.nodes[0].worker.state == PendingEof
  }

  /** A response fails a round only if a snapshot was early. */
  lemma FailingResponse(c: Config, s: System, w: nat, r: System)
    requires Inv(c, s) && Clean(c, s) && AllProcessed(s) && s.nodes[0].worker.state == RequestSent && OnTrack(s)
    requires 0 < w < c.n && s.nodes[w].up != [] && s.nodes[w].up[0].Response? && r == ApplyResponse(c, s, w)
    ensures r.nodes != [] && r.nodes[0].worker.state != PendingEof
  {
    hide TotalsAgree, HaveAllPartials, Local, Tied, PartialsShape, WorkConserved, DecisionOk, Clean, Covered, OnTrack;
    var t := Stored(s, w);
    InvAt(c, s, 0);
    StoredKeeps(c, s, w, t);
    StoredClean(c, s, w, t);
    StoredCheaper(c, s, w, t);
    DecidesExactlyIfComplete(c, s, w, t, r);
    if HaveAllPartials(t.nodes[0].worker, c.n) {
      LateMeansAgreement(c, t);
    }
  }

  /** After a round that failed the next one starts afresh. */
  lemma FreshRound(c: Config, s: System, w: nat, r: System)
    requires 0 < w < |s.nodes| && s.nodes[w].up != [] && s.nodes[w].up[0].Response?
    requires s.nodes[0].worker.state == RequestSent && r == ApplyResponse(c, s, w)
    requires r.nodes != [] && r.nodes[0].worker.state == PendingEof
    ensures OnTrack(r)
  {
    hide TotalsAgree, HaveAllPartials;
    ResponseIs(c, s, w, Stored(s, w), r);
  }

  lemma FailureWasEarly(c: Config, s: System, step: Step, r: System)
    requires Settled(c, s) && Enabled(c, s, step) && r == Apply(c, s, step) && EndsInFail(c, s, step)
    ensures !OnTrack(s) && r.nodes != [] && OnTrack(r)
  {
    hide TotalsAgree, HaveAllPartials, Local, Tied, LeaderOk, PartialsShape, WorkConserved, DecisionOk, Clean, Covered, OnTrack;
    if !step.LeaderGetsResponse? {
      OtherStepsKeepRound(c, s, step);
    } else {
      FreshRound(c, s, step.w, r);
      if OnTrack(s) {
        FailingResponse(c, s, step.w, r);
      }
    }
  }

  function ControlSteps(steps: seq<Step>): nat {
    if steps == [] then 0 else (if Control(steps[0]) then 1 else 0) + ControlSteps(steps[1..])
  }

  ghost function AcceptedEofs(c: Config, s: System, steps: seq<Step>): nat
    requires Runs(c, s, steps)
    decreases steps
  {
    if steps == [] then 0
    else (if Accepted(s, steps[0]) then 1 else 0) + AcceptedEofs(c, Apply(c, s, steps[0]), steps[1..])
  }

  ghost function FailedRounds(c: Config, s: System, steps: seq<Step>): nat
    requires Runs(c, s, steps)
    decreases steps
  {
    if steps == [] then 0
    else (if EndsInFail(c, s, steps[0]) then 1 else 0) + FailedRounds(c, Apply(c, s, steps[0]), steps[1..])
  }

  lemma {:induction false} RunBounded(c: Config, s: System, steps: seq<Step>)
    requires Settled(c, s) && Runs(c, s, steps)
    ensures Settled(c, After(c, s, steps))
    ensures ControlSteps(steps) + Measure(c, After(c, s, steps)) <= Measure(c, s) + 5 * AcceptedEofs(c, s, steps)
    decreases steps
  {
    hide Local, Tied, LeaderOk, PartialsShape, WorkConserved, DecisionOk, Waiting, Clean, Measure, OnTrack;
    if steps != [] {
      var r := Apply(c, s, steps[0]);
      if Control(steps[0]) {
        StepCheaper(c, s, steps[0], r);
      } else {
        OtherStepCost(c, s, steps[0], r);
      }
      StepKeepsSettled(c, s, steps[0], r);
      RunBounded(c, r, steps[1..]);
    }
  }

  lemma {:induction false} FailuresBounded(c: Config, s: System, steps: seq<Step>)
    requires Settled(c, s) && Runs(c, s, steps)
    ensures FailedRounds(c, s, steps) <= if OnTrack(s) then 0 else 1
    decreases steps
  {
    hide Local, Tied, LeaderOk, PartialsShape, WorkConserved, DecisionOk, Waiting, Clean, Measure, OnTrack;
    if steps != [] {
      var r := Apply(c, s, steps[0]);
      if EndsInFail(c, s, steps[0]) {
        FailureWasEarly(c, s, steps[0], r);
      } else if Control(steps[0]) {
        StepCheaper(c, s, steps[0], r);
      } else {
        OtherStepCost(c, s, steps[0], r);
      }
      StepKeepsSettled(c, s, steps[0], r);
      FailuresBounded(c, r, steps[1..]);
    }
  }

  /** No control step is left. */
  ghost predicate Exhausted(c: Config, s: System) {
    forall step :: Control(step) ==> !Enabled(c, s, step)
  }

  lemma ExhaustedMeansDone(c: Config, s: System)
    requires Settled(c, s) && Exhausted(c, s)
    ensures s.nodes[0].worker.state == FinishEnabled
    ensures |s.history.emitted| == 1 && ExactTotals(c, s.history.emitted[0], s.nodes)
  {
    InvAt(c, s, 0);
    if s.nodes[0].worker.state != FinishEnabled {
      var step := NextControlStep(c, s);
    }
  }

  // ----- The bound -----

  lemma {:induction false} PcsBound(pcs: seq<Pc>)
    ensures PcsCost(pcs) <= 5 * |pcs|
    decreases pcs
  {
    if pcs != [] {
      PcsBound(pcs[1..]);
    }
  }

  /** Between a worker and the leader there is never more than three steps' worth of messages. */
  lemma NodeBound(c: Config, v: View, i: nat, x: Node)
    requires |x.pcs| == c.threads && (i > 0 ==> Link(c, v, i, x))
    ensures NodeCost(i, x) <= 5 * c.threads + 3
  {
    PcsBound(x.pcs);
    if i > 0 {
      DownAppend([], ConsensusFail);
      DownAppend([], Request(c.fluxes));
      DownAppend([], ConsensusOk);
      DownAppend([ConsensusFail], Request(c.fluxes));
      assert [ConsensusFail] + [Request(c.fluxes)] == [ConsensusFail, Request(c.fluxes)];
      assert forall m: ToWorker :: [] + [m] == [m];
    }
  }

  lemma NodesBound(c: Config, s: System, k: int)
    requires Inv(c, s) && k == 5 * c.threads + 3
    ensures NodesCost(s.nodes) <= c.n * k
  {
    forall i: nat | i < c.n
      ensures CostAt(s.nodes, i) <= k
    {
      InvAt(c, s, i);
      NodeBound(c, ViewOf(s), i, s.nodes[i]);
    }
    SumLe(Ids(c.n), (i: nat) => CostAt(s.nodes, i), (i: nat) => k);
    SumConstant(c.n, k);
    TimesIs(c.n, k);
  }

  lemma LeaderBound(c: Config, x: Node, opening: Opening)
    requires c.n > 0
    ensures LeaderCost(c, x, opening) + Retry(c) <= 8 * c.n
  {
  }

  lemma MeasureBound(c: Config, s: System, k: int)
    requires Inv(c, s) && k == 5 * c.threads + 3
    ensures Measure(c, s) <= c.n * k + 8 * c.n
  {
    NodesBound(c, s, k);
    LeaderBound(c, s.nodes[0], s.opening);
  }

  lemma CleanRunSettles(c: Config, prefix: seq<Step>, s: System)
    requires ValidConfig(c) && Runs(c, Init(c), prefix) && CleanRun(c, Init(c), prefix)
    requires s == After(c, Init(c), prefix)
    requires AllProcessed(s) && s.nodes != [] && Started(s.nodes[0].worker.state)
    ensures Settled(c, s)
  {
    InitRunClean(c, prefix);
    ReachableWaits(c, s);
  }

  /**
   After any clean run that has processed every packet and started consensus,
   in every further run, whatever sends the callbacks count and whatever EOFs
   still arrive in between: control steps cannot go on for ever, there are at
   most 5 for each thread, 11 for each worker and 5 for each EOF accepted
   later; and whenever none is left the downstream EOF has been sent, once,
   with exact totals.
   */
  lemma EndOfDataIsReached(c: Config, prefix: seq<Step>, s: System, steps: seq<Step>)
    requires ValidConfig(c) && Runs(c, Init(c), prefix) && CleanRun(c, Init(c), prefix)
    requires s == After(c, Init(c), prefix)
    requires AllProcessed(s) && s.nodes != [] && Started(s.nodes[0].worker.state)
    requires Runs(c, s, steps)
    ensures ControlSteps(steps) <= c.n * (5 * c.threads + 3) + 8 * c.n + 5 * AcceptedEofs(c, s, steps)
    ensures var r := After(c, s, steps);
            Exhausted(c, r) ==>
              && r.nodes != [] && r.nodes[0].worker.state == FinishEnabled
              && |r.history.emitted| == 1 && ExactTotals(c, r.history.emitted[0], r.nodes)
  {
    CleanRunSettles(c, prefix, s);
    MeasureBound(c, s, 5 * c.threads + 3);
    RunBounded(c, s, steps);
    var r := After(c, s, steps);
    MeasureNotNegative(c, r);
    if Exhausted(c, r) {
      ExhaustedMeansDone(c, r);
    }
  }

  /** From then on at most one round fails. */
  lemma OneMoreFailure(c: Config, prefix: seq<Step>, s: System, steps: seq<Step>)
    requires ValidConfig(c) && Runs(c, Init(c), prefix) && CleanRun(c, Init(c), prefix)
    requires s == After(c, Init(c), prefix)
    requires AllProcessed(s) && s.nodes != [] && Started(s.nodes[0].worker.state)
    requires Runs(c, s, steps)
    ensures FailedRounds(c, s, steps) <= 1
  {
    CleanRunSettles(c, prefix, s);
    FailuresBounded(c, s, steps);
  }

  /** All steps are control steps. */
  predicate ControlOnly(steps: seq<Step>) {
    forall k :: 0 <= k < |steps| ==> Control(steps[k])
  }

  /** Taking control steps while there are any uses them up. */
  lemma {:induction false} ControlRunExists(c: Config, s: System) returns (steps: seq<Step>)
    requires Settled(c, s)
    ensures Runs(c, s, steps) && ControlOnly(steps)
    ensures Settled(c, After(c, s, steps)) && Exhausted(c, After(c, s, steps))
    decreases Measure(c, s)
  {
    hide Local, Tied, LeaderOk, PartialsShape, WorkConserved, DecisionOk, Waiting, Clean, OnTrack;
    MeasureNotNegative(c, s);
    if step :| Control(step) && Enabled(c, s, step) {
      var r := Apply(c, s, step);
      StepCheaper(c, s, step, r);
      StepKeepsSettled(c, s, step, r);
      MeasureNotNegative(c, r);
      var rest := ControlRunExists(c, r);
      steps := [step] + rest;
      assert steps[1..] == rest;
    } else {
      steps := [];
    }
  }

  /** And from every such state there is a run of control steps that sends the downstream EOF. */
  lemma EndOfDataCanBeReached(c: Config, prefix: seq<Step>, s: System)
    requires ValidConfig(c) && Runs(c, Init(c), prefix) && CleanRun(c, Init(c), prefix)
    requires s == After(c, Init(c), prefix)
    requires AllProcessed(s) && s.nodes != [] && Started(s.nodes[0].worker.state)
    ensures exists steps ::
              && Runs(c, s, steps) && ControlOnly(steps)
              && |After(c, s, steps).history.emitted| == 1
  {
    CleanRunSettles(c, prefix, s);
    var steps := ControlRunExists(c, s);
    ExhaustedMeansDone(c, After(c, s, steps));
  }
}
