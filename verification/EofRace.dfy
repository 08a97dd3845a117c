/**
 With two upstream fluxes the check that starts consensus can run between the
 locked blocks of another registration. Two runs show what may then happen: an
 OK while a packet still waits, and a round that never ends.
 */
module EofRace {
  import opened Sums
  import opened EofStates
  import opened EofWorker
  import opened EofProtocol
  import opened EofInvariants
  import opened EofRuns
  import opened EofLiveness

  const P := Prefix("p")
  const Q := Prefix("q")

  /** Two workers; one packet of the second flux was announced and nobody has taken it. */
  const RACE := Config(2, 2, {P, Q}, multiset{Q}, false)

  const QUIET := History(0, {}, {}, Undecided, [])

  function At(worker: Worker, pcs: seq<Pc>, copies: set<Prefix>, arrived: set<Prefix>): Node {
    Node(worker, pcs, false, [], [], copies, multiset{}, multiset{}, Past(arrived, multiset{}, multiset{}, false, 0))
  }

  /** A worker that so far only recorded EOFs. */
  function Recorded(eofs: set<Prefix>, totals: Counts, processed: Counts): Worker {
    NewWorker.(state := Active, eofs := eofs, totals := totals, processed := processed)
  }

  function Stage(leader: Node, other: Node): System {
    System([leader, other], NotOpening, multiset{Q}, QUIET)
  }

  const FRESH := At(NewWorker, [Idle, Idle], {}, {})

  lemma OneStep(c: Config, s: System, step: Step, r: System)
    requires Reachable(c, s) && Enabled(c, s, step) && r == Apply(c, s, step)
    ensures Reachable(c, r)
  {
    var steps :| Runs(c, Init(c), steps) && s == After(c, Init(c), steps);
    RunsExtend(c, Init(c), steps, step);
  }

  lemma StartReachable()
    ensures Reachable(RACE, Stage(FRESH, FRESH))
  {
    assert |{P, Q}| == 2;
    assert NewNode(RACE).pcs == [Idle, Idle];
    assert NewNode(RACE) == FRESH;
    assert Init(RACE).nodes == [FRESH, FRESH];
    assert Runs(RACE, Init(RACE), []) && After(RACE, Init(RACE), []) == Init(RACE);
  }

  /** A step that changes one of the two nodes only. */
  lemma MoveLeader(x: Node, y: Node, step: Step, after: Node)
    requires Reachable(RACE, Stage(x, y)) && Enabled(RACE, Stage(x, y), step)
    requires Apply(RACE, Stage(x, y), step) == Put(Stage(x, y), 0, after)
    ensures Reachable(RACE, Stage(after, y))
  {
    assert [x, y][0 := after] == [after, y];
    OneStep(RACE, Stage(x, y), step, Stage(after, y));
  }

  lemma MoveOther(x: Node, y: Node, step: Step, after: Node)
    requires Reachable(RACE, Stage(x, y)) && Enabled(RACE, Stage(x, y), step)
    requires Apply(RACE, Stage(x, y), step) == Put(Stage(x, y), 1, after)
    ensures Reachable(RACE, Stage(x, after))
  {
    assert [x, y][1 := after] == [x, after];
    OneStep(RACE, Stage(x, y), step, Stage(x, after));
  }

  lemma LeaderBlock(x: Node, y: Node, t: nat, after: Node)
    requires Reachable(RACE, Stage(x, y)) && t < |x.pcs|
    requires x.pcs[t].AddingEof? || x.pcs[t].InitCounting? || x.pcs[t].AddingTotal?
    requires after == RegisterAt(RACE, x, t)
    ensures Reachable(RACE, Stage(after, y))
  {
    MoveLeader(x, y, Register(0, t), after);
  }

  lemma OtherBlock(x: Node, y: Node, t: nat, after: Node)
    requires Reachable(RACE, Stage(x, y)) && t < |y.pcs|
    requires y.pcs[t].AddingEof? || y.pcs[t].InitCounting? || y.pcs[t].AddingTotal?
    requires after == RegisterAt(RACE, y, t)
    ensures Reachable(RACE, Stage(x, after))
  {
    MoveOther(x, y, Register(1, t), after);
  }

  lemma EofReaches(x: Node, y: Node, t: nat, p: Prefix, after: Node)
    requires Reachable(RACE, Stage(x, y)) && p in {P, Q} && t < |x.pcs| && x.pcs[t] == Idle && !x.callback
    requires t == 0 ==> p in x.copies
    requires after == EofAt(x, t, p)
    ensures Reachable(RACE, Stage(after, y))
  {
    MoveLeader(x, y, EofArrives(0, t, p), after);
  }

  // ----- The other worker registers the EOF of P and passes it on -----

  const OTHER := At(Recorded({P}, map[P := 0], map[P := 0]), [Idle, Checking(P)], {}, {P})

  lemma OtherAddsEof(b: Node)
    requires b == At(Recorded({P}, map[], map[]), [Idle, InitCounting(P)], {}, {P})
    ensures Reachable(RACE, Stage(FRESH, b))
  {
    StartReachable();
    var a := At(Recorded({}, map[], map[]), [Idle, AddingEof(P)], {}, {P});
    assert [Idle, Idle][1 := AddingEof(P)] == a.pcs;
    MoveOther(FRESH, FRESH, EofArrives(1, 1, P), a);
    assert a.pcs[1 := InitCounting(P)] == b.pcs;
    OtherBlock(FRESH, a, 1, b);
  }

  lemma OtherRegisters() returns (before: Node)
    ensures before == OTHER.(pcs := [Idle, Rebroadcasting(P)])
    ensures Reachable(RACE, Stage(FRESH, before))
  {
    var b := At(Recorded({P}, map[], map[]), [Idle, InitCounting(P)], {}, {P});
    OtherAddsEof(b);
    var d := At(Recorded({P}, map[], map[P := 0]), [Idle, AddingTotal(P)], {}, {P});
    assert b.pcs[1 := AddingTotal(P)] == d.pcs;
    OtherBlock(FRESH, b, 1, d);
    before := At(Recorded({P}, map[P := 0], map[P := 0]), [Idle, Rebroadcasting(P)], {}, {P});
    assert d.pcs[1 := Rebroadcasting(P)] == before.pcs;
    OtherBlock(FRESH, d, 1, before);
  }

  lemma OtherPassesOn()
    ensures Reachable(RACE, Stage(FRESH.(copies := {P}), OTHER))
  {
    var before := OtherRegisters();
    var s, r := Stage(FRESH, before), Stage(FRESH.(copies := {P}), OTHER);
    assert before.pcs[1 := Checking(P)] == OTHER.pcs;
    assert Put(s, 1, OTHER).nodes == [FRESH, OTHER];
    assert Copied([FRESH, OTHER], 1, P) == r.nodes;
    OneStep(RACE, s, Register(1, 1), r);
  }

  // ----- The leader is half way through the EOF of Q when the copy of P arrives -----

  /** Thread 1 of the leader has recorded the EOF of Q and nothing else. */
  const HALF := At(Recorded({Q}, map[], map[]), [Idle, InitCounting(Q)], {P}, {Q})

  lemma LeaderHalf()
    ensures Reachable(RACE, Stage(HALF, OTHER))
  {
    OtherPassesOn();
    var x := FRESH.(copies := {P});
    var a := At(Recorded({}, map[], map[]), [Idle, AddingEof(Q)], {P}, {Q});
    assert [Idle, Idle][1 := AddingEof(Q)] == a.pcs;
    EofReaches(x, OTHER, 1, Q, a);
    assert a.pcs[1 := InitCounting(Q)] == HALF.pcs;
    LeaderBlock(a, OTHER, 1, HALF);
  }

  lemma LeaderAddsCopy(pc: Pc, processed: Counts, d: Node)
    requires Reachable(RACE, Stage(At(Recorded({Q}, map[], processed), [Idle, pc], {P}, {Q}), OTHER))
    requires d == At(Recorded({P, Q}, map[], processed), [InitCounting(P), pc], {P}, {P, Q})
    ensures Reachable(RACE, Stage(d, OTHER))
  {
    var a := At(Recorded({Q}, map[], processed), [Idle, pc], {P}, {Q});
    var b := At(Recorded({Q}, map[], processed), [AddingEof(P), pc], {P}, {P, Q});
    assert a.pcs[0 := AddingEof(P)] == b.pcs;
    EofReaches(a, OTHER, 0, P, b);
    assert b.pcs[0 := InitCounting(P)] == d.pcs;
    LeaderBlock(b, OTHER, 0, d);
  }

  /** The control thread registers the copy of P while thread 1 stays at pc. */
  lemma LeaderGetsCopy(pc: Pc, processed: Counts) returns (x: Node)
    requires Reachable(RACE, Stage(At(Recorded({Q}, map[], processed), [Idle, pc], {P}, {Q}), OTHER))
    requires P !in processed
    ensures x == At(Recorded({P, Q}, map[P := 0], processed[P := 0]), [Checking(P), pc], {P}, {P, Q})
    ensures Reachable(RACE, Stage(x, OTHER))
  {
    var d := At(Recorded({P, Q}, map[], processed), [InitCounting(P), pc], {P}, {P, Q});
    LeaderAddsCopy(pc, processed, d);
    var e := At(Recorded({P, Q}, map[], processed[P := 0]), [AddingTotal(P), pc], {P}, {P, Q});
    assert d.pcs[0 := AddingTotal(P)] == e.pcs;
    LeaderBlock(d, OTHER, 0, e);
    x := At(Recorded({P, Q}, map[P := 0], processed[P := 0]), [Checking(P), pc], {P}, {P, Q});
    assert e.pcs[0 := Checking(P)] == x.pcs;
    LeaderBlock(e, OTHER, 0, x);
  }

  // ----- The check passes, the leader takes its snapshot and sends the request -----

  /** The leader between its start and its request. */
  function Opened(x: Node, opening: Opening, keys: set<Prefix>): System {
    System([x, OTHER], opening, multiset{Q}, History(1, keys, {}, Undecided, []))
  }

  const WAITING := OTHER.(down := [Request({P, Q})])

  /** The leader waits for the answer of the other worker. */
  function Requested(x: Node, keys: set<Prefix>): System {
    System([x, WAITING], NotOpening, multiset{Q}, History(1, keys, {}, Undecided, []))
  }

  function LeaderAt(state: EofState, processed: Counts, partials: CountsById, pc: Pc): Node {
    At(Worker(state, {P, Q}, map[P := 0], processed, partials, {}, map[], map[]), [Idle, pc], {P}, {P, Q})
  }

  lemma LeaderStarts(pc: Pc, processed: Counts, x: Node, y: Node)
    requires x == At(Recorded({P, Q}, map[P := 0], processed), [Checking(P), pc], {P}, {P, Q})
    requires Reachable(RACE, Stage(x, OTHER)) && y == LeaderAt(PendingEof, processed, map[], pc)
    ensures Reachable(RACE, Opened(y, Snapshotting(0), {}))
  {
    assert |{P, Q}| == 2;
    assert x.pcs[0 := Idle] == y.pcs;
    assert [x, OTHER][0 := y] == [y, OTHER];
    OneStep(RACE, Stage(x, OTHER), Register(0, 0), Opened(y, Snapshotting(0), {}));
  }

  lemma LeaderSnapshots(pc: Pc, processed: Counts, y: Node, z: Node)
    requires y == LeaderAt(PendingEof, processed, map[], pc)
    requires Reachable(RACE, Opened(y, Snapshotting(0), {}))
    requires z == LeaderAt(PendingEof, processed, MergeById(map[], 0, processed), pc)
    ensures Reachable(RACE, Opened(z, Requesting(0), processed.Keys))
  {
    var s := Opened(y, Snapshotting(0), {});
    assert Q in s.pool;
    assert [y, OTHER][0 := z] == [z, OTHER];
    OneStep(RACE, s, LeaderSnapshot, Opened(z, Requesting(0), processed.Keys));
  }

  lemma LeaderRequests(pc: Pc, processed: Counts, z: Node, u: Node)
    requires z == LeaderAt(PendingEof, processed, MergeById(map[], 0, processed), pc)
    requires u == LeaderAt(RequestSent, processed, MergeById(map[], 0, processed), pc)
    requires Reachable(RACE, Opened(z, Requesting(0), processed.Keys))
    ensures Reachable(RACE, Requested(u, processed.Keys))
  {
    var sent := Fanout([z, OTHER], Request({P, Q}));
    assert sent[1] == WAITING;
    assert sent[0 := u] == [u, WAITING];
    OneStep(RACE, Opened(z, Requesting(0), processed.Keys), LeaderRequest, Requested(u, processed.Keys));
  }

  /** From any point of the registration of Q, the copy of P carries the leader to its request. */
  lemma LeaderOpensRound(pc: Pc, processed: Counts, u: Node)
    requires Reachable(RACE, Stage(At(Recorded({Q}, map[], processed), [Idle, pc], {P}, {Q}), OTHER))
    requires P !in processed
    requires u == LeaderAt(RequestSent, processed[P := 0], MergeById(map[], 0, processed[P := 0]), pc)
    ensures Reachable(RACE, Requested(u, processed.Keys + {P}))
  {
    var x := LeaderGetsCopy(pc, processed);
    var counts := processed[P := 0];
    var y := LeaderAt(PendingEof, counts, map[], pc);
    LeaderStarts(pc, counts, x, y);
    var z := LeaderAt(PendingEof, counts, MergeById(map[], 0, counts), pc);
    LeaderSnapshots(pc, counts, y, z);
    LeaderRequests(pc, counts, z, u);
    assert counts.Keys == processed.Keys + {P};
  }

  lemma HangingState() returns (s: System)
    ensures Reachable(RACE, s) && s.nodes != [] && s.nodes[0].worker.state == RequestSent && !Covered(RACE, s)
  {
    LeaderHalf();
    var none: Counts := map[];
    var u := LeaderAt(RequestSent, none[P := 0], MergeById(map[], 0, none[P := 0]), InitCounting(Q));
    LeaderOpensRound(InitCounting(Q), none, u);
    s := Requested(u, {P});
    assert none.Keys + {P} == {P};
    assert Q !in s.history.snapshotKeys;
  }

  /** The leader waits and nothing was sent to the next stage. */
  predicate Hanging(s: System) {
    s.nodes != [] && s.nodes[0].worker.state == RequestSent && s.history.emitted == []
  }

  /**
   A round that never ends: the leader's snapshot was taken before its counter
   of Q existed, so its partials never cover Q, whatever happens later.
   */
  lemma RoundCanHang()
    ensures exists s ::
              && Reachable(RACE, s) && s.nodes != [] && s.nodes[0].worker.state == RequestSent
              && forall steps :: Runs(RACE, s, steps) ==> Hanging(After(RACE, s, steps))
  {
    var s := HangingState();
    ReachableInv(RACE, s);
    forall steps | Runs(RACE, s, steps)
      ensures Hanging(After(RACE, s, steps))
    {
      UncoveredNeverEnds(RACE, s, steps);
    }
  }

  // ----- One block later: an OK that is wrong -----

  lemma LeaderCountsQ(x: Node)
    requires x == At(Recorded({Q}, map[], map[Q := 0]), [Idle, AddingTotal(Q)], {P}, {Q})
    ensures Reachable(RACE, Stage(x, OTHER))
  {
    LeaderHalf();
    assert HALF.pcs[1 := AddingTotal(Q)] == x.pcs;
    LeaderBlock(HALF, OTHER, 1, x);
  }

  const ZEROS: Counts := map[P := 0, Q := 0]

  const ANSWERED := OTHER.(worker := OTHER.worker.(processed := ZEROS, state := ResponseSent), up := [Response(ZEROS)])

  lemma AnswerIs()
    ensures AnswerAt(WAITING, false) == ANSWERED
  {
    assert WithAwaited(OTHER.worker.processed, {P, Q}) == ZEROS;
  }

  lemma OtherAnswers(u: Node)
    requires Reachable(RACE, Requested(u, {P, Q}))
    ensures Reachable(RACE, Requested(u, {P, Q}).(nodes := [u, ANSWERED]))
  {
    var s := Requested(u, {P, Q});
    assert Q in s.pool;
    AnswerIs();
    assert [u, WAITING][1 := ANSWERED] == [u, ANSWERED];
    OneStep(RACE, s, AnswersRequest(1), s.(nodes := [u, ANSWERED]));
  }

  /** Both workers reported nothing but zeros. */
  ghost predicate AllZero(m: CountsById) {
    m.Keys == {P, Q} && forall p :: p in m ==> m[p].Keys == {0, 1} && m[p][0] == 0 && m[p][1] == 0
  }

  lemma ZeroFlux(m: CountsById, p: Prefix)
    requires AllZero(m)
    ensures FluxSum(m, p) == 0
  {
    if p in m {
      SumOfZeros(m[p].Keys, (i: nat) => GetById(m, p, i));
    }
  }

  lemma ZerosPool(w: Worker)
    requires AllZero(w.partials) && w.totals == map[P := 0]
    ensures TotalsAgree(w, false)
  {
    forall p: Prefix
      ensures FluxSum(w.partials, p) == 0
    {
      ZeroFlux(w.partials, p);
    }
    SumOfZeros({P, Q}, (p: Prefix) => FluxSum(w.partials, p));
    SumOfZeros({P, Q}, (p: Prefix) => Get(w.totals, p));
  }

  lemma ZerosAgree(w: Worker)
    requires w.eofs == {P, Q} && w.totals == map[P := 0] && AllZero(w.partials)
    ensures Decide(w, 2, false) == Ok
  {
    assert Ids(2) == {0, 1};
    ZerosPool(w);
  }

  lemma OkMeansAgreed(c: Config, s: System, w: nat, t: System, r: System)
    requires 0 < w < |s.nodes| && s.nodes[w].up != [] && s.nodes[w].up[0].Response?
    requires s.nodes[0].worker.state == RequestSent && t == Stored(s, w) && r == ApplyResponse(c, s, w)
    requires Decide(t.nodes[0].worker, c.n, c.auxiliary) == Ok
    ensures r == Agreed(c, t)
  {
  }

  lemma AgreesUnknown(t: System, r: System)
    requires t.nodes != [] && t.nodes[0].worker.totals == map[P := 0] && r == Agreed(RACE, t)
    ensures r.history.decision.Decided? && !r.history.decision.totalsKnown && r.pool == t.pool
  {
  }

  lemma LeaderAgrees(s: System, counts: Counts, r: System)
    requires |s.nodes| == 2 && s.nodes[1].up == [Response(counts)] && s.nodes[0].worker.state == RequestSent
    requires s.nodes[0].worker.eofs == {P, Q} && s.nodes[0].worker.totals == map[P := 0]
    requires AllZero(MergeById(s.nodes[0].worker.partials, 1, counts))
    requires r == ApplyResponse(RACE, s, 1)
    ensures r.history.decision.Decided? && !r.history.decision.totalsKnown && r.pool == s.pool
  {
    var t := Stored(s, 1);
    assert t.nodes[0].worker == RecordPartials(s.nodes[0].worker, 1, counts);
    ZerosAgree(t.nodes[0].worker);
    OkMeansAgreed(RACE, s, 1, t, r);
    AgreesUnknown(t, r);
  }

  lemma ResponseReachable(c: Config, s: System, w: nat, r: System)
    requires Reachable(c, s) && 0 < w < |s.nodes| && Free(s, 0) && s.nodes[w].up != [] && s.nodes[w].up[0].Response?
    requires r == ApplyResponse(c, s, w)
    ensures Reachable(c, r)
  {
    OneStep(c, s, LeaderGetsResponse(w), r);
  }

  /** The leader waits, the other worker has answered, and the total of Q is not recorded. */
  function Answered(u: Node): System {
    Requested(u, {P, Q}).(nodes := [u, ANSWERED])
  }

  lemma RequestedReachable(u: Node)
    requires u == LeaderAt(RequestSent, ZEROS, MergeById(map[], 0, ZEROS), AddingTotal(Q))
    ensures Reachable(RACE, Requested(u, {P, Q}))
  {
    hide Reachable;
    var counts: Counts := map[Q := 0];
    LeaderCountsQ(At(Recorded({Q}, map[], counts), [Idle, AddingTotal(Q)], {P}, {Q}));
    assert counts[P := 0] == ZEROS;
    LeaderOpensRound(AddingTotal(Q), counts, u);
    assert counts.Keys + {P} == {P, Q};
  }

  lemma AnsweredReachable(u: Node)
    requires u == LeaderAt(RequestSent, ZEROS, MergeById(map[], 0, ZEROS), AddingTotal(Q))
    ensures Reachable(RACE, Answered(u))
  {
    RequestedReachable(u);
    OtherAnswers(u);
  }

  lemma AnswerDecides(u: Node, s: System)
    requires u == LeaderAt(RequestSent, ZEROS, MergeById(map[], 0, ZEROS), AddingTotal(Q)) && s == Answered(u)
    ensures |s.nodes| == 2 && s.nodes[1].up == [Response(ZEROS)] && s.nodes[0].worker.state == RequestSent
    ensures s.nodes[0].worker.eofs == {P, Q} && s.nodes[0].worker.totals == map[P := 0]
    ensures AllZero(MergeById(s.nodes[0].worker.partials, 1, ZEROS))
    ensures Free(s, 0) && Q in s.pool
  {
  }

  /**
   An OK that is wrong: the total of Q was not yet recorded when the last
   answer came, so zero packets counted met zero packets announced.
   */
  lemma ConsensusCanBeWrong()
    ensures exists r :: Reachable(RACE, r) && r.history.decision.Decided? && Q in r.pool && !AllProcessed(r)
  {
    var u := LeaderAt(RequestSent, ZEROS, MergeById(map[], 0, ZEROS), AddingTotal(Q));
    var s := Answered(u);
    AnsweredReachable(u);
    AnswerDecides(u, s);
    var r := ApplyResponse(RACE, s, 1);
    LeaderAgrees(s, ZEROS, r);
    ResponseReachable(RACE, s, 1, r);
  }
}
