/** A small stage that completes: the conditions of the general results can be met. */
module EofExample {
  import opened EofProtocol
  import opened EofInvariants
  import opened EofRuns
  import opened EofCleanRuns
  import opened EofTermination
  import opened EofRace

  /** Two workers and one upstream flux that announces no packets. */
  const ONE := Config(2, 2, {P}, multiset{}, false)

  function Lone(leader: Node): System {
    System([leader, FRESH], NotOpening, multiset{}, QUIET)
  }

  /** The run reaches the state. */
  ghost predicate Leads(steps: seq<Step>, s: System) {
    Runs(ONE, Init(ONE), steps) && After(ONE, Init(ONE), steps) == s
  }

  lemma Extend(steps: seq<Step>, s: System, step: Step, r: System)
    requires Leads(steps, s) && Enabled(ONE, s, step) && r == Apply(ONE, s, step)
    ensures Leads(steps + [step], r)
  {
    RunsExtend(ONE, Init(ONE), steps, step);
  }

  lemma StartLeads()
    ensures ValidConfig(ONE) && Leads([], Lone(FRESH))
  {
    assert |{P}| == 1;
    assert NewNode(ONE).pcs == [Idle, Idle];
    assert NewNode(ONE) == FRESH;
    assert Init(ONE).nodes == [FRESH, FRESH];
  }

  /** A locked block of the registration at the leader. */
  lemma BlockLeads(steps: seq<Step>, x: Node, y: Node)
    requires Leads(steps, Lone(x)) && |x.pcs| == 2 && y == RegisterAt(ONE, x, 1)
    requires x.pcs[1] != Idle && !x.pcs[1].Checking? && !x.pcs[1].Rebroadcasting?
    ensures Leads(steps + [Register(0, 1)], Lone(y))
  {
    assert [x, FRESH][0 := y] == [y, FRESH];
    Extend(steps, Lone(x), Register(0, 1), Lone(y));
  }

  lemma ArrivalLeads(y: Node)
    requires y == At(Recorded({}, map[], map[]), [Idle, AddingEof(P)], {}, {P})
    ensures Leads([EofArrives(0, 1, P)], Lone(y))
  {
    StartLeads();
    assert [Idle, Idle][1 := AddingEof(P)] == y.pcs;
    assert [FRESH, FRESH][0 := y] == [y, FRESH];
    Extend([], Lone(FRESH), EofArrives(0, 1, P), Lone(y));
    assert [] + [EofArrives(0, 1, P)] == [EofArrives(0, 1, P)];
  }

  /** No send is counted in the run. */
  predicate Sendless(steps: seq<Step>) {
    forall k :: 0 <= k < |steps| ==> !steps[k].SendCounted?
  }

  /** The leader has registered the only EOF and passes it on. */
  lemma RegisteredLeads() returns (steps: seq<Step>)
    ensures Sendless(steps)
    ensures Leads(steps, Lone(At(Recorded({P}, map[P := 0], map[P := 0]), [Idle, Rebroadcasting(P)], {}, {P})))
  {
    var a := At(Recorded({}, map[], map[]), [Idle, AddingEof(P)], {}, {P});
    var b := At(Recorded({P}, map[], map[]), [Idle, InitCounting(P)], {}, {P});
    var d := At(Recorded({P}, map[], map[P := 0]), [Idle, AddingTotal(P)], {}, {P});
    var e := At(Recorded({P}, map[P := 0], map[P := 0]), [Idle, Rebroadcasting(P)], {}, {P});
    ArrivalLeads(a);
    steps := [EofArrives(0, 1, P)];
    assert a.pcs[1 := InitCounting(P)] == b.pcs;
    BlockLeads(steps, a, b);
    steps := steps + [Register(0, 1)];
    assert b.pcs[1 := AddingTotal(P)] == d.pcs;
    BlockLeads(steps, b, d);
    steps := steps + [Register(0, 1)];
    assert d.pcs[1 := Rebroadcasting(P)] == e.pcs;
    BlockLeads(steps, d, e);
    steps := steps + [Register(0, 1)];
  }

  const COPIED := FRESH.(copies := {P})

  /** After the check consensus has started. */
  lemma StartedLeads() returns (steps: seq<Step>, s: System)
    ensures Sendless(steps)
    ensures Leads(steps, s) && s.nodes != [] && Started(s.nodes[0].worker.state) && AllProcessed(s)
  {
    var e := At(Recorded({P}, map[P := 0], map[P := 0]), [Idle, Rebroadcasting(P)], {}, {P});
    var f := e.(pcs := [Idle, Checking(P)]);
    steps := RegisteredLeads();
    var passed := System([f, COPIED], NotOpening, multiset{}, QUIET);
    assert e.pcs[1 := Checking(P)] == f.pcs;
    assert [e, FRESH][0 := f] == [f, FRESH];
    var copied := Copied([f, FRESH], 0, P);
    assert copied[0] == f && copied[1] == COPIED;
    assert copied == [f, COPIED];
    Extend(steps, Lone(e), Register(0, 1), passed);
    steps := steps + [Register(0, 1)];
    s := CheckLeads(steps, f, passed);
    steps := steps + [Register(0, 1)];
  }

  lemma CheckLeads(steps: seq<Step>, f: Node, passed: System) returns (s: System)
    requires f == At(Recorded({P}, map[P := 0], map[P := 0]), [Idle, Checking(P)], {}, {P})
    requires passed == System([f, COPIED], NotOpening, multiset{}, QUIET) && Leads(steps, passed)
    ensures Leads(steps + [Register(0, 1)], s) && s.nodes != [] && Started(s.nodes[0].worker.state) && AllProcessed(s)
  {
    var g := RegisterAt(ONE, f, 1);
    assert |{P}| == 1;
    assert [f, COPIED][0 := g] == [g, COPIED];
    s := System([g, COPIED], Snapshotting(1), multiset{}, History(1, {}, {}, Undecided, []));
    Extend(steps, passed, Register(0, 1), s);
  }

  /** So a stage exists that runs to its downstream EOF. */
  lemma SomeStageCompletes()
    ensures exists steps, rest ::
              && Runs(ONE, Init(ONE), steps) && Runs(ONE, After(ONE, Init(ONE), steps), rest)
              && |After(ONE, After(ONE, Init(ONE), steps), rest).history.emitted| == 1
  {
    StartLeads();
    var steps, s := StartedLeads();
    InitHolds(ONE);
    SingleFluxIsClean(ONE, Init(ONE), steps);
    EndOfDataCanBeReached(ONE, steps, s);
    var rest :| Runs(ONE, s, rest) && ControlOnly(rest) && |After(ONE, s, rest).history.emitted| == 1;
  }
}
