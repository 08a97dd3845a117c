/** The control steps taken at one worker, and the opening of a round, keep the invariant. */
module EofControlSteps {
  import opened EofStates
  import opened EofWorker
  import opened EofProtocol
  import opened EofInvariants
  import opened EofLocal
  import opened EofDataSteps
  import opened EofReception

  /** A control step at a worker other than the leader. */
  lemma WorkerStep(c: Config, s: System, w: nat, y: Node, r: System)
    requires Inv(c, s) && 0 < w < c.n
    requires r.nodes == s.nodes[w := y] && r.opening == s.opening && r.history == s.history && r.pool == s.pool
    requires Local(c, y) && SamePacketsAt(s.nodes[w], y) && Tied(c, ViewOf(s), w, y)
    ensures Inv(c, r)
  {
    SamePacketsPut(s, w, y, r);
    SameTotals(c, s, r);
    assert r.nodes[0] == s.nodes[0];
    assert ViewOf(r) == ViewOf(s);
    UnseenTied(c, ViewOf(s), s.nodes, w, y, ViewOf(r), r.nodes);
    UnseenLocal(c, s.nodes, w, y, r.nodes);
    Rebuild(c, s, r);
  }

  lemma AnswerNode(c: Config, v: View, w: nat, x: Node)
    requires Local(c, x) && Tied(c, v, w, x) && w > 0 && x.down != [] && x.down[0].Request?
    ensures var y := AnswerAt(x, v.quiet);
            Local(c, y) && SamePacketsAt(x, y) && Tied(c, v, w, y)
  {
    var y := AnswerAt(x, v.quiet);
    assert x.down == [Request(c.fluxes)] && Early(x.worker.state);
    assert y.worker.processed.Keys == c.fluxes;
    MovedLocal(c, x, y);
  }

  lemma AnswersRequestKeeps(c: Config, s: System, w: nat, r: System)
    requires Inv(c, s) && 0 < w < c.n && s.nodes[w].down != [] && s.nodes[w].down[0].Request?
    requires r == Put(s, w, AnswerAt(s.nodes[w], AllProcessed(s)))
    ensures Inv(c, r)
  {
    InvAt(c, s, w);
    AnswerNode(c, ViewOf(s), w, s.nodes[w]);
    WorkerStep(c, s, w, AnswerAt(s.nodes[w], AllProcessed(s)), r);
  }

  lemma FailNode(c: Config, v: View, w: nat, x: Node)
    requires Local(c, x) && Tied(c, v, w, x) && w > 0 && x.down != [] && x.down[0].ConsensusFail?
    ensures ValidTransition(x.worker.state, PendingEof)
    ensures Local(c, FailAt(x)) && SamePacketsAt(x, FailAt(x)) && Tied(c, v, w, FailAt(x))
  {
    MovedLocal(c, x, FailAt(x));
  }

  lemma ReceivesFailKeeps(c: Config, s: System, w: nat, r: System)
    requires Inv(c, s) && 0 < w < c.n && s.nodes[w].down != [] && s.nodes[w].down[0].ConsensusFail?
    requires r == Put(s, w, FailAt(s.nodes[w]))
    ensures Inv(c, r)
  {
    InvAt(c, s, w);
    FailNode(c, ViewOf(s), w, s.nodes[w]);
    WorkerStep(c, s, w, FailAt(s.nodes[w]), r);
  }

  lemma OkNode(c: Config, v: View, w: nat, x: Node)
    requires Local(c, x) && Tied(c, v, w, x) && w > 0 && x.down != [] && x.down[0].ConsensusOk?
    ensures ValidTransition(x.worker.state, ConsensusAchieved)
    ensures Local(c, OkAt(x)) && SamePacketsAt(x, OkAt(x)) && Tied(c, v, w, OkAt(x))
  {
    assert Link(c, v, w, x);
    assert x.worker.state == ResponseSent && x.down[1..] == [];
    MovedLocal(c, x, OkAt(x));
  }

  lemma ReceivesOkKeeps(c: Config, s: System, w: nat, r: System)
    requires Inv(c, s) && 0 < w < c.n && s.nodes[w].down != [] && s.nodes[w].down[0].ConsensusOk?
    requires r == Put(s, w, OkAt(s.nodes[w]))
    ensures Inv(c, r)
  {
    InvAt(c, s, w);
    OkNode(c, ViewOf(s), w, s.nodes[w]);
    WorkerStep(c, s, w, OkAt(s.nodes[w]), r);
  }

  lemma PostNode(c: Config, v: View, w: nat, x: Node)
    requires Local(c, x) && Tied(c, v, w, x) && w > 0 && x.callback
    ensures Local(c, PostAt(x)) && SamePacketsAt(x, PostAt(x)) && Tied(c, v, w, PostAt(x))
  {
  }

  lemma SendsPostKeeps(c: Config, s: System, w: nat, r: System)
    requires Inv(c, s) && 0 < w < c.n && s.nodes[w].callback
    requires r == Put(s, w, PostAt(s.nodes[w]))
    ensures Inv(c, r)
  {
    InvAt(c, s, w);
    PostNode(c, ViewOf(s), w, s.nodes[w]);
    WorkerStep(c, s, w, PostAt(s.nodes[w]), r);
  }

  // ----- Opening a round -----

  function SnapshotAt(x: Node, late: bool): Node {
    x.(worker := SnapshotOwn(x.worker, 0), past := x.past.(late := late))
  }

  lemma SnapshotNode(c: Config, x: Node, late: bool)
    requires Local(c, x) && Alive(x.worker.state) && x.worker.partials == map[]
    ensures Local(c, SnapshotAt(x, late))
    ensures forall p: Prefix, i: nat :: GetById(SnapshotAt(x, late).worker.partials, p, i) ==
              if i == 0 then x.past.counted[p] else 0
    ensures forall p: Prefix, i: nat :: Has(SnapshotAt(x, late).worker.partials, p, i) <==> i == 0 && p in x.worker.processed
    ensures SnapshotAt(x, late).worker.partials.Keys <= c.fluxes
  {
  }

  /** The others see only that the leader is collecting, with no partials of theirs. */
  lemma TiedSnapshot(c: Config, v: View, i: nat, x: Node, u: View)
    requires Tied(c, v, i, x) && v.state == PendingEof && !v.exact
    requires u == v.(partials := u.partials, collecting := true) && u.recorded == {}
    requires forall p: Prefix :: GetById(u.partials, p, i) == if i == 0 then x.past.counted[p] else 0
    ensures Tied(c, u, i, x)
  {
  }

  lemma SnapshotKeeps(c: Config, s: System, r: System)
    requires Inv(c, s) && s.opening.Snapshotting?
    requires r == ApplySnapshot(s)
    ensures Inv(c, r)
  {
    var x := s.nodes[0];
    var y := SnapshotAt(x, AllProcessed(s));
    InvAt(c, s, 0);
    SnapshotNode(c, x, AllProcessed(s));
    assert r.nodes == s.nodes[0 := y];
    SamePacketsPut(s, 0, y, r);
    UnseenLocal(c, s.nodes, 0, y, r.nodes);
    SameTotals(c, s, r);
    var v, u := ViewOf(s), ViewOf(r);
    assert u == v.(partials := y.worker.partials, collecting := true);
    forall i | 0 <= i < c.n
      ensures Tied(c, u, i, r.nodes[i])
    {
      InvAt(c, s, i);
      TiedSnapshot(c, v, i, s.nodes[i], u);
    }
    Rebuild(c, s, r);
  }

  function RequestAt(x: Node): Node {
    x.(worker := MarkRequestSent(x.worker))
  }

  lemma TiedRequest(c: Config, v: View, i: nat, x: Node, u: View)
    requires Tied(c, v, i, x) && v.state == PendingEof && v.recorded == {} && u == v.(state := RequestSent)
    requires !v.exact
    ensures i > 0 ==> Tied(c, u, i, x.(down := x.down + [Request(c.fluxes)]))
    ensures i == 0 ==> Tied(c, u, i, RequestAt(x))
  {
  }

  lemma RequestNode(c: Config, x: Node, opening: Opening, h: History)
    requires Local(c, x) && LeaderOk(c, x, opening, h) && x.worker.state == PendingEof
    ensures Local(c, RequestAt(x)) && LeaderOk(c, RequestAt(x), NotOpening, h) && SamePacketsAt(x, RequestAt(x))
  {
    MovedLocal(c, x, RequestAt(x));
  }

  lemma RequestNodes(c: Config, v: View, nodes: seq<Node>, u: View, after: seq<Node>)
    requires |nodes| > 0 && v.state == PendingEof && v.recorded == {} && !v.exact && u == v.(state := RequestSent)
    requires forall i :: 0 <= i < |nodes| ==> Local(c, nodes[i]) && Tied(c, v, i, nodes[i])
    requires Local(c, RequestAt(nodes[0]))
    requires after == Fanout(nodes, Request(c.fluxes))[0 := RequestAt(nodes[0])]
    ensures forall i :: 0 <= i < |nodes| ==> Local(c, after[i]) && Tied(c, u, i, after[i])
  {
    forall i | 0 <= i < |nodes|
      ensures Local(c, after[i]) && Tied(c, u, i, after[i])
    {
      TiedRequest(c, v, i, nodes[i], u);
      if i > 0 {
        SameLocal(c, nodes[i], after[i]);
      }
    }
  }

  lemma RequestKeeps(c: Config, s: System, r: System)
    requires Inv(c, s) && s.opening.Requesting?
    requires r == ApplyRequest(s)
    ensures Inv(c, r)
  {
    hide CountersOk, PacketsOk, RegistrationOk, RegistrationPending, Link, PartialOk, ReportOk, ResponseOk;
    InvAt(c, s, 0);
    RequestNode(c, s.nodes[0], s.opening, s.history);
    assert SamePackets(s, r);
    SameTotals(c, s, r);
    assert ViewOf(r) == ViewOf(s).(state := RequestSent);
    RequestNodes(c, ViewOf(s), s.nodes, ViewOf(r), r.nodes);
    Rebuild(c, s, r);
  }
}
