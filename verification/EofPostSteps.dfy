/** The post-consensus reports, up to the downstream EOF, keep the invariant. */
module EofPostSteps {
  import opened Sums
  import opened EofStates
  import opened EofWorker
  import opened EofProtocol
  import opened EofInvariants
  import opened EofLocal
  import opened EofDataSteps
  import opened EofReception
  import opened EofSoundness
  import opened EofDecisionSteps

  /** Worker w has finished its callback and its report is being read. */
  ghost predicate Reporting(c: Config, v: View, w: nat, x: Node, sends: Counts) {
    && v.state == ConsensusAchieved && w !in v.posts
    && (w == 0 ==> x.up == [] && x.callback)
    && (w > 0 ==> x.worker.state == FinishEnabled && !x.callback && x.down == [] && x.up == [Post(sends)])
    && (v.exact ==> forall o: Prefix :: Get(sends, o) == x.past.sent[o])
  }

  lemma PostInLink(c: Config, v: View, w: nat, x: Node)
    requires Tied(c, v, w, x) && w > 0 && x.up != [] && x.up[0].Post?
    ensures Reporting(c, v, w, x, x.up[0].sends)
  {
  }

  /** A report is read only when it is due and is never refused. */
  lemma PostExpected(c: Config, s: System, w: nat)
    requires Inv(c, s) && 0 < w < c.n && s.nodes[w].up != [] && s.nodes[w].up[0].Post?
    ensures ValidTransition(s.nodes[0].worker.state, FinishEnabled)
    ensures Reporting(c, ViewOf(s), w, s.nodes[w], s.nodes[w].up[0].sends)
  {
    hide Local, LeaderOk, PartialsShape, WorkConserved, DecisionOk;
    TiedAt(c, s, w);
    PostInLink(c, ViewOf(s), w, s.nodes[w]);
  }

  lemma OwnPostExpected(c: Config, s: System)
    requires Inv(c, s) && s.nodes[0].callback
    ensures Reporting(c, ViewOf(s), 0, s.nodes[0], s.nodes[0].worker.sent)
  {
    InvAt(c, s, 0);
  }

  /** The reporting node once its report is taken. */
  function TakenAt(x: Node): Node {
    x.(callback := false, up := [])
  }

  /** What the others see when the report of w is stored. */
  ghost predicate Posted(v: View, w: nat, sends: Counts, u: View) {
    u == v.(posts := v.posts + {w}, sentTotals := MergeById(v.sentTotals, w, sends))
  }

  lemma TiedPosted(c: Config, v: View, i: nat, x: Node, w: nat, sends: Counts, u: View)
    requires Tied(c, v, i, x) && v.state == ConsensusAchieved && Posted(v, w, sends, u)
    requires i != w
    ensures Tied(c, u, i, x)
  {
    MergedEntries(v.sentTotals, w, sends);
  }

  lemma TiedTaken(c: Config, v: View, w: nat, x: Node, sends: Counts, u: View)
    requires Tied(c, v, w, x) && Reporting(c, v, w, x, sends) && Posted(v, w, sends, u)
    ensures Tied(c, u, w, TakenAt(x))
  {
  }

  /** What the others see when the leader finishes. */
  ghost predicate Finished(v: View, u: View) {
    u == v.(state := FinishEnabled, partials := map[], posts := {})
  }

  lemma TiedFinished(c: Config, v: View, i: nat, x: Node, u: View)
    requires Tied(c, v, i, x) && v.state == ConsensusAchieved && i in v.posts && Finished(v, u) && !v.collecting
    requires i == 0 ==> x.up == []
    ensures Tied(c, u, i, x)
  {
  }

  /** All nodes after the report of w was stored, the leader's records included. */
  lemma PostedNodes(c: Config, v: View, nodes: seq<Node>, w: nat, sends: Counts, u: View, after: seq<Node>)
    requires w < |nodes| && Posted(v, w, sends, u)
    requires forall i :: 0 <= i < |nodes| ==> Local(c, nodes[i]) && Tied(c, v, i, nodes[i])
    requires Reporting(c, v, w, nodes[w], sends)
    requires |after| == |nodes| && forall i :: 0 <= i < |nodes| ==> PostedNode(nodes[i], after[i], i == w)
    ensures forall i :: 0 <= i < |nodes| ==> Local(c, after[i]) && Tied(c, u, i, after[i])
  {
    forall i | 0 <= i < |nodes|
      ensures Local(c, after[i]) && Tied(c, u, i, after[i])
    {
      assert PostedNode(nodes[i], after[i], i == w);
      SameLocal(c, nodes[i], after[i]);
      if i == w {
        TiedTaken(c, v, w, nodes[w], sends, u);
        TiedSame(c, u, w, TakenAt(nodes[w]), after[w]);
      } else {
        TiedPosted(c, v, i, nodes[i], w, sends, u);
        TiedSame(c, u, i, nodes[i], after[i]);
      }
    }
  }

  /** A node keeps everything but the leader's records, and the reporting one its report. */
  ghost predicate PostedNode(x: Node, y: Node, reporting: bool) {
    && SameLocally(x, y) && y.past == x.past && y.down == x.down
    && y.worker.state == x.worker.state && y.worker.processed == x.worker.processed
    && y.callback == (if reporting then false else x.callback)
    && y.up == (if reporting then [] else x.up)
  }

  lemma PostedLeader(c: Config, x: Node, opening: Opening, h: History, w: nat, sends: Counts, y: Node)
    requires LeaderOk(c, x, opening, h) && x.worker.state == ConsensusAchieved && w < c.n && w !in x.worker.posts
    requires !EmitsEof(x.worker, c.n, w)
    requires y.worker == RecordPost(x.worker, w, sends) && y.up == [] && y.down == [] && y.past == x.past
    requires y.callback == (if w == 0 then false else x.callback)
    ensures LeaderOk(c, y, opening, h)
  {
  }

  /** The stage with the report of w stored. */
  function PostStored(s: System, w: nat, sends: Counts): System
    requires w < |s.nodes|
  {
    var taken := s.nodes[w := TakenAt(s.nodes[w])];
    s.(nodes := taken[0 := taken[0].(worker := RecordPost(s.nodes[0].worker, w, sends))])
  }

  lemma PostStoredLooks(c: Config, s: System, w: nat, sends: Counts, t: System)
    requires w < |s.nodes| && t == PostStored(s, w, sends) && WorkConserved(c, s)
    ensures SamePackets(s, t) && (AllProcessed(t) <==> AllProcessed(s)) && WorkConserved(c, t)
    ensures t.history == s.history && t.opening == s.opening && |t.nodes| == |s.nodes|
    ensures Posted(ViewOf(s), w, sends, ViewOf(t))
    ensures forall i :: 0 <= i < |s.nodes| ==> PostedNode(s.nodes[i], t.nodes[i], i == w)
    ensures t.nodes[0].worker == RecordPost(s.nodes[0].worker, w, sends)
  {
    assert SamePackets(s, t);
    SameTotals(c, s, t);
  }

  lemma PostedShape(c: Config, v: View, u: View, opening: Opening, h: History, g: History)
    requires PartialsShape(c, v, opening, h) && h.decision.Decided? && !opening.Requesting?
    requires u.partials == v.partials || u.partials == map[]
    requires !v.collecting && !u.collecting && g == h.(emitted := g.emitted)
    ensures PartialsShape(c, u, opening, g)
  {
  }

  /** The report of w is stored and others are still missing. */
  lemma PostedKeeps(c: Config, s: System, w: nat, sends: Counts, t: System)
    requires Inv(c, s) && w < c.n && Reporting(c, ViewOf(s), w, s.nodes[w], sends)
    requires !EmitsEof(s.nodes[0].worker, c.n, w)
    requires t == PostStored(s, w, sends)
    ensures Inv(c, t)
  {
    InvAt(c, s, 0);
    PostStoredLooks(c, s, w, sends, t);
    PostedNodes(c, ViewOf(s), s.nodes, w, sends, ViewOf(t), t.nodes);
    PostedLeader(c, s.nodes[0], s.opening, s.history, w, sends, t.nodes[0]);
    PostedShape(c, ViewOf(s), ViewOf(t), s.opening, s.history, s.history);
    PostedDecision(c, s, w, sends, t);
  }

  lemma PostedDecision(c: Config, s: System, w: nat, sends: Counts, r: System)
    requires s.nodes != [] && w < c.n && DecisionOk(c, s) && SamePackets(s, r) && WorkConserved(c, s)
    requires r.history == s.history && s.history.emitted == []
    requires r.nodes[0].worker.sentTotals == MergeById(s.nodes[0].worker.sentTotals, w, sends)
    ensures DecisionOk(c, r)
  {
    SameTotals(c, s, r);
    MergedEntries(s.nodes[0].worker.sentTotals, w, sends);
  }

  // ----- The last report -----

  /** Once every report is stored exactly, the summed totals are the sends of all workers. */
  lemma TotalsExact(c: Config, leader: Worker, nodes: seq<Node>)
    requires |nodes| == c.n
    requires forall o: Prefix, i: nat :: Has(leader.sentTotals, o, i) ==> i < c.n
    requires forall i: nat, o: Prefix :: i < c.n ==> GetById(leader.sentTotals, o, i) == nodes[i].past.sent[o]
    ensures ExactTotals(c, EofTotals(leader, c.auxiliary), nodes)
  {
    forall o: Prefix | !(c.auxiliary && o == AVERAGES)
      ensures (if o in EofTotals(leader, c.auxiliary) then EofTotals(leader, c.auxiliary)[o] else 0) == SentBy(nodes, o)
    {
      FluxSumOverIds(leader.sentTotals, o, c.n);
      SumSame(Ids(c.n), (i: nat) => GetById(leader.sentTotals, o, i), (i: nat) => SentAt(nodes, i, o));
    }
  }

  function FinishAt(x: Node): Node {
    x.(worker := Cleared(x.worker).(state := Update(x.worker.state, FinishEnabled)))
  }

  /** From a state where the last report is stored, the leader clears the client and emits. */
  lemma FinishNodes(c: Config, v: View, nodes: seq<Node>, u: View, after: seq<Node>)
    requires |nodes| > 0 && v.state == ConsensusAchieved && Finished(v, u) && !v.collecting
    requires forall i :: 0 <= i < |nodes| ==> Local(c, nodes[i]) && Tied(c, v, i, nodes[i])
    requires AllWaiting(nodes, v.posts) && 0 in v.posts
    requires nodes[0].worker.state == ConsensusAchieved && nodes[0].up == []
    requires after == nodes[0 := FinishAt(nodes[0])]
    ensures forall i :: 0 <= i < |nodes| ==> Local(c, after[i]) && Tied(c, u, i, after[i])
  {
    forall i | 0 <= i < |nodes|
      ensures Local(c, after[i]) && Tied(c, u, i, after[i])
    {
      TiedFinished(c, v, i, nodes[i], u);
      if i == 0 {
        ClearedLocal(c, nodes[0], after[0]);
      }
    }
  }

  /** With the report of w every worker has reported. */
  lemma LastReport(c: Config, posts: set<nat>, w: nat)
    requires posts <= Ids(c.n) && w < c.n && |posts + {w}| == c.n
    ensures posts + {w} == Ids(c.n)
  {
    SubsetSameSize(posts + {w}, Ids(c.n));
  }

  /** The leader after its last report, and the history with the EOF sent. */
  lemma FinishLeader(c: Config, x: Node, opening: Opening, h: History, e: map<Prefix, int>)
    requires x.worker.state == ConsensusAchieved && x.up == [] && x.down == [] && !x.callback
    requires opening == NotOpening && h.starts == 1 && h.decision.Decided? && h.emitted == []
    requires x.past.arrived == c.fluxes
    ensures LeaderOk(c, FinishAt(x), opening, h.(emitted := [e]))
  {
  }

  /** The stage with the client cleared at the leader and the downstream EOF sent. */
  ghost function Emitted(c: Config, t: System): System
    requires t.nodes != []
  {
    t.(nodes := t.nodes[0 := FinishAt(t.nodes[0])],
       history := t.history.(emitted := t.history.emitted + [EofTotals(t.nodes[0].worker, c.auxiliary)]))
  }

  lemma EmittedLooks(c: Config, t: System, r: System)
    requires t.nodes != [] && r == Emitted(c, t) && WorkConserved(c, t)
    requires t.nodes[0].worker.state == ConsensusAchieved && t.opening == NotOpening
    ensures SamePackets(t, r) && Finished(ViewOf(t), ViewOf(r)) && !ViewOf(t).collecting && !ViewOf(r).collecting
    ensures WorkConserved(c, r) && (AllProcessed(r) <==> AllProcessed(t))
    ensures forall o: Prefix :: SentBy(r.nodes, o) == SentBy(t.nodes, o)
    ensures r.nodes[0].worker.sentTotals == t.nodes[0].worker.sentTotals
  {
    SamePacketsPut(t, 0, FinishAt(t.nodes[0]), r);
    SameTotals(c, t, r);
  }

  /** All stored reports are exact, so the emitted totals are. */
  lemma EmittedExact(c: Config, t: System, v: View)
    requires |t.nodes| == c.n > 0 && v == ViewOf(t) && v.exact && v.state == ConsensusAchieved && v.posts == Ids(c.n)
    requires forall i :: 0 <= i < c.n ==> Tied(c, v, i, t.nodes[i])
    requires forall o: Prefix, i: nat :: Has(t.nodes[0].worker.sentTotals, o, i) ==> i < c.n
    ensures ExactTotals(c, EofTotals(t.nodes[0].worker, c.auxiliary), t.nodes)
  {
    forall i: nat, o: Prefix | i < c.n
      ensures GetById(t.nodes[0].worker.sentTotals, o, i) == t.nodes[i].past.sent[o]
    {
      assert Tied(c, v, i, t.nodes[i]);
      assert ReportOk(v, i, t.nodes[i]);
    }
    TotalsExact(c, t.nodes[0].worker, t.nodes);
  }

  lemma EmittedDecision(c: Config, t: System, r: System)
    requires t.nodes != [] && r == Emitted(c, t) && DecisionOk(c, t) && WorkConserved(c, t) && t.history.emitted == []
    requires t.nodes[0].worker.state == ConsensusAchieved && t.opening == NotOpening
    requires ViewOf(t).exact ==> ExactTotals(c, EofTotals(t.nodes[0].worker, c.auxiliary), t.nodes)
    ensures DecisionOk(c, r)
  {
    EmittedLooks(c, t, r);
  }

  /** The leader with the last report stored, before it finishes. */
  lemma LastLeader(c: Config, x: Node, opening: Opening, h: History, w: nat, sends: Counts, y: Node)
    requires LeaderOk(c, x, opening, h) && x.worker.state == ConsensusAchieved && w < c.n
    requires EmitsEof(x.worker, c.n, w) && y.worker == RecordPost(x.worker, w, sends)
    requires PostedNode(x, y, 0 == w)
    ensures y.worker.posts == Ids(c.n) && y.up == [] && y.down == [] && !y.callback && y.past.arrived == c.fluxes
  {
    LastReport(c, x.worker.posts, w);
    assert 0 in Ids(c.n);
  }

  /** The stage at that moment. */
  lemma LastStored(c: Config, s: System, w: nat, sends: Counts, t: System)
    requires Inv(c, s) && w < c.n && Reporting(c, ViewOf(s), w, s.nodes[w], sends)
    requires EmitsEof(s.nodes[0].worker, c.n, w) && t == PostStored(s, w, sends)
    ensures |t.nodes| == c.n && WorkConserved(c, t) && DecisionOk(c, t)
    ensures t.history == s.history && t.opening == s.opening && Posted(ViewOf(s), w, sends, ViewOf(t))
    ensures forall i :: 0 <= i < c.n ==> Local(c, t.nodes[i]) && Tied(c, ViewOf(t), i, t.nodes[i])
    ensures t.nodes[0].worker == RecordPost(s.nodes[0].worker, w, sends)
    ensures t.nodes[0].worker.posts == Ids(c.n) && t.nodes[0].up == [] && t.nodes[0].down == [] && !t.nodes[0].callback
    ensures t.nodes[0].past.arrived == c.fluxes
  {
    InvAt(c, s, 0);
    PostStoredLooks(c, s, w, sends, t);
    PostedNodes(c, ViewOf(s), s.nodes, w, sends, ViewOf(t), t.nodes);
    PostedDecision(c, s, w, sends, t);
    LastLeader(c, s.nodes[0], s.opening, s.history, w, sends, t.nodes[0]);
  }

  /** The last report: the leader sends the downstream EOF and clears the client. */
  lemma FinishKeeps(c: Config, s: System, w: nat, sends: Counts, t: System, r: System)
    requires Inv(c, s) && w < c.n && Reporting(c, ViewOf(s), w, s.nodes[w], sends)
    requires EmitsEof(s.nodes[0].worker, c.n, w)
    requires t == PostStored(s, w, sends) && r == Emitted(c, t)
    ensures Inv(c, r)
  {
    LastStored(c, s, w, sends, t);
    FinishLeader(c, t.nodes[0], t.opening, t.history, EofTotals(t.nodes[0].worker, c.auxiliary));
    if ViewOf(t).exact {
      EmittedExact(c, t, ViewOf(t));
    }
    EmittedDecision(c, t, r);
    EmittedLooks(c, t, r);
    FinishNodes(c, ViewOf(t), t.nodes, ViewOf(r), r.nodes);
    PostedShape(c, ViewOf(s), ViewOf(r), s.opening, s.history, r.history);
  }

  lemma PostIs(c: Config, s: System, w: nat, sends: Counts, popped: System)
    requires w < |s.nodes| && popped == Put(s, w, TakenAt(s.nodes[w]))
    requires s.nodes[0].worker.state == ConsensusAchieved
    ensures var t := PostStored(s, w, sends);
            ApplyPost(c, popped, w, sends) == if EmitsEof(s.nodes[0].worker, c.n, w) then Emitted(c, t) else t
  {
  }

  /** The report of w, with w's own flag and channel already taken care of. */
  lemma ReportKeeps(c: Config, s: System, w: nat, sends: Counts, r: System)
    requires Inv(c, s) && w < c.n && Reporting(c, ViewOf(s), w, s.nodes[w], sends)
    requires r == ApplyPost(c, Put(s, w, TakenAt(s.nodes[w])), w, sends)
    ensures Inv(c, r)
  {
    PostIs(c, s, w, sends, Put(s, w, TakenAt(s.nodes[w])));
    var t := PostStored(s, w, sends);
    if EmitsEof(s.nodes[0].worker, c.n, w) {
      FinishKeeps(c, s, w, sends, t, r);
    } else {
      PostedKeeps(c, s, w, sends, r);
    }
  }

  lemma PoppedIsTaken(x: Node, sends: Counts)
    requires x.up == [Post(sends)] && !x.callback
    ensures x.(up := x.up[1..]) == TakenAt(x)
  {
  }

  lemma OwnPostKeeps(c: Config, s: System, r: System)
    requires Inv(c, s) && s.nodes[0].callback && r == ApplyOwnPost(c, s)
    ensures Inv(c, r)
  {
    OwnPostExpected(c, s);
    assert s.nodes[0].(callback := false) == TakenAt(s.nodes[0]);
    ReportKeeps(c, s, 0, s.nodes[0].worker.sent, r);
  }

  lemma GetsPostKeeps(c: Config, s: System, w: nat, r: System)
    requires Inv(c, s) && 0 < w < c.n && s.nodes[w].up != [] && s.nodes[w].up[0].Post? && r == ApplyGetsPost(c, s, w)
    ensures Inv(c, r)
  {
    PostExpected(c, s, w);
    PoppedIsTaken(s.nodes[w], s.nodes[w].up[0].sends);
    ReportKeeps(c, s, w, s.nodes[w].up[0].sends, r);
  }
}
