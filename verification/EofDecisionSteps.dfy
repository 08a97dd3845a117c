/** The leader's decision and the post-consensus reports keep the invariant. */
module EofDecisionSteps {
  import opened Sums
  import opened EofStates
  import opened EofWorker
  import opened EofProtocol
  import opened EofInvariants
  import opened EofLocal
  import opened EofDataSteps
  import opened EofReception
  import opened EofSoundness

  // ----- A response is recorded -----

  /** Merging one worker's counts changes that worker's entries only. */
  lemma MergedEntries(m: CountsById, id: nat, counts: Counts)
    ensures forall p: Prefix, i: nat :: GetById(MergeById(m, id, counts), p, i) ==
              if i == id && p in counts then counts[p] else GetById(m, p, i)
    ensures forall p: Prefix, i: nat :: Has(MergeById(m, id, counts), p, i) <==>
              (Has(m, p, i) || (i == id && p in counts))
  {
  }

  lemma ResponseInLink(c: Config, v: View, w: nat, x: Node)
    requires Tied(c, v, w, x) && w > 0 && x.up != [] && x.up[0].Response?
    ensures v.state == RequestSent && w !in v.recorded && |x.up| == 1 && x.down == []
    ensures x.worker.state == ResponseSent && !x.callback && x.up[0].counts.Keys == c.fluxes
  {
  }

  /** A response is read only while the leader waits for it, and is never refused. */
  lemma ResponseExpected(c: Config, s: System, w: nat)
    requires Inv(c, s) && 0 < w < c.n && s.nodes[w].up != [] && s.nodes[w].up[0].Response?
    ensures s.nodes[0].worker.state == RequestSent
    ensures ValidTransition(s.nodes[0].worker.state, ResponseSent)
    ensures w !in s.history.recorded && |s.nodes[w].up| == 1 && s.nodes[w].down == []
    ensures s.nodes[w].worker.state == ResponseSent && !s.nodes[w].callback
    ensures s.nodes[w].up[0].counts.Keys == c.fluxes
  {
    hide Local, LeaderOk, PartialsShape, WorkConserved, DecisionOk;
    TiedAt(c, s, w);
    ResponseInLink(c, ViewOf(s), w, s.nodes[w]);
  }

  /** The recorded partials have the shape of a round with one more worker. */
  lemma RecordedShape(c: Config, v: View, opening: Opening, h: History, w: nat, counts: Counts, m: CountsById)
    requires PartialsShape(c, v, opening, h) && v.state == RequestSent && v.collecting && opening == NotOpening
    requires 0 < w < c.n && counts.Keys == c.fluxes && m == MergeById(v.partials, w, counts)
    ensures PartialsShape(c, v.(partials := m, recorded := v.recorded + {w}), opening, h.(recorded := h.recorded + {w}))
  {
    MergedEntries(v.partials, w, counts);
  }

  /** The worker's own link after its response was recorded. */
  lemma TiedRecorded(c: Config, v: View, w: nat, x: Node, u: View, y: Node)
    requires Tied(c, v, w, x) && v.state == RequestSent && w > 0 && x.up != [] && x.up[0].Response?
    requires y == x.(up := x.up[1..])
    requires u == v.(partials := MergeById(v.partials, w, x.up[0].counts), recorded := v.recorded + {w})
    requires forall p :: p in x.past.counted ==> p in c.fluxes
    ensures Tied(c, u, w, y)
  {
  }

  lemma TiedOther(c: Config, v: View, w: nat, i: nat, x: Node, u: View, counts: Counts)
    requires Tied(c, v, i, x) && v.state == RequestSent && i != w
    requires u == v.(partials := MergeById(v.partials, w, counts), recorded := v.recorded + {w})
    ensures Tied(c, u, i, x)
  {
  }

  lemma StoredNode(c: Config, v: View, w: nat, i: nat, x: Node, u: View, counts: Counts, y: Node)
    requires Local(c, x) && Tied(c, v, i, x) && v.state == RequestSent && w > 0
    requires u == v.(partials := MergeById(v.partials, w, counts), recorded := v.recorded + {w})
    requires i == 0 ==> y == x.(worker := RecordPartials(x.worker, w, counts))
    requires i == w ==> x.up != [] && x.up[0].Response? && x.up[0].counts == counts && y == x.(up := x.up[1..])
    requires i != 0 && i != w ==> y == x
    ensures Local(c, y) && Tied(c, u, i, y)
  {
    SameLocal(c, x, y);
    if i == w {
      TiedRecorded(c, v, w, x, u, y);
    } else {
      TiedOther(c, v, w, i, x, u, counts);
      TiedSame(c, u, i, x, y);
    }
  }

  /** Every node after the response of w was recorded. */
  lemma StoredNodes(c: Config, v: View, nodes: seq<Node>, w: nat, u: View, after: seq<Node>)
    requires 0 < w < |nodes| && nodes[w].up != [] && nodes[w].up[0].Response? && v.state == RequestSent
    requires forall i :: 0 <= i < |nodes| ==> Local(c, nodes[i]) && Tied(c, v, i, nodes[i])
    requires u == v.(partials := MergeById(v.partials, w, nodes[w].up[0].counts), recorded := v.recorded + {w})
    requires after == nodes[w := nodes[w].(up := nodes[w].up[1..])][
                        0 := nodes[0].(worker := RecordPartials(nodes[0].worker, w, nodes[w].up[0].counts))]
    ensures forall i :: 0 <= i < |nodes| ==> Local(c, after[i]) && Tied(c, u, i, after[i])
  {
    forall i | 0 <= i < |nodes|
      ensures Local(c, after[i]) && Tied(c, u, i, after[i])
    {
      StoredNode(c, v, w, i, nodes[i], u, nodes[w].up[0].counts, after[i]);
    }
  }

  lemma StoredLooks(c: Config, s: System, w: nat, r: System)
    requires 0 < w < |s.nodes| && s.nodes[w].up != [] && s.nodes[w].up[0].Response?
    requires r == Stored(s, w)
    ensures SamePackets(s, r) && r.opening == s.opening
    ensures r.history == s.history.(recorded := s.history.recorded + {w})
    ensures r.nodes[0] == s.nodes[0].(worker := RecordPartials(s.nodes[0].worker, w, s.nodes[w].up[0].counts))
  {
  }

  lemma StoredLeader(c: Config, x: Node, opening: Opening, h: History, id: nat, counts: Counts)
    requires LeaderOk(c, x, opening, h)
    ensures LeaderOk(c, x.(worker := RecordPartials(x.worker, id, counts)), opening, h.(recorded := h.recorded + {id}))
  {
  }

  lemma StoredKeeps(c: Config, s: System, w: nat, r: System)
    requires Inv(c, s) && 0 < w < c.n && s.nodes[w].up != [] && s.nodes[w].up[0].Response?
    requires r == Stored(s, w)
    ensures Inv(c, r)
  {
    ResponseExpected(c, s, w);
    StoredLooks(c, s, w, r);
    SameTotals(c, s, r);
    var v, u, counts := ViewOf(s), ViewOf(r), s.nodes[w].up[0].counts;
    assert u == v.(partials := MergeById(v.partials, w, counts), recorded := v.recorded + {w});
    StoredNodes(c, v, s.nodes, w, u, r.nodes);
    StoredLeader(c, s.nodes[0], s.opening, s.history, w, counts);
    RecordedShape(c, v, s.opening, s.history, w, counts, u.partials);
    Rebuild(c, s, r);
  }

  // ----- The decision -----

  lemma ShapeRecorded(c: Config, v: View, opening: Opening, h: History, m: CountsById)
    requires PartialsShape(c, v, opening, h) && v.collecting && m == v.partials && c.fluxes != {} && c.n > 0
    requires m.Keys == c.fluxes && forall p :: p in m ==> m[p].Keys == Ids(c.n)
    ensures forall i :: 0 < i < c.n ==> i in h.recorded
    ensures h.snapshotKeys == c.fluxes
  {
    var p :| p in c.fluxes;
    forall i | 0 < i < c.n
      ensures i in h.recorded
    {
      assert i in m[p].Keys;
      assert Has(m, p, i);
    }
    forall q | q in c.fluxes
      ensures q in h.snapshotKeys
    {
      assert 0 in m[q].Keys;
      assert Has(m, q, 0);
    }
  }

  /** With all partials in, every other worker's response is recorded. */
  lemma AllRecorded(c: Config, s: System)
    requires Inv(c, s) && s.nodes[0].worker.state == RequestSent
    requires HaveAllPartials(s.nodes[0].worker, c.n)
    ensures AllWaiting(s.nodes, s.history.recorded)
    ensures s.history.snapshotKeys == c.fluxes
  {
    assert s.nodes[0].worker.eofs == c.fluxes;
    ShapeRecorded(c, ViewOf(s), s.opening, s.history, s.nodes[0].worker.partials);
  }

  lemma TiedFailed(c: Config, v: View, i: nat, x: Node, u: View)
    requires Tied(c, v, i, x) && v.state == RequestSent && !v.exact
    requires i > 0 ==> i in v.recorded
    requires u == v.(state := PendingEof, partials := map[], collecting := false, recorded := {})
    ensures i > 0 ==> Tied(c, u, i, x.(down := x.down + [ConsensusFail]))
    ensures i == 0 ==> Tied(c, u, i, x)
  {
  }

  lemma FailedLeader(c: Config, x: Node, opening: Opening, h: History, y: Node)
    requires Local(c, x) && LeaderOk(c, x, opening, h) && x.worker.state == RequestSent && c.threads > 0
    requires y == FailedAt(x)
    ensures Local(c, y) && LeaderOk(c, y, Snapshotting(0), h.(recorded := {}, snapshotKeys := {}))
    ensures SamePacketsAt(x, y) && y.worker.state == PendingEof && LooksSame(x.(worker := y.worker), y)
  {
    MovedLocal(c, x, y);
  }

  /** All other workers have answered and wait for the outcome. */
  ghost predicate AllWaiting(nodes: seq<Node>, recorded: set<nat>) {
    forall i :: 0 < i < |nodes| ==> i in recorded
  }

  lemma FailedNodes(c: Config, v: View, nodes: seq<Node>, u: View, after: seq<Node>)
    requires |nodes| > 0 && c.threads > 0
    requires forall i :: 0 <= i < |nodes| ==> Local(c, nodes[i]) && Tied(c, v, i, nodes[i])
    requires AllWaiting(nodes, v.recorded) && v.state == RequestSent && !v.exact
    requires u == v.(state := PendingEof, partials := map[], collecting := false, recorded := {})
    requires nodes[0].worker.state == RequestSent && CallbackCount(nodes[0])
    requires after == Fanout(nodes, ConsensusFail)[0 := FailedAt(nodes[0])]
    ensures forall i :: 0 <= i < |nodes| ==> Local(c, after[i]) && Tied(c, u, i, after[i])
  {
    forall i | 0 <= i < |nodes|
      ensures Local(c, after[i]) && Tied(c, u, i, after[i])
    {
      TiedFailed(c, v, i, nodes[i], u);
      if i > 0 {
        SameLocal(c, nodes[i], after[i]);
      } else {
        MovedLocal(c, nodes[0], after[0]);
      }
    }
  }

  lemma FanoutPackets(s: System, m: ToWorker, y: Node, r: System)
    requires s.nodes != [] && r.nodes == Fanout(s.nodes, m)[0 := y] && r.pool == s.pool && SamePacketsAt(s.nodes[0], y)
    ensures SamePackets(s, r)
  {
  }

  lemma FailedKeeps(c: Config, s: System, r: System)
    requires Inv(c, s) && s.nodes[0].worker.state == RequestSent
    requires HaveAllPartials(s.nodes[0].worker, c.n)
    requires r == Failed(s)
    ensures Inv(c, r)
  {
    AllRecorded(c, s);
    InvAt(c, s, 0);
    FailedLeader(c, s.nodes[0], s.opening, s.history, r.nodes[0]);
    FailedLooks(c, s, r);
    FailedNodes(c, ViewOf(s), s.nodes, ViewOf(r), r.nodes);
    Rebuild(c, s, r);
  }

  lemma FailedLooks(c: Config, s: System, r: System)
    requires s.nodes != [] && s.nodes[0].worker.state == RequestSent && s.opening == NotOpening
    requires r == Failed(s) && WorkConserved(c, s)
    ensures SamePackets(s, r)
    ensures ViewOf(r) == ViewOf(s).(state := PendingEof, partials := map[], collecting := false, recorded := {})
  {
  }

  lemma TiedAgreed(c: Config, v: View, i: nat, x: Node, u: View, y: Node)
    requires Tied(c, v, i, x) && v.state == RequestSent && v.posts == {} && v.sentTotals == map[]
    requires i > 0 ==> i in v.recorded && y == x.(down := x.down + [ConsensusOk])
    requires i == 0 ==> x.up == [] && y.up == [] && y.past == x.past.(callbacks := y.past.callbacks)
    requires u == v.(state := ConsensusAchieved, collecting := false, exact := u.exact)
    ensures Tied(c, u, i, y)
  {
  }

  lemma AgreedLeader(c: Config, x: Node, opening: Opening, h: History, d: Decision, y: Node)
    requires Local(c, x) && LeaderOk(c, x, opening, h) && x.worker.state == RequestSent && d.Decided?
    requires y == AgreedAt(x)
    requires c.n > 0
    ensures y.worker.state == ConsensusAchieved
    ensures Local(c, y) && LeaderOk(c, y, opening, h.(decision := d)) && SamePacketsAt(x, y)
  {
    MovedLocal(c, x, y);
    assert 0 in Ids(c.n);
  }

  /** The decision is right exactly if every total was known. */
  /** The leader's partials never overstate, and its totals are those announced. */
  lemma LeaderBounds(c: Config, s: System)
    requires Inv(c, s)
    ensures LowerBounds(s.nodes[0].worker.partials, s.nodes) && TotalsOk(c, s.nodes[0].worker.totals)
  {
    hide WorkConserved, DecisionOk, PartialsShape, LeaderOk;
    InvAt(c, s, 0);
    forall i: nat, p: Prefix | i < c.n
      ensures GetById(s.nodes[0].worker.partials, p, i) <= s.nodes[i].past.counted[p]
    {
      InvAt(c, s, i);
    }
  }

  lemma DecisionExact(c: Config, s: System)
    requires Inv(c, s) && s.nodes[0].worker.state == RequestSent
    requires HaveAllPartials(s.nodes[0].worker, c.n) && TotalsAgree(s.nodes[0].worker, c.auxiliary)
    ensures TotalsKnown(c, s.nodes[0].worker.totals) <==> SnapshotsComplete(c, s.nodes[0].worker.partials)
    ensures SnapshotsComplete(c, s.nodes[0].worker.partials) ==> AllProcessed(s)
  {
    hide HaveAllPartials, TotalsAgree, TotalsKnown, SnapshotsComplete, AllProcessed, LowerBounds, TotalsOk, Tied, WorkConserved,
         DecisionOk, PartialsShape;
    var w := s.nodes[0].worker;
    InvAt(c, s, 0);
    LeaderBounds(c, s);
    AgreementExact(c, s, w);
    if SnapshotsComplete(c, w.partials) {
      forall i | 0 <= i < c.n
        ensures PacketsOk(c, s.nodes[i])
      {
        InvAt(c, s, i);
      }
      CompleteMeansProcessed(c, s, w.partials);
    }
  }

  lemma AgreedNodes(c: Config, v: View, nodes: seq<Node>, u: View, y: Node, after: seq<Node>)
    requires |nodes| > 0 && after == Fanout(nodes, ConsensusOk)[0 := y] && Local(c, y)
    requires forall i :: 0 <= i < |nodes| ==> Local(c, nodes[i]) && Tied(c, v, i, nodes[i])
    requires AllWaiting(nodes, v.recorded) && v.state == RequestSent && v.posts == {} && v.sentTotals == map[]
    requires u == v.(state := ConsensusAchieved, collecting := false, exact := u.exact)
    requires nodes[0].up == [] && y.up == [] && y.past == nodes[0].past.(callbacks := y.past.callbacks)
    ensures forall i :: 0 <= i < |nodes| ==> Local(c, after[i]) && Tied(c, u, i, after[i])
  {
    forall i | 0 <= i < |nodes|
      ensures Local(c, after[i]) && Tied(c, u, i, after[i])
    {
      TiedAgreed(c, v, i, nodes[i], u, after[i]);
      if i > 0 {
        SameLocal(c, nodes[i], after[i]);
      }
    }
  }

  lemma AgreedShape(c: Config, v: View, u: View, opening: Opening, h: History, d: Decision)
    requires PartialsShape(c, v, opening, h) && !u.collecting && d.Decided?
    requires u.partials == v.partials && !opening.Requesting?
    ensures PartialsShape(c, u, opening, h.(decision := d))
  {
  }

  lemma AgreedKeeps(c: Config, s: System, r: System)
    requires Inv(c, s) && s.nodes[0].worker.state == RequestSent
    requires HaveAllPartials(s.nodes[0].worker, c.n) && TotalsAgree(s.nodes[0].worker, c.auxiliary)
    requires r == Agreed(c, s)
    ensures Inv(c, r)
  {
    AllRecorded(c, s);
    DecisionExact(c, s);
    InvAt(c, s, 0);
    AgreedLeader(c, s.nodes[0], s.opening, s.history, r.history.decision, r.nodes[0]);
    AgreedLooks(c, s, r);
    var v, u := ViewOf(s), ViewOf(r);
    AgreedNodes(c, v, s.nodes, u, r.nodes[0], r.nodes);
    AgreedShape(c, v, u, s.opening, s.history, r.history.decision);
  }

  lemma AgreedLooks(c: Config, s: System, r: System)
    requires s.nodes != [] && s.nodes[0].worker.state == RequestSent && s.opening == NotOpening
    requires r == Agreed(c, s) && WorkConserved(c, s) && s.nodes[0].worker.sentTotals == map[]
    requires s.history.emitted == []
    requires TotalsKnown(c, s.nodes[0].worker.totals) <==> SnapshotsComplete(c, s.nodes[0].worker.partials)
    requires SnapshotsComplete(c, s.nodes[0].worker.partials) ==> AllProcessed(s)
    ensures ViewOf(r) == ViewOf(s).(state := ConsensusAchieved, collecting := false, exact := ViewOf(r).exact)
    ensures WorkConserved(c, r) && DecisionOk(c, r)
  {
    FanoutPackets(s, ConsensusOk, r.nodes[0], r);
    SameTotals(c, s, r);
    assert AllProcessed(r) <==> AllProcessed(s);
  }

  lemma ResponseKeeps(c: Config, s: System, w: nat, r: System)
    requires Inv(c, s) && 0 < w < c.n && s.nodes[w].up != [] && s.nodes[w].up[0].Response?
    requires r == ApplyResponse(c, s, w)
    ensures Inv(c, r)
  {
    ResponseExpected(c, s, w);
    var t := Stored(s, w);
    StoredKeeps(c, s, w, t);
    assert t.nodes[0].worker.state == RequestSent;
    if HaveAllPartials(t.nodes[0].worker, c.n) {
      if TotalsAgree(t.nodes[0].worker, c.auxiliary) {
        AgreedKeeps(c, t, r);
      } else {
        FailedKeeps(c, t, r);
      }
    }
  }
}
