/** Steps of the data plane and of the reception of EOFs keep the invariant. */
module EofDataSteps {
  import opened Sums
  import opened EofStates
  import opened EofWorker
  import opened EofProtocol
  import opened EofInvariants
  import opened EofLocal

  /** Packets and sends are where they were. */
  ghost predicate SamePackets(s: System, r: System) {
    && r.pool == s.pool && |r.nodes| == |s.nodes|
    && forall i :: 0 <= i < |s.nodes| ==>
         && r.nodes[i].own == s.nodes[i].own
         && r.nodes[i].inFlight == s.nodes[i].inFlight
         && r.nodes[i].past.counted == s.nodes[i].past.counted
         && r.nodes[i].past.sent == s.nodes[i].past.sent
  }

  predicate SamePacketsAt(x: Node, y: Node) {
    && y.own == x.own && y.inFlight == x.inFlight
    && y.past.counted == x.past.counted && y.past.sent == x.past.sent
  }

  lemma SamePacketsPut(s: System, w: nat, y: Node, r: System)
    requires w < |s.nodes| && r.nodes == s.nodes[w := y] && r.pool == s.pool && SamePacketsAt(s.nodes[w], y)
    ensures SamePackets(s, r)
  {
  }

  lemma SameTotals(c: Config, s: System, r: System)
    requires SamePackets(s, r) && WorkConserved(c, s)
    ensures WorkConserved(c, r) && (AllProcessed(r) <==> AllProcessed(s))
    ensures forall o: Prefix :: SentBy(r.nodes, o) == SentBy(s.nodes, o)
  {
    forall p: Prefix
      ensures Loads(r.nodes, p) == Loads(s.nodes, p)
    {
      SumSame(Ids(|s.nodes|), (i: nat) => Load(r.nodes, i, p), (i: nat) => Load(s.nodes, i, p));
    }
    forall o: Prefix
      ensures SentBy(r.nodes, o) == SentBy(s.nodes, o)
    {
      SumSame(Ids(|s.nodes|), (i: nat) => SentAt(r.nodes, i, o), (i: nat) => SentAt(s.nodes, i, o));
    }
  }

  lemma DecisionSame(c: Config, s: System, r: System)
    requires SamePackets(s, r) && WorkConserved(c, s) && s.nodes != [] && DecisionOk(c, s)
    requires r.history.decision == s.history.decision && r.history.emitted == s.history.emitted
    requires r.nodes[0].worker.sentTotals == s.nodes[0].worker.sentTotals
    ensures DecisionOk(c, r)
  {
    SameTotals(c, s, r);
    if s.history.decision.Decided? && s.history.decision.totalsKnown {
      forall k | 0 <= k < |r.history.emitted|
        ensures ExactTotals(c, r.history.emitted[k], r.nodes)
      {
        assert ExactTotals(c, s.history.emitted[k], s.nodes);
      }
    }
  }

  lemma UnseenTied(c: Config, v: View, nodes: seq<Node>, w: nat, y: Node, u: View, after: seq<Node>)
    requires w < |nodes| && after == nodes[w := y] && (u == v || u == v.(quiet := true))
    requires forall i :: 0 <= i < |nodes| ==> Tied(c, v, i, nodes[i])
    requires Tied(c, v, w, y)
    ensures forall i :: 0 <= i < |nodes| ==> Tied(c, u, i, after[i])
  {
  }

  lemma UnseenLocal(c: Config, nodes: seq<Node>, w: nat, y: Node, after: seq<Node>)
    requires w < |nodes| && after == nodes[w := y] && Local(c, y)
    requires forall i :: 0 <= i < |nodes| ==> Local(c, nodes[i])
    ensures forall i :: 0 <= i < |nodes| ==> Local(c, after[i])
  {
  }

  /** A step at node w that the others cannot see. */
  lemma Unseen(c: Config, s: System, w: nat, y: Node, r: System)
    requires Inv(c, s) && w < c.n
    requires r.nodes == s.nodes[w := y] && r.opening == s.opening && r.history == s.history
    requires Local(c, y)
    requires ViewOf(r) == ViewOf(s).(quiet := AllProcessed(r))
    requires AllProcessed(s) ==> AllProcessed(r)
    requires Tied(c, ViewOf(s), w, y)
    requires w == 0 ==> LeaderOk(c, y, s.opening, s.history)
    requires WorkConserved(c, r) && DecisionOk(c, r)
    ensures Inv(c, r)
  {
    UnseenTied(c, ViewOf(s), s.nodes, w, y, ViewOf(r), r.nodes);
    UnseenLocal(c, s.nodes, w, y, r.nodes);
  }

  /** Only the load of the node that changes matters. */
  lemma LoadsChange(nodes: seq<Node>, w: nat, y: Node, p: Prefix)
    requires w < |nodes|
    ensures Loads(nodes[w := y], p) == Loads(nodes, p) - Load(nodes, w, p) + y.inFlight[p] + y.past.counted[p]
  {
    SumChange(Ids(|nodes|), (i: nat) => Load(nodes, i, p), (i: nat) => Load(nodes[w := y], i, p), w);
  }

  /** While packets are unprocessed no late snapshot and no sound decision depends on the counters. */
  lemma CountersTied(c: Config, v: View, w: nat, x: Node, y: Node)
    requires Tied(c, v, w, x) && !v.quiet
    requires y.worker.state == x.worker.state && y.callback == x.callback && y.down == x.down && y.up == x.up
    requires y.past.late == x.past.late && y.past.sent == x.past.sent
    requires forall p :: x.past.counted[p] <= y.past.counted[p]
    ensures Tied(c, v, w, y)
  {
  }

  lemma OpenDecision(c: Config, s: System, r: System)
    requires s.nodes != [] && r.nodes != [] && DecisionOk(c, s) && !AllProcessed(s) && r.history == s.history
    ensures DecisionOk(c, r)
  {
    hide TotalsKnown, SnapshotsComplete, WorkConserved;
  }

  lemma TakeKeeps(c: Config, s: System, w: nat, p: Prefix)
    requires Inv(c, s) && Enabled(c, s, Take(w, p))
    ensures Inv(c, Apply(c, s, Take(w, p)))
  {
    var x := s.nodes[w];
    var y := TakeAt(c, x, p);
    var r := Apply(c, s, Take(w, p));
    assert Local(c, x);
    assert !AllProcessed(s);
    if Broadcast(c, p) {
      assert c.announced[AVERAGES] > 0;
    }
    TakeLocal(c, x, p);
    assert Tied(c, ViewOf(s), w, x);
    CountersTied(c, ViewOf(s), w, x, y);
    OpenDecision(c, s, r);
    assert !AllProcessed(r) by {
      assert r.nodes[w].inFlight != multiset{} by { assert r.nodes[w].inFlight[p] > 0; }
    }
    TakeConserves(c, s, w, p);
    Unseen(c, s, w, y, r);
  }

  lemma TakeConserves(c: Config, s: System, w: nat, p: Prefix)
    requires WorkConserved(c, s) && Enabled(c, s, Take(w, p))
    ensures WorkConserved(c, Apply(c, s, Take(w, p)))
  {
    var y := TakeAt(c, s.nodes[w], p);
    var r := Apply(c, s, Take(w, p));
    forall q: Prefix
      ensures Loads(r.nodes, q) == Loads(s.nodes, q) + if q == p then 1 else 0
    {
      LoadsChange(s.nodes, w, y, q);
    }
  }

  lemma ProcessedKeeps(c: Config, s: System, w: nat, p: Prefix)
    requires Inv(c, s) && Enabled(c, s, ProcessedCounted(w, p))
    ensures Inv(c, Apply(c, s, ProcessedCounted(w, p)))
  {
    var x := s.nodes[w];
    var y := ProcessedAt(x, p);
    var r := Apply(c, s, ProcessedCounted(w, p));
    assert Local(c, x);
    ProcessedLocal(c, x, p);
    assert !AllProcessed(s);
    assert Tied(c, ViewOf(s), w, x);
    CountersTied(c, ViewOf(s), w, x, y);
    OpenDecision(c, s, r);
    ProcessedConserves(c, s, w, p);
    Unseen(c, s, w, y, r);
  }

  lemma ProcessedConserves(c: Config, s: System, w: nat, p: Prefix)
    requires WorkConserved(c, s) && Enabled(c, s, ProcessedCounted(w, p))
    ensures WorkConserved(c, Apply(c, s, ProcessedCounted(w, p)))
  {
    var y := ProcessedAt(s.nodes[w], p);
    var r := Apply(c, s, ProcessedCounted(w, p));
    forall q: Prefix
      ensures Loads(r.nodes, q) == Loads(s.nodes, q)
    {
      LoadsChange(s.nodes, w, y, q);
    }
  }

  lemma SendTied(c: Config, v: View, w: nat, x: Node, o: Prefix)
    requires Tied(c, v, w, x)
    requires w == 0 ==> v.state != ResponseSent && (x.callback <==> v.state == ConsensusAchieved && 0 !in v.posts)
    requires w == 0 ==> x.up == []
    requires v.exact ==> x.callback
    ensures Tied(c, v, w, SendAt(x, o))
  {
  }

  lemma SendKeeps(c: Config, s: System, w: nat, o: Prefix)
    requires Inv(c, s) && Enabled(c, s, SendCounted(w, o))
    ensures Inv(c, Apply(c, s, SendCounted(w, o)))
  {
    var x := s.nodes[w];
    var y := SendAt(x, o);
    var r := Apply(c, s, SendCounted(w, o));
    assert Local(c, x);
    SendLocal(c, x, o);
    assert Tied(c, ViewOf(s), w, x);
    SendingImpliesCallback(c, s, w);
    SendTied(c, ViewOf(s), w, x, o);
    SendTotals(c, s, w, o);
    assert DecisionOk(c, r);
    Unseen(c, s, w, y, r);
  }

  /** After a sound decision a worker counts sends only from its callback, before the downstream EOF. */
  lemma SendingImpliesCallback(c: Config, s: System, w: nat)
    requires |s.nodes| == c.n && w < c.n && DecisionOk(c, s) && LeaderOk(c, s.nodes[0], s.opening, s.history)
    requires w > 0 ==> Link(c, ViewOf(s), w, s.nodes[w])
    requires s.nodes[w].inFlight != multiset{} || s.nodes[w].callback
    ensures ViewOf(s).exact ==> s.nodes[w].callback && s.history.emitted == []
  {
  }

  lemma SendTotals(c: Config, s: System, w: nat, o: Prefix)
    requires WorkConserved(c, s) && w < |s.nodes|
    ensures WorkConserved(c, Put(s, w, SendAt(s.nodes[w], o)))
    ensures AllProcessed(Put(s, w, SendAt(s.nodes[w], o))) <==> AllProcessed(s)
  {
    hide CountSent;
    var r := Put(s, w, SendAt(s.nodes[w], o));
    assert forall i :: 0 <= i < |s.nodes| ==> r.nodes[i].inFlight == s.nodes[i].inFlight && r.nodes[i].own == s.nodes[i].own;
    forall q: Prefix
      ensures Loads(r.nodes, q) == Loads(s.nodes, q)
    {
      LoadsChange(s.nodes, w, SendAt(s.nodes[w], o), q);
    }
  }
}
