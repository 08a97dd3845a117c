/** EOFs are recorded once, in any order and however often their copies arrive. */
module EofDissemination {
  import opened EofStates
  import opened EofWorker
  import opened EofProtocol
  import opened EofInvariants
  import opened EofReception
  import opened EofRuns

  /** No thread of the worker is in the middle of registering an EOF. */
  predicate AllIdle(x: Node) {
    forall t :: 0 <= t < |x.pcs| ==> x.pcs[t] == Idle
  }

  /** The totals announced by the given EOFs. */
  ghost function Announced(c: Config, eofs: set<Prefix>): Counts {
    map p | p in eofs :: c.announced[p]
  }

  lemma IdleRecords(c: Config, x: Node)
    requires Local(c, x) && AllIdle(x) && Alive(x.worker.state)
    ensures x.worker.eofs == x.past.arrived && x.worker.totals == Announced(c, x.past.arrived)
    ensures x.past.arrived <= x.worker.processed.Keys
    ensures forall p :: Get(x.worker.processed, p) == x.past.counted[p]
    ensures x.worker.state == Active ==> x.past.arrived != c.fluxes
  {
  }

  /**
   Between registrations, and until it clears the client, a worker's record of
   EOFs and totals is a function of the set of EOFs that reached it: their order,
   their number and the threads that received them leave no trace. Its counters
   are those of the packets it counted, and each EOF that arrived has one.
   */
  lemma RecordsDependOnArrivedSet(c: Config, s: System, w: nat)
    requires Reachable(c, s) && w < |s.nodes|
    requires AllIdle(s.nodes[w]) && Alive(s.nodes[w].worker.state)
    ensures s.nodes[w].worker.eofs == s.nodes[w].past.arrived
    ensures s.nodes[w].worker.totals == Announced(c, s.nodes[w].past.arrived)
    ensures s.nodes[w].past.arrived <= s.nodes[w].worker.processed.Keys
    ensures forall p :: Get(s.nodes[w].worker.processed, p) == s.nodes[w].past.counted[p]
  {
    ReachableInv(c, s);
    InvAt(c, s, w);
    IdleRecords(c, s.nodes[w]);
  }

  /**
   The leader starts consensus at most once, never before the last expected EOF
   has reached it, and it has started as soon as the registrations under way are done.
   */
  lemma StartsExactlyOnce(c: Config, s: System)
    requires Reachable(c, s)
    ensures |s.nodes| == c.n && s.nodes != []
    ensures s.history.starts <= 1
    ensures s.history.starts == 1 ==> s.nodes[0].past.arrived == c.fluxes
    ensures AllIdle(s.nodes[0]) && s.nodes[0].past.arrived == c.fluxes ==> s.history.starts == 1
  {
    ReachableInv(c, s);
    InvAt(c, s, 0);
    if AllIdle(s.nodes[0]) && Alive(s.nodes[0].worker.state) {
      IdleRecords(c, s.nodes[0]);
    }
  }
}
