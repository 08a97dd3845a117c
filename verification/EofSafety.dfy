/** What a consensus and the downstream EOF guarantee, in every reachable state of every run. */
module EofSafety {
  import opened Sums
  import opened EofStates
  import opened EofWorker
  import opened EofProtocol
  import opened EofInvariants
  import opened EofReception
  import opened EofRuns
  import EofMessages

  // ----- Soundness of the consensus -----

  ghost function CountedAt(nodes: seq<Node>, i: nat, p: Prefix): int {
    if i < |nodes| then nodes[i].past.counted[p] else 0
  }

  /** The whole broadcast flux at every worker, and every packet of the other fluxes at some worker. */
  ghost predicate EveryPacketCounted(c: Config, nodes: seq<Node>) {
    forall p :: p in c.fluxes ==>
      if Broadcast(c, p) then forall i :: 0 <= i < |nodes| ==> nodes[i].past.counted[p] == c.announced[p]
      else Sum(Ids(|nodes|), (i: nat) => CountedAt(nodes, i, p)) == c.announced[p]
  }

  lemma PacketsEverywhere(c: Config, s: System)
    requires Inv(c, s)
    ensures forall i :: 0 <= i < c.n ==> PacketsOk(c, s.nodes[i])
  {
    forall i | 0 <= i < c.n
      ensures PacketsOk(c, s.nodes[i])
    {
      InvAt(c, s, i);
    }
  }

  lemma ProcessedMeansCounted(c: Config, s: System)
    requires |s.nodes| == c.n && WorkConserved(c, s) && AllProcessed(s)
    requires forall i :: 0 <= i < c.n ==> PacketsOk(c, s.nodes[i])
    ensures EveryPacketCounted(c, s.nodes)
  {
    forall p | p in c.fluxes && !Broadcast(c, p)
      ensures Sum(Ids(|s.nodes|), (i: nat) => CountedAt(s.nodes, i, p)) == c.announced[p]
    {
      SumSame(Ids(c.n), (i: nat) => CountedAt(s.nodes, i, p), (i: nat) => Load(s.nodes, i, p));
    }
    forall p, i | p in c.fluxes && Broadcast(c, p) && 0 <= i < c.n
      ensures s.nodes[i].past.counted[p] == c.announced[p]
    {
      assert PacketsOk(c, s.nodes[i]);
      assert s.nodes[i].own == multiset{};
    }
  }

  /**
   If the leader has decided OK, the snapshots it decided on accounted for every
   announced packet exactly if it knew the total of every non-empty flux; and
   then every announced packet has been processed.
   */
  lemma ConsensusSound(c: Config, s: System)
    requires Reachable(c, s) && s.history.decision.Decided?
    ensures s.history.decision.snapshotsComplete <==> s.history.decision.totalsKnown
    ensures s.history.decision.totalsKnown ==> AllProcessed(s) && EveryPacketCounted(c, s.nodes)
  {
    ReachableInv(c, s);
    PacketsEverywhere(c, s);
    if s.history.decision.totalsKnown {
      ProcessedMeansCounted(c, s);
    }
  }

  // ----- The downstream EOF -----

  ghost predicate RanCallbackOnce(x: Node) {
    x.past.callbacks == 1 && x.worker.state == FinishEnabled
  }

  lemma DoneAt(c: Config, s: System, i: nat)
    requires Inv(c, s) && i < c.n
    ensures s.nodes[i].past.callbacks <= 1
    ensures s.history.emitted != [] ==> RanCallbackOnce(s.nodes[i]) && !s.nodes[i].callback
  {
    InvAt(c, s, 0);
    InvAt(c, s, i);
  }

  /** The downstream EOF is sent at most once, after every worker ran its callback exactly once. */
  lemma SingleDownstreamEof(c: Config, s: System)
    requires Reachable(c, s)
    ensures |s.history.emitted| <= 1
    ensures forall i :: 0 <= i < |s.nodes| ==> s.nodes[i].past.callbacks <= 1
    ensures s.history.emitted != [] ==> forall i :: 0 <= i < |s.nodes| ==> RanCallbackOnce(s.nodes[i])
  {
    ReachableInv(c, s);
    forall i | 0 <= i < c.n
      ensures s.nodes[i].past.callbacks <= 1 && (s.history.emitted != [] ==> RanCallbackOnce(s.nodes[i]))
    {
      DoneAt(c, s, i);
    }
  }

  /**
   If every total was known at the decision, the downstream EOF carries exactly
   the sends of all workers, and no worker can ever count another one.
   */
  lemma DownstreamTotalsExact(c: Config, s: System)
    requires Reachable(c, s) && s.history.emitted != []
    ensures s.history.decision.Decided?
    ensures s.history.decision.totalsKnown ==> ExactTotals(c, s.history.emitted[0], s.nodes)
    ensures s.history.decision.totalsKnown ==> forall w: nat, o: Prefix :: !Enabled(c, s, SendCounted(w, o))
  {
    ReachableInv(c, s);
    InvAt(c, s, 0);
    if s.history.decision.totalsKnown {
      forall w: nat, o: Prefix
        ensures !Enabled(c, s, SendCounted(w, o))
      {
        if w < c.n {
          DoneAt(c, s, w);
          assert s.nodes[w].inFlight == multiset{};
        }
      }
    }
  }

  // ----- The messages have room -----

  /**
   In every reachable state the two slots of a request and of a response hold
   all there is to tell.
   */
  lemma SlotsSuffice(c: Config, s: System, w: nat)
    requires Reachable(c, s) && w < |s.nodes|
    ensures |s.nodes[w].worker.eofs| <= 2
    ensures if c.auxiliary then |EofMessages.PlainKeys(s.nodes[w].worker.processed)| <= 1
            else |s.nodes[w].worker.processed.Keys| <= 2
  {
    ReachableInv(c, s);
    InvAt(c, s, w);
    SubsetSize(s.nodes[w].worker.eofs, c.fluxes);
    SubsetSize(s.nodes[w].worker.processed.Keys, c.fluxes);
    SubsetSize(EofMessages.PlainKeys(s.nodes[w].worker.processed), c.fluxes - {AVERAGES});
  }
}
