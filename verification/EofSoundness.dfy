/**
 Why a consensus is right: every stored partial is a lower bound on its
 worker's counter and every flux is bounded by what was announced, so that even
 a sum pooled over two fluxes forces equality in each of them.
 */
module EofSoundness {
  import opened Sums
  import opened EofWorker
  import opened EofProtocol
  import opened EofInvariants

  lemma {:induction false} SumExtend(a: set<nat>, b: set<nat>, f: nat -> int)
    requires a <= b && forall i :: i in b - a ==> f(i) == 0
    ensures Sum(a, f) == Sum(b, f)
    decreases |b - a|
  {
    if a != b {
      assert b - a != {} by { assert a + (b - a) == b; }
      var i :| i in b - a;
      SumTake(b, f, i);
      assert |(b - {i}) - a| < |b - a| by {
        assert (b - {i}) - a == (b - a) - {i};
      }
      SumExtend(a, b - {i}, f);
    }
  }

  /** The sum of a flux's entries is the sum over all workers, absent entries counting zero. */
  lemma FluxSumOverIds(m: CountsById, p: Prefix, n: nat)
    requires forall i: nat :: Has(m, p, i) ==> i < n
    ensures FluxSum(m, p) == Sum(Ids(n), (i: nat) => GetById(m, p, i))
  {
    if p in m {
      assert forall i :: i in m[p] ==> Has(m, p, i);
      SumExtend(m[p].Keys, Ids(n), (i: nat) => GetById(m, p, i));
    } else {
      SumOfZeros(Ids(n), (i: nat) => GetById(m, p, i));
    }
  }

  /** Lower bounds on what the workers counted. */
  ghost predicate LowerBounds(m: CountsById, nodes: seq<Node>) {
    forall i: nat, p: Prefix :: i < |nodes| ==> GetById(m, p, i) <= nodes[i].past.counted[p]
  }

  /** A work-queue flux never exceeds its announcement; if it reaches it, nothing of it is left anywhere. */
  lemma WorkFluxBounded(c: Config, s: System, m: CountsById, p: Prefix)
    requires WorkConserved(c, s) && LowerBounds(m, s.nodes) && |s.nodes| == c.n
    requires p in c.fluxes && !Broadcast(c, p)
    ensures Sum(Ids(c.n), (i: nat) => GetById(m, p, i)) <= c.announced[p]
    ensures Sum(Ids(c.n), (i: nat) => GetById(m, p, i)) == c.announced[p] ==>
              s.pool[p] == 0 && forall i :: 0 <= i < c.n ==> s.nodes[i].inFlight[p] == 0
  {
    hide GetById, Broadcast;
    var f := (i: nat) => GetById(m, p, i);
    var g := (i: nat) => Load(s.nodes, i, p);
    SumLe(Ids(c.n), f, g);
    assert s.pool[p] + Sum(Ids(c.n), g) == c.announced[p];
    if Sum(Ids(c.n), f) == c.announced[p] {
      SumTight(Ids(c.n), f, g);
      forall i | 0 <= i < c.n
        ensures s.nodes[i].inFlight[p] == 0
      {
        assert i in Ids(c.n);
        assert f(i) == g(i);
      }
    }
  }

  /** If the partials account for every announced packet, every packet is processed. */
  lemma CompleteMeansProcessed(c: Config, s: System, m: CountsById)
    requires WorkConserved(c, s) && LowerBounds(m, s.nodes) && |s.nodes| == c.n
    requires forall i :: 0 <= i < c.n ==> PacketsOk(c, s.nodes[i])
    requires forall p :: p in c.announced ==> p in c.fluxes
    requires SnapshotsComplete(c, m)
    ensures AllProcessed(s)
  {
    forall p | p in c.fluxes && !Broadcast(c, p)
      ensures s.pool[p] == 0 && forall i :: 0 <= i < c.n ==> s.nodes[i].inFlight[p] == 0
    {
      WorkFluxBounded(c, s, m, p);
    }
    forall i | 0 <= i < c.n
      ensures s.nodes[i].own == multiset{} && s.nodes[i].inFlight == multiset{}
    {
      NodeDone(c, s.nodes[i], m, i);
    }
  }

  lemma NodeDone(c: Config, x: Node, m: CountsById, i: nat)
    requires PacketsOk(c, x) && i < c.n
    requires forall p: Prefix :: GetById(m, p, i) <= x.past.counted[p]
    requires forall p :: p in c.fluxes && !Broadcast(c, p) ==> x.inFlight[p] == 0
    requires SnapshotsComplete(c, m)
    requires forall p :: p in c.announced ==> p in c.fluxes
    ensures x.own == multiset{} && x.inFlight == multiset{}
  {
  }

  /** The leader's recorded totals against the announcements. */
  ghost predicate TotalsOk(c: Config, totals: Counts) {
    forall p :: p in totals ==> p in c.fluxes && totals[p] == c.announced[p]
  }

  /** The fluxes whose packets are shared out among the workers. */
  ghost function Pooled(c: Config): set<Prefix> {
    if c.auxiliary then c.fluxes - {AVERAGES} else c.fluxes
  }

  ghost predicate KnownIn(c: Config, totals: Counts, fluxes: set<Prefix>) {
    forall p :: p in fluxes ==> p in totals || c.announced[p] == 0
  }

  ghost predicate CompleteIn(c: Config, m: CountsById, fluxes: set<Prefix>) {
    forall p :: p in fluxes ==> Sum(Ids(c.n), (i: nat) => GetById(m, p, i)) == c.announced[p]
  }

  ghost predicate EachComplete(c: Config, m: CountsById) {
    forall i: nat :: i < c.n ==> GetById(m, AVERAGES, i) == c.announced[AVERAGES]
  }

  /** In each of the pooled fluxes: complete exactly if its total is known. */
  lemma PooledExact(c: Config, s: System, w: Worker, pooled: set<Prefix>)
    requires WorkConserved(c, s) && LowerBounds(w.partials, s.nodes) && |s.nodes| == c.n
    requires HaveAllPartials(w, c.n) && w.eofs == c.fluxes && TotalsOk(c, w.totals)
    requires pooled <= c.fluxes && forall p :: p in pooled ==> !Broadcast(c, p)
    requires PooledPartials(w, pooled) == PooledTotals(w, pooled)
    ensures KnownIn(c, w.totals, pooled) <==> CompleteIn(c, w.partials, pooled)
  {
    var f := (p: Prefix) => FluxSum(w.partials, p);
    var t := (p: Prefix) => Get(w.totals, p);
    var a := (p: Prefix) => c.announced[p] as int;
    forall p | p in pooled
      ensures f(p) == Sum(Ids(c.n), (i: nat) => GetById(w.partials, p, i)) && f(p) <= a(p) && t(p) <= a(p)
      ensures t(p) == a(p) <==> p in w.totals || c.announced[p] == 0
    {
      FluxSumOverIds(w.partials, p, c.n);
      WorkFluxBounded(c, s, w.partials, p);
    }
    assert Sum(pooled, f) == Sum(pooled, t);
    if KnownIn(c, w.totals, pooled) {
      SumSame(pooled, t, a);
      SumTight(pooled, f, a);
      forall p | p in pooled
        ensures Sum(Ids(c.n), (i: nat) => GetById(w.partials, p, i)) == c.announced[p]
      {
        assert f(p) == a(p);
      }
    }
    if CompleteIn(c, w.partials, pooled) {
      SumSame(pooled, f, a);
      SumTight(pooled, t, a);
    }
  }

  lemma BroadcastExact(c: Config, w: Worker)
    requires c.n > 0 && HaveAllPartials(w, c.n) && w.eofs == c.fluxes && TotalsOk(c, w.totals)
    requires AVERAGES in c.fluxes && c.auxiliary && TotalsAgree(w, c.auxiliary)
    ensures AVERAGES in w.totals || c.announced[AVERAGES] == 0 <==> EachComplete(c, w.partials)
  {
    assert w.partials[AVERAGES].Keys == Ids(c.n);
    assert 0 in Ids(c.n);
    assert forall i: nat :: i < c.n ==> i in Ids(c.n) && GetById(w.partials, AVERAGES, i) == Get(w.totals, AVERAGES);
    assert GetById(w.partials, AVERAGES, 0) == Get(w.totals, AVERAGES);
  }

  lemma KnownSplit(c: Config, totals: Counts)
    ensures TotalsKnown(c, totals) <==>
              && KnownIn(c, totals, Pooled(c))
              && (c.auxiliary && AVERAGES in c.fluxes ==> AVERAGES in totals || c.announced[AVERAGES] == 0)
  {
  }

  lemma CompleteSplit(c: Config, m: CountsById)
    ensures SnapshotsComplete(c, m) <==>
              CompleteIn(c, m, Pooled(c)) && (c.auxiliary && AVERAGES in c.fluxes ==> EachComplete(c, m))
  {
  }

  /** Totals that agree have the same sum over the pooled fluxes. */
  lemma AgreedSums(c: Config, w: Worker)
    requires w.partials.Keys == c.fluxes && TotalsAgree(w, c.auxiliary)
    ensures Pooled(c) <= c.fluxes && forall p :: p in Pooled(c) ==> !Broadcast(c, p)
    ensures PooledPartials(w, Pooled(c)) == PooledTotals(w, Pooled(c))
  {
    hide FluxSum;
    if c.auxiliary {
      SumSame(Pooled(c), (p: Prefix) => FluxSum(w.partials, p), (p: Prefix) => Get(w.totals, p));
    }
  }

  /** When the totals agree, the snapshots are complete exactly if every total was known. */
  lemma AgreementExact(c: Config, s: System, w: Worker)
    requires ValidConfig(c) && WorkConserved(c, s) && LowerBounds(w.partials, s.nodes) && |s.nodes| == c.n
    requires HaveAllPartials(w, c.n) && w.eofs == c.fluxes && TotalsOk(c, w.totals)
    requires TotalsAgree(w, c.auxiliary)
    ensures TotalsKnown(c, w.totals) <==> SnapshotsComplete(c, w.partials)
  {
    hide LowerBounds, WorkConserved, TotalsOk, TotalsKnown, SnapshotsComplete, TotalsAgree, KnownIn, CompleteIn, EachComplete,
         Pooled, PooledPartials, PooledTotals;
    KnownSplit(c, w.totals);
    CompleteSplit(c, w.partials);
    AgreedSums(c, w);
    PooledExact(c, s, w, Pooled(c));
    if c.auxiliary && AVERAGES in c.fluxes {
      BroadcastExact(c, w);
    }
  }

  lemma PooledAgreement(c: Config, w: Worker)
    requires HaveAllPartials(w, c.n) && w.eofs == c.fluxes && TotalsOk(c, w.totals)
    requires KnownIn(c, w.totals, Pooled(c)) && CompleteIn(c, w.partials, Pooled(c))
    ensures forall p :: p in Pooled(c) ==> FluxSum(w.partials, p) == Get(w.totals, p)
    ensures PooledPartials(w, Pooled(c)) == PooledTotals(w, Pooled(c))
  {
    forall p | p in Pooled(c)
      ensures FluxSum(w.partials, p) == Get(w.totals, p)
    {
      FluxSumOverIds(w.partials, p, c.n);
    }
    SumSame(Pooled(c), (p: Prefix) => FluxSum(w.partials, p), (p: Prefix) => Get(w.totals, p));
  }

  lemma BroadcastAgrees(c: Config, w: Worker)
    requires c.n > 0 && HaveAllPartials(w, c.n) && w.eofs == c.fluxes && TotalsOk(c, w.totals)
    requires AVERAGES in c.fluxes && (AVERAGES in w.totals || c.announced[AVERAGES] == 0) && EachComplete(c, w.partials)
    ensures w.partials[AVERAGES] != map[]
    ensures forall i :: i in w.partials[AVERAGES] ==> w.partials[AVERAGES][i] == Get(w.totals, AVERAGES)
  {
    assert w.partials[AVERAGES].Keys == Ids(c.n);
    assert 0 in w.partials[AVERAGES];
    assert forall i :: i in w.partials[AVERAGES] ==> w.partials[AVERAGES][i] == GetById(w.partials, AVERAGES, i);
  }

  /** And if the snapshots are complete and every total is known, the totals do agree. */
  lemma CompleteMeansAgreement(c: Config, w: Worker)
    requires ValidConfig(c) && HaveAllPartials(w, c.n) && w.eofs == c.fluxes && TotalsOk(c, w.totals)
    requires TotalsKnown(c, w.totals) && SnapshotsComplete(c, w.partials)
    ensures TotalsAgree(w, c.auxiliary)
  {
    hide TotalsOk, TotalsKnown, SnapshotsComplete, KnownIn, CompleteIn, EachComplete, FluxSum;
    KnownSplit(c, w.totals);
    CompleteSplit(c, w.partials);
    PooledAgreement(c, w);
    if c.auxiliary && AVERAGES in c.fluxes {
      BroadcastAgrees(c, w);
    }
    if c.auxiliary && Pooled(c) == {} {
      assert c.fluxes <= {AVERAGES};
      var p :| p in c.fluxes;
      assert p == AVERAGES;
    }
  }
}
