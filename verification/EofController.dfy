/**
 The EOF controller of one worker: per-client dictionaries updated in place by
 the handlers, and the messages they send. Every handler is proved to do to the
 data of its client what EofWorker says, and nothing to that of any other.
 */
module EofController {
  import opened Sums
  import opened EofStates
  import opened EofWorker
  import opened EofMessages

  datatype Message =
    | EofCopy(prefix: Prefix, total: nat)
    | Request(awaited: Awaited)
    | Response(id: nat, slots: Slots)
    | ConsensusOk
    | ConsensusFail
    | Post(id: nat, sends: Counts)

  /** Messages sent, each with its client, in order. */
  type Outbox = seq<(string, Message)>

  function Or<K, V>(m: map<K, V>, k: K, default: V): V {
    if k in m then m[k] else default
  }

  // ----- Loops over dictionaries -----

  /** The items of a dictionary in the order it happens to iterate. */
  method ListItems(m: Counts) returns (items: Items)
    ensures Distinct(items) && AsCounts(items) == m
  {
    items := [];
    var rest := m.Keys;
    while rest != {}
      invariant rest <= m.Keys && Distinct(items)
      invariant AsCounts(items) == map p | p in m && p !in rest :: m[p]
      decreases |rest|
    {
      var p :| p in rest;
      KeysOccur(items, p);
      assert (items + [(p, m[p])])[..|items|] == items;
      items := items + [(p, m[p])];
      rest := rest - {p};
    }
  }

  /** The sum of a dictionary's values. */
  method SumValues(m: map<nat, nat>) returns (total: nat)
    ensures total == Sum(m.Keys, (i: nat) => Or(m, i, 0))
  {
    total := 0;
    var rest := m.Keys;
    ghost var f := (i: nat) => Or(m, i, 0);
    while rest != {}
      invariant rest <= m.Keys
      invariant total + Sum(rest, f) == Sum(m.Keys, f)
      decreases |rest|
    {
      var i :| i in rest;
      SumTake(rest, f, i);
      total := total + m[i];
      rest := rest - {i};
    }
  }

  lemma SumValuesIsFlux(m: CountsById, p: Prefix)
    requires p in m
    ensures Sum(m[p].Keys, (i: nat) => Or(m[p], i, 0)) == FluxSum(m, p)
  {
    SumSame(m[p].Keys, (i: nat) => Or(m[p], i, 0), (i: nat) => GetById(m, p, i));
  }

  /** The set 0, ..., n - 1. */
  method Range(n: nat) returns (ids: set<nat>)
    ensures ids == Ids(n)
  {
    ids := {};
    for i := 0 to n
      invariant ids == Ids(i)
    {
      ids := ids + {i};
    }
  }

  /** Whether every prefix has exactly the ids 0, ..., n - 1. */
  method AllIdsPresent(m: CountsById, n: nat) returns (all: bool)
    ensures all <==> forall p :: p in m ==> m[p].Keys == Ids(n)
  {
    var expected := Range(n);
    all := true;
    var rest := m.Keys;
    while rest != {}
      invariant rest <= m.Keys
      invariant all <==> forall p :: p in m && p !in rest ==> m[p].Keys == Ids(n)
      decreases |rest|
    {
      var p :| p in rest;
      if m[p].Keys != expected {
        all := false;
      }
      rest := rest - {p};
    }
  }

  /** The totals that the given entries sum to, per prefix. */
  method SumPerPrefix(m: CountsById) returns (totals: map<Prefix, int>)
    ensures totals == map p | p in m :: FluxSum(m, p)
  {
    totals := map[];
    var rest := m.Keys;
    while rest != {}
      invariant rest <= m.Keys
      invariant totals == map p | p in m && p !in rest :: FluxSum(m, p)
      decreases |rest|
    {
      var p :| p in rest;
      var total := SumValues(m[p]);
      SumValuesIsFlux(m, p);
      totals := totals[p := total];
      rest := rest - {p};
    }
  }

  /** Without auxiliary input: all sums against all announced totals. */
  method PooledAgree(partials: CountsById, totals: Counts, ghost w: Worker) returns (agree: bool)
    requires w.partials == partials && w.totals == totals
    ensures agree <==> TotalsAgree(w, false)
  {
    var counted, announced := 0, 0;
    var rest := partials.Keys;
    ghost var f, g := (p: Prefix) => FluxSum(partials, p), (p: Prefix) => Get(totals, p);
    while rest != {}
      invariant rest <= partials.Keys
      invariant counted + Sum(rest, f) == Sum(partials.Keys, f)
      invariant announced + Sum(rest, g) == Sum(partials.Keys, g)
      decreases |rest|
    {
      var p :| p in rest;
      var n := SumValues(partials[p]);
      SumValuesIsFlux(partials, p);
      SumTake(rest, f, p);
      SumTake(rest, g, p);
      counted := counted + n;
      announced := announced + Get(totals, p);
      rest := rest - {p};
    }
    agree := counted == announced;
    SumSame(partials.Keys, f, (p: Prefix) => FluxSum(w.partials, p));
    SumSame(partials.Keys, g, (p: Prefix) => Get(w.totals, p));
  }

  /** Whether every value equals n, and whether there is any. */
  method AllEqual(m: map<nat, nat>, n: nat) returns (equal: bool)
    ensures equal <==> forall i :: i in m ==> m[i] == n
  {
    equal := true;
    var rest := m.Keys;
    while rest != {}
      invariant rest <= m.Keys
      invariant equal <==> forall i :: i in m && i !in rest ==> m[i] == n
      decreases |rest|
    {
      var i :| i in rest;
      if m[i] != n {
        equal := false;
      }
      rest := rest - {i};
    }
  }

  ghost predicate EachAnnounced(m: map<nat, nat>, total: nat) {
    forall i :: i in m ==> m[i] == total
  }

  /** The work-queue fluxes already summed. */
  ghost function Seen(partials: CountsById, rest: set<Prefix>): set<Prefix> {
    set p | p in partials && p !in rest && p != AVERAGES
  }

  ghost predicate BroadcastSeen(partials: CountsById, rest: set<Prefix>) {
    AVERAGES in partials && AVERAGES !in rest
  }

  /** Each flux that was seen agrees with its total. */
  ghost predicate SeenAgree(partials: CountsById, totals: Counts, rest: set<Prefix>) {
    && (forall p :: p in Seen(partials, rest) ==> FluxSum(partials, p) == Get(totals, p))
    && (BroadcastSeen(partials, rest) ==> EachAnnounced(partials[AVERAGES], Get(totals, AVERAGES)))
  }

  /**
   What the loop over the fluxes knows when the fluxes in rest are still to come.
   The running sums agreed after every work-queue flux exactly if each of these
   fluxes agrees by itself, in whatever order they came.
   */
  ghost predicate Judged(partials: CountsById, totals: Counts, rest: set<Prefix>,
                         counted: int, announced: int, any: bool, all: bool) {
    && (any <==> Seen(partials, rest) != {} || (BroadcastSeen(partials, rest) && partials[AVERAGES] != map[]))
    && (all <==> SeenAgree(partials, totals, rest))
    && (all ==> counted == announced)
  }

  lemma WorkFluxJudged(partials: CountsById, totals: Counts, rest: set<Prefix>,
                       counted: int, announced: int, any: bool, all: bool, p: Prefix)
    requires Judged(partials, totals, rest, counted, announced, any, all)
    requires p in rest && p in partials && p != AVERAGES
    ensures var c, a := counted + FluxSum(partials, p), announced + Get(totals, p);
            Judged(partials, totals, rest - {p}, c, a, true, all && c == a)
  {
    assert Seen(partials, rest - {p}) == Seen(partials, rest) + {p};
  }

  lemma BroadcastJudged(partials: CountsById, totals: Counts, rest: set<Prefix>,
                        counted: int, announced: int, any: bool, all: bool)
    requires Judged(partials, totals, rest, counted, announced, any, all) && AVERAGES in rest && AVERAGES in partials
    ensures Judged(partials, totals, rest - {AVERAGES}, counted, announced, any || partials[AVERAGES] != map[],
                   all && EachAnnounced(partials[AVERAGES], Get(totals, AVERAGES)))
  {
    assert Seen(partials, rest - {AVERAGES}) == Seen(partials, rest);
  }

  lemma AllJudged(w: Worker, counted: int, announced: int, any: bool, all: bool)
    requires Judged(w.partials, w.totals, {}, counted, announced, any, all)
    ensures any && all <==> TotalsAgree(w, true)
  {
    assert Seen(w.partials, {}) == w.partials.Keys - {AVERAGES};
  }

  /**
   With auxiliary input: the running sums of the work-queue fluxes are compared
   after each one, the broadcast flux worker by worker.
   */
  method AuxiliaryAgree(partials: CountsById, totals: Counts, ghost w: Worker) returns (agree: bool)
    requires w.partials == partials && w.totals == totals
    ensures agree <==> TotalsAgree(w, true)
  {
    var counted, announced := 0, 0;
    var any, all := false, true;
    var rest := partials.Keys;
    assert Seen(partials, rest) == {};
    assert Judged(partials, totals, rest, 0, 0, false, true);
    hide Judged;
    while rest != {}
      invariant rest <= partials.Keys && Judged(partials, totals, rest, counted, announced, any, all)
      decreases |rest|
    {
      var p :| p in rest;
      if p == AVERAGES {
        BroadcastJudged(partials, totals, rest, counted, announced, any, all);
        var equal := AllEqual(partials[p], Get(totals, p));
        any := any || partials[p] != map[];
        all := all && equal;
      } else {
        WorkFluxJudged(partials, totals, rest, counted, announced, any, all, p);
        var n := SumValues(partials[p]);
        SumValuesIsFlux(partials, p);
        counted := counted + n;
        announced := announced + Get(totals, p);
        any := true;
        all := all && counted == announced;
      }
      rest := rest - {p};
    }
    agree := any && all;
    AllJudged(w, counted, announced, any, all);
  }

  // ----- The records of one client -----

  lemma PutMerged(m: CountsById, id: nat, counts: Counts, p: Prefix, n: nat)
    ensures PutById(MergeById(m, id, counts), p, id, n) == MergeById(m, id, counts[p := n])
  {
    var before := if p in m then m[p] else map[];
    if p in counts {
      assert before[id := counts[p]][id := n] == before[id := n];
    }
  }

  lemma MergedNone(m: CountsById, id: nat)
    ensures MergeById(m, id, map[]) == m
  {
  }

  /** Stores one worker's counts, entry by entry. */
  method PutAll(m: CountsById, id: nat, counts: Counts) returns (r: CountsById)
    ensures r == MergeById(m, id, counts)
  {
    hide MergeById, PutById;
    r := m;
    ghost var done: Counts := map[];
    var rest := counts.Keys;
    MergedNone(m, id);
    while rest != {}
      invariant rest <= counts.Keys
      invariant done == map p | p in counts && p !in rest :: counts[p]
      invariant r == MergeById(m, id, done)
      decreases |rest|
    {
      var p :| p in rest;
      PutMerged(m, id, done, p, counts[p]);
      r := PutById(r, p, id, counts[p]);
      done := done[p := counts[p]];
      rest := rest - {p};
    }
    assert done == counts;
  }

  class Controller {
    const id: nat
    const workers: nat
    const quantity: nat       // EOFs expected
    const auxiliary: bool
    const registry: ClientRegistry

    var eofsReceived: map<string, set<Prefix>>
    var postReceived: map<string, set<nat>>
    var totalReceived: map<string, Counts>
    var processed: map<string, Counts>
    var partials: map<string, CountsById>
    var totalSent: map<string, CountsById>
    var sent: map<string, Counts>

    var fanout: Outbox        // to all other workers
    var toLeader: Outbox
    var nextStage: seq<(string, map<Prefix, int>)>

    ghost predicate Valid()
      reads this, registry, registry.entries
    {
      workers >= 2 && registry.Valid()
    }

    /** All that is kept for one client. */
    ghost function View(client: string): Worker
      reads this, registry
    {
      Worker(registry.StateOf(client),
             Or(eofsReceived, client, {}), Or(totalReceived, client, map[]), Or(processed, client, map[]),
             Or(partials, client, map[]), Or(postReceived, client, {}), Or(totalSent, client, map[]), Or(sent, client, map[]))
    }

    constructor (id: nat, workers: nat, quantity: nat, auxiliary: bool)
      requires workers >= 2
      ensures Valid() && fresh(registry) && fresh(registry.entries)
      ensures this.id == id && this.workers == workers && this.quantity == quantity && this.auxiliary == auxiliary
      ensures forall d :: View(d) == NewWorker
      ensures fanout == [] && toLeader == [] && nextStage == []
    {
      this.id, this.workers, this.quantity, this.auxiliary := id, workers, quantity, auxiliary;
      registry := new ClientRegistry();
      eofsReceived, postReceived, totalReceived, processed := map[], map[], map[], map[];
      partials, totalSent, sent := map[], map[], map[];
      fanout, toLeader, nextStage := [], [], [];
    }

    // ----- Counting -----

    method OnProcessedPacket(client: string, prefix: Prefix)
      modifies `processed
      ensures View(client) == CountProcessed(old(View(client)), prefix)
      ensures forall d :: d != client ==> View(d) == old(View(d))
    {
      var counts := Or(processed, client, map[]);
      processed := processed[client := counts[prefix := Get(counts, prefix) + 1]];
    }

    method OnPacketSent(output: Prefix, client: string)
      modifies `sent
      ensures View(client) == CountSent(old(View(client)), output)
      ensures forall d :: d != client ==> View(d) == old(View(d))
    {
      var counts := Or(sent, client, map[]);
      sent := sent[client := counts[output := Get(counts, output) + 1]];
    }

    // ----- Reception of EOFs -----

    /** The three locked blocks that register an EOF. */
    method ProcessStartingEof(client: string, prefix: Prefix, total: nat)
      modifies `eofsReceived, `processed, `totalReceived
      ensures View(client) == AddTotal(InitCount(AddEof(old(View(client)), prefix), prefix), prefix, total)
      ensures forall d :: d != client ==> View(d) == old(View(d))
    {
      eofsReceived := eofsReceived[client := Or(eofsReceived, client, {}) + {prefix}];
      processed := processed[client := SetDefault(Or(processed, client, map[]), prefix, 0)];
      totalReceived := totalReceived[client := SetDefault(Or(totalReceived, client, map[]), prefix, total)];
    }

    /** The request that was appended asks for the received EOFs. */
    ghost predicate AskedFor(before: Outbox, client: string, eofs: set<Prefix>)
      reads this
    {
      && |fanout| == |before| + 1 && fanout[..|before|] == before
      && fanout[|before|].0 == client && fanout[|before|].1.Request?
      && AwaitedSet(fanout[|before|].1.awaited) <= eofs
      && (AwaitedSet(fanout[|before|].1.awaited) == eofs <==> |eofs| <= 2)
    }

    method UpdateLeaderOwnPartials(client: string)
      modifies `partials
      ensures View(client) == SnapshotOwn(old(View(client)), id)
      ensures forall d :: d != client ==> View(d) == old(View(d))
    {
      var merged := PutAll(Or(partials, client, map[]), id, Or(processed, client, map[]));
      partials := partials[client := merged];
    }

    /** The leader takes its own snapshot, then asks the others for theirs. */
    method SendConsensusRequest(client: string)
      requires Valid()
      modifies `partials, `fanout, registry, registry.entries
      ensures Valid() && fresh(registry.entries - old(registry.entries))
      ensures View(client) == MarkRequestSent(SnapshotOwn(old(View(client)), id))
      ensures forall d :: d != client ==> View(d) == old(View(d))
      ensures AskedFor(old(fanout), client, old(View(client)).eofs)
    {
      UpdateLeaderOwnPartials(client);
      var m := FillRequest(Or(eofsReceived, client, {}), auxiliary);
      fanout := fanout + [(client, Request(m))];
      registry.MarkAs(client, RequestSent);
    }

    /** The check after every registration; only the leader goes on to open a round. */
    ghost function Checked(w: Worker): Worker {
      if StartsConsensus(w, quantity) && id == 0 then MarkRequestSent(SnapshotOwn(CheckStart(w, quantity), id))
      else CheckStart(w, quantity)
    }

    /** A request went out exactly if the client's state came to RequestSent. */
    ghost predicate CheckedSends(before: Outbox, client: string, state: EofState)
      reads this, registry
    {
      if registry.StateOf(client) == RequestSent && state != RequestSent then
        AskedFor(before, client, Or(eofsReceived, client, {}))
      else fanout == before
    }

    method CheckAndStart(client: string)
      requires Valid()
      modifies `partials, `fanout, registry, registry.entries
      ensures Valid() && fresh(registry.entries - old(registry.entries))
      ensures View(client) == Checked(old(View(client)))
      ensures forall d :: d != client ==> View(d) == old(View(d))
      ensures CheckedSends(old(fanout), client, old(registry.StateOf(client)))
    {
      hide MergeById, AwaitedSet;
      var received := Or(eofsReceived, client, {});
      if |received| == quantity {
        var started := registry.TryStartEofConsensus(client);
        if started && id == 0 {
          SendConsensusRequest(client);
        }
      }
    }

    /** What an EOF does when nothing runs in between. */
    ghost function Registered(w: Worker, prefix: Prefix, total: nat): Worker {
      AddTotal(InitCount(AddEof(Activated(w), prefix), prefix), prefix, total)
    }

    /** The guard and the registration, common to both ways an EOF arrives. */
    method ReceiveEof(client: string, prefix: Prefix, total: nat) returns (accepted: bool)
      requires Valid()
      modifies `eofsReceived, `processed, `totalReceived, registry, registry.entries
      ensures Valid() && fresh(registry.entries - old(registry.entries))
      ensures accepted <==> AcceptsEof(old(View(client)))
      ensures View(client) == if accepted then Registered(old(View(client)), prefix, total) else old(View(client))
      ensures forall d :: d != client ==> View(d) == old(View(d))
    {
      accepted := registry.CanReceiveInputEof(client);
      if accepted {
        ProcessStartingEof(client, prefix, total);
      }
    }

    /** A copy of an EOF from another worker: refused after consensus, else registered and checked. */
    method OnEofCopy(client: string, prefix: Prefix, total: nat)
      requires Valid()
      modifies this, registry, registry.entries
      ensures Valid() && fresh(registry.entries - old(registry.entries))
      ensures View(client) == if AcceptsEof(old(View(client))) then Checked(Registered(old(View(client)), prefix, total))
                              else old(View(client))
      ensures forall d :: d != client ==> View(d) == old(View(d))
      ensures toLeader == old(toLeader) && nextStage == old(nextStage)
      ensures CheckedSends(old(fanout), client, old(registry.StateOf(client)))
    {
      hide AskedFor, Checked, MergeById;
      var accepted := ReceiveEof(client, prefix, total);
      if accepted {
        CheckAndStart(client);
      }
    }

    /** The other workers get their copy before the check. */
    method PassOnAndCheck(client: string, prefix: Prefix, total: nat)
      requires Valid()
      modifies `partials, `fanout, registry, registry.entries
      ensures Valid() && fresh(registry.entries - old(registry.entries))
      ensures View(client) == Checked(old(View(client)))
      ensures forall d :: d != client ==> View(d) == old(View(d))
      ensures CheckedSends(old(fanout) + [(client, EofCopy(prefix, total))], client, old(registry.StateOf(client)))
    {
      fanout := fanout + [(client, EofCopy(prefix, total))];
      CheckAndStart(client);
    }

    /** An EOF from upstream is also passed on to the other workers. */
    method OnInputEof(client: string, prefix: Prefix, total: nat)
      requires Valid()
      modifies this, registry, registry.entries
      ensures Valid() && fresh(registry.entries - old(registry.entries))
      ensures View(client) == if AcceptsEof(old(View(client))) then Checked(Registered(old(View(client)), prefix, total))
                              else old(View(client))
      ensures forall d :: d != client ==> View(d) == old(View(d))
      ensures toLeader == old(toLeader) && nextStage == old(nextStage)
      ensures CheckedSends(if AcceptsEof(old(View(client))) then old(fanout) + [(client, EofCopy(prefix, total))] else old(fanout),
                           client, old(registry.StateOf(client)))
    {
      hide AskedFor, Checked, MergeById;
      var accepted := ReceiveEof(client, prefix, total);
      if accepted {
        PassOnAndCheck(client, prefix, total);
      }
    }

    // ----- A round -----

    /** The answer carries every counter, if they fit, with zero for what was never seen. */
    method OnConsensusRequest(client: string, m: Awaited)
      requires Valid()
      modifies this, registry, registry.entries
      ensures Valid() && fresh(registry.entries - old(registry.entries))
      ensures View(client) == AnswerRequest(old(View(client)), AwaitedSet(m))
      ensures forall d :: d != client ==> View(d) == old(View(d))
      ensures Answered(old(toLeader), client, View(client).processed)
      ensures fanout == old(fanout) && nextStage == old(nextStage)
    {
      hide WithAwaited, AwaitedSet, Answered, Update;
      IncludeAwaited(client, m);
      MarkState(client, RequestSent);
      SendConsensusResponse(client);
      MarkState(client, ResponseSent);
    }

    method MarkState(client: string, target: EofState)
      requires Valid()
      modifies registry, registry.entries
      ensures Valid() && fresh(registry.entries - old(registry.entries))
      ensures View(client) == old(View(client)).(state := Update(old(View(client)).state, target))
      ensures forall d :: d != client ==> View(d) == old(View(d))
    {
      registry.MarkAs(client, target);
    }

    /** The response that was appended carries the counters if there is room for them. */
    ghost predicate Answered(before: Outbox, client: string, counts: Counts)
      reads this
    {
      && |toLeader| == |before| + 1 && toLeader[..|before|] == before
      && toLeader[|before|].0 == client && toLeader[|before|].1.Response? && toLeader[|before|].1.id == id
      && ((if auxiliary then |PlainKeys(counts)| <= 1 else |counts.Keys| <= 2) <==> Carried(toLeader[|before|].1.slots) == counts)
    }

    method SendConsensusResponse(client: string)
      modifies `toLeader
      ensures Answered(old(toLeader), client, View(client).processed)
    {
      var items := ListItems(Or(processed, client, map[]));
      var slots := FillResponse(items, auxiliary);
      AsCountsKeys(items);
      OthersKeys(items);
      toLeader := toLeader + [(client, Response(id, slots))];
    }

    method IncludeAwaited(client: string, m: Awaited)
      modifies `processed
      ensures View(client) == old(View(client)).(processed := WithAwaited(old(View(client)).processed, AwaitedSet(m)))
      ensures forall d :: d != client ==> View(d) == old(View(d))
    {
      ghost var before := Or(processed, client, map[]);
      if m.flux1.Some? {
        processed := processed[client := SetDefault(Or(processed, client, map[]), m.flux1.value, 0)];
      }
      if m.flux2.Some? {
        processed := processed[client := SetDefault(Or(processed, client, map[]), m.flux2.value, 0)];
      }
      assert Or(processed, client, map[]) == WithAwaited(before, AwaitedSet(m));
    }

    method AccumulatePartials(client: string, worker: nat, slots: Slots)
      modifies `partials
      ensures View(client) == RecordPartials(old(View(client)), worker, Carried(slots))
      ensures forall d :: d != client ==> View(d) == old(View(d))
    {
      ghost var before := Or(partials, client, map[]);
      MergedNone(before, worker);
      if slots.flux1.Some? {
        PutMerged(before, worker, map[], slots.flux1.value, slots.count1);
        partials := partials[client := PutById(Or(partials, client, map[]), slots.flux1.value, worker, slots.count1)];
      }
      if slots.flux2.Some? {
        PutMerged(before, worker, if slots.flux1.Some? then map[slots.flux1.value := slots.count1] else map[],
                  slots.flux2.value, slots.count2);
        partials := partials[client := PutById(Or(partials, client, map[]), slots.flux2.value, worker, slots.count2)];
      }
      assert Or(partials, client, map[]) == MergeById(before, worker, Carried(slots));
    }

    method HaveReceivedAllPartials(client: string, ghost w: Worker) returns (all: bool)
      requires w.partials == View(client).partials && w.eofs == View(client).eofs
      ensures all <==> HaveAllPartials(w, workers)
    {
      if Or(partials, client, map[]).Keys != Or(eofsReceived, client, {}) {
        return false;
      }
      all := AllIdsPresent(Or(partials, client, map[]), workers);
    }

    method TotalizerAgrees(client: string, ghost w: Worker) returns (agree: bool)
      requires w.partials == View(client).partials && w.totals == View(client).totals
      ensures agree <==> TotalsAgree(w, auxiliary)
    {
      if !auxiliary {
        agree := PooledAgree(Or(partials, client, map[]), Or(totalReceived, client, map[]), w);
      } else {
        agree := AuxiliaryAgree(Or(partials, client, map[]), Or(totalReceived, client, map[]), w);
      }
    }

    method SendConsensusOk(client: string)
      requires Valid()
      modifies `fanout, registry, registry.entries
      ensures Valid() && fresh(registry.entries - old(registry.entries))
      ensures View(client) == old(View(client)).(state := Update(old(View(client)).state, ConsensusAchieved))
      ensures forall d :: d != client ==> View(d) == old(View(d))
      ensures fanout == old(fanout) + [(client, ConsensusOk)]
    {
      fanout := fanout + [(client, ConsensusOk)];
      MarkState(client, ConsensusAchieved);
    }

    method SendConsensusFail(client: string)
      requires Valid()
      modifies `fanout, registry, registry.entries
      ensures Valid() && fresh(registry.entries - old(registry.entries))
      ensures View(client) == old(View(client)).(state := Update(old(View(client)).state, PendingEof))
      ensures forall d :: d != client ==> View(d) == old(View(d))
      ensures fanout == old(fanout) + [(client, ConsensusFail)]
    {
      fanout := fanout + [(client, ConsensusFail)];
      MarkState(client, PendingEof);
    }

    /** OK, or FAIL and the partials of the round are dropped. */
    method Announce(client: string, agree: bool)
      requires Valid()
      modifies `partials, `fanout, registry, registry.entries
      ensures Valid() && fresh(registry.entries - old(registry.entries))
      ensures agree ==> View(client) == old(View(client)).(state := Update(old(View(client)).state, ConsensusAchieved))
      ensures !agree ==>
                View(client) == old(View(client)).(state := Update(old(View(client)).state, PendingEof), partials := map[])
      ensures forall d :: d != client ==> View(d) == old(View(d))
      ensures fanout == old(fanout) + [(client, if agree then ConsensusOk else ConsensusFail)]
    {
      if agree {
        SendConsensusOk(client);
      } else {
        SendConsensusFail(client);
        ClearPartials(client);
      }
    }

    method ClearPartials(client: string)
      modifies `partials
      ensures View(client) == old(View(client)).(partials := map[])
      ensures forall d :: d != client ==> View(d) == old(View(d))
    {
      partials := partials - {client};
    }

    /** What the leader does to its records for each outcome. */
    ghost function Concluded(w: Worker, outcome: Outcome): Worker {
      match outcome
      case Incomplete => w
      case Ok => Agreeing(w)
      case Fail => Disagreeing(w)
    }

    /** The leader's decision, from the partials it has recorded. */
    method DecideRound(client: string) returns (outcome: Outcome)
      requires Valid()
      modifies `partials, `fanout, registry, registry.entries
      ensures Valid() && fresh(registry.entries - old(registry.entries))
      ensures outcome == Decide(old(View(client)), workers, auxiliary)
      ensures View(client) == Concluded(old(View(client)), outcome)
      ensures forall d :: d != client ==> View(d) == old(View(d))
      ensures fanout == old(fanout) + match outcome
                                      case Incomplete => []
                                      case Ok => [(client, ConsensusOk)]
                                      case Fail => [(client, ConsensusFail)]
    {
      hide TotalsAgree, HaveAllPartials;
      ghost var w := View(client);
      var all := HaveReceivedAllPartials(client, w);
      if !all {
        return Incomplete;
      }
      MarkState(client, ResponseSent);
      var agree := TotalizerAgrees(client, w);
      outcome := if agree then Ok else Fail;
      Announce(client, agree);
    }

    method ProcessResponse(client: string, worker: nat, slots: Slots) returns (outcome: Outcome)
      requires Valid()
      modifies `partials, `fanout, registry, registry.entries
      ensures Valid() && fresh(registry.entries - old(registry.entries))
      ensures outcome == Decide(RecordPartials(old(View(client)), worker, Carried(slots)), workers, auxiliary)
      ensures View(client) == Concluded(RecordPartials(old(View(client)), worker, Carried(slots)), outcome)
      ensures forall d :: d != client ==> View(d) == old(View(d))
      ensures fanout == old(fanout) + match outcome
                                      case Incomplete => []
                                      case Ok => [(client, ConsensusOk)]
                                      case Fail => [(client, ConsensusFail)]
    {
      AccumulatePartials(client, worker, slots);
      outcome := DecideRound(client);
    }

    /**
     A response, read by the leader. After Ok its own callback follows and then
     OnOwnPost; after Fail a pause and then SendConsensusRequest.
     */
    method OnConsensusResponse(client: string, worker: nat, slots: Slots) returns (outcome: Outcome)
      requires Valid()
      modifies `partials, `fanout, registry, registry.entries
      ensures Valid() && fresh(registry.entries - old(registry.entries))
      ensures outcome == if ValidTransition(old(View(client)).state, ResponseSent)
                         then Decide(RecordPartials(old(View(client)), worker, Carried(slots)), workers, auxiliary)
                         else Incomplete
      ensures View(client) == if ValidTransition(old(View(client)).state, ResponseSent)
                              then CollectResponse(old(View(client)), workers, auxiliary, worker, Carried(slots))
                              else old(View(client))
      ensures forall d :: d != client ==> View(d) == old(View(d))
      ensures fanout == old(fanout) + match outcome
                                      case Incomplete => []
                                      case Ok => [(client, ConsensusOk)]
                                      case Fail => [(client, ConsensusFail)]
    {
      hide Decide;
      var valid := registry.WithValidTransitionTo(client, ResponseSent);
      if !valid {
        return Incomplete;
      }
      outcome := ProcessResponse(client, worker, slots);
    }

    /** A worker hears that consensus is reached; if so its callback follows and then SendPost. */
    method OnConsensusOk(client: string) returns (run: bool)
      requires Valid()
      modifies registry, registry.entries
      ensures Valid() && fresh(registry.entries - old(registry.entries))
      ensures run <==> ValidTransition(old(View(client)).state, ConsensusAchieved)
      ensures View(client) == if run then old(View(client)).(state := Update(old(View(client)).state, ConsensusAchieved))
                              else old(View(client))
      ensures forall d :: d != client ==> View(d) == old(View(d))
    {
      run := registry.WithValidTransitionTo(client, ConsensusAchieved);
      if run {
        registry.MarkAs(client, ConsensusAchieved);
      }
    }

    /** A worker hears that the round failed and waits for the next request. */
    method OnConsensusFail(client: string)
      requires Valid()
      modifies registry, registry.entries
      ensures Valid() && fresh(registry.entries - old(registry.entries))
      ensures View(client) == if ValidTransition(old(View(client)).state, PendingEof)
                              then old(View(client)).(state := Update(old(View(client)).state, PendingEof))
                              else old(View(client))
      ensures forall d :: d != client ==> View(d) == old(View(d))
    {
      var valid := registry.WithValidTransitionTo(client, PendingEof);
      if valid {
        registry.MarkAs(client, PendingEof);
      }
    }

    // ----- After consensus -----

    method ClearAllClientData(client: string)
      modifies `eofsReceived, `totalReceived, `processed, `partials, `postReceived, `sent
      ensures View(client) == Cleared(old(View(client)))
      ensures View(client) == NewWorker.(state := old(View(client)).state, sentTotals := old(View(client)).sentTotals)
      ensures forall d :: d != client ==> View(d) == old(View(d))
    {
      ClearRound(client);
      partials := partials - {client};
      postReceived := postReceived - {client};
      sent := sent - {client};
    }

    method ClearRound(client: string)
      modifies `eofsReceived, `totalReceived, `processed
      ensures View(client) == old(View(client)).(eofs := {}, totals := map[], processed := map[])
      ensures forall d :: d != client ==> View(d) == old(View(d))
    {
      eofsReceived := eofsReceived - {client};
      totalReceived := totalReceived - {client};
      processed := processed - {client};
    }

    /** A worker reports its sends and forgets the client. */
    method SendPost(client: string)
      requires Valid()
      modifies this, registry, registry.entries
      ensures Valid() && fresh(registry.entries - old(registry.entries))
      ensures toLeader == old(toLeader) + [(client, Post(id, old(View(client)).sent))]
      ensures View(client) == Reported(old(View(client)))
      ensures View(client) == NewWorker.(state := Update(old(View(client)).state, FinishEnabled),
                                         sentTotals := old(View(client)).sentTotals)
      ensures forall d :: d != client ==> View(d) == old(View(d))
      ensures fanout == old(fanout) && nextStage == old(nextStage)
    {
      toLeader := toLeader + [(client, Post(id, Or(sent, client, map[])))];
      registry.MarkAs(client, FinishEnabled);
      ClearAllClientData(client);
    }

    method RecordSends(client: string, worker: nat, sends: Counts)
      modifies `postReceived, `totalSent
      ensures View(client) == RecordPost(old(View(client)), worker, sends)
      ensures forall d :: d != client ==> View(d) == old(View(d))
    {
      postReceived := postReceived[client := Or(postReceived, client, {}) + {worker}];
      StoreSends(client, worker, sends);
    }

    method StoreSends(client: string, worker: nat, sends: Counts)
      modifies `totalSent
      ensures View(client) == old(View(client)).(sentTotals := MergeById(old(View(client)).sentTotals, worker, sends))
      ensures forall d :: d != client ==> View(d) == old(View(d))
    {
      var merged := PutAll(Or(totalSent, client, map[]), worker, sends);
      totalSent := totalSent[client := merged];
    }

    /** The downstream EOF, after which the client is forgotten. */
    method SendEofToNextStage(client: string)
      modifies this
      ensures nextStage == old(nextStage) + [(client, EofTotals(old(View(client)), auxiliary))]
      ensures auxiliary ==> AVERAGES !in nextStage[|old(nextStage)|].1
      ensures forall p :: p in old(View(client)).sentTotals && (auxiliary ==> p != AVERAGES) ==>
                p in nextStage[|old(nextStage)|].1 && nextStage[|old(nextStage)|].1[p] == FluxSum(old(View(client)).sentTotals, p)
      ensures View(client) == Cleared(old(View(client)))
      ensures forall d :: d != client ==> View(d) == old(View(d))
      ensures fanout == old(fanout) && toLeader == old(toLeader)
    {
      var totals := Or(totalSent, client, map[]);
      if auxiliary {
        totals := totals - {AVERAGES};
      }
      var sums := SumPerPrefix(totals);
      KeptSums(Or(totalSent, client, map[]), totals);
      assert sums == EofTotals(View(client), auxiliary);
      nextStage := nextStage + [(client, sums)];
      ClearAllClientData(client);
    }

    /** A report of sends: stored, and after the last one the downstream EOF goes out. */
    method ProcessPost(client: string, worker: nat, sends: Counts)
      requires Valid()
      modifies this, registry, registry.entries
      ensures Valid() && fresh(registry.entries - old(registry.entries))
      ensures View(client) == CollectPost(old(View(client)), workers, worker, sends)
      ensures nextStage == if EmitsEof(old(View(client)), workers, worker)
                           then old(nextStage) + [(client, EofTotals(RecordPost(old(View(client)), worker, sends), auxiliary))]
                           else old(nextStage)
      ensures forall d :: d != client ==> View(d) == old(View(d))
      ensures fanout == old(fanout) && toLeader == old(toLeader)
    {
      RecordSends(client, worker, sends);
      if |Or(postReceived, client, {})| == workers {
        SendEofToNextStage(client);
        registry.MarkAs(client, FinishEnabled);
      }
    }

    /** The leader's own report, once its callback is done. */
    method OnOwnPost(client: string)
      requires Valid()
      modifies this, registry, registry.entries
      ensures Valid() && fresh(registry.entries - old(registry.entries))
      ensures View(client) == CollectPost(old(View(client)), workers, id, old(View(client)).sent)
      ensures nextStage == if EmitsEof(old(View(client)), workers, id)
                           then old(nextStage)
                                + [(client, EofTotals(RecordPost(old(View(client)), id, old(View(client)).sent), auxiliary))]
                           else old(nextStage)
      ensures forall d :: d != client ==> View(d) == old(View(d))
    {
      ProcessPost(client, id, Or(sent, client, map[]));
    }

    /** Another worker's report: refused unless the leader has reached consensus and not finished. */
    method OnPost(client: string, worker: nat, sends: Counts)
      requires Valid()
      modifies this, registry, registry.entries
      ensures Valid() && fresh(registry.entries - old(registry.entries))
      ensures var due := ValidTransition(old(View(client)).state, FinishEnabled);
              && View(client) == (if due then CollectPost(old(View(client)), workers, worker, sends) else old(View(client)))
              && nextStage == if due && EmitsEof(old(View(client)), workers, worker)
                              then old(nextStage) + [(client, EofTotals(RecordPost(old(View(client)), worker, sends), auxiliary))]
                              else old(nextStage)
      ensures forall d :: d != client ==> View(d) == old(View(d))
    {
      var due := registry.WithValidTransitionTo(client, FinishEnabled);
      if due {
        ProcessPost(client, worker, sends);
      }
    }
  }

  /** Dropping a prefix leaves the sums of the others alone. */
  lemma KeptSums(m: CountsById, kept: CountsById)
    requires forall p :: p in kept ==> p in m && kept[p] == m[p]
    ensures forall p :: p in kept ==> FluxSum(kept, p) == FluxSum(m, p)
  {
    forall p | p in kept
      ensures FluxSum(kept, p) == FluxSum(m, p)
    {
      SumSame(kept[p].Keys, (i: nat) => GetById(kept, p, i), (i: nat) => GetById(m, p, i));
    }
  }
}
