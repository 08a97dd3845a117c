/**
 The workers of the scatter-gather pipeline, for one client. Each keeps its
 dictionaries equal to a function of the messages received so far, and on
 consensus sends exactly the messages ScatterGather says, each of them once.
 */
module ScatterGatherStages {
  import opened Sums
  import opened ScatterGather

  /** Messages sent, each with the number of the worker it goes to. */
  type Sends<T> = seq<(nat, T)>

  ghost predicate NoRepeats<T>(xs: seq<T>) {
    forall i, j :: 0 <= i < j < |xs| ==> xs[i] != xs[j]
  }

  function Or(m: map<Account, set<Account>>, k: Account): set<Account> {
    if k in m then m[k] else {}
  }

  class Mapper {
    const hash: Account -> nat
    const aggregators: nat
    var fanout: map<Account, set<Account>>
    var fanin: map<Account, set<Account>>
    ghost var edges: set<Edge>

    ghost predicate Valid()
      reads this
    {
      && aggregators > 0
      && fanout.Keys == (set e | e in edges :: e.0) && (forall o :: o in fanout ==> fanout[o] == Destinations(edges, o))
      && fanin.Keys == (set e | e in edges :: e.1) && (forall d :: d in fanin ==> fanin[d] == Origins(edges, d))
    }

    constructor (hash: Account -> nat, aggregators: nat)
      requires aggregators > 0
      ensures Valid() && edges == {} && this.hash == hash && this.aggregators == aggregators
    {
      this.hash, this.aggregators := hash, aggregators;
      fanout, fanin, edges := map[], map[], {};
    }

    method OnTransaction(origin: Account, destination: Account)
      requires Valid()
      modifies this
      ensures Valid() && edges == old(edges) + {(origin, destination)}
    {
      fanin := fanin[destination := Or(fanin, destination) + {origin}];
      fanout := fanout[origin := Or(fanout, origin) + {destination}];
      edges := edges + {(origin, destination)};
      assert forall d :: d in fanin ==> fanin[d] == Origins(edges, d);
      assert forall o :: o in fanout ==> fanout[o] == Destinations(edges, o);
    }

    function Route(key: Account): nat
      requires aggregators > 0
    {
      hash(key) % aggregators
    }

    method OnConsensus() returns (sends: Sends<ToAggregator>)
      requires Valid()
      ensures NoRepeats(sends)
      ensures forall a, m :: (a, m) in sends <==> m in MapperSends(edges) && a == hash(m.key) % aggregators
    {
      sends := [];
      var origins := fanout.Keys;
      while origins != {}
        invariant origins <= fanout.Keys && NoRepeats(sends)
        invariant forall a, m :: (a, m) in sends <==>
                    m.Fanout? && m.key in fanout.Keys - origins && m.values == fanout[m.key] && a == Route(m.key)
        decreases |origins|
      {
        var o :| o in origins;
        sends := sends + [(Route(o), Fanout(o, fanout[o]))];
        origins := origins - {o};
      }
      var destinations := fanin.Keys;
      while destinations != {}
        invariant destinations <= fanin.Keys && NoRepeats(sends)
        invariant forall a, m :: (a, m) in sends <==> (a == Route(m.key) &&
                    if m.Fanout? then m.key in fanout && m.values == fanout[m.key]
                    else m.key in fanin.Keys - destinations && m.values == fanin[m.key])
        decreases |destinations|
      {
        var d :| d in destinations;
        sends := sends + [(Route(d), Fanin(d, fanin[d]))];
        destinations := destinations - {d};
      }
    }
  }

  /** The neighbours of x are saved exactly if there are enough of them. */
  ghost predicate SavedAs(saved: map<Account, set<Account>>, x: Account, neighbours: set<Account>) {
    (x in saved <==> |neighbours| >= THRESHOLD) && (x in saved ==> saved[x] == neighbours)
  }

  /** Candidates and saved accounts agree with the merged neighbours. */
  ghost predicate Tracks(possible: map<Account, set<Account>>, saved: map<Account, set<Account>>,
                         merged: Account -> set<Account>) {
    forall x :: Or(possible, x) == merged(x) && SavedAs(saved, x, merged(x))
  }

  /** New neighbours of x: it is saved from the message on that brings them to the threshold. */
  lemma TracksGrown(possible: map<Account, set<Account>>, saved: map<Account, set<Account>>,
                    before: Account -> set<Account>, x: Account, more: set<Account>, after: Account -> set<Account>)
    requires Tracks(possible, saved, before)
    requires forall y :: after(y) == if y == x then before(y) + more else before(y)
    ensures var grown := Or(possible, x) + more;
            Tracks(possible[x := grown], if |grown| >= THRESHOLD then saved[x := grown] else saved, after)
  {
    var grown := Or(possible, x) + more;
    SubsetSize(before(x), grown);
    var saved' := if |grown| >= THRESHOLD then saved[x := grown] else saved;
    forall y
      ensures Or(possible[x := grown], y) == after(y) && SavedAs(saved', y, after(y))
    {
      assert Or(possible, y) == before(y) && SavedAs(saved, y, before(y));
    }
  }

  lemma TracksSame(possible: map<Account, set<Account>>, saved: map<Account, set<Account>>,
                   before: Account -> set<Account>, after: Account -> set<Account>)
    requires Tracks(possible, saved, before) && forall x :: after(x) == before(x)
    ensures Tracks(possible, saved, after)
  {
  }

  function OutOf(received: set<ToAggregator>): Account -> set<Account> {
    x => MergedOut(received, x)
  }

  function InOf(received: set<ToAggregator>): Account -> set<Account> {
    x => MergedIn(received, x)
  }

  class Aggregator {
    const hash: Account -> nat
    const pairJoiners: nat
    var possibleFanout: map<Account, set<Account>>
    var possibleFanin: map<Account, set<Account>>
    var fanout: map<Account, set<Account>>
    var fanin: map<Account, set<Account>>
    ghost var received: set<ToAggregator>

    /** The dictionaries of accounts with enough neighbours are up to date. */
    ghost predicate Saved()
      reads this
    {
      && pairJoiners > 0
      && (forall o :: SavedAs(fanout, o, OutOf(received)(o)))
      && (forall d :: SavedAs(fanin, d, InOf(received)(d)))
    }

    /** So are those of all candidates. */
    ghost predicate Valid()
      reads this
    {
      && pairJoiners > 0
      && Tracks(possibleFanout, fanout, OutOf(received))
      && Tracks(possibleFanin, fanin, InOf(received))
    }

    constructor (hash: Account -> nat, pairJoiners: nat)
      requires pairJoiners > 0
      ensures Valid() && received == {} && this.hash == hash && this.pairJoiners == pairJoiners
    {
      this.hash, this.pairJoiners := hash, pairJoiners;
      possibleFanout, possibleFanin, fanout, fanin, received := map[], map[], map[], map[], {};
    }

    method OnMessage(m: ToAggregator)
      requires Valid()
      modifies this
      ensures Valid() && received == old(received) + {m}
    {
      if m.Fanin? {
        OnFanin(m.key, m.values);
      } else {
        OnFanout(m.key, m.values);
      }
    }

    method OnFanin(destination: Account, newOrigins: set<Account>)
      requires Valid()
      modifies this
      ensures Valid() && received == old(received) + {Fanin(destination, newOrigins)}
    {
      var origins := Or(possibleFanin, destination) + newOrigins;
      possibleFanin := possibleFanin[destination := origins];
      if |origins| >= THRESHOLD {
        fanin := fanin[destination := origins];
      }
      received := received + {Fanin(destination, newOrigins)};
      FaninReceived(old(received), destination, newOrigins, received);
      TracksGrown(old(possibleFanin), old(fanin), InOf(old(received)), destination, newOrigins, InOf(received));
      TracksSame(possibleFanout, fanout, OutOf(old(received)), OutOf(received));
    }

    method OnFanout(origin: Account, newDestinations: set<Account>)
      requires Valid()
      modifies this
      ensures Valid() && received == old(received) + {Fanout(origin, newDestinations)}
    {
      var destinations := Or(possibleFanout, origin) + newDestinations;
      possibleFanout := possibleFanout[origin := destinations];
      if |destinations| >= THRESHOLD {
        fanout := fanout[origin := destinations];
      }
      received := received + {Fanout(origin, newDestinations)};
      FanoutReceived(old(received), origin, newDestinations, received);
      TracksGrown(old(possibleFanout), old(fanout), OutOf(old(received)), origin, newDestinations, OutOf(received));
      TracksSame(possibleFanin, fanin, InOf(old(received)), InOf(received));
    }

    function Route(middle: Account): nat
      requires pairJoiners > 0
    {
      hash(middle) % pairJoiners
    }

    /** One message per neighbour of each saved account. */
    method SendToPairJoiners() returns (sends: Sends<ToPairJoiner>)
      requires Saved()
      ensures NoRepeats(sends)
      ensures forall p, m :: (p, m) in sends <==> m in AggregatorSends(received) && p == Route(m.middle)
    {
      sends := [];
      var origins := fanout.Keys;
      while origins != {}
        invariant origins <= fanout.Keys && NoRepeats(sends)
        invariant forall p, m :: (p, m) in sends <==>
                    p == Route(m.middle) && m.FanoutMiddle? && m.key in fanout.Keys - origins && m.middle in fanout[m.key]
        decreases |origins|
      {
        var o :| o in origins;
        sends := SendNeighbours(o, fanout[o], true, sends);
        origins := origins - {o};
      }
      var destinations := fanin.Keys;
      while destinations != {}
        invariant destinations <= fanin.Keys && NoRepeats(sends)
        invariant forall p, m :: (p, m) in sends <==> (p == Route(m.middle) &&
                    if m.FanoutMiddle? then m.key in fanout && m.middle in fanout[m.key]
                    else m.key in fanin.Keys - destinations && m.middle in fanin[m.key])
        decreases |destinations|
      {
        var d :| d in destinations;
        sends := SendNeighbours(d, fanin[d], false, sends);
        destinations := destinations - {d};
      }
      SavedSends();
    }

    /** The inner loop: one message per neighbour of one account. */
    method SendNeighbours(key: Account, neighbours: set<Account>, out: bool, before: Sends<ToPairJoiner>)
      returns (sends: Sends<ToPairJoiner>)
      requires pairJoiners > 0 && NoRepeats(before)
      requires forall p, m :: (p, m) in before ==> m.FanoutMiddle? != out || m.key != key
      ensures NoRepeats(sends)
      ensures forall p, m :: (p, m) in sends <==>
                (p, m) in before || (p == Route(m.middle) && m.FanoutMiddle? == out && m.key == key && m.middle in neighbours)
    {
      sends := before;
      var rest := neighbours;
      while rest != {}
        invariant rest <= neighbours && NoRepeats(sends)
        invariant forall p, m :: (p, m) in sends <==>
                    (p, m) in before || (p == Route(m.middle) && m.FanoutMiddle? == out && m.key == key
                                          && m.middle in neighbours - rest)
        decreases |rest|
      {
        var v :| v in rest;
        sends := sends + [(Route(v), if out then FanoutMiddle(key, v) else FaninMiddle(key, v))];
        rest := rest - {v};
      }
    }

    lemma SavedSends()
      requires Saved()
      ensures forall m :: m in AggregatorSends(received) <==>
                if m.FanoutMiddle? then m.key in fanout && m.middle in fanout[m.key]
                else m.key in fanin && m.middle in fanin[m.key]
    {
      forall m: ToPairJoiner
        ensures m in AggregatorSends(received) <==>
                if m.FanoutMiddle? then m.key in fanout && m.middle in fanout[m.key]
                else m.key in fanin && m.middle in fanin[m.key]
      {
        SendsExactly(received, m);
        assert SavedAs(fanout, m.key, OutOf(received)(m.key)) && SavedAs(fanin, m.key, InOf(received)(m.key));
      }
    }

    /** Candidates below the threshold are dropped before anything is sent. */
    method OnConsensus() returns (sends: Sends<ToPairJoiner>)
      requires Valid()
      modifies `possibleFanout, `possibleFanin
      ensures Saved() && NoRepeats(sends)
      ensures forall p, m :: (p, m) in sends <==> m in AggregatorSends(received) && p == hash(m.middle) % pairJoiners
    {
      possibleFanout, possibleFanin := map[], map[];
      sends := SendToPairJoiners();
    }
  }

  /** A middle message goes out exactly for a merged neighbour of an account with enough of them. */
  lemma SendsExactly(received: set<ToAggregator>, m: ToPairJoiner)
    ensures m in AggregatorSends(received) <==>
            if m.FanoutMiddle? then |MergedOut(received, m.key)| >= THRESHOLD && m.middle in MergedOut(received, m.key)
            else |MergedIn(received, m.key)| >= THRESHOLD && m.middle in MergedIn(received, m.key)
  {
  }

  lemma FanoutReceived(before: set<ToAggregator>, origin: Account, values: set<Account>, after: set<ToAggregator>)
    requires after == before + {Fanout(origin, values)}
    ensures forall o :: MergedOut(after, o) == if o == origin then MergedOut(before, o) + values else MergedOut(before, o)
    ensures forall d :: MergedIn(after, d) == MergedIn(before, d)
  {
  }

  lemma FaninReceived(before: set<ToAggregator>, destination: Account, values: set<Account>, after: set<ToAggregator>)
    requires after == before + {Fanin(destination, values)}
    ensures forall d :: MergedIn(after, d) == if d == destination then MergedIn(before, d) + values else MergedIn(before, d)
    ensures forall o :: MergedOut(after, o) == MergedOut(before, o)
  {
  }

  /** The two sides of a middle account. */
  datatype Sides = Sides(origins: set<Account>, destinations: set<Account>)

  class PairJoiner {
    const hash: string -> nat
    const joiners: nat
    var middles: map<Account, Sides>
    ghost var received: set<ToPairJoiner>

    function SidesOf(middle: Account): Sides
      reads this
    {
      if middle in middles then middles[middle] else Sides({}, {})
    }

    ghost predicate Valid()
      reads this
    {
      && joiners > 0
      && (forall x, m :: x in SidesOf(m).origins <==> FanoutMiddle(x, m) in received)
      && (forall x, m :: x in SidesOf(m).destinations <==> FaninMiddle(x, m) in received)
    }

    constructor (hash: string -> nat, joiners: nat)
      requires joiners > 0
      ensures Valid() && received == {} && this.hash == hash && this.joiners == joiners
    {
      this.hash, this.joiners := hash, joiners;
      middles, received := map[], {};
    }

    method OnMessage(m: ToPairJoiner)
      requires Valid()
      modifies this
      ensures Valid() && received == old(received) + {m}
    {
      var sides := SidesOf(m.middle);
      if m.FaninMiddle? {
        middles := middles[m.middle := Sides(sides.origins, sides.destinations + {m.key})];
      } else {
        middles := middles[m.middle := Sides(sides.origins + {m.key}, sides.destinations)];
      }
      received := received + {m};
    }

    /** The key is the two accounts written one after the other. */
    function Route(origin: Account, destination: Account): nat
      requires joiners > 0
    {
      hash(origin + destination) % joiners
    }

    /** Every pair of accounts on the two sides of every middle account. */
    method OnConsensus() returns (sends: Sends<ToJoiner>)
      requires Valid()
      ensures NoRepeats(sends)
      ensures forall j, m :: (j, m) in sends <==> m in PairJoinerSends(received) && j == hash(m.origin + m.destination) % joiners
    {
      sends := [];
      var rest := middles.Keys;
      while rest != {}
        invariant rest <= middles.Keys && NoRepeats(sends)
        invariant forall j, m :: (j, m) in sends <==> (j == Route(m.origin, m.destination) && m.middle in middles.Keys - rest
                    && m.origin in SidesOf(m.middle).origins && m.destination in SidesOf(m.middle).destinations)
        decreases |rest|
      {
        var middle :| middle in rest;
        if middles[middle].origins != {} && middles[middle].destinations != {} {
          sends := SendPairs(middle, middles[middle], sends);
        }
        rest := rest - {middle};
      }
      PairsSent();
    }

    /** The triples of one middle account: a loop over its origins and destinations. */
    method SendPairs(middle: Account, sides: Sides, before: Sends<ToJoiner>) returns (sends: Sends<ToJoiner>)
      requires joiners > 0 && NoRepeats(before) && forall j, m :: (j, m) in before ==> m.middle != middle
      ensures NoRepeats(sends)
      ensures forall j, m :: (j, m) in sends <==> ((j, m) in before ||
                (j == Route(m.origin, m.destination) && m.middle == middle
                 && m.origin in sides.origins && m.destination in sides.destinations))
    {
      sends := before;
      var origins := sides.origins;
      while origins != {}
        invariant origins <= sides.origins && NoRepeats(sends)
        invariant forall j, m :: (j, m) in sends <==> ((j, m) in before ||
                    (j == Route(m.origin, m.destination) && m.middle == middle
                     && m.origin in sides.origins - origins && m.destination in sides.destinations))
        decreases |origins|
      {
        var o :| o in origins;
        sends := SendFrom(middle, o, sides.destinations, sends);
        origins := origins - {o};
      }
    }

    method SendFrom(middle: Account, o: Account, destinations: set<Account>, before: Sends<ToJoiner>)
      returns (sends: Sends<ToJoiner>)
      requires joiners > 0 && NoRepeats(before)
      requires forall j, m :: (j, m) in before ==> m.middle != middle || m.origin != o
      ensures NoRepeats(sends)
      ensures forall j, m :: (j, m) in sends <==> ((j, m) in before ||
                (j == Route(m.origin, m.destination) && m.middle == middle && m.origin == o && m.destination in destinations))
    {
      sends := before;
      var rest := destinations;
      while rest != {}
        invariant rest <= destinations && NoRepeats(sends)
        invariant forall j, m :: (j, m) in sends <==> ((j, m) in before ||
                    (j == Route(m.origin, m.destination) && m.middle == middle
                     && m.origin == o && m.destination in destinations - rest))
        decreases |rest|
      {
        var d :| d in rest;
        sends := sends + [(Route(o, d), PairMiddle(o, d, middle))];
        rest := rest - {d};
      }
    }

    lemma PairsSent()
      requires Valid()
      ensures forall m :: m in PairJoinerSends(received) <==>
                m.origin in SidesOf(m.middle).origins && m.destination in SidesOf(m.middle).destinations
    {
    }
  }

  class Joiner {
    var accounts: map<Edge, set<Account>>
    ghost var received: set<ToJoiner>

    function MiddlesOf(pair: Edge): set<Account>
      reads this
    {
      if pair in accounts then accounts[pair] else {}
    }

    ghost predicate Valid()
      reads this
    {
      forall o, d :: MiddlesOf((o, d)) == Middles(received, o, d)
    }

    constructor ()
      ensures Valid() && received == {}
    {
      accounts, received := map[], {};
    }

    method OnMessage(m: ToJoiner)
      requires Valid()
      modifies this
      ensures Valid() && received == old(received) + {m}
    {
      var pair := (m.origin, m.destination);
      accounts := accounts[pair := MiddlesOf(pair) + {m.middle}];
      received := received + {m};
      MiddleReceived(old(received), m, received);
    }

    /** Each pair of different accounts with enough middle accounts goes to the client, once. */
    method OnConsensus() returns (emitted: seq<Edge>)
      requires Valid()
      ensures NoRepeats(emitted)
      ensures forall e :: e in emitted <==> e in JoinerEmits(received)
    {
      emitted := [];
      var rest := set e | e in accounts && e.0 != e.1;
      ghost var different := rest;
      while rest != {}
        invariant rest <= different && NoRepeats(emitted)
        invariant forall e :: e in emitted <==> e in different - rest && |MiddlesOf(e)| >= THRESHOLD
        decreases |rest|
      {
        var e :| e in rest;
        if |accounts[e]| >= THRESHOLD {
          emitted := emitted + [e];
        }
        rest := rest - {e};
      }
      EmitsEnough();
    }

    lemma EmitsEnough()
      requires Valid()
      ensures forall e :: e in JoinerEmits(received) <==> e in accounts && e.0 != e.1 && |MiddlesOf(e)| >= THRESHOLD
    {
    }
  }

  lemma MiddleReceived(before: set<ToJoiner>, m: ToJoiner, after: set<ToJoiner>)
    requires after == before + {m}
    ensures forall o, d :: Middles(after, o, d) ==
              Middles(before, o, d) + if o == m.origin && d == m.destination then {m.middle} else {}
  {
  }

  // ----- From stage to stage -----

  /** A worker received exactly what the others sent it. */
  ghost predicate Arrived<T(!new)>(received: nat -> set<T>, sends: nat -> Sends<T>) {
    forall w: nat, m :: m in received(w) <==> exists i :: (w, m) in sends(i)
  }

  /** What the workers of a stage send on consensus, as the contracts of the classes say. */
  ghost predicate MappersSend(r: Run, h: Routing, sends: nat -> Sends<ToAggregator>) {
    forall i: nat, a: nat, m :: (a, m) in sends(i) <==>
      i < |r.mappers| && m in MapperSends(r.mappers[i]) && a == h.toAggregator(m.key)
  }

  ghost predicate AggregatorsSend(r: Run, h: Routing, sends: nat -> Sends<ToPairJoiner>) {
    forall i: nat, p: nat, m :: (p, m) in sends(i) <==> m in AggregatorSends(r.aggregators(i)) && p == h.toPairJoiner(m.middle)
  }

  ghost predicate PairJoinersSend(r: Run, h: Routing, sends: nat -> Sends<ToJoiner>) {
    forall i: nat, j: nat, m :: (j, m) in sends(i) <==>
      m in PairJoinerSends(r.pairJoiners(i)) && j == h.toJoiner(m.origin, m.destination)
  }

  lemma ReachAggregators(r: Run, h: Routing, sends: nat -> Sends<ToAggregator>, a: nat, m: ToAggregator)
    requires MappersSend(r, h, sends) && Arrived(r.aggregators, sends)
    ensures m in r.aggregators(a) <==> SentToAggregator(r, m) && a == h.toAggregator(m.key)
  {
    hide MapperSends;
    if SentToAggregator(r, m) && a == h.toAggregator(m.key) {
      var i :| 0 <= i < |r.mappers| && m in MapperSends(r.mappers[i]);
      assert (a, m) in sends(i);
    }
  }

  lemma ReachPairJoiners(r: Run, h: Routing, sends: nat -> Sends<ToPairJoiner>, p: nat, m: ToPairJoiner)
    requires AggregatorsSend(r, h, sends) && Arrived(r.pairJoiners, sends)
    ensures m in r.pairJoiners(p) <==> SentToPairJoiner(r, m) && p == h.toPairJoiner(m.middle)
  {
    hide AggregatorSends;
    if SentToPairJoiner(r, m) && p == h.toPairJoiner(m.middle) {
      var i :| m in AggregatorSends(r.aggregators(i));
      assert (p, m) in sends(i);
    }
  }

  lemma ReachJoiners(r: Run, h: Routing, sends: nat -> Sends<ToJoiner>, j: nat, m: ToJoiner)
    requires PairJoinersSend(r, h, sends) && Arrived(r.joiners, sends)
    ensures m in r.joiners(j) <==> SentToJoiner(r, m) && j == h.toJoiner(m.origin, m.destination)
  {
    hide PairJoinerSends;
    if SentToJoiner(r, m) && j == h.toJoiner(m.origin, m.destination) {
      var i :| m in PairJoinerSends(r.pairJoiners(i));
      assert (j, m) in sends(i);
    }
  }

  /**
   Workers that send what their classes promise and receive exactly what was
   sent to them make the pipeline of ScatterGather: what the joiners then emit,
   by the contract of Joiner.OnConsensus, is the answer of the query.
   */
  lemma StagesAnswerQuery(r: Run, h: Routing, edges: set<Edge>, fromMappers: nat -> Sends<ToAggregator>,
                          fromAggregators: nat -> Sends<ToPairJoiner>, fromPairJoiners: nat -> Sends<ToJoiner>,
                          emitted: nat -> seq<Edge>)
    requires Split(r.mappers, edges)
    requires MappersSend(r, h, fromMappers) && Arrived(r.aggregators, fromMappers)
    requires AggregatorsSend(r, h, fromAggregators) && Arrived(r.pairJoiners, fromAggregators)
    requires PairJoinersSend(r, h, fromPairJoiners) && Arrived(r.joiners, fromPairJoiners)
    requires forall j: nat, e :: e in emitted(j) <==> e in JoinerEmits(r.joiners(j))
    ensures Delivered(r, h)
    ensures forall j: nat, o, d :: (o, d) in emitted(j) <==> Query(edges, o, d) && j == h.toJoiner(o, d)
  {
    hide MappersSend, AggregatorsSend, PairJoinersSend, Arrived, SentToAggregator, SentToPairJoiner, SentToJoiner,
         Split, JoinerEmits, Query;
    forall a, m {
      ReachAggregators(r, h, fromMappers, a, m);
    }
    forall p, m {
      ReachPairJoiners(r, h, fromAggregators, p, m);
    }
    forall j, m {
      ReachJoiners(r, h, fromPairJoiners, j, m);
    }
    forall j: nat, o, d
      ensures (o, d) in emitted(j) <==> Query(edges, o, d) && j == h.toJoiner(o, d)
    {
      PipelineAnswersQuery(r, h, edges, j, o, d);
    }
  }
}
