/**
 The scatter-gather query over one client's transfers, and the four stages that
 compute it: what each stage sends is a function of the set of messages it
 received, routed to the next stage by a hash of the key.
 */
module ScatterGather {
  import opened Sums

  type Account = string

  /** A transfer between two accounts, as origin and destination. */
  type Edge = (Account, Account)

  const THRESHOLD := 5

  // ----- The query -----

  /** Accounts through which money went from o to d in two transfers. */
  function Common(edges: set<Edge>, o: Account, d: Account): set<Account> {
    set e | e in edges && e.0 == o && (e.1, d) in edges :: e.1
  }

  predicate Query(edges: set<Edge>, o: Account, d: Account) {
    o != d && |Common(edges, o, d)| >= 5
  }

  // ----- Messages between the stages -----

  datatype ToAggregator =
    | Fanout(key: Account, values: set<Account>)
    | Fanin(key: Account, values: set<Account>)

  datatype ToPairJoiner =
    | FanoutMiddle(key: Account, middle: Account)
    | FaninMiddle(key: Account, middle: Account)

  datatype ToJoiner = PairMiddle(origin: Account, destination: Account, middle: Account)

  // ----- What each stage makes of what it received -----

  function Destinations(edges: set<Edge>, o: Account): set<Account> {
    set e | e in edges && e.0 == o :: e.1
  }

  function Origins(edges: set<Edge>, d: Account): set<Account> {
    set e | e in edges && e.1 == d :: e.0
  }

  /** One message per origin and one per destination. */
  function MapperSends(edges: set<Edge>): set<ToAggregator> {
    (set e | e in edges :: Fanout(e.0, Destinations(edges, e.0)))
    + (set e | e in edges :: Fanin(e.1, Origins(edges, e.1)))
  }

  function MergedOut(received: set<ToAggregator>, o: Account): set<Account> {
    set m, v | m in received && m.Fanout? && m.key == o && v in m.values :: v
  }

  function MergedIn(received: set<ToAggregator>, d: Account): set<Account> {
    set m, v | m in received && m.Fanin? && m.key == d && v in m.values :: v
  }

  /** One message per neighbour of every account with enough neighbours. */
  function AggregatorSends(received: set<ToAggregator>): set<ToPairJoiner> {
    (set m, v | m in received && m.Fanout? && v in MergedOut(received, m.key) && |MergedOut(received, m.key)| >= THRESHOLD ::
       FanoutMiddle(m.key, v))
    + (set m, v | m in received && m.Fanin? && v in MergedIn(received, m.key) && |MergedIn(received, m.key)| >= THRESHOLD ::
         FaninMiddle(m.key, v))
  }

  /** One message per origin and destination on the two sides of a middle account. */
  function PairJoinerSends(received: set<ToPairJoiner>): set<ToJoiner> {
    set a, b | a in received && b in received && a.FanoutMiddle? && b.FaninMiddle? && a.middle == b.middle ::
      PairMiddle(a.key, b.key, a.middle)
  }

  function Middles(received: set<ToJoiner>, o: Account, d: Account): set<Account> {
    set m | m in received && m.origin == o && m.destination == d :: m.middle
  }

  function JoinerEmits(received: set<ToJoiner>): set<Edge> {
    set m | m in received && m.origin != m.destination && |Middles(received, m.origin, m.destination)| >= THRESHOLD ::
      (m.origin, m.destination)
  }

  // ----- The whole pipeline -----

  /** The routing of the three hops: any deterministic functions of the keys. */
  datatype Routing = Routing(
    toAggregator: Account -> nat,
    toPairJoiner: Account -> nat,
    toJoiner: (Account, Account) -> nat)

  /** What arrived at the workers of each stage; order and repetition leave no trace in a set. */
  datatype Run = Run(
    mappers: seq<set<Edge>>,
    aggregators: nat -> set<ToAggregator>,
    pairJoiners: nat -> set<ToPairJoiner>,
    joiners: nat -> set<ToJoiner>)

  ghost predicate SentToAggregator(r: Run, m: ToAggregator) {
    exists i :: 0 <= i < |r.mappers| && m in MapperSends(r.mappers[i])
  }

  ghost predicate SentToPairJoiner(r: Run, m: ToPairJoiner) {
    exists a :: m in AggregatorSends(r.aggregators(a))
  }

  ghost predicate SentToJoiner(r: Run, m: ToJoiner) {
    exists p :: m in PairJoinerSends(r.pairJoiners(p))
  }

  /** Every message arrived at the worker it was routed to, and nothing else did. */
  ghost predicate Delivered(r: Run, h: Routing) {
    && (forall a, m :: m in r.aggregators(a) <==> SentToAggregator(r, m) && a == h.toAggregator(m.key))
    && (forall p, m :: m in r.pairJoiners(p) <==> SentToPairJoiner(r, m) && p == h.toPairJoiner(m.middle))
    && (forall j, m :: m in r.joiners(j) <==> SentToJoiner(r, m) && j == h.toJoiner(m.origin, m.destination))
  }

  /** The transfers are split among the mappers, each in one or more of them. */
  ghost predicate Split(mappers: seq<set<Edge>>, edges: set<Edge>) {
    forall e :: e in edges <==> exists i :: 0 <= i < |mappers| && e in mappers[i]
  }

  // ----- What arrives at each stage, in terms of the transfers -----

  /** The aggregator of an account sees all its neighbours, any other aggregator none. */
  lemma AllNeighboursMeet(r: Run, h: Routing, edges: set<Edge>, a: nat, x: Account)
    requires Delivered(r, h) && Split(r.mappers, edges)
    ensures MergedOut(r.aggregators(a), x) == if a == h.toAggregator(x) then Destinations(edges, x) else {}
    ensures MergedIn(r.aggregators(a), x) == if a == h.toAggregator(x) then Origins(edges, x) else {}
  {
    if a == h.toAggregator(x) {
      forall y | (x, y) in edges
        ensures y in MergedOut(r.aggregators(a), x)
      {
        var i :| 0 <= i < |r.mappers| && (x, y) in r.mappers[i];
        var m := Fanout(x, Destinations(r.mappers[i], x));
        assert m in MapperSends(r.mappers[i]);
        assert SentToAggregator(r, m);
        assert y in m.values;
      }
      forall y | (y, x) in edges
        ensures y in MergedIn(r.aggregators(a), x)
      {
        var i :| 0 <= i < |r.mappers| && (y, x) in r.mappers[i];
        var m := Fanin(x, Origins(r.mappers[i], x));
        assert m in MapperSends(r.mappers[i]);
        assert SentToAggregator(r, m);
        assert y in m.values;
      }
      NeighboursAreEdges(r, h, edges, a, x);
    }
  }

  lemma NeighboursAreEdges(r: Run, h: Routing, edges: set<Edge>, a: nat, x: Account)
    requires Delivered(r, h) && Split(r.mappers, edges)
    ensures forall y :: y in MergedOut(r.aggregators(a), x) ==> y in Destinations(edges, x)
    ensures forall y :: y in MergedIn(r.aggregators(a), x) ==> y in Origins(edges, x)
  {
  }

  /** A transfer survives the threshold on its origin's side. */
  predicate KeptOut(edges: set<Edge>, o: Account, m: Account) {
    (o, m) in edges && |Destinations(edges, o)| >= THRESHOLD
  }

  predicate KeptIn(edges: set<Edge>, m: Account, d: Account) {
    (m, d) in edges && |Origins(edges, d)| >= THRESHOLD
  }

  lemma MiddlesSent(r: Run, h: Routing, edges: set<Edge>, x: Account, m: Account)
    requires Delivered(r, h) && Split(r.mappers, edges)
    ensures SentToPairJoiner(r, FanoutMiddle(x, m)) <==> KeptOut(edges, x, m)
    ensures SentToPairJoiner(r, FaninMiddle(x, m)) <==> KeptIn(edges, m, x)
  {
    if SentToPairJoiner(r, FanoutMiddle(x, m)) {
      var a :| FanoutMiddle(x, m) in AggregatorSends(r.aggregators(a));
      AllNeighboursMeet(r, h, edges, a, x);
    }
    if SentToPairJoiner(r, FaninMiddle(x, m)) {
      var a :| FaninMiddle(x, m) in AggregatorSends(r.aggregators(a));
      AllNeighboursMeet(r, h, edges, a, x);
    }
    var home := h.toAggregator(x);
    AllNeighboursMeet(r, h, edges, home, x);
    if KeptOut(edges, x, m) {
      assert m in MergedOut(r.aggregators(home), x);
      assert FanoutMiddle(x, m) in AggregatorSends(r.aggregators(home));
    }
    if KeptIn(edges, m, x) {
      assert m in MergedIn(r.aggregators(home), x);
      assert FaninMiddle(x, m) in AggregatorSends(r.aggregators(home));
    }
  }

  lemma TriplesSent(r: Run, h: Routing, edges: set<Edge>, o: Account, d: Account, m: Account)
    requires Delivered(r, h) && Split(r.mappers, edges)
    ensures SentToJoiner(r, PairMiddle(o, d, m)) <==> KeptOut(edges, o, m) && KeptIn(edges, m, d)
  {
    MiddlesSent(r, h, edges, o, m);
    MiddlesSent(r, h, edges, d, m);
    if SentToJoiner(r, PairMiddle(o, d, m)) {
      var p :| PairMiddle(o, d, m) in PairJoinerSends(r.pairJoiners(p));
      assert FanoutMiddle(o, m) in r.pairJoiners(p) && FaninMiddle(d, m) in r.pairJoiners(p);
    }
    if KeptOut(edges, o, m) && KeptIn(edges, m, d) {
      var p := h.toPairJoiner(m);
      assert FanoutMiddle(o, m) in r.pairJoiners(p) && FaninMiddle(d, m) in r.pairJoiners(p);
      assert PairMiddle(o, d, m) in PairJoinerSends(r.pairJoiners(p));
    }
  }

  // ----- Pruning never changes the answer -----

  /** The middle accounts left after both thresholds. */
  function KeptMiddles(edges: set<Edge>, o: Account, d: Account): set<Account> {
    set m | m in Common(edges, o, d) && KeptOut(edges, o, m) && KeptIn(edges, m, d)
  }

  /**
   Dropping accounts with fewer than five neighbours on the relevant side keeps
   or drops all middle accounts of a pair together, and keeps them if they are enough.
   */
  lemma PruningIsSafe(edges: set<Edge>, o: Account, d: Account)
    ensures |KeptMiddles(edges, o, d)| >= THRESHOLD <==> |Common(edges, o, d)| >= THRESHOLD
  {
    SubsetSize(KeptMiddles(edges, o, d), Common(edges, o, d));
    if |Common(edges, o, d)| >= THRESHOLD {
      SubsetSize(Common(edges, o, d), Destinations(edges, o));
      SubsetSize(Common(edges, o, d), Origins(edges, d));
      assert KeptMiddles(edges, o, d) == Common(edges, o, d);
    }
  }

  // ----- The main result -----

  lemma MiddlesMeet(r: Run, h: Routing, edges: set<Edge>, j: nat, o: Account, d: Account)
    requires Delivered(r, h) && Split(r.mappers, edges)
    ensures Middles(r.joiners(j), o, d) == if j == h.toJoiner(o, d) then KeptMiddles(edges, o, d) else {}
  {
    forall m
      ensures m in Middles(r.joiners(j), o, d) <==> j == h.toJoiner(o, d) && m in KeptMiddles(edges, o, d)
    {
      TriplesSent(r, h, edges, o, d, m);
      assert m in Middles(r.joiners(j), o, d) <==> PairMiddle(o, d, m) in r.joiners(j);
    }
  }

  /**
   However the transfers are split among the mappers, whatever the routing and
   the order and repetition of deliveries: a pair is emitted exactly if it is
   an answer of the query, and only by the joiner it is routed to.
   */
  lemma PipelineAnswersQuery(r: Run, h: Routing, edges: set<Edge>, j: nat, o: Account, d: Account)
    requires Delivered(r, h) && Split(r.mappers, edges)
    ensures (o, d) in JoinerEmits(r.joiners(j)) <==> Query(edges, o, d) && j == h.toJoiner(o, d)
  {
    MiddlesMeet(r, h, edges, j, o, d);
    PruningIsSafe(edges, o, d);
    var middles := Middles(r.joiners(j), o, d);
    if Query(edges, o, d) && j == h.toJoiner(o, d) {
      assert middles != {};
      var m :| m in middles;
      assert PairMiddle(o, d, m) in r.joiners(j);
    }
  }
}
