/**
 The three queries from the records that enter them to what they answer, where
 every stage in between works on what it has when its EOF consensus is reached:
 that each has then received everything is not assumed but follows from the
 counters.
 */
module EndToEnd {
  import opened Options
  import opened Sums
  import opened EofWorker
  import opened EofPipeline
  import S = ScatterGather
  import Stages = ScatterGatherStages
  import M = MaxPerBank
  import A = AverageFilter

  function SetOf<T(==)>(s: seq<T>): set<T> {
    set x | x in s
  }

  /** The messages without their addresses. */
  function Payloads<T(==)>(s: seq<(nat, T)>): set<T> {
    set x | x in s :: x.1
  }

  function At<T>(parts: seq<seq<T>>, i: nat): seq<T> {
    if i < |parts| then parts[i] else []
  }

  lemma PayloadsHas<T>(s: seq<(nat, T)>, w: nat, m: T)
    requires forall x :: x in s ==> x.0 == w
    ensures m in Payloads(s) <==> (w, m) in s
  {
    if m in Payloads(s) {
      var x :| x in s && x.1 == m;
      assert x == (w, m);
    }
  }

  /** Two stages, the output of the one and the flux of the other that it is. */
  datatype Connection = Connection(up: Stage, output: Prefix, down: Stage, flux: Prefix)

  ghost predicate Routed<T>(e: Connection, sent: seq<seq<(nat, T)>>, got: seq<seq<(nat, T)>>) {
    RoutedHop(e.up, e.output, e.down, e.flux, sent, got)
  }

  ghost predicate Queued<T>(e: Connection, sent: seq<seq<T>>, got: seq<seq<T>>) {
    Hop(e.up, e.output, e.down, e.flux, sent, got)
  }

  lemma RoutedArrives<T(!new)>(e: Connection, sent: seq<seq<(nat, T)>>, got: seq<seq<(nat, T)>>, w: nat, m: T)
    requires Routed(e, sent, got)
    ensures m in Payloads(At(got, w)) <==> exists i :: (w, m) in At(sent, i)
  {
    EachProcessesItsOwn(e.up, e.output, e.down, e.flux, sent, got, w, m);
    PayloadsHas(At(got, w), w, m);
    if i :| 0 <= i < |sent| && (w, m) in sent[i] {
      assert (w, m) in At(sent, i);
    }
  }

  /** What was sent by and arrived at each worker, as the query sees it. */
  lemma AllArrived<T(!new)>(e: Connection, sent: seq<seq<(nat, T)>>, got: seq<seq<(nat, T)>>,
                            received: nat -> set<T>, sends: nat -> seq<(nat, T)>)
    requires Routed(e, sent, got)
    requires (forall w :: received(w) == Payloads(At(got, w))) && forall i :: sends(i) == At(sent, i)
    ensures Stages.Arrived(received, sends)
  {
    hide Routed, Payloads;
    forall w: nat, m: T
      ensures m in received(w) <==> exists i :: (w, m) in sends(i)
    {
      RoutedArrives(e, sent, got, w, m);
      if i :| (w, m) in At(sent, i) {
        assert (w, m) in sends(i);
      }
    }
  }

  // ----- Scatter-gather -----

  /** What the workers of a stage send on consensus, from what each of them received. */
  ghost predicate MappersSent(h: S.Routing, got: seq<seq<S.Edge>>, sent: seq<Stages.Sends<S.ToAggregator>>) {
    |sent| == |got| && forall i, a: nat, m :: 0 <= i < |sent| ==>
      ((a, m) in sent[i] <==> m in S.MapperSends(SetOf(got[i])) && a == h.toAggregator(m.key))
  }

  ghost predicate AggregatorsSent(h: S.Routing, got: seq<Stages.Sends<S.ToAggregator>>,
                                  sent: seq<Stages.Sends<S.ToPairJoiner>>) {
    |sent| == |got| && forall i, p: nat, m :: 0 <= i < |sent| ==>
      ((p, m) in sent[i] <==> m in S.AggregatorSends(Payloads(got[i])) && p == h.toPairJoiner(m.middle))
  }

  ghost predicate PairJoinersSent(h: S.Routing, got: seq<Stages.Sends<S.ToPairJoiner>>,
                                  sent: seq<Stages.Sends<S.ToJoiner>>) {
    |sent| == |got| && forall i, j: nat, m :: 0 <= i < |sent| ==>
      ((j, m) in sent[i] <==> m in S.PairJoinerSends(Payloads(got[i])) && j == h.toJoiner(m.origin, m.destination))
  }

  ghost predicate JoinersEmitted(got: seq<Stages.Sends<S.ToJoiner>>, emitted: seq<seq<S.Edge>>) {
    |emitted| == |got| && forall j, e :: 0 <= j < |emitted| ==> (e in emitted[j] <==> e in S.JoinerEmits(Payloads(got[j])))
  }

  function RunOf(got: seq<seq<S.Edge>>, atAggregators: seq<Stages.Sends<S.ToAggregator>>,
                 atPairJoiners: seq<Stages.Sends<S.ToPairJoiner>>, atJoiners: seq<Stages.Sends<S.ToJoiner>>): (r: S.Run)
    ensures |r.mappers| == |got| && forall i :: 0 <= i < |got| ==> r.mappers[i] == SetOf(got[i])
  {
    S.Run(seq(|got|, i requires 0 <= i < |got| => SetOf(got[i])),
          (a: nat) => Payloads(At(atAggregators, a)),
          (p: nat) => Payloads(At(atPairJoiners, p)),
          (j: nat) => Payloads(At(atJoiners, j)))
  }

  lemma MappersAsSent(h: S.Routing, got: seq<seq<S.Edge>>, sent: seq<Stages.Sends<S.ToAggregator>>, r: S.Run,
                      sends: nat -> Stages.Sends<S.ToAggregator>)
    requires MappersSent(h, got, sent) && forall i :: sends(i) == At(sent, i)
    requires |r.mappers| == |got| && forall i :: 0 <= i < |got| ==> r.mappers[i] == SetOf(got[i])
    ensures Stages.MappersSend(r, h, sends)
  {
    hide S.MapperSends;
  }

  lemma AggregatorsAsSent(h: S.Routing, got: seq<Stages.Sends<S.ToAggregator>>,
                          sent: seq<Stages.Sends<S.ToPairJoiner>>, r: S.Run,
                          sends: nat -> Stages.Sends<S.ToPairJoiner>)
    requires AggregatorsSent(h, got, sent) && forall i :: sends(i) == At(sent, i)
    requires forall i :: r.aggregators(i) == Payloads(At(got, i))
    ensures Stages.AggregatorsSend(r, h, sends)
  {
    assert S.AggregatorSends({}) == {} && Payloads<S.ToAggregator>([]) == {};
  }

  lemma PairJoinersAsSent(h: S.Routing, got: seq<Stages.Sends<S.ToPairJoiner>>,
                          sent: seq<Stages.Sends<S.ToJoiner>>, r: S.Run,
                          sends: nat -> Stages.Sends<S.ToJoiner>)
    requires PairJoinersSent(h, got, sent) && forall i :: sends(i) == At(sent, i)
    requires forall i :: r.pairJoiners(i) == Payloads(At(got, i))
    ensures Stages.PairJoinersSend(r, h, sends)
  {
    assert S.PairJoinerSends({}) == {} && Payloads<S.ToPairJoiner>([]) == {};
  }

  lemma JoinersAsEmitted(got: seq<Stages.Sends<S.ToJoiner>>, emitted: seq<seq<S.Edge>>, r: S.Run, emits: nat -> seq<S.Edge>)
    requires JoinersEmitted(got, emitted) && forall j :: emits(j) == At(emitted, j)
    requires forall j :: r.joiners(j) == Payloads(At(got, j))
    ensures forall j: nat, e :: e in emits(j) <==> e in S.JoinerEmits(r.joiners(j))
  {
    assert S.JoinerEmits({}) == {} && Payloads<S.ToJoiner>([]) == {};
  }

  lemma SplitAmongMappers(e: Connection, sent: seq<seq<S.Edge>>, got: seq<seq<S.Edge>>, mappers: seq<set<S.Edge>>)
    requires Queued(e, sent, got)
    requires |mappers| == |got| && forall i :: 0 <= i < |got| ==> mappers[i] == SetOf(got[i])
    ensures S.Split(mappers, SetOf(Flatten(sent)))
  {
    hide Hop;
    EveryMessageProcessed(e.up, e.output, e.down, e.flux, sent, got);
    forall x: S.Edge
      ensures x in Flatten(sent) <==> exists i :: 0 <= i < |mappers| && x in mappers[i]
    {
      FlattenHas(got, x);
      assert x in multiset(Flatten(sent)) <==> x in multiset(Flatten(got));
      if i :| 0 <= i < |got| && x in got[i] {
        assert x in mappers[i];
      }
    }
  }

  /** The messages of one client at every stage, in the order of the workers. */
  datatype ScatterRun = ScatterRun(
    transfers: seq<seq<S.Edge>>,
    atMappers: seq<seq<S.Edge>>,
    fromMappers: seq<Stages.Sends<S.ToAggregator>>,
    atAggregators: seq<Stages.Sends<S.ToAggregator>>,
    fromAggregators: seq<Stages.Sends<S.ToPairJoiner>>,
    atPairJoiners: seq<Stages.Sends<S.ToPairJoiner>>,
    fromPairJoiners: seq<Stages.Sends<S.ToJoiner>>,
    atJoiners: seq<Stages.Sends<S.ToJoiner>>,
    emitted: seq<seq<S.Edge>>)

  /**
   From the transfers sent to the mappers to the pairs the joiners emit, each
   stage sending what its class promises of what it has processed when it
   agrees: together they emit exactly the answer of the query, each pair at its
   own joiner.
   */
  lemma ScatterGatherAnswers(h: S.Routing, x: ScatterRun, in0: Connection, in1: Connection, in2: Connection, in3: Connection)
    requires Queued(in0, x.transfers, x.atMappers)
    requires MappersSent(h, x.atMappers, x.fromMappers) && Routed(in1, x.fromMappers, x.atAggregators)
    requires AggregatorsSent(h, x.atAggregators, x.fromAggregators) && Routed(in2, x.fromAggregators, x.atPairJoiners)
    requires PairJoinersSent(h, x.atPairJoiners, x.fromPairJoiners) && Routed(in3, x.fromPairJoiners, x.atJoiners)
    requires JoinersEmitted(x.atJoiners, x.emitted)
    ensures forall j: nat, o, d :: (o, d) in At(x.emitted, j) <==>
              S.Query(SetOf(Flatten(x.transfers)), o, d) && j == h.toJoiner(o, d)
  {
    hide Queued, Routed, Flatten, MappersSent, AggregatorsSent, PairJoinersSent, JoinersEmitted;
    var r := RunOf(x.atMappers, x.atAggregators, x.atPairJoiners, x.atJoiners);
    var sends1 := (i: nat) => At(x.fromMappers, i);
    var sends2 := (i: nat) => At(x.fromAggregators, i);
    var sends3 := (i: nat) => At(x.fromPairJoiners, i);
    var emits := (j: nat) => At(x.emitted, j);
    SplitAmongMappers(in0, x.transfers, x.atMappers, r.mappers);
    AllArrived(in1, x.fromMappers, x.atAggregators, r.aggregators, sends1);
    AllArrived(in2, x.fromAggregators, x.atPairJoiners, r.pairJoiners, sends2);
    AllArrived(in3, x.fromPairJoiners, x.atJoiners, r.joiners, sends3);
    MappersAsSent(h, x.atMappers, x.fromMappers, r, sends1);
    AggregatorsAsSent(h, x.atAggregators, x.fromAggregators, r, sends2);
    PairJoinersAsSent(h, x.atPairJoiners, x.fromPairJoiners, r, sends3);
    JoinersAsEmitted(x.atJoiners, x.emitted, r, emits);
    Stages.StagesAnswerQuery(r, h, SetOf(Flatten(x.transfers)), sends1, sends2, sends3, emits);
    forall j: nat, o, d
      ensures (o, d) in At(x.emitted, j) <==> S.Query(SetOf(Flatten(x.transfers)), o, d) && j == h.toJoiner(o, d)
    {
      assert (o, d) in emits(j) <==> S.Query(SetOf(Flatten(x.transfers)), o, d) && j == h.toJoiner(o, d);
    }
  }

  // ----- The maximum per bank -----

  /** A transaction on its way to a mapper; the amount may be missing. */
  datatype Redirected = Redirected(bank: int, origin: string, amount: Option<real>)

  /** The transactions a mapper can use. */
  function TxsOf(s: seq<(nat, Redirected)>): set<M.Tx> {
    set x | x in s && x.1.amount.Some? :: M.Tx(x.1.bank, x.1.origin, x.1.amount.value)
  }

  function NamesOf(s: seq<(nat, M.Named)>): (names: seq<M.Named>)
    ensures |names| == |s| && forall i :: 0 <= i < |s| ==> names[i] == s[i].1
  {
    seq(|s|, i requires 0 <= i < |s| => s[i].1)
  }

  /** The messages and records of one client at every worker. */
  datatype MaxRun = MaxRun(
    redirected: seq<seq<(nat, Redirected)>>,
    atMappers: seq<seq<(nat, Redirected)>>,
    best: seq<M.Best>,
    fromMappers: seq<seq<(nat, M.Tx)>>,
    results: seq<seq<(nat, M.Tx)>>,
    records: seq<seq<M.Named>>,
    fromFilters: seq<seq<(nat, M.Named)>>,
    named: seq<seq<(nat, M.Named)>>,
    pending: seq<M.Best>,
    caches: seq<map<int, string>>,
    rows: seq<seq<M.Row>>)

  /** What the redirectors, mappers and bank filters send, as the contracts of MaxPerBank say. */
  ghost predicate MaxSent(h: M.Routing, x: MaxRun) {
    && (forall i, y :: 0 <= i < |x.redirected| && y in x.redirected[i] ==> y.0 == h.toMapper(y.1.bank))
    && |x.best| == |x.fromMappers| == |x.atMappers|
    && (forall m :: 0 <= m < |x.best| ==> M.Maxima(TxsOf(x.atMappers[m]), x.best[m]))
    && (forall m, j: nat, t :: 0 <= m < |x.best| ==>
          ((j, t) in x.fromMappers[m] <==>
             t.bank in x.best[m] && x.best[m][t.bank] == (t.amount, t.origin) && j == h.toJoiner(t.bank)))
    && |x.fromFilters| == |x.records|
    && (forall k, j: nat, n :: 0 <= k < |x.records| ==>
          ((j, n) in x.fromFilters[k] <==> n in M.FirstSeen(x.records[k]) && j == h.toJoiner(n.bank)))
  }

  /** What the joiners keep and emit. */
  ghost predicate MaxJoined(x: MaxRun) {
    && |x.pending| == |x.caches| == |x.rows| == |x.results| == |x.named|
    && (forall j :: 0 <= j < |x.rows| ==> M.Maxima(Payloads(x.results[j]), x.pending[j]))
    && (forall j :: 0 <= j < |x.rows| ==> M.Cached(NamesOf(x.named[j]), x.caches[j]))
    && (forall j, row :: 0 <= j < |x.rows| ==> (row in x.rows[j] <==> M.Joined(x.pending[j], x.caches[j], row)))
  }

  function MapAt<V>(maps: seq<map<int, V>>, i: nat): map<int, V> {
    if i < |maps| then maps[i] else map[]
  }

  function MaxRunOf(x: MaxRun): M.Run {
    M.Run((m: nat) => TxsOf(At(x.atMappers, m)), (m: nat) => MapAt(x.best, m),
          (j: nat) => Payloads(At(x.results, j)), (j: nat) => MapAt(x.pending, j),
          (j: nat) => NamesOf(At(x.named, j)), (j: nat) => MapAt(x.caches, j))
  }

  function ForwardedIn(x: MaxRun): set<M.Named> {
    Payloads(Flatten(x.fromFilters))
  }

  lemma FlattenAt<T>(parts: seq<seq<T>>, y: T)
    ensures y in Flatten(parts) <==> exists i :: y in At(parts, i)
  {
    FlattenHas(parts, y);
    if i :| 0 <= i < |parts| && y in parts[i] {
      assert y in At(parts, i);
    }
  }

  lemma MapperTxs(h: M.Routing, x: MaxRun, e: Connection, m: nat, t: M.Tx)
    requires MaxSent(h, x) && Routed(e, x.redirected, x.atMappers)
    ensures t in TxsOf(At(x.atMappers, m)) <==> t in TxsOf(Flatten(x.redirected)) && m == h.toMapper(t.bank)
  {
    hide Flatten, Routed;
    var y := Redirected(t.bank, t.origin, Some(t.amount));
    EachOwn(e, x.redirected, x.atMappers, m, y);
    FlattenAt(x.redirected, (m, y));
    if t in TxsOf(At(x.atMappers, m)) {
      OwnAddress(e, x.redirected, x.atMappers, m);
      assert (m, y) in At(x.atMappers, m);
      assert (m, y) in Flatten(x.redirected);
    }
    if t in TxsOf(Flatten(x.redirected)) && m == h.toMapper(t.bank) {
      var z :| z in Flatten(x.redirected) && z.1 == y;
      FlattenAt(x.redirected, z);
      assert z == (m, y);
    }
  }

  lemma EachOwn<T(!new)>(e: Connection, sent: seq<seq<(nat, T)>>, got: seq<seq<(nat, T)>>, w: nat, m: T)
    requires Routed(e, sent, got)
    ensures (w, m) in At(got, w) <==> exists i :: (w, m) in At(sent, i)
  {
    EachProcessesItsOwn(e.up, e.output, e.down, e.flux, sent, got, w, m);
    if i :| 0 <= i < |sent| && (w, m) in sent[i] {
      assert (w, m) in At(sent, i);
    }
  }

  lemma OwnAddress<T>(e: Connection, sent: seq<seq<(nat, T)>>, got: seq<seq<(nat, T)>>, w: nat)
    requires Routed(e, sent, got)
    ensures forall y :: y in At(got, w) ==> y.0 == w
  {
  }

  lemma JoinerResults(h: M.Routing, x: MaxRun, e: Connection, j: nat, t: M.Tx)
    requires MaxSent(h, x) && Routed(e, x.fromMappers, x.results)
    ensures t in Payloads(At(x.results, j)) <==> M.SentToJoiner(MaxRunOf(x), t) && j == h.toJoiner(t.bank)
  {
    hide Routed;
    RoutedArrives(e, x.fromMappers, x.results, j, t);
    var r := MaxRunOf(x);
    if i :| (j, t) in At(x.fromMappers, i) {
      assert t.bank in r.mapperBest(i) && r.mapperBest(i)[t.bank] == (t.amount, t.origin);
    }
    if m: nat :| t.bank in r.mapperBest(m) && r.mapperBest(m)[t.bank] == (t.amount, t.origin) {
      assert (h.toJoiner(t.bank), t) in At(x.fromMappers, m);
    }
  }

  lemma JoinerNames(h: M.Routing, x: MaxRun, e: Connection, j: nat, n: M.Named)
    requires MaxSent(h, x) && Routed(e, x.fromFilters, x.named)
    ensures n in NamesOf(At(x.named, j)) <==> n in ForwardedIn(x) && j == h.toJoiner(n.bank)
    ensures n in ForwardedIn(x) <==> exists k :: 0 <= k < |x.records| && n in M.FirstSeen(x.records[k])
  {
    hide Routed, Flatten, M.FirstSeen;
    RoutedArrives(e, x.fromFilters, x.named, j, n);
    assert n in NamesOf(At(x.named, j)) <==> n in Payloads(At(x.named, j));
    var home := h.toJoiner(n.bank);
    FlattenAt(x.fromFilters, (home, n));
    if n in ForwardedIn(x) {
      var z :| z in Flatten(x.fromFilters) && z.1 == n;
      FlattenAt(x.fromFilters, z);
      assert z == (home, n);
    }
    if k :| 0 <= k < |x.records| && n in M.FirstSeen(x.records[k]) {
      assert (home, n) in At(x.fromFilters, k);
      assert (home, n) in Flatten(x.fromFilters);
    }
  }

  lemma MaxDelivered(h: M.Routing, x: MaxRun, in0: Connection, in1: Connection, in2: Connection)
    requires MaxSent(h, x) && MaxJoined(x)
    requires Routed(in0, x.redirected, x.atMappers) && Routed(in1, x.fromMappers, x.results)
    requires Routed(in2, x.fromFilters, x.named)
    ensures M.Delivered(MaxRunOf(x), h, TxsOf(Flatten(x.redirected)), ForwardedIn(x))
    ensures M.ForwardedBy(x.records, ForwardedIn(x))
  {
    hide Routed, M.Maxima, M.Cached, M.SentToJoiner, Flatten, M.FirstSeen, ForwardedIn;
    var r := MaxRunOf(x);
    NothingKept();
    forall m: nat, t
      ensures t in r.mapperTxs(m) <==> t in TxsOf(Flatten(x.redirected)) && m == h.toMapper(t.bank)
    {
      MapperTxs(h, x, in0, m, t);
    }
    forall j: nat, t
      ensures t in r.joinerResults(j) <==> M.SentToJoiner(r, t) && j == h.toJoiner(t.bank)
    {
      JoinerResults(h, x, in1, j, t);
    }
    forall j: nat, n
      ensures n in r.joinerNamed(j) <==> n in ForwardedIn(x) && j == h.toJoiner(n.bank)
    {
      JoinerNames(h, x, in2, j, n);
    }
    forall n
      ensures n in ForwardedIn(x) <==> exists k :: 0 <= k < |x.records| && n in M.FirstSeen(x.records[k])
    {
      JoinerNames(h, x, in2, 0, n);
    }
  }

  lemma NothingKept()
    ensures TxsOf([]) == {} && Payloads<M.Tx>([]) == {} && NamesOf([]) == []
    ensures M.Maxima({}, map[]) && M.Cached([], map[])
  {
  }

  /**
   From redirected transactions and bank records to rows: every row has its
   bank's maximum over all transactions and the name of a first record, and a
   bank has a row exactly if it has a transaction and the last name its joiner
   received is not the placeholder.
   */
  lemma MaxPerBankAnswers(h: M.Routing, x: MaxRun, in0: Connection, in1: Connection, in2: Connection)
    requires MaxSent(h, x) && MaxJoined(x)
    requires Routed(in0, x.redirected, x.atMappers) && Routed(in1, x.fromMappers, x.results)
    requires Routed(in2, x.fromFilters, x.named)
    ensures forall j: nat, row :: row in At(x.rows, j) ==>
              && j == h.toJoiner(row.bank) && M.FirstNamed(x.records, row.bank, row.name) && row.name != M.UNKNOWN
              && M.IsMaximum(TxsOf(Flatten(x.redirected)), row.bank, row.amount, row.origin)
    ensures forall b: int :: (exists row :: row in At(x.rows, h.toJoiner(b)) && row.bank == b) <==>
              (M.HasTx(TxsOf(Flatten(x.redirected)), b) && exists name ::
                 && M.FirstNamed(x.records, b, name) && name != M.UNKNOWN
                 && M.LastName(NamesOf(At(x.named, h.toJoiner(b))), b) == Some(name))
  {
    hide MaxSent, Routed, Flatten, M.IsMaximum, M.FirstNamed, M.HasTx, M.LastName, M.Delivered, M.ForwardedBy, ForwardedIn,
         M.NameForwarded;
    var r, txs, forwarded := MaxRunOf(x), TxsOf(Flatten(x.redirected)), ForwardedIn(x);
    MaxDelivered(h, x, in0, in1, in2);
    forall j: nat, row
      ensures row in At(x.rows, j) <==> M.Joined(r.joinerBest(j), r.joinerCache(j), row)
    {
    }
    forall j: nat, row | row in At(x.rows, j)
      ensures j == h.toJoiner(row.bank) && M.FirstNamed(x.records, row.bank, row.name) && row.name != M.UNKNOWN
      ensures M.IsMaximum(txs, row.bank, row.amount, row.origin)
    {
      M.RowsAreMaxima(r, h, txs, forwarded, j, row);
      M.ForwardedNames(x.records, forwarded, row.bank, row.name);
    }
    forall b: int
      ensures (exists row :: row in At(x.rows, h.toJoiner(b)) && row.bank == b) <==> M.HasRow(r, h.toJoiner(b), b)
      ensures M.HasRow(r, h.toJoiner(b), b) <==> (M.HasTx(txs, b) && exists name ::
                && M.FirstNamed(x.records, b, name) && name != M.UNKNOWN
                && M.LastName(NamesOf(At(x.named, h.toJoiner(b))), b) == Some(name))
    {
      M.RowFromRecords(r, h, txs, x.records, forwarded, b);
    }
  }

  // ----- Small payments -----

  /** A row on its way to a mapper, as it arrives there. */
  datatype Payment = Payment(format: Option<string>, amount: A.Amount)

  /** The rows that count: with a format, and an amount that is not malformed. */
  function Usable(ps: seq<Payment>): seq<A.Row> {
    if ps == [] then []
    else
      var last := ps[|ps| - 1];
      Usable(ps[..|ps| - 1]) +
      if last.format.Some? && last.format.value != "" && !last.amount.Malformed?
      then [A.Row(last.format.value, if last.amount.Given? then last.amount.value else 0.0)] else []
  }

  lemma {:induction false} UsableAppend(a: seq<Payment>, b: seq<Payment>)
    ensures Usable(a + b) == Usable(a) + Usable(b)
    decreases |b|
  {
    if b == [] {
      assert a + b == a;
    } else {
      assert (a + b)[..|a + b| - 1] == a + b[..|b| - 1];
      UsableAppend(a, b[..|b| - 1]);
    }
  }

  /** Taking one payment out of the middle. */
  lemma UsableWithout(ps: seq<Payment>, k: nat)
    requires k < |ps|
    ensures multiset(Usable(ps)) == multiset(Usable(ps[..k] + ps[k + 1..])) + multiset(Usable([ps[k]]))
  {
    hide Usable;
    assert ps == ps[..k] + [ps[k]] + ps[k + 1..];
    UsableAppend(ps[..k] + [ps[k]], ps[k + 1..]);
    UsableAppend(ps[..k], [ps[k]]);
    UsableAppend(ps[..k], ps[k + 1..]);
  }

  /** The same payments in another order have the same rows. */
  lemma {:induction false} UsableReordered(a: seq<Payment>, b: seq<Payment>)
    requires multiset(a) == multiset(b)
    ensures multiset(Usable(a)) == multiset(Usable(b))
    decreases |a|
  {
    hide Usable;
    if a == [] {
      assert |multiset(b)| == |b| == 0;
      assert b == a;
    } else {
      var k := A.LastElsewhere(a, b);
      UsableReordered(a[..|a| - 1], b[..k] + b[k + 1..]);
      UsableWithout(a, |a| - 1);
      UsableWithout(b, k);
      assert a[..|a| - 1] + a[|a|..] == a[..|a| - 1];
    }
  }

  lemma {:induction false} UsableFlatten(got: seq<seq<Payment>>, split: seq<seq<A.Row>>)
    requires |split| == |got| && forall i :: 0 <= i < |got| ==> split[i] == Usable(got[i])
    ensures Flatten(split) == Usable(Flatten(got))
    decreases |got|
  {
    if got != [] {
      UsableFlatten(got[..|got| - 1], split[..|split| - 1]);
      UsableAppend(Flatten(got[..|got| - 1]), got[|got| - 1]);
    }
  }

  /** The messages of one client at every worker; there is one joiner. */
  datatype AverageRun = AverageRun(
    rows: seq<seq<Payment>>,
    atMappers: seq<seq<Payment>>,
    partials: seq<seq<A.Partial>>,
    inbox: seq<A.Partial>,
    averages: map<string, real>,
    limits: seq<map<string, real>>,
    payments: seq<seq<A.Row>>,
    atFilters: seq<seq<A.Row>>,
    emitted: seq<seq<A.Row>>)

  /** What the workers make of what they received, as the contracts of AverageFilter say. */
  ghost predicate Averaged(x: AverageRun) {
    && |x.partials| == |x.atMappers|
    && (forall i :: 0 <= i < |x.partials| ==> A.Reports(x.partials[i], Usable(x.atMappers[i])))
    && (forall f :: (if f in x.averages then Some(x.averages[f]) else None) == A.Merged(x.inbox, f))
    && |x.limits| == |x.emitted| == |x.atFilters|
    && (forall i :: 0 <= i < |x.limits| ==>
          A.Hundredths(x.limits[i], x.averages) && A.FilteredBy(x.emitted[i], x.atFilters[i], x.limits[i]))
  }

  /**
   From the rows and payments sent to the mappers and filters to the payments
   that reach the client: each as often as it was sent, if it is positive and
   below one percent of its format's average over all usable rows, and never
   otherwise. The joiner is alone, so that what it received is a hypothesis.
   */
  lemma SmallPaymentsAnswer(x: AverageRun, in0: Connection, in1: Connection, row: A.Row)
    requires Averaged(x) && Queued(in0, x.rows, x.atMappers) && Queued(in1, x.payments, x.atFilters)
    requires multiset(x.inbox) == multiset(Flatten(x.partials))
    ensures multiset(Flatten(x.emitted))[row] ==
            if A.IsSmall(row, Usable(Flatten(x.rows))) then multiset(Flatten(x.payments))[row] else 0
  {
    hide Hop, A.IsSmall, A.Reports, A.FilteredBy, A.Hundredths, A.Merged, Flatten, Usable;
    var split := seq(|x.atMappers|, i requires 0 <= i < |x.atMappers| => Usable(x.atMappers[i]));
    EveryMessageProcessed(in0.up, in0.output, in0.down, in0.flux, x.rows, x.atMappers);
    EveryMessageProcessed(in1.up, in1.output, in1.down, in1.flux, x.payments, x.atFilters);
    UsableFlatten(x.atMappers, split);
    UsableReordered(Flatten(x.atMappers), Flatten(x.rows));
    A.QueryAnswered(Usable(Flatten(x.rows)), split, x.partials, x.inbox, x.averages, x.limits,
                    Flatten(x.payments), x.atFilters, x.emitted, row);
  }
}
