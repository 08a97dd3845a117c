/** The inductive invariant of the EOF protocol. */
module EofInvariants {
  import opened Sums
  import opened EofStates
  import opened EofWorker
  import opened EofProtocol

  // ----- One node on its own -----

  predicate Alive(state: EofState) {
    state != FinishEnabled
  }

  predicate Early(state: EofState) {
    state == Inactive || state == Active || state == PendingEof
  }

  predicate Started(state: EofState) {
    state != Inactive && state != Active
  }

  /** A worker's counters are the packets and sends it counted, until it clears them. */
  ghost predicate CountersOk(c: Config, x: Node) {
    && x.worker.processed.Keys <= c.fluxes
    && (Alive(x.worker.state) ==>
          && (forall p: Prefix :: Get(x.worker.processed, p) == x.past.counted[p])
          && (forall o: Prefix :: Get(x.worker.sent, o) == x.past.sent[o]))
  }

  /** No packet appears from nowhere, and those of the broadcast flux are conserved at each worker. */
  ghost predicate PacketsOk(c: Config, x: Node) {
    && (forall p :: p in x.own ==> Broadcast(c, p))
    && (forall p :: p in x.inFlight ==> p in c.fluxes)
    && (forall p :: p in x.past.counted ==> p in c.fluxes)
    && (c.auxiliary ==> x.own[AVERAGES] + x.inFlight[AVERAGES] + x.past.counted[AVERAGES] == c.announced[AVERAGES])
  }

  ghost predicate PcOk(x: Node, pc: Pc) {
    match pc
    case Idle => true
    case AddingEof(p) => p in x.past.arrived && x.worker.state != Inactive
    case InitCounting(p) => p in x.past.arrived && (Alive(x.worker.state) ==> p in x.worker.eofs)
    case AddingTotal(p) =>
      p in x.past.arrived && (Alive(x.worker.state) ==> p in x.worker.eofs && p in x.worker.processed)
    case Rebroadcasting(p) => Registered(x, p)
    case Checking(p) => Registered(x, p)
  }

  ghost predicate Registered(x: Node, p: Prefix) {
    && p in x.past.arrived
    && (Alive(x.worker.state) ==> p in x.worker.eofs && p in x.worker.processed && p in x.worker.totals)
  }

  /** The thread will still run the check that may start consensus. */
  predicate WillCheck(pc: Pc) {
    pc.InitCounting? || pc.AddingTotal? || pc.Rebroadcasting? || pc.Checking?
  }

  ghost predicate RegistrationOk(c: Config, x: Node) {
    && |x.pcs| == c.threads
    && x.copies <= c.fluxes
    && x.past.arrived <= c.fluxes && x.worker.eofs <= x.past.arrived
    && (forall p :: p in x.worker.totals ==> p in x.past.arrived && x.worker.totals[p] == c.announced[p])
    && (forall t :: 0 <= t < |x.pcs| ==> PcOk(x, x.pcs[t]))
    && (x.worker.state == Inactive ==> x.past.arrived == {})
  }

  /** What is missing from the records of an arrived EOF is still to be done by a thread. */
  ghost predicate RegistrationPending(c: Config, x: Node) {
    && (Alive(x.worker.state) ==>
          && (forall p :: p in x.past.arrived ==> p in x.worker.eofs || AddingEof(p) in x.pcs)
          && (forall p :: p in x.worker.eofs ==> p in x.worker.processed || InitCounting(p) in x.pcs)
          && (forall p :: p in x.worker.eofs ==>
                p in x.worker.totals || InitCounting(p) in x.pcs || AddingTotal(p) in x.pcs))
    && (x.worker.state == Active && x.worker.eofs == c.fluxes ==>
          exists t :: 0 <= t < |x.pcs| && WillCheck(x.pcs[t]))
  }

  /** The on-consensus callback has run exactly if the worker is past consensus. */
  ghost predicate CallbackCount(x: Node) {
    x.past.callbacks == if x.worker.state == ConsensusAchieved || x.worker.state == FinishEnabled then 1 else 0
  }

  ghost predicate Local(c: Config, x: Node) {
    CountersOk(c, x) && PacketsOk(c, x) && RegistrationOk(c, x) && RegistrationPending(c, x) && CallbackCount(x)
  }

  // ----- One node against the leader -----

  /** What the other nodes' invariants need to know about the leader and the past. */
  datatype View = View(
    state: EofState,
    partials: CountsById,
    posts: set<nat>,
    sentTotals: CountsById,
    collecting: bool,    // the leader's snapshot of this round is taken and no decision fell
    recorded: set<nat>,
    exact: bool,         // a decision was taken with every total known
    quiet: bool)         // every announced packet is processed

  predicate Collecting(s: System)
    requires s.nodes != []
  {
    s.nodes[0].worker.state == RequestSent || s.opening.Requesting?
  }

  ghost function ViewOf(s: System): View
    requires s.nodes != []
  {
    var w := s.nodes[0].worker;
    View(w.state, w.partials, w.posts, w.sentTotals, Collecting(s), s.history.recorded,
         s.history.decision.Decided? && s.history.decision.totalsKnown, AllProcessed(s))
  }

  /** What may be in transit between the leader and another worker. */
  ghost predicate Link(c: Config, v: View, i: nat, x: Node) {
    var state := x.worker.state;
    match v.state
    case Inactive => x.down == [] && x.up == [] && Early(state) && !x.callback && i !in v.recorded && i !in v.posts
    case Active => x.down == [] && x.up == [] && Early(state) && !x.callback && i !in v.recorded && i !in v.posts
    case PendingEof =>
      && x.up == [] && !x.callback && i !in v.recorded && i !in v.posts
      && ((x.down == [] && Early(state)) || (x.down == [ConsensusFail] && state == ResponseSent))
    case RequestSent =>
      && !x.callback && i !in v.posts
      && (|| (x.down == [ConsensusFail, Request(c.fluxes)] && state == ResponseSent && x.up == [] && i !in v.recorded)
          || (x.down == [Request(c.fluxes)] && Early(state) && x.up == [] && i !in v.recorded)
          || (x.down == [] && state == ResponseSent
              && (if i in v.recorded then x.up == [] else |x.up| == 1 && x.up[0].Response?)))
    case ResponseSent => false
    case ConsensusAchieved =>
      || (x.down == [ConsensusOk] && state == ResponseSent && x.up == [] && !x.callback && i !in v.posts)
      || (x.down == [] && state == ConsensusAchieved && x.up == [] && x.callback && i !in v.posts)
      || (x.down == [] && state == FinishEnabled && !x.callback
          && (if i in v.posts then x.up == [] else |x.up| == 1 && x.up[0].Post?))
    case FinishEnabled => x.down == [] && x.up == [] && state == FinishEnabled && !x.callback
  }

  /** A response in transit covers all fluxes, never overstates, and is final if taken late. */
  ghost predicate ResponseOk(c: Config, x: Node) {
    x.up != [] && x.up[0].Response? ==>
      && x.up[0].counts.Keys == c.fluxes
      && (forall p :: p in c.fluxes ==> Get(x.up[0].counts, p) <= x.past.counted[p])
      && (x.past.late ==> forall p :: p in c.fluxes ==> Get(x.up[0].counts, p) == x.past.counted[p])
  }

  /** So does what the leader stored. */
  ghost predicate PartialOk(c: Config, v: View, i: nat, x: Node) {
    && (forall p: Prefix :: GetById(v.partials, p, i) <= x.past.counted[p])
    && (v.collecting && x.past.late && (i == 0 || i in v.recorded) ==>
          forall p :: p in c.fluxes ==> GetById(v.partials, p, i) == x.past.counted[p])
  }

  /** After a sound decision, reports of sends are exact and final. */
  ghost predicate ReportOk(v: View, i: nat, x: Node) {
    v.exact ==>
      && (x.up != [] && x.up[0].Post? ==> forall o: Prefix :: Get(x.up[0].sends, o) == x.past.sent[o])
      && (v.state == ConsensusAchieved ==>
            forall o: Prefix :: GetById(v.sentTotals, o, i) == if i in v.posts then x.past.sent[o] else 0)
  }

  ghost predicate Tied(c: Config, v: View, i: nat, x: Node) {
    && (i > 0 ==> Link(c, v, i, x) && ResponseOk(c, x))
    && PartialOk(c, v, i, x)
    && ReportOk(v, i, x)
    && (x.past.late ==> v.quiet)
  }

  // ----- The leader -----

  predicate Has(m: CountsById, p: Prefix, i: nat) {
    p in m && i in m[p]
  }

  ghost predicate LeaderOk(c: Config, x: Node, opening: Opening, h: History) {
    var state := x.worker.state;
    && state != ResponseSent && x.up == [] && x.down == []
    && (opening != NotOpening <==> state == PendingEof)
    && (opening != NotOpening ==> opening.t < c.threads)
    && (Started(state) ==> x.past.arrived == c.fluxes && (Alive(state) ==> x.worker.eofs == c.fluxes))
    && h.starts == (if Started(state) then 1 else 0)
    && (h.decision.Decided? <==> state == ConsensusAchieved || state == FinishEnabled)
    && (x.callback <==> state == ConsensusAchieved && 0 !in x.worker.posts)
    && x.worker.posts <= Ids(c.n)
    && (!h.decision.Decided? ==> x.worker.posts == {} && x.worker.sentTotals == map[])
    && (state == ConsensusAchieved ==> x.worker.posts != Ids(c.n))
    && |h.emitted| == (if state == FinishEnabled then 1 else 0)
  }

  ghost predicate PartialsShape(c: Config, v: View, opening: Opening, h: History) {
    && h.recorded <= Ids(c.n) - {0}
    && v.partials.Keys <= c.fluxes
    && (forall p: Prefix, i: nat :: Has(v.partials, p, i) ==> i < c.n)
    && (!v.collecting && !h.decision.Decided? ==> v.partials == map[] && h.recorded == {})
    && (opening.Requesting? ==> h.recorded == {})
    && (v.collecting ==>
          && h.snapshotKeys <= c.fluxes
          && (forall p: Prefix, i: nat :: p in c.fluxes && 0 < i < c.n ==> (Has(v.partials, p, i) <==> i in h.recorded))
          && (forall p: Prefix :: p in c.fluxes ==> (Has(v.partials, p, 0) <==> p in h.snapshotKeys)))
  }

  // ----- Packets and sends of all workers -----

  ghost function Load(nodes: seq<Node>, i: nat, p: Prefix): int {
    if i < |nodes| then nodes[i].inFlight[p] + nodes[i].past.counted[p] else 0
  }

  ghost function Loads(nodes: seq<Node>, p: Prefix): int {
    Sum(Ids(|nodes|), (i: nat) => Load(nodes, i, p))
  }

  /** A packet of a work-queue flux waits, is being processed somewhere, or is counted somewhere. */
  ghost predicate WorkConserved(c: Config, s: System) {
    && (forall p :: p in s.pool ==> p in c.fluxes && !Broadcast(c, p))
    && (forall p :: p in c.fluxes && !Broadcast(c, p) ==> s.pool[p] + Loads(s.nodes, p) == c.announced[p])
  }

  ghost function SentAt(nodes: seq<Node>, i: nat, o: Prefix): int {
    if i < |nodes| then nodes[i].past.sent[o] else 0
  }

  /** All sends ever counted for an output prefix. */
  ghost function SentBy(nodes: seq<Node>, o: Prefix): int {
    Sum(Ids(|nodes|), (i: nat) => SentAt(nodes, i, o))
  }

  ghost predicate ExactTotals(c: Config, emitted: map<Prefix, int>, nodes: seq<Node>) {
    forall o: Prefix :: !(c.auxiliary && o == AVERAGES) ==>
      (if o in emitted then emitted[o] else 0) == SentBy(nodes, o)
  }

  ghost predicate DecisionOk(c: Config, s: System)
    requires s.nodes != []
  {
    s.history.decision.Decided? ==>
      && (s.history.decision.totalsKnown <==> s.history.decision.snapshotsComplete)
      && (s.history.decision.totalsKnown ==>
            && AllProcessed(s)
            && (forall o: Prefix, i: nat :: Has(s.nodes[0].worker.sentTotals, o, i) ==> i < c.n)
            && (forall k :: 0 <= k < |s.history.emitted| ==> ExactTotals(c, s.history.emitted[k], s.nodes)))
  }

  ghost predicate Inv(c: Config, s: System) {
    && ValidConfig(c)
    && |s.nodes| == c.n
    && (forall i :: 0 <= i < c.n ==> Local(c, s.nodes[i]))
    && (forall i :: 0 <= i < c.n ==> Tied(c, ViewOf(s), i, s.nodes[i]))
    && LeaderOk(c, s.nodes[0], s.opening, s.history)
    && PartialsShape(c, ViewOf(s), s.opening, s.history)
    && WorkConserved(c, s)
    && DecisionOk(c, s)
  }

  lemma {:induction false} SumOfZeros<T(!new)>(ids: set<T>, f: T -> int)
    requires forall i :: i in ids ==> f(i) == 0
    ensures Sum(ids, f) == 0
    decreases |ids|
  {
    if ids != {} {
      var i :| i in ids;
      SumTake(ids, f, i);
      SumOfZeros(ids - {i}, f);
    }
  }

  lemma NewNodeLocal(c: Config)
    requires ValidConfig(c)
    ensures Local(c, NewNode(c))
  {
  }

  lemma NewNodeTied(c: Config, v: View, i: nat)
    requires ValidConfig(c)
    requires v.state == Inactive && v.partials == map[] && v.recorded == {} && v.posts == {} && !v.exact
    ensures Tied(c, v, i, NewNode(c))
  {
  }

  lemma InitHolds(c: Config)
    requires ValidConfig(c)
    ensures Inv(c, Init(c))
  {
    var s := Init(c);
    forall p: Prefix
      ensures Loads(s.nodes, p) == 0
    {
      SumOfZeros(Ids(c.n), (i: nat) => Load(s.nodes, i, p));
    }
    NewNodeLocal(c);
    forall i | 0 <= i < c.n
      ensures Tied(c, ViewOf(s), i, s.nodes[i])
    {
      NewNodeTied(c, ViewOf(s), i);
    }
    assert c.fluxes != {};
  }
}
