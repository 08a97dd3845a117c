/**
 The EOF consensus of one pipeline stage for one client, as a step relation:
 n workers (worker 0 leads), a control thread and one or more input threads in
 each, a FIFO channel from the leader to every worker and back, and the data
 packets the upstream EOFs announce. Every locked block is one step.
 */
module EofProtocol {
  import opened Sums
  import opened EofStates
  import opened EofWorker

  datatype Config = Config(
    n: nat,                        // workers of the stage
    threads: nat,                  // threads per worker; thread 0 consumes control messages
    fluxes: set<Prefix>,           // upstream prefixes whose EOF is expected
    announced: multiset<Prefix>,   // packets announced per prefix
    auxiliary: bool)               // whether AVERAGES is broadcast to every worker

  /** At least two workers; a message has room for two fluxes, one of them AVERAGES if auxiliary. */
  ghost predicate ValidConfig(c: Config) {
    && c.n >= 2 && c.threads >= 2
    && 1 <= |c.fluxes| <= 2
    && (forall p :: p in c.announced ==> p in c.fluxes)
    && (c.auxiliary ==> |c.fluxes - {AVERAGES}| <= 1)
  }

  predicate Broadcast(c: Config, p: Prefix) {
    c.auxiliary && p == AVERAGES
  }

  /** Where a thread stands in the reception of an EOF. */
  datatype Pc =
    | Idle
    | AddingEof(p: Prefix)
    | InitCounting(p: Prefix)
    | AddingTotal(p: Prefix)
    | Rebroadcasting(p: Prefix)
    | Checking(p: Prefix)

  /** What the leader's thread t that opened a round still has to do. */
  datatype Opening = NotOpening | Snapshotting(t: nat) | Requesting(t: nat)

  datatype ToWorker = Request(awaited: set<Prefix>) | ConsensusOk | ConsensusFail
  datatype ToLeader = Response(counts: Counts) | Post(sends: Counts)

  /** What happened at a worker; no handler reads it. */
  datatype Past = Past(
    arrived: set<Prefix>,        // EOFs accepted
    counted: multiset<Prefix>,   // packets ever counted as processed
    sent: multiset<Prefix>,      // sends ever counted
    late: bool,                  // whether the last snapshot came after all processing
    callbacks: nat)              // runs of the on-consensus callback

  /** A worker, its threads, its channels from and to the leader, and its packets. */
  datatype Node = Node(
    worker: Worker,
    pcs: seq<Pc>,
    callback: bool,              // the control thread is in the on-consensus callback
    down: seq<ToWorker>,
    up: seq<ToLeader>,
    copies: set<Prefix>,         // EOF copies received from other workers
    own: multiset<Prefix>,       // packets of the broadcast flux not yet taken
    inFlight: multiset<Prefix>,  // packets taken and not yet counted as processed
    past: Past)

  /** The leader's decision, with what was true when it was taken. */
  datatype Decision = Undecided | Decided(totalsKnown: bool, snapshotsComplete: bool)

  /** What happened at the leader; no handler reads it. */
  datatype History = History(
    starts: nat,                    // how often consensus was started
    snapshotKeys: set<Prefix>,      // prefixes in the leader's snapshot of this round
    recorded: set<nat>,             // workers whose response of this round was recorded
    decision: Decision,
    emitted: seq<map<Prefix, int>>) // EOFs sent to the next stage

  datatype System = System(
    nodes: seq<Node>,
    opening: Opening,
    pool: multiset<Prefix>,         // packets of work-queue fluxes not yet taken
    history: History)

  datatype Step =
    | Take(w: nat, p: Prefix)
    | SendCounted(w: nat, output: Prefix)
    | ProcessedCounted(w: nat, p: Prefix)
    | EofArrives(w: nat, t: nat, p: Prefix)
    | Register(w: nat, t: nat)
    | LeaderSnapshot
    | LeaderRequest
    | AnswersRequest(w: nat)
    | ReceivesFail(w: nat)
    | ReceivesOk(w: nat)
    | SendsPost(w: nat)
    | LeaderGetsResponse(w: nat)
    | LeaderOwnPost
    | LeaderGetsPost(w: nat)

  // ----- The initial state -----

  function WorkShare(c: Config): multiset<Prefix> {
    if c.auxiliary then c.announced[AVERAGES := 0] else c.announced
  }

  function BroadcastShare(c: Config): multiset<Prefix> {
    if c.auxiliary then multiset{}[AVERAGES := c.announced[AVERAGES]] else multiset{}
  }

  function NewNode(c: Config): Node {
    Node(NewWorker, seq(c.threads, t => Idle), false, [], [], {}, BroadcastShare(c), multiset{},
         Past({}, multiset{}, multiset{}, false, 0))
  }

  function Init(c: Config): System {
    System(seq(c.n, i => NewNode(c)), NotOpening, WorkShare(c), History(0, {}, {}, Undecided, []))
  }

  // ----- What one worker does -----

  function TakeAt(c: Config, x: Node, p: Prefix): Node {
    x.(own := if Broadcast(c, p) then x.own - multiset{p} else x.own, inFlight := x.inFlight + multiset{p})
  }

  function SendAt(x: Node, output: Prefix): Node {
    x.(worker := CountSent(x.worker, output), past := x.past.(sent := x.past.sent + multiset{output}))
  }

  function ProcessedAt(x: Node, p: Prefix): Node {
    x.(worker := CountProcessed(x.worker, p), inFlight := x.inFlight - multiset{p},
       past := x.past.(counted := x.past.counted + multiset{p}))
  }

  function EofAt(x: Node, t: nat, p: Prefix): Node
    requires t < |x.pcs|
  {
    if AcceptsEof(x.worker) then
      x.(worker := Activated(x.worker), pcs := x.pcs[t := AddingEof(p)], past := x.past.(arrived := x.past.arrived + {p}))
    else x
  }

  /** The three locked blocks of a registration, the rebroadcast of a direct EOF, and the check. */
  function RegisterAt(c: Config, x: Node, t: nat): Node
    requires t < |x.pcs|
  {
    match x.pcs[t]
    case Idle => x
    case AddingEof(p) => x.(worker := AddEof(x.worker, p), pcs := x.pcs[t := InitCounting(p)])
    case InitCounting(p) => x.(worker := InitCount(x.worker, p), pcs := x.pcs[t := AddingTotal(p)])
    case AddingTotal(p) =>
      x.(worker := AddTotal(x.worker, p, c.announced[p]),
         pcs := x.pcs[t := if t == 0 then Checking(p) else Rebroadcasting(p)])
    case Rebroadcasting(p) => x.(pcs := x.pcs[t := Checking(p)])
    case Checking(p) => x.(worker := CheckStart(x.worker, |c.fluxes|), pcs := x.pcs[t := Idle])
  }

  function AnswerAt(x: Node, late: bool): Node
    requires x.down != [] && x.down[0].Request?
  {
    var answered := AnswerRequest(x.worker, x.down[0].awaited);
    x.(worker := answered, down := x.down[1..], up := x.up + [Response(answered.processed)], past := x.past.(late := late))
  }

  function FailAt(x: Node): Node
    requires x.down != []
  {
    var popped := x.(down := x.down[1..]);
    if ValidTransition(x.worker.state, PendingEof) then
      popped.(worker := x.worker.(state := Update(x.worker.state, PendingEof)))
    else popped
  }

  function OkAt(x: Node): Node
    requires x.down != []
  {
    var popped := x.(down := x.down[1..]);
    if ValidTransition(x.worker.state, ConsensusAchieved) then
      popped.(worker := x.worker.(state := Update(x.worker.state, ConsensusAchieved)), callback := true,
              past := x.past.(callbacks := x.past.callbacks + 1))
    else popped
  }

  function PostAt(x: Node): Node {
    x.(worker := Reported(x.worker), callback := false, up := x.up + [Post(x.worker.sent)])
  }

  // ----- What the leader does when it decides -----

  function AgreedAt(x: Node): Node {
    x.(worker := Agreeing(x.worker), callback := true, past := x.past.(callbacks := x.past.callbacks + 1))
  }

  function FailedAt(x: Node): Node {
    x.(worker := Disagreeing(x.worker))
  }

  // ----- The whole stage -----

  /** A thread that is not waiting for its next message. */
  predicate Busy(s: System, w: nat, t: nat)
    requires w < |s.nodes| && t < |s.nodes[w].pcs|
  {
    || s.nodes[w].pcs[t] != Idle
    || (w == 0 && (s.opening == Snapshotting(t) || s.opening == Requesting(t)))
    || (t == 0 && s.nodes[w].callback)
  }

  /** The control thread of w is waiting for its next message. */
  predicate Free(s: System, w: nat)
    requires w < |s.nodes|
  {
    |s.nodes[w].pcs| > 0 && !Busy(s, w, 0)
  }

  predicate Enabled(c: Config, s: System, step: Step) {
    match step
    case Take(w, p) => w < |s.nodes| && (if Broadcast(c, p) then p in s.nodes[w].own else p in s.pool)
    case SendCounted(w, output) => w < |s.nodes| && (s.nodes[w].inFlight != multiset{} || s.nodes[w].callback)
    case ProcessedCounted(w, p) => w < |s.nodes| && p in s.nodes[w].inFlight
    case EofArrives(w, t, p) =>
      && w < |s.nodes| && t < |s.nodes[w].pcs| && !Busy(s, w, t)
      && p in c.fluxes && (t == 0 ==> p in s.nodes[w].copies)
    case Register(w, t) => w < |s.nodes| && t < |s.nodes[w].pcs| && s.nodes[w].pcs[t] != Idle
    case LeaderSnapshot => s.nodes != [] && s.opening.Snapshotting?
    case LeaderRequest => s.nodes != [] && s.opening.Requesting?
    case AnswersRequest(w) => 0 < w < |s.nodes| && Free(s, w) && s.nodes[w].down != [] && s.nodes[w].down[0].Request?
    case ReceivesFail(w) => 0 < w < |s.nodes| && Free(s, w) && s.nodes[w].down != [] && s.nodes[w].down[0].ConsensusFail?
    case ReceivesOk(w) => 0 < w < |s.nodes| && Free(s, w) && s.nodes[w].down != [] && s.nodes[w].down[0].ConsensusOk?
    case SendsPost(w) => 0 < w < |s.nodes| && s.nodes[w].callback
    case LeaderGetsResponse(w) => 0 < w < |s.nodes| && Free(s, 0) && s.nodes[w].up != [] && s.nodes[w].up[0].Response?
    case LeaderOwnPost => s.nodes != [] && s.nodes[0].callback
    case LeaderGetsPost(w) => 0 < w < |s.nodes| && Free(s, 0) && s.nodes[w].up != [] && s.nodes[w].up[0].Post?
  }

  /** Appends m to the channel of every worker but the leader. */
  function Fanout(nodes: seq<Node>, m: ToWorker): (r: seq<Node>)
    ensures |r| == |nodes|
    ensures forall i :: 0 <= i < |nodes| ==> r[i] == if i == 0 then nodes[0] else nodes[i].(down := nodes[i].down + [m])
  {
    seq(|nodes|, i requires 0 <= i < |nodes| => if i == 0 then nodes[0] else nodes[i].(down := nodes[i].down + [m]))
  }

  /** Adds a copy of the EOF of p for every worker but w. */
  function Copied(nodes: seq<Node>, w: nat, p: Prefix): (r: seq<Node>)
    ensures |r| == |nodes|
    ensures forall i :: 0 <= i < |nodes| ==> r[i] == if i == w then nodes[i] else nodes[i].(copies := nodes[i].copies + {p})
  {
    seq(|nodes|, i requires 0 <= i < |nodes| => if i == w then nodes[i] else nodes[i].(copies := nodes[i].copies + {p}))
  }

  /** Every announced packet has been taken and counted. */
  ghost predicate AllProcessed(s: System) {
    s.pool == multiset{} && forall i :: 0 <= i < |s.nodes| ==> s.nodes[i].own == multiset{} && s.nodes[i].inFlight == multiset{}
  }

  ghost predicate TotalsKnown(c: Config, totals: Counts) {
    forall p :: p in c.fluxes ==> p in totals || c.announced[p] == 0
  }

  /** The partials the leader holds account for every announced packet. */
  ghost predicate SnapshotsComplete(c: Config, partials: CountsById) {
    forall p :: p in c.fluxes ==>
      if Broadcast(c, p) then forall i: nat :: i < c.n ==> GetById(partials, p, i) == c.announced[p]
      else Sum(Ids(c.n), (i: nat) => GetById(partials, p, i)) == c.announced[p]
  }

  function Put(s: System, w: nat, x: Node): System
    requires w < |s.nodes|
  {
    s.(nodes := s.nodes[w := x])
  }

  function ApplyRegister(c: Config, s: System, w: nat, t: nat): System
    requires Enabled(c, s, Register(w, t))
  {
    var x := s.nodes[w];
    var moved := Put(s, w, RegisterAt(c, x, t));
    match x.pcs[t]
    case Rebroadcasting(p) => moved.(nodes := Copied(moved.nodes, w, p))
    case Checking(p) =>
      if w == 0 && StartsConsensus(x.worker, |c.fluxes|) then
        moved.(opening := Snapshotting(t), history := s.history.(starts := s.history.starts + 1))
      else moved
    case _ => moved
  }

  ghost function ApplySnapshot(s: System): System
    requires s.nodes != [] && s.opening.Snapshotting?
  {
    var x := s.nodes[0];
    Put(s, 0, x.(worker := SnapshotOwn(x.worker, 0), past := x.past.(late := AllProcessed(s)))).(
      opening := Requesting(s.opening.t),
      history := s.history.(snapshotKeys := x.worker.processed.Keys))
  }

  function ApplyRequest(s: System): System
    requires s.nodes != []
  {
    var x := s.nodes[0];
    s.(nodes := Fanout(s.nodes, Request(x.worker.eofs))[0 := x.(worker := MarkRequestSent(x.worker))], opening := NotOpening)
  }

  /** The response of w is recorded. */
  function Stored(s: System, w: nat): System
    requires 0 < w < |s.nodes| && s.nodes[w].up != [] && s.nodes[w].up[0].Response?
  {
    var leader := RecordPartials(s.nodes[0].worker, w, s.nodes[w].up[0].counts);
    s.(nodes := s.nodes[w := s.nodes[w].(up := s.nodes[w].up[1..])][0 := s.nodes[0].(worker := leader)],
       history := s.history.(recorded := s.history.recorded + {w}))
  }

  /** OK goes out and the leader's own callback begins. */
  ghost function Agreed(c: Config, s: System): System
    requires s.nodes != []
  {
    var worker := s.nodes[0].worker;
    s.(nodes := Fanout(s.nodes, ConsensusOk)[0 := AgreedAt(s.nodes[0])],
       history := s.history.(
         decision := Decided(TotalsKnown(c, worker.totals), SnapshotsComplete(c, worker.partials))))
  }

  /** FAIL goes out, everything recorded is dropped, and the control thread will ask again. */
  function Failed(s: System): System
    requires s.nodes != []
  {
    s.(nodes := Fanout(s.nodes, ConsensusFail)[0 := FailedAt(s.nodes[0])],
       opening := Snapshotting(0),
       history := s.history.(recorded := {}, snapshotKeys := {}))
  }

  ghost function ApplyResponse(c: Config, s: System, w: nat): System
    requires 0 < w < |s.nodes| && s.nodes[w].up != [] && s.nodes[w].up[0].Response?
  {
    if !ValidTransition(s.nodes[0].worker.state, ResponseSent) then
      Put(s, w, s.nodes[w].(up := s.nodes[w].up[1..]))
    else
      var stored := Stored(s, w);
      match Decide(stored.nodes[0].worker, c.n, c.auxiliary)
      case Incomplete => stored
      case Ok => Agreed(c, stored)
      case Fail => Failed(stored)
  }

  /** The leader stores the report of worker w and sends the downstream EOF if it was the last. */
  ghost function ApplyPost(c: Config, s: System, w: nat, sends: Counts): System
    requires s.nodes != []
  {
    var x := s.nodes[0];
    var totals := EofTotals(RecordPost(x.worker, w, sends), c.auxiliary);
    Put(s, 0, x.(worker := CollectPost(x.worker, c.n, w, sends))).(
      history := s.history.(emitted := if EmitsEof(x.worker, c.n, w) then s.history.emitted + [totals] else s.history.emitted))
  }

  ghost function ApplyOwnPost(c: Config, s: System): System
    requires s.nodes != []
  {
    ApplyPost(c, Put(s, 0, s.nodes[0].(callback := false)), 0, s.nodes[0].worker.sent)
  }

  ghost function ApplyGetsPost(c: Config, s: System, w: nat): System
    requires 0 < w < |s.nodes| && s.nodes[w].up != [] && s.nodes[w].up[0].Post?
  {
    var popped := Put(s, w, s.nodes[w].(up := s.nodes[w].up[1..]));
    if ValidTransition(s.nodes[0].worker.state, FinishEnabled) then ApplyPost(c, popped, w, s.nodes[w].up[0].sends)
    else popped
  }

  ghost function Apply(c: Config, s: System, step: Step): System
    requires Enabled(c, s, step)
  {
    match step
    case Take(w, p) =>
      Put(s, w, TakeAt(c, s.nodes[w], p)).(pool := if Broadcast(c, p) then s.pool else s.pool - multiset{p})
    case SendCounted(w, output) => Put(s, w, SendAt(s.nodes[w], output))
    case ProcessedCounted(w, p) => Put(s, w, ProcessedAt(s.nodes[w], p))
    case EofArrives(w, t, p) => Put(s, w, EofAt(s.nodes[w], t, p))
    case Register(w, t) => ApplyRegister(c, s, w, t)
    case LeaderSnapshot => ApplySnapshot(s)
    case LeaderRequest => ApplyRequest(s)
    case AnswersRequest(w) => Put(s, w, AnswerAt(s.nodes[w], AllProcessed(s)))
    case ReceivesFail(w) => Put(s, w, FailAt(s.nodes[w]))
    case ReceivesOk(w) => Put(s, w, OkAt(s.nodes[w]))
    case SendsPost(w) => Put(s, w, PostAt(s.nodes[w]))
    case LeaderGetsResponse(w) => ApplyResponse(c, s, w)
    case LeaderOwnPost => ApplyOwnPost(c, s)
    case LeaderGetsPost(w) => ApplyGetsPost(c, s, w)
  }

  /** The steps can be taken one after the other from s. */
  ghost predicate Runs(c: Config, s: System, steps: seq<Step>)
    decreases steps
  {
    steps != [] ==> Enabled(c, s, steps[0]) && Runs(c, Apply(c, s, steps[0]), steps[1..])
  }

  ghost function After(c: Config, s: System, steps: seq<Step>): System
    requires Runs(c, s, steps)
    decreases steps
  {
    if steps == [] then s else After(c, Apply(c, s, steps[0]), steps[1..])
  }

  ghost predicate Reachable(c: Config, s: System) {
    ValidConfig(c) && exists steps :: Runs(c, Init(c), steps) && s == After(c, Init(c), steps)
  }
}
