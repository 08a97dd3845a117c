/**
 What each handler of a worker's EOF controller does to the data kept for one
 client: counters, announced totals, the leader's partials and its record of
 finished workers. The class EofController.Controller is proved against these
 functions, and the protocol in EofProtocol runs them concurrently.
 */
module EofWorker {
  import opened Sums
  import opened EofStates

  /** The name of a pipeline stage, as EOFs and packets carry it. */
  datatype Prefix = Prefix(name: string)

  type Counts = map<Prefix, nat>
  type CountsById = map<Prefix, map<nat, nat>>

  /** The flux that is broadcast to every worker when there is auxiliary input. */
  const AVERAGES := Prefix("average_per_pay_format_joiner")

  datatype Worker = Worker(
    state: EofState,
    eofs: set<Prefix>,         // prefixes whose EOF was recorded
    totals: Counts,            // packets announced, per prefix
    processed: Counts,         // packets counted here, per prefix
    partials: CountsById,      // leader: counters reported in this round, per prefix and worker
    posts: set<nat>,           // leader: workers whose post-consensus report arrived
    sentTotals: CountsById,    // leader: reported sends, per output prefix and worker
    sent: Counts)              // sends counted here, per output prefix

  const NewWorker := Worker(Inactive, {}, map[], map[], map[], {}, map[], map[])

  function Get(m: Counts, p: Prefix): nat {
    if p in m then m[p] else 0
  }

  function GetById(m: CountsById, p: Prefix, id: nat): nat {
    if p in m && id in m[p] then m[p][id] else 0
  }

  function SetDefault(m: Counts, p: Prefix, n: nat): Counts {
    if p in m then m else m[p := n]
  }

  function PutById(m: CountsById, p: Prefix, id: nat, n: nat): CountsById {
    m[p := (if p in m then m[p] else map[])[id := n]]
  }

  /** Records one worker's counters, leaving every other entry alone. */
  function MergeById(m: CountsById, id: nat, counts: Counts): CountsById {
    map p | p in m.Keys + counts.Keys ::
      if p in counts then (if p in m then m[p] else map[])[id := counts[p]] else m[p]
  }

  // ----- Counters -----

  function CountProcessed(w: Worker, p: Prefix): Worker {
    w.(processed := w.processed[p := Get(w.processed, p) + 1])
  }

  function CountSent(w: Worker, output: Prefix): Worker {
    w.(sent := w.sent[output := Get(w.sent, output) + 1])
  }

  // ----- Reception of an EOF: a guard, three locked blocks and a check -----

  predicate AcceptsEof(w: Worker) {
    Rank(w.state) < Rank(ConsensusAchieved)
  }

  function Activated(w: Worker): Worker {
    w.(state := if w.state == Inactive then Active else w.state)
  }

  function AddEof(w: Worker, p: Prefix): Worker {
    w.(eofs := w.eofs + {p})
  }

  function InitCount(w: Worker, p: Prefix): Worker {
    w.(processed := SetDefault(w.processed, p, 0))
  }

  function AddTotal(w: Worker, p: Prefix, total: nat): Worker {
    w.(totals := SetDefault(w.totals, p, total))
  }

  /** An EOF that is registered again changes nothing: the first announced total and the counter are kept. */
  lemma RegisteredAgain(w: Worker, p: Prefix, total: nat, other: nat)
    ensures var r := AddTotal(InitCount(AddEof(w, p), p), p, total);
            && AddTotal(InitCount(AddEof(r, p), p), p, other) == r
            && p in r.eofs && Get(r.processed, p) == Get(w.processed, p)
            && r.totals == if p in w.totals then w.totals else w.totals[p := total]
  {
  }

  predicate StartsConsensus(w: Worker, quantity: nat) {
    |w.eofs| == quantity && w.state == Active
  }

  function CheckStart(w: Worker, quantity: nat): Worker {
    if StartsConsensus(w, quantity) then w.(state := PendingEof) else w
  }

  // ----- The leader opens a round -----

  function SnapshotOwn(w: Worker, id: nat): Worker {
    w.(partials := MergeById(w.partials, id, w.processed))
  }

  function MarkRequestSent(w: Worker): Worker {
    w.(state := Update(w.state, RequestSent))
  }

  // ----- A worker answers -----

  /** Awaited prefixes that were never seen count as zero. */
  function WithAwaited(processed: Counts, awaited: set<Prefix>): Counts {
    map p | p in processed.Keys + awaited :: Get(processed, p)
  }

  function AnswerRequest(w: Worker, awaited: set<Prefix>): Worker {
    w.(processed := WithAwaited(w.processed, awaited),
       state := Update(Update(w.state, RequestSent), ResponseSent))
  }

  // ----- The leader collects and decides -----

  function RecordPartials(w: Worker, id: nat, counts: Counts): Worker {
    w.(partials := MergeById(w.partials, id, counts))
  }

  ghost predicate HaveAllPartials(w: Worker, n: nat) {
    w.partials.Keys == w.eofs && forall p :: p in w.partials ==> w.partials[p].Keys == Ids(n)
  }

  ghost function FluxSum(m: CountsById, p: Prefix): int {
    if p in m then Sum(m[p].Keys, (i: nat) => GetById(m, p, i)) else 0
  }

  ghost function PooledPartials(w: Worker, fluxes: set<Prefix>): int {
    Sum(fluxes, (p: Prefix) => FluxSum(w.partials, p))
  }

  ghost function PooledTotals(w: Worker, fluxes: set<Prefix>): int {
    Sum(fluxes, (p: Prefix) => Get(w.totals, p))
  }

  /**
   Without auxiliary input the sums pooled over all fluxes must agree. With it
   the broadcast flux must agree at every worker and every other flux in total.
   */
  ghost predicate TotalsAgree(w: Worker, auxiliary: bool) {
    if !auxiliary then
      PooledPartials(w, w.partials.Keys) == PooledTotals(w, w.partials.Keys)
    else
      var work := w.partials.Keys - {AVERAGES};
      && (work != {} || (AVERAGES in w.partials && w.partials[AVERAGES] != map[]))
      && (forall p :: p in work ==> FluxSum(w.partials, p) == Get(w.totals, p))
      && (AVERAGES in w.partials ==>
            forall i :: i in w.partials[AVERAGES] ==> w.partials[AVERAGES][i] == Get(w.totals, AVERAGES))
  }

  datatype Outcome = Incomplete | Ok | Fail

  ghost function Decide(w: Worker, n: nat, auxiliary: bool): Outcome {
    if !HaveAllPartials(w, n) then Incomplete
    else if TotalsAgree(w, auxiliary) then Ok
    else Fail
  }

  /** The leader passes through ResponseSent, then on to consensus or back to another round. */
  function Agreeing(w: Worker): Worker {
    w.(state := Update(Update(w.state, ResponseSent), ConsensusAchieved))
  }

  function Disagreeing(w: Worker): Worker {
    w.(state := Update(Update(w.state, ResponseSent), PendingEof), partials := map[])
  }

  /** The leader after a response: the decision is taken once every worker reported. */
  ghost function CollectResponse(w: Worker, n: nat, auxiliary: bool, id: nat, counts: Counts): Worker {
    var recorded := RecordPartials(w, id, counts);
    match Decide(recorded, n, auxiliary)
    case Incomplete => recorded
    case Ok => Agreeing(recorded)
    case Fail => Disagreeing(recorded)
  }

  // ----- After consensus -----

  function Cleared(w: Worker): Worker {
    w.(eofs := {}, totals := map[], processed := map[], partials := map[], posts := {}, sent := map[])
  }

  /** A worker that reported its sends. */
  function Reported(w: Worker): Worker {
    Cleared(w.(state := Update(w.state, FinishEnabled)))
  }

  function RecordPost(w: Worker, id: nat, counts: Counts): Worker {
    w.(posts := w.posts + {id}, sentTotals := MergeById(w.sentTotals, id, counts))
  }

  /** Totals of the EOF for the next stage, per output prefix. */
  ghost function EofTotals(w: Worker, auxiliary: bool): map<Prefix, int> {
    map p | p in w.sentTotals.Keys - (if auxiliary then {AVERAGES} else {}) :: FluxSum(w.sentTotals, p)
  }

  /** The report of id is the last one, so the downstream EOF goes out. */
  predicate EmitsEof(w: Worker, n: nat, id: nat) {
    |w.posts + {id}| == n
  }

  /** The leader after a post-consensus report; after the last one it clears the client. */
  function CollectPost(w: Worker, n: nat, id: nat, counts: Counts): Worker {
    var recorded := RecordPost(w, id, counts);
    if EmitsEof(w, n, id) then Cleared(recorded).(state := Update(w.state, FinishEnabled)) else recorded
  }

  /** A worker that has reported, and a leader after the last distinct report, keep nothing but the collected sends. */
  lemma FinishedForgets(w: Worker, n: nat, id: nat, counts: Counts)
    ensures Reported(w) == NewWorker.(state := Update(w.state, FinishEnabled), sentTotals := w.sentTotals)
    ensures var merged := MergeById(w.sentTotals, id, counts);
            CollectPost(w, n, id, counts) ==
              if |w.posts + {id}| == n then NewWorker.(state := Update(w.state, FinishEnabled), sentTotals := merged)
              else w.(posts := w.posts + {id}, sentTotals := merged)
  {
  }
}
