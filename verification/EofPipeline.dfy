/**
 From stage to stage: the downstream EOF of one stage is the announcement of the
 next one, so once that one agrees every message sent to it has been processed.
 */
module EofPipeline {
  import opened Sums
  import opened EofWorker
  import opened EofProtocol
  import opened EofInvariants
  import opened EofSafety
  import opened EofCleanRuns

  /** A stage and where it stands in one of its runs. */
  datatype Stage = Stage(config: Config, state: System)

  /** The leader decided OK and knew the total of every non-empty flux. */
  ghost predicate SoundlyDecided(s: Stage) {
    && Reachable(s.config, s.state)
    && s.state.history.decision.Decided? && s.state.history.decision.totalsKnown
  }

  /** A stage that decided OK in a clean run did so soundly; with a single flux every run is clean. */
  lemma CleanDecisionsAreSound(c: Config, steps: seq<Step>)
    requires ValidConfig(c) && Runs(c, Init(c), steps) && CleanRun(c, Init(c), steps)
    requires After(c, Init(c), steps).history.decision.Decided?
    ensures SoundlyDecided(Stage(c, After(c, Init(c), steps)))
  {
    InitRunClean(c, steps);
  }

  /** What an EOF carries for an output. */
  function CarriedFor(eof: map<Prefix, int>, output: Prefix): int {
    if output in eof then eof[output] else 0
  }

  /**
   The upstream stage has sent its EOF, and what it carries for the output is
   what the downstream stage takes as the announcement of its flux.
   */
  ghost predicate Linked(up: Stage, output: Prefix, down: Stage, flux: Prefix) {
    && SoundlyDecided(up) && up.state.history.emitted != []
    && !(up.config.auxiliary && output == AVERAGES)
    && flux in down.config.fluxes
    && down.config.announced[flux] == CarriedFor(up.state.history.emitted[0], output)
  }

  lemma AnnouncedIsSent(up: Stage, output: Prefix, down: Stage, flux: Prefix)
    requires Linked(up, output, down, flux)
    ensures down.config.announced[flux] == SentBy(up.state.nodes, output)
    ensures forall w: nat :: !Enabled(up.config, up.state, SendCounted(w, output))
  {
    hide Reachable, Enabled, TotalsKnown, SnapshotsComplete, SentBy;
    DownstreamTotalsExact(up.config, up.state);
  }

  /**
   Once the downstream stage has agreed it has processed exactly as many packets
   of the flux as the upstream stage ever sent to that output, each worker of it
   if the flux is broadcast, and no send can follow.
   */
  lemma SendsAreProcessed(up: Stage, output: Prefix, down: Stage, flux: Prefix)
    requires Linked(up, output, down, flux) && SoundlyDecided(down)
    ensures if Broadcast(down.config, flux)
            then forall i :: 0 <= i < |down.state.nodes| ==>
                   down.state.nodes[i].past.counted[flux] == SentBy(up.state.nodes, output)
            else Sum(Ids(|down.state.nodes|), (i: nat) => CountedAt(down.state.nodes, i, flux)) == SentBy(up.state.nodes, output)
    ensures forall w: nat :: !Enabled(up.config, up.state, SendCounted(w, output))
  {
    hide Reachable, Enabled, TotalsKnown, SnapshotsComplete, SentBy, Linked;
    AnnouncedIsSent(up, output, down, flux);
    ConsensusSound(down.config, down.state);
    assert flux in down.config.fluxes by {
      LinkedFlux(up, output, down, flux);
    }
  }

  lemma LinkedFlux(up: Stage, output: Prefix, down: Stage, flux: Prefix)
    requires Linked(up, output, down, flux)
    ensures flux in down.config.fluxes
  {
  }

  // ----- The messages themselves -----

  /** The messages that each worker sent to the output, one for each send it counted. */
  ghost predicate SentLog<M>(up: Stage, output: Prefix, sent: seq<seq<M>>) {
    |sent| == |up.state.nodes| && forall i :: 0 <= i < |sent| ==> |sent[i]| == up.state.nodes[i].past.sent[output]
  }

  /** The messages that each worker processed, one for each packet it counted. */
  ghost predicate ProcessedLog<M>(down: Stage, flux: Prefix, got: seq<seq<M>>) {
    |got| == |down.state.nodes| && forall i :: 0 <= i < |got| ==> |got[i]| == down.state.nodes[i].past.counted[flux]
  }

  lemma SentCount<M>(up: Stage, output: Prefix, sent: seq<seq<M>>)
    requires SentLog(up, output, sent)
    ensures |Flatten(sent)| == SentBy(up.state.nodes, output)
  {
    FlattenLength(sent);
    SumSame(Ids(|sent|), (i: nat) => LengthAt(sent, i), (i: nat) => SentAt(up.state.nodes, i, output));
  }

  lemma ProcessedCount<M>(down: Stage, flux: Prefix, got: seq<seq<M>>)
    requires ProcessedLog(down, flux, got)
    ensures |Flatten(got)| == Sum(Ids(|down.state.nodes|), (i: nat) => CountedAt(down.state.nodes, i, flux))
  {
    FlattenLength(got);
    SumSame(Ids(|got|), (i: nat) => LengthAt(got, i), (i: nat) => CountedAt(down.state.nodes, i, flux));
  }

  /**
   A work-queue flux between two stages, the second of which has agreed. The
   broker invents nothing, and no message is processed twice, as duplicates are
   dropped by their keys.
   */
  ghost predicate Hop<M>(up: Stage, output: Prefix, down: Stage, flux: Prefix, sent: seq<seq<M>>, got: seq<seq<M>>) {
    && Linked(up, output, down, flux) && SoundlyDecided(down) && !Broadcast(down.config, flux)
    && SentLog(up, output, sent) && ProcessedLog(down, flux, got)
    && multiset(Flatten(got)) <= multiset(Flatten(sent))
  }

  /** Then nothing is missing: exactly the messages sent have been processed, each once. */
  lemma EveryMessageProcessed<M>(up: Stage, output: Prefix, down: Stage, flux: Prefix, sent: seq<seq<M>>, got: seq<seq<M>>)
    requires Hop(up, output, down, flux, sent, got)
    ensures multiset(Flatten(got)) == multiset(Flatten(sent))
  {
    hide Linked, SoundlyDecided, SentLog, ProcessedLog, SentBy, Flatten;
    SendsAreProcessed(up, output, down, flux);
    SentCount(up, output, sent);
    ProcessedCount(down, flux, got);
    PartSameSize(multiset(Flatten(got)), multiset(Flatten(sent)));
  }

  /** Of a broadcast flux every worker has processed exactly the messages sent, each once. */
  lemma EveryWorkerProcessed<M>(up: Stage, output: Prefix, down: Stage, flux: Prefix, sent: seq<seq<M>>, got: seq<seq<M>>, i: nat)
    requires Linked(up, output, down, flux) && SoundlyDecided(down) && Broadcast(down.config, flux)
    requires SentLog(up, output, sent) && ProcessedLog(down, flux, got)
    requires i < |got| && multiset(got[i]) <= multiset(Flatten(sent))
    ensures multiset(got[i]) == multiset(Flatten(sent))
  {
    hide Linked, SoundlyDecided, SentLog, SentBy, Flatten;
    SendsAreProcessed(up, output, down, flux);
    SentCount(up, output, sent);
    PartSameSize(multiset(got[i]), multiset(Flatten(sent)));
  }

  // ----- Messages with an address -----

  /** The messages are sent to workers by number, and a worker receives its own only. */
  ghost predicate RoutedHop<M>(up: Stage, output: Prefix, down: Stage, flux: Prefix,
                               sent: seq<seq<(nat, M)>>, got: seq<seq<(nat, M)>>) {
    && Hop(up, output, down, flux, sent, got)
    && forall w, x :: 0 <= w < |got| && x in got[w] ==> x.0 == w
  }

  /** A worker has processed exactly what was sent to it, and nothing was sent to a worker that does not exist. */
  lemma EachProcessesItsOwn<M>(up: Stage, output: Prefix, down: Stage, flux: Prefix,
                               sent: seq<seq<(nat, M)>>, got: seq<seq<(nat, M)>>, w: nat, m: M)
    requires RoutedHop(up, output, down, flux, sent, got)
    ensures (w < |got| && (w, m) in got[w]) <==> exists i :: 0 <= i < |sent| && (w, m) in sent[i]
  {
    hide Hop, Flatten;
    EveryMessageProcessed(up, output, down, flux, sent, got);
    FlattenHas(sent, (w, m));
    FlattenHas(got, (w, m));
    assert (w, m) in multiset(Flatten(got)) <==> (w, m) in multiset(Flatten(sent));
  }
}
