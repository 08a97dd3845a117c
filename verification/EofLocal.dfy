/** What each step keeps at the node where it is taken. */
module EofLocal {
  import opened EofStates
  import opened EofWorker
  import opened EofProtocol
  import opened EofInvariants

  lemma TakeLocal(c: Config, x: Node, p: Prefix)
    requires Local(c, x) && p in c.fluxes
    requires Broadcast(c, p) ==> p in x.own
    ensures Local(c, TakeAt(c, x, p))
  {
    assert RegistrationOk(c, TakeAt(c, x, p));
  }

  lemma SendLocal(c: Config, x: Node, o: Prefix)
    requires Local(c, x)
    ensures Local(c, SendAt(x, o))
  {
    assert RegistrationOk(c, SendAt(x, o));
  }

  lemma ProcessedLocal(c: Config, x: Node, p: Prefix)
    requires Local(c, x) && p in x.inFlight
    ensures Local(c, ProcessedAt(x, p))
  {
    assert RegistrationOk(c, ProcessedAt(x, p));
  }

  lemma ArrivalLocal(c: Config, x: Node, t: nat, p: Prefix)
    requires Local(c, x) && t < c.threads && x.pcs[t] == Idle && p in c.fluxes
    ensures Local(c, EofAt(x, t, p))
  {
    hide RegistrationPending;
    var y := EofAt(x, t, p);
    if AcceptsEof(x.worker) {
      KeptInPcs(x.pcs, t, AddingEof(p));
      assert RegistrationOk(c, y);
      ArrivalPending(c, x, t, p);
    }
  }

  lemma ArrivalPending(c: Config, x: Node, t: nat, p: Prefix)
    requires RegistrationOk(c, x) && RegistrationPending(c, x)
    requires t < c.threads && x.pcs[t] == Idle && p in c.fluxes && AcceptsEof(x.worker)
    ensures RegistrationPending(c, EofAt(x, t, p))
  {
    var y := EofAt(x, t, p);
    KeptInPcs(x.pcs, t, AddingEof(p));
    if y.worker.state == Active && y.worker.eofs == c.fluxes {
      assert x.worker.state == Active;
      var u :| 0 <= u < |x.pcs| && WillCheck(x.pcs[u]);
      assert WillCheck(y.pcs[u]);
    }
  }

  /** Storing pc at t keeps all other program counters, and t itself was pcs[t]. */
  lemma KeptInPcs(pcs: seq<Pc>, t: nat, pc: Pc)
    requires t < |pcs|
    ensures forall q :: q in pcs && q != pcs[t] ==> q in pcs[t := pc]
    ensures pc in pcs[t := pc]
  {
    forall q | q in pcs && q != pcs[t]
      ensures q in pcs[t := pc]
    {
      var i :| 0 <= i < |pcs| && pcs[i] == q;
      assert pcs[t := pc][i] == q;
    }
    assert pcs[t := pc][t] == pc;
  }

  lemma RegisterLocal(c: Config, x: Node, t: nat)
    requires Local(c, x) && t < c.threads && c.fluxes != {}
    ensures Local(c, RegisterAt(c, x, t))
  {
    var y := RegisterAt(c, x, t);
    assert PcOk(x, x.pcs[t]);
    match x.pcs[t]
    case Idle =>
    case AddingEof(p) => AddingEofLocal(c, x, t, p);
    case InitCounting(p) => InitCountingLocal(c, x, t, p);
    case AddingTotal(p) => AddingTotalLocal(c, x, t, p);
    case Rebroadcasting(p) => RebroadcastingLocal(c, x, t, p);
    case Checking(p) => CheckingLocal(c, x, t, p);
  }

  lemma AddingEofLocal(c: Config, x: Node, t: nat, p: Prefix)
    requires Local(c, x) && t < c.threads && x.pcs[t] == AddingEof(p)
    ensures Local(c, RegisterAt(c, x, t))
  {
    var y := RegisterAt(c, x, t);
    KeptInPcs(x.pcs, t, InitCounting(p));
    assert PcOk(x, x.pcs[t]);
    assert RegistrationOk(c, y);
    assert WillCheck(y.pcs[t]);
  }

  lemma InitCountingLocal(c: Config, x: Node, t: nat, p: Prefix)
    requires Local(c, x) && t < c.threads && x.pcs[t] == InitCounting(p)
    ensures Local(c, RegisterAt(c, x, t))
  {
    var y := RegisterAt(c, x, t);
    KeptInPcs(x.pcs, t, AddingTotal(p));
    assert PcOk(x, x.pcs[t]);
    assert RegistrationOk(c, y);
    assert WillCheck(y.pcs[t]);
  }

  lemma AddingTotalLocal(c: Config, x: Node, t: nat, p: Prefix)
    requires Local(c, x) && t < c.threads && x.pcs[t] == AddingTotal(p)
    ensures Local(c, RegisterAt(c, x, t))
  {
    var y := RegisterAt(c, x, t);
    KeptInPcs(x.pcs, t, if t == 0 then Checking(p) else Rebroadcasting(p));
    assert PcOk(x, x.pcs[t]);
    assert RegistrationOk(c, y);
    assert WillCheck(y.pcs[t]);
  }

  lemma RebroadcastingLocal(c: Config, x: Node, t: nat, p: Prefix)
    requires Local(c, x) && t < c.threads && x.pcs[t] == Rebroadcasting(p)
    ensures Local(c, RegisterAt(c, x, t))
  {
    var y := RegisterAt(c, x, t);
    KeptInPcs(x.pcs, t, Checking(p));
    assert PcOk(x, x.pcs[t]);
    assert RegistrationOk(c, y);
    assert WillCheck(y.pcs[t]);
  }

  lemma CheckingLocal(c: Config, x: Node, t: nat, p: Prefix)
    requires Local(c, x) && t < c.threads && x.pcs[t] == Checking(p)
    ensures Local(c, RegisterAt(c, x, t))
  {
    var y := RegisterAt(c, x, t);
    assert RegistrationOk(c, y);
    CheckingPending(c, x, t, p);
  }

  /** The check leaves nothing undone: if it did not start consensus, some EOF is still missing. */
  lemma CheckingPending(c: Config, x: Node, t: nat, p: Prefix)
    requires RegistrationOk(c, x) && RegistrationPending(c, x) && t < c.threads && x.pcs[t] == Checking(p)
    ensures RegistrationPending(c, RegisterAt(c, x, t))
  {
    KeptInPcs(x.pcs, t, Idle);
  }

  lemma CopyLocal(c: Config, x: Node, p: Prefix)
    requires Local(c, x) && p in c.fluxes
    ensures Local(c, x.(copies := x.copies + {p}))
  {
  }

  /** Changing the leader's own round data, the channels or the flag touches nothing local. */
  predicate SameLocally(x: Node, y: Node) {
    && y.pcs == x.pcs && y.copies == x.copies && y.own == x.own && y.inFlight == x.inFlight
    && y.past.arrived == x.past.arrived && y.past.counted == x.past.counted && y.past.sent == x.past.sent
    && y.worker.eofs == x.worker.eofs && y.worker.totals == x.worker.totals
    && y.worker.sent == x.worker.sent
  }

  lemma SameLocal(c: Config, x: Node, y: Node)
    requires Local(c, x) && SameLocally(x, y)
    requires y.worker.state == x.worker.state && y.worker.processed == x.worker.processed
    requires y.past.callbacks == x.past.callbacks
    ensures Local(c, y)
  {
  }

  /** A started worker moves to another started state. */
  lemma MovedLocal(c: Config, x: Node, y: Node)
    requires Local(c, x) && SameLocally(x, y)
    requires Started(y.worker.state) && Alive(x.worker.state) && Alive(y.worker.state)
    requires y.worker.processed.Keys <= c.fluxes && x.worker.processed.Keys <= y.worker.processed.Keys
    requires forall p: Prefix :: Get(y.worker.processed, p) == Get(x.worker.processed, p)
    requires CallbackCount(y)
    ensures Local(c, y)
  {
  }

  /** A worker that is done clears its records. */
  lemma ClearedLocal(c: Config, x: Node, y: Node)
    requires Local(c, x)
    requires y.pcs == x.pcs && y.copies == x.copies && y.own == x.own && y.inFlight == x.inFlight
    requires y.past == x.past && x.worker.state == ConsensusAchieved && y.worker.state == FinishEnabled
    requires y.worker.eofs == {} && y.worker.totals == map[] && y.worker.processed == map[]
    ensures Local(c, y)
  {
  }
}
