/** Steps of the reception of EOFs keep the invariant. */
module EofReception {
  import opened Sums
  import opened EofStates
  import opened EofWorker
  import opened EofProtocol
  import opened EofInvariants
  import opened EofLocal
  import opened EofDataSteps

  /**
   A step that leaves packets, sends and the decision alone, given the new
   nodes one by one.
   */
  lemma Rebuild(c: Config, s: System, r: System)
    requires Inv(c, s) && SamePackets(s, r)
    requires r.history.decision == s.history.decision && r.history.emitted == s.history.emitted
    requires r.nodes[0].worker.sentTotals == s.nodes[0].worker.sentTotals
    requires forall i :: 0 <= i < c.n ==> Local(c, r.nodes[i])
    requires forall i :: 0 <= i < c.n ==> Tied(c, ViewOf(r), i, r.nodes[i])
    requires LeaderOk(c, r.nodes[0], r.opening, r.history)
    requires PartialsShape(c, ViewOf(r), r.opening, r.history)
    ensures Inv(c, r)
  {
    SameTotals(c, s, r);
    DecisionSame(c, s, r);
  }

  /** All that Tied says about a node depends on these of its fields. */
  ghost predicate LooksSame(x: Node, y: Node) {
    && y.up == x.up && y.down == x.down && y.callback == x.callback
    && y.past.counted == x.past.counted && y.past.sent == x.past.sent && y.past.late == x.past.late
    && (y.worker.state == x.worker.state || (Early(y.worker.state) && Early(x.worker.state)))
  }

  lemma TiedSame(c: Config, v: View, i: nat, x: Node, y: Node)
    requires Tied(c, v, i, x) && LooksSame(x, y)
    ensures Tied(c, v, i, y)
  {
  }

  predicate SameLeader(x: Node, y: Node) {
    && y.worker.state == x.worker.state && y.worker.partials == x.worker.partials
    && y.worker.posts == x.worker.posts && y.worker.sentTotals == x.worker.sentTotals
  }

  /** A step at one node that moves no packet and that the others cannot see. */
  lemma UnseenSame(c: Config, s: System, w: nat, y: Node)
    requires Inv(c, s) && w < c.n
    requires Local(c, y) && LooksSame(s.nodes[w], y) && SamePacketsAt(s.nodes[w], y)
    requires w == 0 ==> SameLeader(s.nodes[0], y) && LeaderOk(c, y, s.opening, s.history)
    ensures Inv(c, Put(s, w, y))
  {
    var r := Put(s, w, y);
    SamePacketsPut(s, w, y, r);
    SameTotals(c, s, r);
    DecisionSame(c, s, r);
    assert Tied(c, ViewOf(s), w, s.nodes[w]);
    TiedSame(c, ViewOf(s), w, s.nodes[w], y);
    Unseen(c, s, w, y, r);
  }

  lemma TiedAt(c: Config, s: System, w: nat)
    requires Inv(c, s) && w < c.n
    ensures s.nodes != [] && w < |s.nodes| && Tied(c, ViewOf(s), w, s.nodes[w])
  {
  }

  /** The invariant at one node. */
  lemma InvAt(c: Config, s: System, w: nat)
    requires Inv(c, s) && w < c.n
    ensures Local(c, s.nodes[w]) && Tied(c, ViewOf(s), w, s.nodes[w])
    ensures w == 0 ==> LeaderOk(c, s.nodes[w], s.opening, s.history)
  {
  }

  lemma ArrivalLooks(c: Config, x: Node, t: nat, p: Prefix, opening: Opening, h: History)
    requires t < |x.pcs| && p in c.fluxes
    ensures LooksSame(x, EofAt(x, t, p)) && SamePacketsAt(x, EofAt(x, t, p))
    ensures LeaderOk(c, x, opening, h) && x.worker.state != Inactive ==>
              SameLeader(x, EofAt(x, t, p)) && LeaderOk(c, EofAt(x, t, p), opening, h)
    ensures LeaderOk(c, x, opening, h) && x.worker.state == Inactive ==>
              && EofAt(x, t, p).worker.state == Active
              && LeaderOk(c, EofAt(x, t, p), opening, h)
              && SameLeader(x, EofAt(x, t, p).(worker := EofAt(x, t, p).worker.(state := Inactive)))
  {
  }

  lemma EofArrivesKeeps(c: Config, s: System, w: nat, t: nat, p: Prefix)
    requires Inv(c, s) && w < c.n && t < c.threads && s.nodes[w].pcs[t] == Idle && p in c.fluxes
    ensures Inv(c, Put(s, w, EofAt(s.nodes[w], t, p)))
  {
    InvAt(c, s, w);
    ArrivalLocal(c, s.nodes[w], t, p);
    ArrivalLooks(c, s.nodes[w], t, p, s.opening, s.history);
    if w == 0 && s.nodes[w].worker.state == Inactive {
      LeaderActivates(c, s, EofAt(s.nodes[w], t, p));
    } else {
      UnseenSame(c, s, w, EofAt(s.nodes[w], t, p));
    }
  }

  lemma LeaderActivates(c: Config, s: System, y: Node)
    requires Inv(c, s) && Local(c, y) && SamePacketsAt(s.nodes[0], y) && LooksSame(s.nodes[0], y)
    requires s.nodes[0].worker.state == Inactive && y.worker.state == Active
    requires LeaderOk(c, y, s.opening, s.history)
    requires SameLeader(s.nodes[0], y.(worker := y.worker.(state := Inactive)))
    ensures Inv(c, Put(s, 0, y))
  {
    var r := Put(s, 0, y);
    SamePacketsPut(s, 0, y, r);
    SameTotals(c, s, r);
    assert ViewOf(r) == ViewOf(s).(state := Active);
    ViewChanges(c, s, y, Active, r);
    Rebuild(c, s, r);
  }

  /** The other nodes, and the leader's own data, after the leader moves between early states. */
  lemma ViewChanges(c: Config, s: System, y: Node, state: EofState, r: System)
    requires |s.nodes| == c.n > 0 && r.nodes == s.nodes[0 := y] && LooksSame(s.nodes[0], y)
    requires forall i :: 0 <= i < c.n ==> Tied(c, ViewOf(s), i, s.nodes[i])
    requires ViewOf(r) == ViewOf(s).(state := state)
    requires (s.nodes[0].worker.state == Inactive && state == Active)
             || (s.nodes[0].worker.state == Active && state == PendingEof)
    ensures forall i :: 0 <= i < c.n ==> Tied(c, ViewOf(r), i, r.nodes[i])
  {
  }

  lemma RegisterKeeps(c: Config, s: System, w: nat, t: nat)
    requires Inv(c, s) && w < c.n && t < c.threads && Enabled(c, s, Register(w, t))
    ensures Inv(c, ApplyRegister(c, s, w, t))
  {
    InvAt(c, s, w);
    RegisterLocal(c, s.nodes[w], t);
    if s.nodes[w].pcs[t].Rebroadcasting? {
      RebroadcastKeeps(c, s, w, t, s.nodes[w].pcs[t].p);
    } else if s.nodes[w].pcs[t].Checking? {
      CheckingKeeps(c, s, w, t, s.nodes[w].pcs[t].p);
    } else {
      BlockKeeps(c, s, w, t);
    }
  }

  lemma BlockLooks(c: Config, x: Node, t: nat)
    requires t < |x.pcs| && !x.pcs[t].Checking?
    ensures LooksSame(x, RegisterAt(c, x, t)) && SamePacketsAt(x, RegisterAt(c, x, t))
  {
  }

  lemma BlockKeeps(c: Config, s: System, w: nat, t: nat)
    requires Inv(c, s) && w < c.n && t < c.threads && !s.nodes[w].pcs[t].Checking?
    requires Local(c, RegisterAt(c, s.nodes[w], t))
    ensures Inv(c, Put(s, w, RegisterAt(c, s.nodes[w], t)))
  {
    InvAt(c, s, w);
    BlockLooks(c, s.nodes[w], t);
    if w == 0 {
      LeaderBlock(c, s.nodes[w], s.opening, s.history, t);
    }
    UnseenSame(c, s, w, RegisterAt(c, s.nodes[w], t));
  }

  lemma LeaderBlock(c: Config, x: Node, opening: Opening, h: History, t: nat)
    requires LeaderOk(c, x, opening, h) && RegistrationOk(c, x) && t < c.threads && !x.pcs[t].Checking?
    ensures LeaderOk(c, RegisterAt(c, x, t), opening, h) && SameLeader(x, RegisterAt(c, x, t))
  {
    assert PcOk(x, x.pcs[t]);
  }

  lemma RebroadcastKeeps(c: Config, s: System, w: nat, t: nat, p: Prefix)
    requires Inv(c, s) && w < c.n && t < c.threads && s.nodes[w].pcs[t] == Rebroadcasting(p)
    requires Local(c, RegisterAt(c, s.nodes[w], t))
    ensures Inv(c, ApplyRegister(c, s, w, t))
  {
    var y := RegisterAt(c, s.nodes[w], t);
    UnseenSame(c, s, w, y);
    assert p in c.fluxes by {
      assert Local(c, s.nodes[w]);
      assert PcOk(s.nodes[w], s.nodes[w].pcs[t]);
    }
    CopiesKeep(c, Put(s, w, y), w, p);
  }

  lemma CopiesKeep(c: Config, s: System, w: nat, p: Prefix)
    requires Inv(c, s) && p in c.fluxes && w < c.n
    ensures Inv(c, s.(nodes := Copied(s.nodes, w, p)))
  {
    var r := s.(nodes := Copied(s.nodes, w, p));
    assert SamePackets(s, r);
    SameTotals(c, s, r);
    CopiesOneByOne(c, ViewOf(s), s.nodes, w, p, r.nodes);
    assert ViewOf(r) == ViewOf(s);
    assert LeaderOk(c, r.nodes[0], r.opening, r.history);
    Rebuild(c, s, r);
  }

  lemma CopiesOneByOne(c: Config, v: View, nodes: seq<Node>, w: nat, p: Prefix, after: seq<Node>)
    requires forall i :: 0 <= i < |nodes| ==> Local(c, nodes[i]) && Tied(c, v, i, nodes[i])
    requires p in c.fluxes && after == Copied(nodes, w, p)
    ensures forall i :: 0 <= i < |nodes| ==> Local(c, after[i]) && Tied(c, v, i, after[i])
  {
    forall i | 0 <= i < |nodes|
      ensures Local(c, after[i]) && Tied(c, v, i, after[i])
    {
      CopyLocal(c, nodes[i], p);
      TiedSame(c, v, i, nodes[i], after[i]);
    }
  }

  lemma CheckLooks(c: Config, x: Node, t: nat, opening: Opening, h: History)
    requires t < |x.pcs| && x.pcs[t].Checking?
    ensures LooksSame(x, RegisterAt(c, x, t)) && SamePacketsAt(x, RegisterAt(c, x, t))
    ensures LeaderOk(c, x, opening, h) && !StartsConsensus(x.worker, |c.fluxes|) ==>
              SameLeader(x, RegisterAt(c, x, t)) && LeaderOk(c, RegisterAt(c, x, t), opening, h)
  {
  }

  /** A check that does not start consensus only changes the worker's own records. */
  lemma PassIs(c: Config, s: System, w: nat, t: nat)
    requires w < |s.nodes| && t < |s.nodes[w].pcs| && s.nodes[w].pcs[t].Checking?
    requires w != 0 || !StartsConsensus(s.nodes[w].worker, |c.fluxes|)
    ensures ApplyRegister(c, s, w, t) == Put(s, w, RegisterAt(c, s.nodes[w], t))
  {
  }

  lemma PassKeeps(c: Config, s: System, w: nat, t: nat)
    requires Inv(c, s) && w < c.n && t < c.threads && s.nodes[w].pcs[t].Checking?
    requires w != 0 || !StartsConsensus(s.nodes[w].worker, |c.fluxes|)
    requires Local(c, RegisterAt(c, s.nodes[w], t))
    ensures Inv(c, Put(s, w, RegisterAt(c, s.nodes[w], t)))
  {
    InvAt(c, s, w);
    CheckLooks(c, s.nodes[w], t, s.opening, s.history);
    UnseenSame(c, s, w, RegisterAt(c, s.nodes[w], t));
  }

  lemma CheckingKeeps(c: Config, s: System, w: nat, t: nat, p: Prefix)
    requires Inv(c, s) && w < c.n && t < c.threads && s.nodes[w].pcs[t] == Checking(p)
    requires Local(c, RegisterAt(c, s.nodes[w], t))
    ensures Inv(c, ApplyRegister(c, s, w, t))
  {
    if w == 0 && StartsConsensus(s.nodes[0].worker, |c.fluxes|) {
      StartKeeps(c, s, t, ApplyRegister(c, s, 0, t));
    } else {
      PassIs(c, s, w, t);
      PassKeeps(c, s, w, t);
    }
  }

  lemma StartLooks(c: Config, x: Node, t: nat, opening: Opening, h: History)
    requires t < c.threads && LeaderOk(c, x, opening, h) && RegistrationOk(c, x)
    requires x.pcs[t].Checking? && StartsConsensus(x.worker, |c.fluxes|)
    ensures LooksSame(x, RegisterAt(c, x, t)) && SamePacketsAt(x, RegisterAt(c, x, t))
    ensures LeaderOk(c, RegisterAt(c, x, t), Snapshotting(t), h.(starts := h.starts + 1))
    ensures RegisterAt(c, x, t).worker.state == PendingEof
    ensures SameLeader(x, RegisterAt(c, x, t).(worker := RegisterAt(c, x, t).worker.(state := Active)))
  {
    SubsetSameSize(x.worker.eofs, c.fluxes);
  }

  lemma LeaderStarts(c: Config, s: System, y: Node, t: nat, r: System)
    requires Inv(c, s) && Local(c, y) && SamePacketsAt(s.nodes[0], y) && LooksSame(s.nodes[0], y)
    requires s.nodes[0].worker.state == Active && y.worker.state == PendingEof
    requires SameLeader(s.nodes[0], y.(worker := y.worker.(state := Active)))
    requires r == Put(s, 0, y).(opening := Snapshotting(t), history := s.history.(starts := s.history.starts + 1))
    requires LeaderOk(c, y, r.opening, r.history)
    ensures Inv(c, r)
  {
    SamePacketsPut(s, 0, y, r);
    SameTotals(c, s, r);
    assert ViewOf(r) == ViewOf(s).(state := PendingEof);
    ViewChanges(c, s, y, PendingEof, r);
    Rebuild(c, s, r);
  }

  lemma StartIs(c: Config, s: System, t: nat)
    requires s.nodes != [] && t < |s.nodes[0].pcs| && s.nodes[0].pcs[t].Checking?
    requires StartsConsensus(s.nodes[0].worker, |c.fluxes|)
    ensures ApplyRegister(c, s, 0, t) ==
            Put(s, 0, RegisterAt(c, s.nodes[0], t)).(
              opening := Snapshotting(t), history := s.history.(starts := s.history.starts + 1))
  {
  }

  /** The check that takes the leader from Active to PendingEof. */
  lemma StartKeeps(c: Config, s: System, t: nat, r: System)
    requires Inv(c, s) && t < c.threads && s.nodes[0].pcs[t].Checking?
    requires StartsConsensus(s.nodes[0].worker, |c.fluxes|)
    requires Local(c, RegisterAt(c, s.nodes[0], t))
    requires r == ApplyRegister(c, s, 0, t)
    ensures Inv(c, r)
  {
    InvAt(c, s, 0);
    StartIs(c, s, t);
    StartLooks(c, s.nodes[0], t, s.opening, s.history);
    LeaderStarts(c, s, RegisterAt(c, s.nodes[0], t), t, r);
  }
}
