/**
 The effect of redelivered batches at a worker that checks the key of a message,
 does its work, marks the key and only then acknowledges.
 */
module ExactlyOnce {
  import opened Options
  import opened Dedup
  import opened BatchAck

  datatype Message = Message(client: string, kind: int, id: MessageId, body: string)

  /** One attempt to deliver a message; the work on it may fail, before it has any effect. */
  datatype Attempt = Attempt(message: Message, fails: bool)

  datatype State = State(marked: set<(string, Key)>, effects: seq<Message>)

  function KeyFor(m: Message): Option<(string, Key)> {
    match KeyOf(DedupKey(m.id, m.kind))
    case None => None
    case Some(key) => Some((m.client, key))
  }

  predicate Duplicate(marked: set<(string, Key)>, m: Message) {
    KeyFor(m).Some? && KeyFor(m).value in marked
  }

  function Mark(marked: set<(string, Key)>, m: Message): set<(string, Key)> {
    marked + if KeyFor(m) == None then {} else {KeyFor(m).value}
  }

  /** The answer of the worker to one attempt. */
  function AnswerTo(s: State, a: Attempt): Answer {
    if !Duplicate(s.marked, a.message) && a.fails then Nacks else Acks
  }

  function Handle(s: State, a: Attempt): State {
    if Duplicate(s.marked, a.message) || a.fails then s
    else State(Mark(s.marked, a.message), s.effects + [a.message])
  }

  /** A delivery: its messages in order, up to the first refusal. */
  function HandleBatch(s: State, batch: seq<Attempt>): State
    decreases batch
  {
    if batch == [] then s
    else if AnswerTo(s, batch[0]) == Nacks then s
    else HandleBatch(Handle(s, batch[0]), batch[1..])
  }

  /** The messages of a delivery that were acknowledged one by one. */
  function Acknowledged(s: State, batch: seq<Attempt>): seq<Message>
    decreases batch
  {
    if batch == [] || AnswerTo(s, batch[0]) == Nacks then []
    else [batch[0].message] + Acknowledged(Handle(s, batch[0]), batch[1..])
  }

  function HandleAll(s: State, batches: seq<seq<Attempt>>): State
    decreases batches
  {
    if batches == [] then s else HandleAll(HandleBatch(s, batches[0]), batches[1..])
  }

  function AcknowledgedAll(s: State, batches: seq<seq<Attempt>>): seq<Message>
    decreases batches
  {
    if batches == [] then []
    else Acknowledged(s, batches[0]) + AcknowledgedAll(HandleBatch(s, batches[0]), batches[1..])
  }

  const FRESH := State({}, [])

  // ----- What the effects are -----

  /** Each key's first message, and every message without a key, in order. */
  function Firsts(marked: set<(string, Key)>, messages: seq<Message>): seq<Message>
    decreases messages
  {
    if messages == [] then []
    else if Duplicate(marked, messages[0]) then Firsts(marked, messages[1..])
    else [messages[0]] + Firsts(Mark(marked, messages[0]), messages[1..])
  }

  function MarkAll(marked: set<(string, Key)>, messages: seq<Message>): set<(string, Key)>
    decreases messages
  {
    if messages == [] then marked else MarkAll(Mark(marked, messages[0]), messages[1..])
  }

  lemma {:induction false} FirstsSplit(marked: set<(string, Key)>, a: seq<Message>, b: seq<Message>)
    ensures Firsts(marked, a + b) == Firsts(marked, a) + Firsts(MarkAll(marked, a), b)
    ensures MarkAll(marked, a + b) == MarkAll(MarkAll(marked, a), b)
    decreases a
  {
    hide KeyFor;
    if a == [] {
      assert a + b == b;
    } else {
      assert (a + b)[1..] == a[1..] + b;
      FirstsSplit(marked, a[1..], b);
      FirstsSplit(Mark(marked, a[0]), a[1..], b);
      if Duplicate(marked, a[0]) {
        assert Mark(marked, a[0]) == marked;
      }
    }
  }

  lemma {:induction false} BatchEffects(s: State, batch: seq<Attempt>)
    ensures HandleBatch(s, batch).effects == s.effects + Firsts(s.marked, Acknowledged(s, batch))
    ensures HandleBatch(s, batch).marked == MarkAll(s.marked, Acknowledged(s, batch))
    decreases batch
  {
    if batch != [] && AnswerTo(s, batch[0]) != Nacks {
      BatchEffects(Handle(s, batch[0]), batch[1..]);
      assert Acknowledged(s, batch)[1..] == Acknowledged(Handle(s, batch[0]), batch[1..]);
      if Duplicate(s.marked, batch[0].message) {
        assert Mark(s.marked, batch[0].message) == s.marked;
      }
    }
  }

  lemma NoMessages(marked: set<(string, Key)>)
    ensures Firsts(marked, []) == [] && MarkAll(marked, []) == marked
  {
  }

  lemma {:induction false} EffectsAreFirsts(s: State, batches: seq<seq<Attempt>>)
    ensures HandleAll(s, batches).effects == s.effects + Firsts(s.marked, AcknowledgedAll(s, batches))
    ensures HandleAll(s, batches).marked == MarkAll(s.marked, AcknowledgedAll(s, batches))
    decreases batches
  {
    hide HandleBatch, Acknowledged, Firsts, MarkAll;
    if batches == [] {
      NoMessages(s.marked);
    } else {
      var r := HandleBatch(s, batches[0]);
      BatchEffects(s, batches[0]);
      EffectsAreFirsts(r, batches[1..]);
      FirstsSplit(s.marked, Acknowledged(s, batches[0]), AcknowledgedAll(r, batches[1..]));
    }
  }

  // ----- Messages that share a key -----

  /** Two messages of one client whose ids and types share a key. */
  predicate SameKey(m: Message, m': Message) {
    m.client == m'.client && Collide(m.id, m.kind, m'.id, m'.kind)
  }

  /** A message is dropped as a duplicate of another exactly if both are of one client and share a key. */
  lemma KeyForExactly(m: Message, m': Message)
    ensures KeyFor(m).Some? && KeyFor(m) == KeyFor(m') <==> SameKey(m, m')
    ensures KeyFor(m).None? <==> m.id.NoId?
  {
  }

  ghost predicate Seen(messages: seq<Message>, m: Message) {
    exists i :: 0 <= i < |messages| && SameKey(messages[i], m)
  }

  /** The messages with no earlier one of the same client and key, in order. */
  ghost function Originals(messages: seq<Message>): seq<Message>
    decreases |messages|
  {
    if messages == [] then []
    else
      var front, last := messages[..|messages| - 1], messages[|messages| - 1];
      Originals(front) + if Seen(front, last) then [] else [last]
  }

  lemma {:induction false} MarkedAll(messages: seq<Message>, m: Message)
    ensures Duplicate(MarkAll({}, messages), m) <==> Seen(messages, m)
    decreases |messages|
  {
    if messages != [] {
      var front, last := messages[..|messages| - 1], messages[|messages| - 1];
      MarkedAll(front, m);
      FirstsSplit({}, front, [last]);
      assert front + [last] == messages;
      assert MarkAll(MarkAll({}, front), [last]) == Mark(MarkAll({}, front), last) by {
        assert [last][1..] == [];
      }
      KeyForExactly(last, m);
      SeenMore(front, last, m);
    }
  }

  lemma SeenMore(front: seq<Message>, last: Message, m: Message)
    ensures Seen(front + [last], m) <==> Seen(front, m) || SameKey(last, m)
  {
    var all := front + [last];
    if i :| 0 <= i < |front| && SameKey(front[i], m) {
      assert SameKey(all[i], m);
    }
    if SameKey(last, m) {
      assert SameKey(all[|front|], m);
    }
  }

  lemma {:induction false} FirstsAreOriginals(messages: seq<Message>)
    ensures Firsts({}, messages) == Originals(messages)
    decreases |messages|
  {
    if messages != [] {
      var front, last := messages[..|messages| - 1], messages[|messages| - 1];
      FirstsAreOriginals(front);
      FirstsSplit({}, front, [last]);
      MarkedAll(front, last);
      assert front + [last] == messages && [last][1..] == [];
    }
  }

  ghost predicate AllDifferent(messages: seq<Message>) {
    forall i, j :: 0 <= i < j < |messages| ==> !SameKey(messages[i], messages[j])
  }

  lemma SameKeyShared(m: Message, m': Message, m'': Message)
    requires SameKey(m, m') && SameKey(m', m'')
    ensures SameKey(m, m'') && SameKey(m', m)
  {
  }

  lemma {:induction false} OriginalsAmong(messages: seq<Message>, m: Message)
    requires m in Originals(messages)
    ensures m in messages
    decreases |messages|
  {
    hide SameKey;
    var front, last := messages[..|messages| - 1], messages[|messages| - 1];
    if m in Originals(front) {
      OriginalsAmong(front, m);
    }
  }

  /** Every message is an original or shares its key with one. */
  lemma {:induction false} OriginalsCover(messages: seq<Message>, m: Message)
    requires m in messages
    ensures m in Originals(messages) || Seen(Originals(messages), m)
    decreases |messages|
  {
    hide SameKey;
    var front, last := messages[..|messages| - 1], messages[|messages| - 1];
    assert messages == front + [last] && Originals(front) + [] == Originals(front);
    if m in front {
      OriginalsCover(front, m);
      SeenMore(Originals(front), last, m);
    } else if i :| 0 <= i < |front| && SameKey(front[i], last) {
      OriginalsCover(front, front[i]);
      StandsIn(Originals(front), front[i], last);
    }
  }

  lemma StandsIn(kept: seq<Message>, m: Message, last: Message)
    requires SameKey(m, last) && (m in kept || Seen(kept, m))
    ensures Seen(kept, last)
  {
    if m in kept {
      var k :| 0 <= k < |kept| && kept[k] == m;
    } else {
      var k :| 0 <= k < |kept| && SameKey(kept[k], m);
      SameKeyShared(kept[k], m, last);
    }
  }

  lemma {:induction false} OriginalsDiffer(messages: seq<Message>)
    ensures AllDifferent(Originals(messages))
    decreases |messages|
  {
    hide SameKey;
    if messages != [] {
      var front, last := messages[..|messages| - 1], messages[|messages| - 1];
      OriginalsDiffer(front);
      var kept := Originals(front);
      forall k | 0 <= k < |kept| && !Seen(front, last)
        ensures !SameKey(kept[k], last)
      {
        OriginalsAmong(front, kept[k]);
      }
    }
  }

  /**
   After any sequence of deliveries, however often they are repeated or refused
   midway: the effects are, in order, the acknowledged messages with no earlier
   one of the same client and key; no two effects share client and key, and
   every acknowledged message is one of them or shares client and key with one.
   */
  lemma EachKeyTakesEffectOnce(batches: seq<seq<Attempt>>)
    ensures var effects, acknowledged := HandleAll(FRESH, batches).effects, AcknowledgedAll(FRESH, batches);
            && effects == Originals(acknowledged)
            && AllDifferent(effects)
            && forall m :: m in acknowledged ==> m in effects || Seen(effects, m)
  {
    var acknowledged := AcknowledgedAll(FRESH, batches);
    EffectsAreFirsts(FRESH, batches);
    assert FRESH.effects + Firsts({}, acknowledged) == Firsts({}, acknowledged);
    FirstsAreOriginals(acknowledged);
    OriginalsDiffer(acknowledged);
    forall m | m in acknowledged
      ensures m in Originals(acknowledged) || Seen(Originals(acknowledged), m)
    {
      OriginalsCover(acknowledged, m);
    }
  }

  /**
   So if all ids fit, every acknowledged message has an effect with its client,
   type and number; another client's message never stands in for it, nor does
   one of another type.
   */
  lemma AcknowledgedHasEffect(batches: seq<seq<Attempt>>, m: Message)
    requires m in AcknowledgedAll(FRESH, batches)
    requires forall m' :: m' in AcknowledgedAll(FRESH, batches) ==> m'.id.NoId? || Fits(m'.id)
    ensures var effects := HandleAll(FRESH, batches).effects;
            if m.id.NoId? then m in effects
            else exists e :: e in effects && e.client == m.client && e.kind == m.kind && AsInt(e.id) == AsInt(m.id)
  {
    hide HandleAll, AcknowledgedAll, SameKey, Originals, DedupKey, KeyOf, AsInt;
    var acknowledged, effects := AcknowledgedAll(FRESH, batches), HandleAll(FRESH, batches).effects;
    EachKeyTakesEffectOnce(batches);
    if m !in effects {
      var k :| 0 <= k < |effects| && SameKey(effects[k], m);
      OriginalsAmong(acknowledged, effects[k]);
      SameKeyFits(effects[k], m);
    }
  }

  lemma SameKeyFits(m: Message, m': Message)
    requires SameKey(m, m') && (m.id.NoId? || Fits(m.id)) && (m'.id.NoId? || Fits(m'.id))
    ensures m.client == m'.client && m.kind == m'.kind && AsInt(m.id) == AsInt(m'.id) && !m'.id.NoId?
  {
    CollideExactly(m.id, m.kind, m'.id, m'.kind);
  }

  /** Deliveries in which no work fails are acknowledged message by message, so that each message has its effect. */
  lemma {:induction false} WorkingIsAcknowledged(s: State, batch: seq<Attempt>)
    requires forall i :: 0 <= i < |batch| ==> !batch[i].fails
    ensures |Acknowledged(s, batch)| == |batch| && forall i :: 0 <= i < |batch| ==> Acknowledged(s, batch)[i] == batch[i].message
    ensures |AnswersTo(s, batch)| == |batch| && forall i :: 0 <= i < |batch| ==> AnswersTo(s, batch)[i] == Acks
    decreases batch
  {
    if batch != [] {
      WorkingIsAcknowledged(Handle(s, batch[0]), batch[1..]);
    }
  }

  // ----- Settling -----

  /** The answers the broker's delivery gets: one per message, up to the first refusal. */
  function AnswersTo(s: State, batch: seq<Attempt>): seq<Answer>
    decreases batch
  {
    if batch == [] then []
    else if AnswerTo(s, batch[0]) == Nacks then [Nacks]
    else [Acks] + AnswersTo(Handle(s, batch[0]), batch[1..])
  }

  lemma {:induction false} AllAcked(s: State, batch: seq<Attempt>)
    requires forall i :: 0 <= i < |AnswersTo(s, batch)| ==> AnswersTo(s, batch)[i] == Acks
    ensures |Acknowledged(s, batch)| == |batch|
    ensures forall i :: 0 <= i < |batch| ==> Acknowledged(s, batch)[i] == batch[i].message
    decreases batch
  {
    if batch != [] {
      var answers := AnswersTo(s, batch);
      assert answers[0] == Acks;
      assert answers[1..] == AnswersTo(Handle(s, batch[0]), batch[1..]);
      AllAcked(Handle(s, batch[0]), batch[1..]);
    }
  }

  /** A delivery is handled up to its first refusal and no further. */
  lemma {:induction false} UpToTheRefusal(s: State, batch: seq<Attempt>)
    ensures var n := |Acknowledged(s, batch)|;
            && n <= |batch| && HandleBatch(s, batch) == HandleBatch(s, batch[..n])
            && |AnswersTo(s, batch)| == (if n < |batch| then n + 1 else n)
            && (forall i :: 0 <= i < n ==> AnswersTo(s, batch)[i] == Acks)
            && (n < |batch| ==> AnswersTo(s, batch)[n] == Nacks && batch[n].fails)
    decreases batch
  {
    if batch != [] && AnswerTo(s, batch[0]) != Nacks {
      var n := |Acknowledged(s, batch)|;
      UpToTheRefusal(Handle(s, batch[0]), batch[1..]);
      assert batch[..n][1..] == batch[1..][..n - 1];
    }
  }

  /** A delivery is acknowledged only if each of its messages was, so each has had its effect. */
  lemma AckedMeansDone(s: State, batch: seq<Attempt>)
    requires Settled(AnswersTo(s, batch)) == [Ack]
    ensures batch != []
    ensures forall i :: 0 <= i < |batch| ==> i < |Acknowledged(s, batch)| && Acknowledged(s, batch)[i] == batch[i].message
  {
    AllAcked(s, batch);
  }

  /** A delivery of messages that all had their effect changes nothing and is acknowledged. */
  lemma {:induction false} RedeliveryIsHarmless(s: State, batch: seq<Attempt>)
    requires forall i :: 0 <= i < |batch| ==> Duplicate(s.marked, batch[i].message)
    ensures HandleBatch(s, batch) == s
    ensures |AnswersTo(s, batch)| == |batch| && forall i :: 0 <= i < |batch| ==> AnswersTo(s, batch)[i] == Acks
    decreases batch
  {
    if batch != [] {
      RedeliveryIsHarmless(s, batch[1..]);
    }
  }

  // ----- The worker itself -----

  class Worker {
    const deduplicator: InMemoryDeduplicator
    var effects: seq<Message>

    ghost predicate Valid()
      reads this, deduplicator, deduplicator.repr
    {
      deduplicator.Valid()
    }

    ghost function View(): State
      reads this, deduplicator
    {
      State(deduplicator.marked, effects)
    }

    constructor ()
      ensures Valid() && View() == FRESH && fresh(deduplicator) && fresh(deduplicator.repr)
    {
      deduplicator := new InMemoryDeduplicator();
      effects := [];
    }

    /** The handler: check, work, mark, acknowledge; an exception in the work refuses the message. */
    method ProcessMessage(a: Attempt) returns (answer: Answer)
      requires Valid()
      modifies this, deduplicator, deduplicator.repr
      ensures Valid() && fresh(deduplicator.repr - old(deduplicator.repr))
      ensures answer == AnswerTo(old(View()), a)
      ensures answer == Acks || (answer == Nacks && a.fails && View() == old(View()))
      ensures View() == Handle(old(View()), a)
    {
      var key := DedupKey(a.message.id, a.message.kind);
      var should := deduplicator.ShouldProcess(a.message.client, key);
      if !should {
        return Acks;
      }
      if a.fails {
        return Nacks;
      }
      effects := effects + [a.message];
      deduplicator.MarkProcessed(a.message.client, key);
      answer := Acks;
    }

    /** One delivery, settled by its own controller. */
    method ProcessBatch(batch: seq<Attempt>) returns (settled: seq<Settlement>)
      requires Valid()
      modifies this, deduplicator, deduplicator.repr
      ensures Valid() && fresh(deduplicator.repr - old(deduplicator.repr))
      ensures View() == HandleBatch(old(View()), batch)
      ensures settled == Settled(AnswersTo(old(View()), batch))
    {
      var controller := new BatchAckController(|batch|);
      ghost var start := View();
      ghost var answers := AnswersTo(start, batch);
      for i := 0 to |batch|
        invariant Valid() && fresh(deduplicator.repr - old(deduplicator.repr))
        invariant fresh(controller) && controller.Valid() && controller.total == |batch|
        invariant controller.acks == i && controller.settled == if i == |batch| > 0 then [Ack] else []
        invariant HandleBatch(start, batch) == HandleBatch(View(), batch[i..])
        invariant i <= |answers| && answers[i..] == AnswersTo(View(), batch[i..])
        invariant forall j :: 0 <= j < i ==> answers[j] == Acks
      {
        if controller.finished {
          break;
        }
        ghost var before := View();
        assert batch[i..][0] == batch[i] && batch[i..][1..] == batch[i + 1..];
        var answer := ProcessMessage(batch[i]);
        assert answers[i] == answers[i..][0] == answer;
        if answer == Nacks {
          controller.NackAll();
          return controller.settled;
        }
        controller.AckOne();
        assert answers[i + 1..] == answers[i..][1..];
      }
      settled := controller.settled;
    }
  }
}
