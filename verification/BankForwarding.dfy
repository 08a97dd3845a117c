/**
 A bank filter under redelivery: it remembers that a bank was seen before it
 sends the bank on, so a send that raises loses the bank for good.
 */
module BankForwarding {
  import opened Options
  import opened Dedup
  import opened ExactlyOnce

  /** A message with a bank record; the bank may be missing. */
  datatype Record = Record(message: Message, bank: Option<int>)

  /** One attempt to handle a record; if it comes to a send, the send may raise. */
  datatype Try = Try(record: Record, sendRaises: bool)

  datatype FilterState = FilterState(marked: set<(string, Key)>, seen: set<(string, int)>, forwarded: seq<Record>)

  const UNUSED := FilterState({}, {}, [])

  /** The record is that of a client's bank. */
  predicate OfBank(r: Record, client: string, bank: int) {
    r.message.client == client && r.bank == Some(bank)
  }

  /** The record is no duplicate and its bank is new, so it is sent on. */
  predicate Sends(s: FilterState, r: Record) {
    !Duplicate(s.marked, r.message) && r.bank.Some? && (r.message.client, r.bank.value) !in s.seen
  }

  function Answered(s: FilterState, t: Try): bool {
    !(Sends(s, t.record) && t.sendRaises)
  }

  /** The bank is seen first, then sent, and the message marked last. */
  function Handled(s: FilterState, t: Try): FilterState {
    var r := t.record;
    if Duplicate(s.marked, r.message) then s
    else if Sends(s, r) then
      var seen := s.seen + {(r.message.client, r.bank.value)};
      if t.sendRaises then s.(seen := seen)
      else FilterState(Mark(s.marked, r.message), seen, s.forwarded + [r])
    else s.(marked := Mark(s.marked, r.message))
  }

  function HandledAll(s: FilterState, tries: seq<Try>): FilterState
    decreases tries
  {
    if tries == [] then s else HandledAll(Handled(s, tries[0]), tries[1..])
  }

  // ----- When a bank is forwarded -----

  /** The first attempt on a record of the bank that is no duplicate. */
  function FirstTry(s: FilterState, tries: seq<Try>, client: string, bank: int): Option<Try>
    decreases tries
  {
    if tries == [] then None
    else if OfBank(tries[0].record, client, bank) && !Duplicate(s.marked, tries[0].record.message) then Some(tries[0])
    else FirstTry(Handled(s, tries[0]), tries[1..], client, bank)
  }

  ghost predicate Forwarded(s: FilterState, client: string, bank: int) {
    exists r :: r in s.forwarded && OfBank(r, client, bank)
  }

  /** A bank that was seen is never sent again. */
  lemma {:induction false} SeenStaysAsItIs(s: FilterState, tries: seq<Try>, client: string, bank: int)
    requires (client, bank) in s.seen
    ensures Forwarded(HandledAll(s, tries), client, bank) <==> Forwarded(s, client, bank)
    decreases tries
  {
    if tries != [] {
      var next := Handled(s, tries[0]);
      SeenStaysAsItIs(next, tries[1..], client, bank);
      if Forwarded(s, client, bank) {
        var r :| r in s.forwarded && OfBank(r, client, bank);
        assert r in next.forwarded;
      }
    }
  }

  lemma {:induction false} UnseenForwarded(s: FilterState, tries: seq<Try>, client: string, bank: int)
    requires (client, bank) !in s.seen && !Forwarded(s, client, bank)
    ensures Forwarded(HandledAll(s, tries), client, bank) <==>
            FirstTry(s, tries, client, bank).Some? && !FirstTry(s, tries, client, bank).value.sendRaises
    decreases tries
  {
    if tries != [] {
      var t, next := tries[0], Handled(s, tries[0]);
      if OfBank(t.record, client, bank) && !Duplicate(s.marked, t.record.message) {
        SeenStaysAsItIs(next, tries[1..], client, bank);
        if !t.sendRaises {
          assert t.record in next.forwarded;
        }
      } else {
        UnseenForwarded(next, tries[1..], client, bank);
      }
    }
  }

  /**
   Over any sequence of attempts, with any redeliveries: a bank is forwarded
   exactly if the send did not raise on the first attempt at a record of it that
   is no duplicate. Later attempts change nothing, whether they are acknowledged or not.
   */
  lemma ForwardedExactly(tries: seq<Try>, client: string, bank: int)
    ensures Forwarded(HandledAll(UNUSED, tries), client, bank) <==>
            FirstTry(UNUSED, tries, client, bank).Some? && !FirstTry(UNUSED, tries, client, bank).value.sendRaises
  {
    UnseenForwarded(UNUSED, tries, client, bank);
  }

  /** One bank is forwarded at most once for each client. */
  ghost predicate BanksDistinct(forwarded: seq<Record>) {
    forall i, j, client, bank :: 0 <= i < j < |forwarded| && OfBank(forwarded[i], client, bank) ==>
      !OfBank(forwarded[j], client, bank)
  }

  ghost predicate ForwardedSeen(s: FilterState) {
    forall r :: r in s.forwarded ==> r.bank.Some? && (r.message.client, r.bank.value) in s.seen
  }

  lemma {:induction false} AtMostOnce(s: FilterState, tries: seq<Try>)
    requires BanksDistinct(s.forwarded) && ForwardedSeen(s)
    ensures BanksDistinct(HandledAll(s, tries).forwarded)
    decreases tries
  {
    if tries != [] {
      AtMostOnce(Handled(s, tries[0]), tries[1..]);
    }
  }

  /** A send that raises, the redelivery acknowledged and marked as processed, and the bank is lost. */
  lemma BankLost(r: Record)
    requires r.bank.Some?
    ensures var tries := [Try(r, true), Try(r, false)];
            var once := Handled(UNUSED, tries[0]);
            && !Answered(UNUSED, tries[0]) && Answered(once, tries[1])
            && (KeyFor(r.message).Some? ==> Duplicate(HandledAll(UNUSED, tries).marked, r.message))
            && forall more :: !Forwarded(HandledAll(UNUSED, tries + more), r.message.client, r.bank.value)
  {
    var tries := [Try(r, true), Try(r, false)];
    var once := Handled(UNUSED, tries[0]);
    assert HandledAll(UNUSED, tries) == Handled(once, tries[1]) by {
      assert tries[1..] == [Try(r, false)] && tries[1..][1..] == [];
      assert HandledAll(once, tries[1..]) == HandledAll(Handled(once, tries[1]), []);
    }
    forall more
      ensures !Forwarded(HandledAll(UNUSED, tries + more), r.message.client, r.bank.value)
    {
      assert (tries + more)[0] == Try(r, true);
      ForwardedExactly(tries + more, r.message.client, r.bank.value);
    }
  }

  // ----- The filter itself -----

  class BankFilter {
    const deduplicator: InMemoryDeduplicator
    var seenBanks: map<string, set<int>>
    var forwarded: seq<Record>
    ghost var seen: set<(string, int)>

    ghost predicate Valid()
      reads this, deduplicator, deduplicator.repr
    {
      && deduplicator.Valid()
      && forall c, b :: (c, b) in seen <==> c in seenBanks && b in seenBanks[c]
    }

    ghost function View(): FilterState
      reads this, deduplicator
    {
      FilterState(deduplicator.marked, seen, forwarded)
    }

    constructor ()
      ensures Valid() && View() == UNUSED && fresh(deduplicator) && fresh(deduplicator.repr)
    {
      deduplicator := new InMemoryDeduplicator();
      seenBanks, forwarded, seen := map[], [], {};
    }

    /** Remembers the bank, then sends it on; false if the send raises. */
    method HandleData(t: Try) returns (done: bool)
      requires Valid()
      modifies `seenBanks, `forwarded, `seen
      ensures Valid()
      ensures var r := t.record;
              var isNew := r.bank.Some? && (r.message.client, r.bank.value) !in old(seen);
              && done == !(isNew && t.sendRaises)
              && seen == old(seen) + (if isNew then {(r.message.client, r.bank.value)} else {})
              && forwarded == old(forwarded) + if isNew && !t.sendRaises then [r] else []
    {
      var client := t.record.message.client;
      if t.record.bank.Some? {
        var bank := t.record.bank.value;
        if client !in seenBanks {
          seenBanks := seenBanks[client := {}];
        }
        if bank !in seenBanks[client] {
          seenBanks := seenBanks[client := seenBanks[client] + {bank}];
          seen := seen + {(client, bank)};
          if t.sendRaises {
            return false;
          }
          forwarded := forwarded + [t.record];
        }
      }
      done := true;
    }

    /** Check, remember and send, mark, acknowledge; an exception refuses the message. */
    method ProcessMessage(t: Try) returns (acked: bool)
      requires Valid()
      modifies this, deduplicator, deduplicator.repr
      ensures Valid() && fresh(deduplicator.repr - old(deduplicator.repr))
      ensures acked == Answered(old(View()), t)
      ensures View() == Handled(old(View()), t)
      ensures !acked ==> t.sendRaises && View().marked == old(View().marked) && forwarded == old(forwarded)
      ensures acked && KeyFor(t.record.message).Some? ==> Duplicate(View().marked, t.record.message)
    {
      var m := t.record.message;
      var key := DedupKey(m.id, m.kind);
      var should := deduplicator.ShouldProcess(m.client, key);
      if !should {
        return true;
      }
      var done := HandleData(t);
      if !done {
        return false;
      }
      deduplicator.MarkProcessed(m.client, key);
      acked := true;
    }
  }
}
