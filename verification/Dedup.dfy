/** Duplicate detection: the key of a message, and the keys each client's messages had so far. */
module Dedup {
  import opened Options
  import opened Decimal
  import opened Ranges

  /** A message id as it arrives: absent, a number, or text. */
  datatype MessageId = NoId | Number(n: int) | Text(s: string)

  /** Room for the ids of one message type. */
  const FACTOR := 1_000_000_000_000

  /** The composite key of a message's type and id; an id that is no number is its own key. */
  function DedupKey(id: MessageId, kind: int): MessageId {
    match id
    case NoId => NoId
    case Number(n) => Number(kind * FACTOR + n)
    case Text(s) =>
      match ParseInt(s)
      case Some(n) => Number(kind * FACTOR + n)
      case None => id
  }

  predicate InRoom(n: int) {
    0 <= n < 1_000_000_000_000
  }

  /** An id that does not fit always collides with one of another type. */
  lemma OutsideRoomCollides(n: int, kind: int)
    requires !InRoom(n)
    ensures exists m, other :: InRoom(m) && other != kind && DedupKey(Number(n), kind) == DedupKey(Number(m), other)
  {
    var m, other := n % FACTOR, kind + n / FACTOR;
    assert InRoom(m) && kind * FACTOR + n == other * FACTOR + m;
    assert DedupKey(Number(n), kind) == DedupKey(Number(m), other);
  }

  // ----- Which messages share a key -----

  /** A key as the deduplicator sees it: whatever parses is a number. */
  datatype Key = Num(n: int) | Str(s: string)

  function KeyOf(id: MessageId): Option<Key> {
    match id
    case NoId => None
    case Number(n) => Some(Num(n))
    case Text(s) =>
      match ParseInt(s)
      case Some(n) => Some(Num(n))
      case None => Some(Str(s))
  }

  /** The number an id stands for, if it is one or its text is read as one. */
  function AsInt(id: MessageId): Option<int> {
    match id
    case NoId => None
    case Number(n) => Some(n)
    case Text(s) => ParseInt(s)
  }

  /** The second of two messages of a client, of the given ids and types, is dropped as a duplicate of the first. */
  predicate Collide(id: MessageId, kind: int, id': MessageId, kind': int) {
    KeyOf(DedupKey(id, kind)).Some? && KeyOf(DedupKey(id, kind)) == KeyOf(DedupKey(id', kind'))
  }

  /** For all ids and types: the sums agree, or the ids are the same text that is no number, whatever the types. */
  lemma CollideExactly(id: MessageId, kind: int, id': MessageId, kind': int)
    ensures Collide(id, kind, id', kind') <==>
            if AsInt(id).Some? then AsInt(id').Some? && kind * FACTOR + AsInt(id).value == kind' * FACTOR + AsInt(id').value
            else id.Text? && id' == id
  {
    hide ParseInt;
  }

  /** An id that can be told from others by its key. */
  predicate Fits(id: MessageId) {
    AsInt(id).Some? && InRoom(AsInt(id).value)
  }

  /** The key of the id tells type and id from those of every id that fits and of itself. */
  ghost predicate ToldApart(id: MessageId) {
    forall id': MessageId, kind, kind' :: (id' == id || Fits(id')) && Collide(id, kind, id', kind') ==>
      kind == kind' && AsInt(id) == AsInt(id')
  }

  /**
   The key of a message tells its type and its id from others exactly if the id
   is absent, when nothing is ever dropped, or it is a number in the room. An id
   outside the room shares its key with another type's; a text that is no number
   leaves the type out of the key, so that it is shared by all types.
   */
  lemma ToldApartExactly(id: MessageId)
    ensures ToldApart(id) <==> id.NoId? || Fits(id)
  {
    hide ParseInt;
    if AsInt(id).Some? && !Fits(id) {
      OutsideRoomCollides(AsInt(id).value, 0);
      var m, other :| InRoom(m) && other != 0 && DedupKey(Number(AsInt(id).value), 0) == DedupKey(Number(m), other);
      assert Fits(Number(m)) && Collide(id, 0, Number(m), other);
    } else if id.Text? && AsInt(id).None? {
      assert Collide(id, 0, id, 1);
    }
  }

  // ----- The deduplicator -----

  class InMemoryDeduplicator {
    var processed: map<string, ProcessedRanges>
    var strings: map<string, set<string>>
    ghost var marked: set<(string, Key)>
    ghost var repr: set<ProcessedRanges>

    ghost predicate Valid()
      reads this, repr
    {
      && (forall c :: c in processed ==> processed[c] in repr && processed[c].Valid())
      && (forall c, d :: c in processed && d in processed && c != d ==> processed[c] != processed[d])
      && (forall c, n :: (c, Num(n)) in marked <==> c in processed && Member(processed[c].ranges, n))
      && (forall c, s :: (c, Str(s)) in marked <==> c in strings && s in strings[c])
    }

    constructor ()
      ensures Valid() && marked == {} && repr == {}
    {
      processed, strings, marked, repr := map[], map[], {}, {};
    }

    /** A message with no key is always processed; any other exactly if its key was not marked. */
    method ShouldProcess(client: string, id: MessageId) returns (should: bool)
      requires Valid()
      ensures should <==> KeyOf(id) == None || (client, KeyOf(id).value) !in marked
    {
      match KeyOf(id)
      case None =>
        should := true;
      case Some(Str(s)) =>
        should := !(client in strings && s in strings[client]);
      case Some(Num(n)) =>
        if client !in processed {
          return true;
        }
        var found := processed[client].Contains(n);
        should := !found;
    }

    method MarkProcessed(client: string, id: MessageId)
      requires Valid()
      modifies this, repr
      ensures Valid() && fresh(repr - old(repr))
      ensures marked == old(marked) + if KeyOf(id) == None then {} else {(client, KeyOf(id).value)}
    {
      match KeyOf(id)
      case None =>
      case Some(Str(s)) =>
        strings := strings[client := (if client in strings then strings[client] else {}) + {s}];
        marked := marked + {(client, Str(s))};
      case Some(Num(n)) =>
        MarkNumber(client, n);
    }

    /** The ranges of a client, created on first use. */
    method SetDefault(client: string) returns (ranges: ProcessedRanges)
      requires Valid()
      modifies this
      ensures Valid() && fresh(repr - old(repr)) && marked == old(marked)
      ensures client in processed && processed[client] == ranges && ranges in repr
    {
      if client !in processed {
        var created := new ProcessedRanges();
        processed := processed[client := created];
        repr := repr + {created};
      }
      ranges := processed[client];
    }

    method MarkNumber(client: string, n: int)
      requires Valid()
      modifies this, repr
      ensures Valid() && fresh(repr - old(repr))
      ensures marked == old(marked) + {(client, Num(n))}
    {
      var ranges := SetDefault(client);
      ghost var before := ranges.ranges;
      label adding:
      ranges.Add(n);
      marked := marked + {(client, Num(n))};
      assert forall c :: c in processed && c != client ==> processed[c].ranges == old@adding(processed[c].ranges);
      forall k
        ensures (client, Num(k)) in marked <==> Member(ranges.ranges, k)
      {
        assert (client, Num(k)) in old@adding(marked) <==> Member(before, k);
        assert Member(ranges.ranges, k) <==> Member(before, k) || In(Range(n, n), k);
      }
    }

    /** Everything about one client is forgotten, and nothing else. */
    method RemoveClient(client: string)
      requires Valid()
      modifies this
      ensures Valid() && repr == old(repr)
      ensures marked == set k | k in old(marked) && k.0 != client
    {
      processed := processed - {client};
      strings := strings - {client};
      marked := set k | k in marked && k.0 != client;
    }
  }
}
