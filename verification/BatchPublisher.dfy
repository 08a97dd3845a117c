/**
 The publisher thread: it takes messages from a queue, groups them per
 destination, and publishes a group when it is full, when its first message has
 waited long enough, or when the publisher is closed.
 */
module BatchPublisher {
  import opened Options

  type Body = seq<bv8>

  /** One turn of the loop, with the clock readings taken in it. */
  datatype Event =
    | Item(destination: string, body: Body, appended: real, checked: real)
    | Timeout(checked: real)

  type Batches = seq<(string, seq<Body>)>

  /** The messages buffered for a destination, and since when the first of them waits. */
  datatype Group = Group(messages: seq<Body>, since: real)

  type Groups = map<string, Group>

  // ----- What was published, and what was dequeued -----

  /** What was published to a destination, in order. */
  function PublishedTo(batches: Batches, destination: string): seq<Body> {
    if batches == [] then []
    else
      var last := batches[|batches| - 1];
      PublishedTo(batches[..|batches| - 1], destination) + if last.0 == destination then last.1 else []
  }

  lemma PublishedMore(batches: Batches, destination: string, messages: seq<Body>)
    ensures forall d :: PublishedTo(batches + [(destination, messages)], d) ==
              PublishedTo(batches, d) + if d == destination then messages else []
  {
    var longer := batches + [(destination, messages)];
    assert longer[..|longer| - 1] == batches;
  }

  /** What was dequeued for a destination, in order. */
  function DequeuedFor(events: seq<Event>, destination: string): seq<Body> {
    if events == [] then []
    else
      var last := events[|events| - 1];
      DequeuedFor(events[..|events| - 1], destination)
      + if last.Item? && last.destination == destination then [last.body] else []
  }

  lemma DequeuedMore(events: seq<Event>, event: Event)
    ensures forall d :: DequeuedFor(events + [event], d) ==
              DequeuedFor(events, d) + if event.Item? && event.destination == d then [event.body] else []
  {
    var longer := events + [event];
    assert longer[..|longer| - 1] == events;
  }

  function MessagesOf(groups: Groups, destination: string): seq<Body> {
    if destination in groups then groups[destination].messages else []
  }

  // ----- What a turn does to the groups -----

  /** The group of the destination with one more message; a new group waits from now on. */
  function Joined(groups: Groups, destination: string, body: Body, now: real): Groups {
    groups[destination := if destination in groups
                          then groups[destination].(messages := groups[destination].messages + [body])
                          else Group([body], now)]
  }

  /** The groups once the event's own message is among them. */
  function Grown(groups: Groups, event: Event): Groups {
    if event.Item? then Joined(groups, event.destination, event.body, event.appended) else groups
  }

  function Expired(groups: Groups, now: real, maxSeconds: real): set<string> {
    set d | d in groups && now - groups[d].since >= maxSeconds
  }

  function Full(groups: Groups, event: Event, maxMessages: int): set<string> {
    set d | d in groups && event.Item? && event.destination == d && |groups[d].messages| >= maxMessages
  }

  /** The group that the event's own message makes full, and those found to have waited long enough. */
  function Due(groups: Groups, event: Event, maxMessages: int, maxSeconds: real): set<string> {
    Full(groups, event, maxMessages) + Expired(groups, event.checked, maxSeconds)
  }

  /** Some of the due groups have been published whole; all others are as they were. */
  ghost predicate Flushed(before: Groups, was: Batches, due: set<string>, after: Groups, published: Batches) {
    && (forall d :: d in after ==> d in before && after[d] == before[d])
    && (forall d :: d in before && d !in after ==> d in due)
    && |was| <= |published| && published[..|was|] == was
    && (forall k :: |was| <= k < |published| ==>
          published[k].0 in due && published[k].0 in before && published[k].1 == before[published[k].0].messages)
  }

  lemma FlushedNone(groups: Groups, was: Batches, due: set<string>)
    ensures Flushed(groups, was, due, groups, was)
  {
  }

  lemma FlushedOne(before: Groups, was: Batches, d: string, published: Batches)
    requires published == was + if d in before then [(d, before[d].messages)] else []
    ensures Flushed(before, was, {d}, before - {d}, published)
  {
  }

  lemma FlushedWider(before: Groups, was: Batches, due: set<string>, after: Groups, published: Batches, wider: set<string>)
    requires Flushed(before, was, due, after, published) && due <= wider
    ensures Flushed(before, was, wider, after, published)
  {
  }

  lemma FlushedMore(before: Groups, was: Batches, due: set<string>, mid: Groups, then': Batches, more: set<string>,
                    after: Groups, published: Batches)
    requires Flushed(before, was, due, mid, then') && Flushed(mid, then', more, after, published) && more <= due
    ensures Flushed(before, was, due, after, published)
  {
    forall k | |was| <= k < |published|
      ensures published[k].0 in due && published[k].0 in before && published[k].1 == before[published[k].0].messages
    {
      if k < |then'| {
        assert published[k] == then'[k];
      }
    }
    assert published[..|was|] == published[..|then'|][..|was|];
  }

  /** Full groups first, expired ones of what is left: together those that are due. */
  lemma ExpiredAreDue(grown: Groups, event: Event, maxMessages: int, maxSeconds: real, mid: Groups)
    requires mid == grown - Full(grown, event, maxMessages)
    ensures var due := Due(grown, event, maxMessages, maxSeconds);
            && Expired(mid, event.checked, maxSeconds) <= due
            && mid - Expired(mid, event.checked, maxSeconds) == grown - due
  {
  }

  ghost predicate Below(groups: Groups, limit: int) {
    forall d :: d in groups ==> 1 <= |groups[d].messages| < limit
  }

  /** A group that is not due has room for another message. */
  lemma RoomLeft(groups: Groups, event: Event, maxMessages: int, maxSeconds: real, limit: int)
    requires Below(groups, limit) && limit == if maxMessages < 1 then 1 else maxMessages
    ensures var grown := Grown(groups, event); Below(grown - Due(grown, event, maxMessages, maxSeconds), limit)
  {
  }

  // ----- The publisher's two dictionaries -----

  function BufferOf(buffers: map<string, seq<Body>>, destination: string): seq<Body> {
    if destination in buffers then buffers[destination] else []
  }

  /** A first-message time is kept exactly for the buffers that are not empty. */
  ghost predicate Tracked(buffers: map<string, seq<Body>>, firstTimes: map<string, real>) {
    forall d :: d in firstTimes <==> BufferOf(buffers, d) != []
  }

  ghost function GroupsOf(buffers: map<string, seq<Body>>, firstTimes: map<string, real>): Groups {
    map d | d in firstTimes :: Group(BufferOf(buffers, d), firstTimes[d])
  }

  ghost predicate Within(groups: Groups, limit: int) {
    forall d :: d in groups ==> 1 <= |groups[d].messages| <= limit
  }

  /** One more message in a buffer, whose time is set if it was empty. */
  lemma AppendJoins(buffers: map<string, seq<Body>>, firstTimes: map<string, real>, d: string, body: Body, now: real,
                    times: map<string, real>, after: map<string, seq<Body>>)
    requires Tracked(buffers, firstTimes) && after == buffers[d := BufferOf(buffers, d) + [body]]
    requires times == if BufferOf(buffers, d) == [] then firstTimes[d := now] else firstTimes
    ensures Tracked(after, times) && GroupsOf(after, times) == Joined(GroupsOf(buffers, firstTimes), d, body, now)
  {
    assert BufferOf(after, d) == BufferOf(buffers, d) + [body];
    assert forall k :: k != d ==> BufferOf(after, k) == BufferOf(buffers, k);
    var new', joined := GroupsOf(after, times), Joined(GroupsOf(buffers, firstTimes), d, body, now);
    assert new'.Keys == joined.Keys;
    forall k | k in new'
      ensures new'[k] == joined[k]
    {
      GroupJoined(buffers, firstTimes, d, body, now, k);
    }
  }

  lemma GroupJoined(buffers: map<string, seq<Body>>, firstTimes: map<string, real>, d: string, body: Body, now: real,
                    k: string)
    requires Tracked(buffers, firstTimes) && (k in firstTimes || k == d)
    ensures var group := Joined(GroupsOf(buffers, firstTimes), d, body, now)[k];
            && group.messages == BufferOf(buffers, k) + (if k == d then [body] else [])
            && group.since == if k in firstTimes then firstTimes[k] else now
  {
  }

  lemma JoinedWithin(groups: Groups, d: string, body: Body, now: real, limit: int)
    requires Below(groups, limit) && limit >= 1
    ensures Within(Joined(groups, d, body, now), limit)
  {
  }

  lemma FlushDrops(buffers: map<string, seq<Body>>, firstTimes: map<string, real>, d: string)
    requires Tracked(buffers, firstTimes)
    ensures Tracked(buffers[d := []], firstTimes - {d})
    ensures GroupsOf(buffers[d := []], firstTimes - {d}) == GroupsOf(buffers, firstTimes) - {d}
  {
  }

  class Publisher {
    const maxMessages: int
    const maxSeconds: real
    const capacity: Option<nat>   // batches the broker takes before publishing raises, if it ever does
    var buffers: map<string, seq<Body>>
    var firstTimes: map<string, real>
    var published: Batches

    function Buffer(destination: string): seq<Body>
      reads this
    {
      BufferOf(buffers, destination)
    }

    /** A limit below one still lets one message into a batch. */
    function Limit(): int {
      if maxMessages < 1 then 1 else maxMessages
    }

    ghost predicate Valid()
      reads this
    {
      && Tracked(buffers, firstTimes)
      && (forall b :: b in published ==> 1 <= |b.1| <= Limit())
      && Within(View(), Limit())
      && (capacity.Some? ==> |published| <= capacity.value)
    }

    /** The next publishing raises. */
    predicate BrokerFails()
      reads this
    {
      capacity.Some? && capacity.value == |published|
    }

    /** The groups that wait. */
    ghost function View(): Groups
      reads this
    {
      GroupsOf(buffers, firstTimes)
    }

    /** No group is full. */
    ghost predicate Roomy()
      reads this
    {
      Below(View(), Limit())
    }

    /** Every message of a destination that was dequeued, in order: published ones, then buffered ones. */
    ghost function Account(destination: string): seq<Body>
      reads this
    {
      PublishedTo(published, destination) + MessagesOf(View(), destination)
    }

    constructor (maxMessages: int, maxSeconds: real, capacity: Option<nat>)
      ensures Valid() && published == [] && View() == map[]
      ensures this.maxMessages == maxMessages && this.maxSeconds == maxSeconds && this.capacity == capacity
    {
      this.maxMessages, this.maxSeconds, this.capacity := maxMessages, maxSeconds, capacity;
      buffers, firstTimes, published := map[], map[], [];
    }

    method Append(destination: string, body: Body, now: real)
      requires Valid() && Roomy()
      modifies `buffers, `firstTimes
      ensures Valid() && View() == Joined(old(View()), destination, body, now)
    {
      hide Tracked, Within, GroupsOf, Joined, Below;
      JoinedWithin(View(), destination, body, now, Limit());
      AppendJoins(buffers, firstTimes, destination, body, now,
                  if Buffer(destination) == [] then firstTimes[destination := now] else firstTimes,
                  buffers[destination := Buffer(destination) + [body]]);
      if Buffer(destination) == [] {
        firstTimes := firstTimes[destination := now];
      }
      buffers := buffers[destination := Buffer(destination) + [body]];
    }

    /** Publishes the group of a destination, if there is one; if that raises nothing has changed. */
    method FlushDestination(destination: string) returns (ok: bool)
      requires Valid()
      modifies `buffers, `firstTimes, `published
      ensures Valid()
      ensures ok <==> destination !in old(View()) || !old(BrokerFails())
      ensures !ok ==> View() == old(View()) && published == old(published)
      ensures ok ==> View() == old(View()) - {destination}
      ensures ok ==> published == old(published) + if destination !in old(View()) then []
                                                   else [(destination, old(View())[destination].messages)]
      ensures forall d :: Account(d) == old(Account(d))
    {
      hide PublishedTo;
      var messages := Buffer(destination);
      if messages == [] {
        assert View() == View() - {destination};
        return true;
      }
      if BrokerFails() {
        return false;
      }
      assert destination in View();
      FlushDrops(buffers, firstTimes, destination);
      PublishedMore(published, destination, messages);
      published := published + [(destination, messages)];
      buffers := buffers[destination := []];
      firstTimes := firstTimes - {destination};
      assert View() == old(View()) - {destination};
      ok := true;
    }

    /** Publishes exactly the groups that waited long enough, or some of them if that raises. */
    method FlushExpired(now: real) returns (ok: bool)
      requires Valid()
      modifies `buffers, `firstTimes, `published
      ensures Valid()
      ensures forall d :: Account(d) == old(Account(d))
      ensures Flushed(old(View()), old(published), Expired(old(View()), now, maxSeconds), View(), published)
      ensures if ok then View() == old(View()) - Expired(old(View()), now, maxSeconds) else BrokerFails()
    {
      hide PublishedTo, Flushed;
      var expired := set d | d in firstTimes && now - firstTimes[d] >= maxSeconds;
      assert expired == Expired(View(), now, maxSeconds);
      ok := FlushEach(expired);
    }

    /** The loop over destinations, up to the first that raises. */
    method FlushEach(due: set<string>) returns (ok: bool)
      requires Valid()
      modifies `buffers, `firstTimes, `published
      ensures Valid()
      ensures forall d :: Account(d) == old(Account(d))
      ensures Flushed(old(View()), old(published), due, View(), published)
      ensures if ok then View() == old(View()) - due else BrokerFails()
    {
      hide PublishedTo, Flushed, Valid, View;
      FlushedNone(View(), published, due);
      var rest := due;
      while rest != {}
        invariant Valid() && rest <= due
        invariant forall d :: Account(d) == old(Account(d))
        invariant View() == old(View()) - (due - rest)
        invariant Flushed(old(View()), old(published), due, View(), published)
        decreases |rest|
      {
        var d :| d in rest;
        ghost var groups, was := View(), published;
        ok := FlushDestination(d);
        if !ok {
          return;
        }
        FlushedOne(groups, was, d, published);
        FlushedMore(old(View()), old(published), due, groups, was, {d}, View(), published);
        rest := rest - {d};
      }
      ok := true;
    }

    method FlushAll() returns (ok: bool)
      requires Valid()
      modifies `buffers, `firstTimes, `published
      ensures Valid()
      ensures forall d :: Account(d) == old(Account(d))
      ensures |old(published)| <= |published| && published[..|old(published)|] == old(published)
      ensures if ok then View() == map[] else BrokerFails()
    {
      hide PublishedTo;
      assert View().Keys <= buffers.Keys;
      ok := FlushEach(buffers.Keys);
    }

    /**
     One turn: nothing is lost, doubled or reordered. A group is held back, with
     the event's message if that is its own, until a turn finds it full or
     overdue; that turn publishes it, unless publishing raises.
     */
    method Turn(event: Event) returns (ok: bool)
      requires Valid() && Roomy()
      modifies `buffers, `firstTimes, `published
      ensures Valid()
      ensures forall d :: Account(d) == old(Account(d)) + if event.Item? && event.destination == d then [event.body] else []
      ensures var grown := Grown(old(View()), event);
              var due := Due(grown, event, maxMessages, maxSeconds);
              && Flushed(grown, old(published), due, View(), published)
              && if ok then View() == grown - due && Roomy() else BrokerFails()
      ensures ok ==> forall d :: d in View() ==> event.checked - View()[d].since < maxSeconds
      ensures ok ==> forall d :: d in View() && event.Item? && event.destination == d ==> |View()[d].messages| < maxMessages
    {
      hide PublishedTo, Flushed, Valid, View;
      ghost var grown, was := Grown(View(), event), published;
      ghost var due := Due(grown, event, maxMessages, maxSeconds);
      ok := true;
      if event.Item? {
        ok := Accept(event, due);
      } else {
        FlushedNone(grown, was, due);
      }
      if ok {
        ghost var mid, then' := View(), published;
        ok := FlushExpired(event.checked);
        ExpiredAreDue(grown, event, maxMessages, maxSeconds, mid);
        FlushedMore(grown, was, due, mid, then', Expired(mid, event.checked, maxSeconds), View(), published);
        RoomLeft(old(View()), event, maxMessages, maxSeconds, Limit());
      }
    }

    /** The message joins its group, which is published if that made it full. */
    method Accept(event: Event, ghost due: set<string>) returns (ok: bool)
      requires Valid() && Roomy() && event.Item? && due == Due(Grown(View(), event), event, maxMessages, maxSeconds)
      modifies `buffers, `firstTimes, `published
      ensures Valid()
      ensures forall d :: Account(d) == old(Account(d)) + if event.destination == d then [event.body] else []
      ensures var grown := Grown(old(View()), event);
              && Flushed(grown, old(published), due, View(), published)
              && if !ok then BrokerFails()
                 else View() == grown - Full(grown, event, maxMessages)
    {
      hide PublishedTo, Flushed;
      Append(event.destination, event.body, event.appended);
      ghost var grown := View();
      assert forall d :: Account(d) == old(Account(d)) + if event.destination == d then [event.body] else [];
      assert event.destination in grown;
      FlushedNone(grown, published, due);
      ok := true;
      if |Buffer(event.destination)| >= maxMessages {
        ok := FlushDestination(event.destination);
        if ok {
          FlushedOne(grown, old(published), event.destination, published);
          FlushedWider(grown, old(published), {event.destination}, View(), published, due);
          assert Full(grown, event, maxMessages) == {event.destination};
        }
      } else {
        assert Full(grown, event, maxMessages) == {};
        assert View() == grown - {};
      }
    }

    /** The batch was full, or its first message had waited long enough when a turn published it. */
    ghost predicate Earned(events: seq<Event>, batch: (string, seq<Body>)) {
      |batch.1| == Limit() || Overdue(events, batch, maxSeconds)
    }

    /**
     The whole life of the publisher: the turns until the closing sentinel, then
     a last flush; a publishing that raises ends it. Whatever was dequeued for a
     destination has been published to it or is still buffered, in order; all of
     it is published, in batches of admissible size, unless the broker failed;
     and every batch but those of the last flush was full or overdue.
     */
    method Run(events: seq<Event>) returns (ok: bool, taken: nat, ghost held: nat)
      requires Valid() && published == [] && View() == map[]
      modifies `buffers, `firstTimes, `published
      ensures taken <= |events| && forall d :: Account(d) == DequeuedFor(events[..taken], d)
      ensures ok ==> taken == |events| && forall d :: PublishedTo(published, d) == DequeuedFor(events, d)
      ensures !ok ==> BrokerFails()
      ensures forall b :: b in published ==> 1 <= |b.1| <= Limit()
      ensures held <= |published| && (taken < |events| ==> held == |published|)
      ensures forall k :: 0 <= k < held ==> Earned(events[..taken], published[k])
    {
      hide PublishedTo, Earned, View, DequeuedFor, Timed, Tracked, Within, MessagesOf;
      taken, held := 0, 0;
      NothingYet(published, events[..0], View());
      while taken < |events|
        invariant taken <= |events| && Valid() && Roomy() && held == |published|
        invariant forall d :: Account(d) == DequeuedFor(events[..taken], d)
        invariant Timed(events[..taken], View())
        invariant forall k :: 0 <= k < held ==> Earned(events[..taken], published[k])
      {
        DequeuedMore(events[..taken], events[taken]);
        assert events[..taken + 1] == events[..taken] + [events[taken]];
        taken := taken + 1;
        ok := TimedTurn(events[..taken - 1], events[taken - 1]);
        held := |published|;
        if !ok {
          return;
        }
      }
      assert events[..taken] == events;
      ghost var batches := published;
      ok := FlushAll();
      assert forall k :: 0 <= k < held ==> published[k] == batches[k];
      NothingLeft(View());
      assert ok ==> forall d :: Account(d) == PublishedTo(published, d) + [];
    }

    /** A turn after the given ones: what it publishes was full or overdue. */
    method TimedTurn(ghost events: seq<Event>, event: Event) returns (ok: bool)
      requires Valid() && Roomy() && Timed(events, View())
      requires forall k :: 0 <= k < |published| ==> Earned(events, published[k])
      modifies `buffers, `firstTimes, `published
      ensures Valid() && (if ok then Roomy() && Timed(events + [event], View()) else BrokerFails())
      ensures forall d :: Account(d) == old(Account(d)) + if event.Item? && event.destination == d then [event.body] else []
      ensures forall k :: 0 <= k < |published| ==> Earned(events + [event], published[k])
    {
      hide PublishedTo, Overdue, Opened, Valid, View;
      ghost var grown, before := Grown(View(), event), published;
      FullIsLimit(View(), event, Limit());
      GrownTimed(events, View(), event);
      ok := Turn(event);
      forall k | 0 <= k < |published|
        ensures Earned(events + [event], published[k])
      {
        if k < |before| {
          assert published[k] == before[k];
          StillOverdue(events, event, before[k], maxSeconds);
        } else {
          JustOverdue(events, event, grown, published[k], maxSeconds);
        }
      }
    }
  }

  // ----- Why a batch was published -----

  /** The message was dequeued for the destination and buffered at the given time. */
  ghost predicate Opened(events: seq<Event>, destination: string, body: Body, time: real) {
    exists e :: e in events && e.Item? && e.destination == destination && e.body == body && e.appended == time
  }

  /** Each group waits since its first message was buffered. */
  ghost predicate Timed(events: seq<Event>, groups: Groups) {
    forall d :: d in groups ==>
      groups[d].messages != [] && Opened(events, d, groups[d].messages[0], groups[d].since)
  }

  lemma NothingYet(batches: Batches, events: seq<Event>, groups: Groups)
    requires batches == [] && events == [] && groups == map[]
    ensures Timed(events, groups)
    ensures forall d :: PublishedTo(batches, d) == DequeuedFor(events, d) == MessagesOf(groups, d) == []
  {
  }

  lemma NothingLeft(groups: Groups)
    ensures groups == map[] ==> forall d :: MessagesOf(groups, d) == []
  {
  }

  /** By one of the events the first message of the batch had waited long enough. */
  ghost predicate Overdue(events: seq<Event>, batch: (string, seq<Body>), maxSeconds: real) {
    batch.1 != [] && exists e, time :: e in events && Opened(events, batch.0, batch.1[0], time) && e.checked - time >= maxSeconds
  }

  lemma OpenedStill(events: seq<Event>, event: Event, destination: string, body: Body, time: real)
    requires Opened(events, destination, body, time)
    ensures Opened(events + [event], destination, body, time)
  {
    var e :| e in events && e.Item? && e.destination == destination && e.body == body && e.appended == time;
    assert e in events + [event];
  }

  lemma GrownTimed(events: seq<Event>, groups: Groups, event: Event)
    requires Timed(events, groups)
    ensures Timed(events + [event], Grown(groups, event))
  {
    var grown := Grown(groups, event);
    assert event in events + [event];
    forall d | d in grown
      ensures grown[d].messages != [] && Opened(events + [event], d, grown[d].messages[0], grown[d].since)
    {
      if d in groups {
        OpenedStill(events, event, d, groups[d].messages[0], groups[d].since);
      }
    }
  }

  lemma StillOverdue(events: seq<Event>, event: Event, batch: (string, seq<Body>), maxSeconds: real)
    ensures Overdue(events, batch, maxSeconds) ==> Overdue(events + [event], batch, maxSeconds)
  {
    if Overdue(events, batch, maxSeconds) {
      var e, time :| e in events && Opened(events, batch.0, batch.1[0], time) && e.checked - time >= maxSeconds;
      OpenedStill(events, event, batch.0, batch.1[0], time);
      assert e in events + [event];
    }
  }

  lemma JustOverdue(events: seq<Event>, event: Event, grown: Groups, batch: (string, seq<Body>), maxSeconds: real)
    requires Timed(events + [event], grown) && batch.0 in grown && batch.1 == grown[batch.0].messages
    ensures batch.0 in Expired(grown, event.checked, maxSeconds) ==> Overdue(events + [event], batch, maxSeconds)
  {
    hide Opened;
    assert event in events + [event];
  }

  /** A group that one more message made full has exactly as many as a batch may have. */
  lemma FullIsLimit(groups: Groups, event: Event, limit: int)
    requires Below(groups, limit)
    ensures var grown := Grown(groups, event);
            forall d, most: int :: limit == (if most < 1 then 1 else most) && d in Full(grown, event, most) ==>
              |grown[d].messages| == limit
  {
  }
}
