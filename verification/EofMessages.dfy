/**
 The control messages that carry counters have two slots, one per flux. How the
 awaited prefixes and a worker's counters are put into the slots, and when
 nothing is lost on the way.
 */
module EofMessages {
  import opened Options
  import opened EofWorker

  /** The slots of a request. */
  datatype Awaited = Awaited(flux1: Option<Prefix>, flux2: Option<Prefix>)

  /** The slots of a response: a prefix and its counter, twice. */
  datatype Slots = Slots(flux1: Option<Prefix>, count1: nat, flux2: Option<Prefix>, count2: nat)

  function Held<T>(slot: Option<T>): set<T> {
    match slot
    case None => {}
    case Some(value) => {value}
  }

  /** The prefixes a request asks for. */
  function AwaitedSet(m: Awaited): set<Prefix> {
    Held(m.flux1) + Held(m.flux2)
  }

  /** Removes some element of a set that is not empty, and nothing from an empty one. */
  method Pop<T(==)>(s: set<T>) returns (popped: Option<T>, rest: set<T>)
    ensures s == {} <==> popped == None
    ensures Held(popped) <= s && rest == s - Held(popped)
  {
    if s == {} {
      return None, s;
    }
    var x :| x in s;
    popped, rest := Some(x), s - {x};
  }

  /** The request names only received EOFs, and all of them exactly if there are at most two. */
  method FillRequest(eofs: set<Prefix>, auxiliary: bool) returns (m: Awaited)
    ensures AwaitedSet(m) <= eofs
    ensures AwaitedSet(m) == eofs <==> |eofs| <= 2
    ensures auxiliary && AVERAGES in eofs ==> m.flux2 == Some(AVERAGES)
  {
    var rest := eofs;
    var flux1, flux2;
    if auxiliary && AVERAGES in rest {
      flux2, rest := Some(AVERAGES), rest - {AVERAGES};
      flux1, rest := Pop(rest);
    } else {
      flux1, rest := Pop(rest);
      flux2, rest := Pop(rest);
    }
    m := Awaited(flux1, flux2);
    TwoSlots(eofs, flux1, flux2, rest);
  }

  /** What is left when two different elements were offered a slot. */
  lemma TwoSlots<T>(s: set<T>, a: Option<T>, b: Option<T>, rest: set<T>)
    requires Held(a) <= s && Held(b) <= s && rest == s - Held(a) - Held(b)
    requires a == None || b == None ==> rest == {}
    requires a != None && b != None ==> a != b
    ensures Held(a) + Held(b) == s <==> |s| <= 2
  {
    assert s == Held(a) + Held(b) + rest;
    assert |s| == |Held(a) + Held(b)| + |rest|;
    assert |Held(a) + Held(b)| <= 2;
  }

  // ----- Responses -----

  /** The items of a dictionary, in the order of its iteration. */
  type Items = seq<(Prefix, nat)>

  ghost predicate Distinct(items: Items) {
    forall i, j :: 0 <= i < j < |items| ==> items[i].0 != items[j].0
  }

  function AsCounts(items: Items): Counts {
    if items == [] then map[] else AsCounts(items[..|items| - 1])[items[|items| - 1].0 := items[|items| - 1].1]
  }

  function Others(items: Items): Items {
    if items == [] then []
    else
      var last := items[|items| - 1];
      Others(items[..|items| - 1]) + if last.0 == AVERAGES then [] else [last]
  }

  /** What the receiver of a response stores. */
  function Carried(m: Slots): Counts {
    var first: Counts := if m.flux1.Some? then map[m.flux1.value := m.count1] else map[];
    if m.flux2.Some? then first[m.flux2.value := m.count2] else first
  }

  /**
   Every counter travels exactly if there are at most two of them or, with
   auxiliary input, at most one besides the broadcast flux.
   */
  predicate Fits(items: Items, auxiliary: bool) {
    if auxiliary then |Others(items)| <= 1 else |items| <= 2
  }

  /** The counters that travel: the first and the last, or the last of each kind. */
  function Travelling(items: Items, auxiliary: bool): Counts {
    if auxiliary then
      var others := Others(items);
      var base: Counts := if others == [] then map[] else map[others[|others| - 1].0 := others[|others| - 1].1];
      var all := AsCounts(items);
      if AVERAGES in all then base[AVERAGES := all[AVERAGES]] else base
    else if |items| <= 1 then AsCounts(items)
    else map[items[0].0 := items[0].1][items[|items| - 1].0 := items[|items| - 1].1]
  }

  method FillResponse(items: Items, auxiliary: bool) returns (m: Slots)
    requires Distinct(items)
    ensures Carried(m) == Travelling(items, auxiliary)
    ensures Carried(m) == AsCounts(items) <==> Fits(items, auxiliary)
  {
    var count1, count2: Option<nat> := None, None;
    var flux1, flux2: Option<Prefix> := None, None;
    var k := 0;
    if auxiliary {
      while k < |items|
        invariant 0 <= k <= |items|
        invariant var others := Others(items[..k]);
                  if others == [] then flux1 == None && count1 == None
                  else flux1 == Some(others[|others| - 1].0) && count1 == Some(others[|others| - 1].1)
        invariant var all := AsCounts(items[..k]);
                  if AVERAGES in all then flux2 == Some(AVERAGES) && count2 == Some(all[AVERAGES])
                  else flux2 == None && count2 == None
      {
        assert items[..k + 1][..k] == items[..k];
        if items[k].0 == AVERAGES {
          flux2, count2 := Some(items[k].0), Some(items[k].1);
        } else {
          flux1, count1 := Some(items[k].0), Some(items[k].1);
        }
        k := k + 1;
      }
    } else {
      while k < |items|
        invariant 0 <= k <= |items|
        invariant if k == 0 then flux1 == None && count1 == None
                  else flux1 == Some(items[0].0) && count1 == Some(items[0].1)
        invariant if k <= 1 then flux2 == None && count2 == None
                  else flux2 == Some(items[k - 1].0) && count2 == Some(items[k - 1].1)
      {
        if count1 == None {
          flux1, count1 := Some(items[k].0), Some(items[k].1);
        } else {
          flux2, count2 := Some(items[k].0), Some(items[k].1);
        }
        k := k + 1;
      }
    }
    assert items[..k] == items;
    m := Slots(flux1, if count1.Some? then count1.value else 0, flux2, if count2.Some? then count2.value else 0);
    if !auxiliary && |items| == 1 {
      assert AsCounts(items[..0]) == map[];
    }
    TravelsExactlyIfFits(items, auxiliary);
  }

  /** A prefix is in the dictionary exactly if some item has it. */
  ghost predicate Occurs(items: Items, p: Prefix) {
    exists i :: 0 <= i < |items| && items[i].0 == p
  }

  lemma {:induction false} KeysOccur(items: Items, p: Prefix)
    ensures p in AsCounts(items) <==> Occurs(items, p)
    decreases |items|
  {
    if items != [] {
      var front, last := items[..|items| - 1], items[|items| - 1];
      KeysOccur(front, p);
      if Occurs(front, p) {
        var i :| 0 <= i < |front| && front[i].0 == p;
        assert items[i].0 == p;
      }
      if Occurs(items, p) && p != last.0 {
        var i :| 0 <= i < |items| && items[i].0 == p;
        assert front[i].0 == p;
      }
    }
  }

  lemma {:induction false} AsCountsKeys(items: Items)
    requires Distinct(items)
    ensures |AsCounts(items).Keys| == |items|
    ensures forall i :: 0 <= i < |items| ==> items[i].0 in AsCounts(items) && AsCounts(items)[items[i].0] == items[i].1
    decreases |items|
  {
    if items != [] {
      var front, last := items[..|items| - 1], items[|items| - 1];
      AsCountsKeys(front);
      KeysOccur(front, last.0);
      SetAdded(AsCounts(front).Keys, AsCounts(items).Keys, last.0);
    }
  }

  function PlainKeys(m: Counts): set<Prefix> {
    set p | p in m && p != AVERAGES
  }

  /** The items are entries of the dictionary, for prefixes other than AVERAGES. */
  ghost predicate PlainEntries(items: Items, all: Counts) {
    forall i :: 0 <= i < |items| ==> items[i].0 != AVERAGES && items[i].0 in all && all[items[i].0] == items[i].1
  }

  lemma {:induction false} OthersKeys(items: Items)
    requires Distinct(items)
    ensures |PlainKeys(AsCounts(items))| == |Others(items)|
    ensures PlainEntries(Others(items), AsCounts(items))
    decreases |items|
  {
    if items != [] {
      var front, last := items[..|items| - 1], items[|items| - 1];
      OthersKeys(front);
      KeysOccur(front, last.0);
      OneMore(Others(front), AsCounts(front), last);
    }
  }

  lemma OneMore(others: Items, all: Counts, last: (Prefix, nat))
    requires PlainEntries(others, all) && last.0 !in all && |PlainKeys(all)| == |others|
    ensures last.0 == AVERAGES ==>
              PlainEntries(others, all[last.0 := last.1]) && |PlainKeys(all[last.0 := last.1])| == |others|
    ensures last.0 != AVERAGES ==>
              PlainEntries(others + [last], all[last.0 := last.1]) && |PlainKeys(all[last.0 := last.1])| == |others| + 1
  {
    KeyAdded(all, last.0, last.1);
  }

  lemma SetAdded(a: set<Prefix>, b: set<Prefix>, p: Prefix)
    requires p !in a && b == a + {p}
    ensures |b| == |a| + 1
  {
  }

  lemma SameSize(a: set<Prefix>, b: set<Prefix>)
    requires forall p :: p in a <==> p in b
    ensures |a| == |b|
  {
    assert a == b;
  }

  lemma KeyAdded(m: Counts, p: Prefix, n: nat)
    requires p !in m
    ensures |PlainKeys(m[p := n])| == |PlainKeys(m)| + if p == AVERAGES then 0 else 1
  {
    var before, after := PlainKeys(m), PlainKeys(m[p := n]);
    if p == AVERAGES {
      SameSize(before, after);
    } else {
      SetAdded(before, after, p);
    }
  }

  /** Two slots hold at most two counters; the rule for choosing them keeps as many as fit. */
  lemma TravelsExactlyIfFits(items: Items, auxiliary: bool)
    requires Distinct(items)
    ensures Travelling(items, auxiliary) == AsCounts(items) <==> Fits(items, auxiliary)
  {
    AsCountsKeys(items);
    if auxiliary {
      OthersKeys(items);
      TravelsAuxiliary(items, Others(items), AsCounts(items));
    } else if |items| >= 2 {
      var sent := Travelling(items, false);
      assert sent.Keys == {items[0].0, items[|items| - 1].0};
      assert |sent.Keys| == 2;
      if |items| == 2 {
        KeysOccur(items, items[0].0);
        forall p | p in AsCounts(items)
          ensures p in sent
        {
          KeysOccur(items, p);
        }
      }
    }
  }

  lemma TravelsAuxiliary(items: Items, others: Items, all: Counts)
    requires others == Others(items) && all == AsCounts(items)
    requires |PlainKeys(all)| == |others| && PlainEntries(others, all)
    ensures Travelling(items, true) == all <==> |others| <= 1
  {
    var sent := Travelling(items, true);
    var plain := PlainKeys(all);
    if others == [] {
      assert plain == {};
      assert all.Keys <= {AVERAGES};
    } else {
      var last := others[|others| - 1];
      assert last.0 in plain;
      assert PlainKeys(sent) == {last.0};
      if |others| == 1 {
        assert |plain - {last.0}| == 0;
        assert plain == {last.0};
        assert all.Keys <= {last.0, AVERAGES};
      }
    }
  }
}
