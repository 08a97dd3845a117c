/**
 The interval set that remembers processed message ids: a sorted list of ranges
 with a gap between any two, two fast paths for ids near the end and a general
 merge.
 */
module Ranges {

  datatype Range = Range(start: int, end: int)

  datatype Result = Ok | ValueError

  predicate In(r: Range, x: int) {
    r.start <= x <= r.end
  }

  ghost predicate Member(rs: seq<Range>, x: int) {
    exists i :: 0 <= i < |rs| && In(rs[i], x)
  }

  /** No range is empty, and between two ranges at least one id is missing. */
  ghost predicate Canonical(rs: seq<Range>) {
    && (forall i :: 0 <= i < |rs| ==> rs[i].start <= rs[i].end)
    && (forall i, j :: 0 <= i < j < |rs| ==> rs[i].end + 1 < rs[j].start)
  }

  /** The ids of r are those of rs and of the added range. */
  ghost predicate Adds(r: seq<Range>, rs: seq<Range>, added: Range) {
    forall x :: Member(r, x) <==> Member(rs, x) || In(added, x)
  }

  // ----- A set has one canonical list -----

  lemma MemberCons(rs: seq<Range>, x: int)
    requires rs != []
    ensures Member(rs, x) <==> In(rs[0], x) || Member(rs[1..], x)
  {
  }

  lemma MemberSnoc(rs: seq<Range>, r: Range, x: int)
    ensures Member(rs + [r], x) <==> Member(rs, x) || In(r, x)
  {
    if Member(rs, x) {
      var i :| 0 <= i < |rs| && In(rs[i], x);
      assert In((rs + [r])[i], x);
    }
    if In(r, x) {
      assert In((rs + [r])[|rs|], x);
    }
  }

  /** The first range starts at the least id and ends before the first missing one. */
  lemma FirstRange(rs: seq<Range>)
    requires Canonical(rs) && rs != []
    ensures Member(rs, rs[0].start) && !Member(rs, rs[0].end + 1)
    ensures forall x :: Member(rs, x) ==> rs[0].start <= x
    ensures forall x :: In(rs[0], x) ==> Member(rs, x)
  {
  }

  /** Two canonical lists of the same ids are the same list. */
  lemma {:induction false} SameIdsSameList(a: seq<Range>, b: seq<Range>)
    requires Canonical(a) && Canonical(b)
    requires forall x :: Member(a, x) <==> Member(b, x)
    ensures a == b
    decreases |a|
  {
    if a == [] {
      if b != [] {
        FirstRange(b);
      }
    } else {
      FirstRange(a);
      assert b != [];
      FirstRange(b);
      assert a[0].start == b[0].start;
      if a[0].end < b[0].end {
        assert In(b[0], a[0].end + 1);
      } else if b[0].end < a[0].end {
        assert In(a[0], b[0].end + 1);
      }
      forall x
        ensures Member(a[1..], x) <==> Member(b[1..], x)
      {
        MemberCons(a, x);
        MemberCons(b, x);
      }
      SameIdsSameList(a[1..], b[1..]);
    }
  }

  // ----- A sequence of additions -----

  /** What adding one range does to the list, as AddRange ensures it; an inverted range is refused. */
  ghost predicate Added(rs: seq<Range>, part: Range, r: seq<Range>) {
    Canonical(r) && if part.end < part.start then r == rs else Adds(r, rs, part)
  }

  /** The lists before and after each of the additions, from the empty list on. */
  ghost predicate AddedAll(parts: seq<Range>, lists: seq<seq<Range>>) {
    && |lists| == |parts| + 1 && lists[0] == []
    && forall i :: 0 <= i < |parts| ==> Added(lists[i], parts[i], lists[i + 1])
  }

  lemma {:induction false} AddedAllMembers(parts: seq<Range>, lists: seq<seq<Range>>, x: int)
    requires AddedAll(parts, lists)
    ensures Canonical(lists[|parts|]) && (Member(lists[|parts|], x) <==> Member(parts, x))
    decreases |parts|
  {
    if parts != [] {
      var k := |parts| - 1;
      AddedAllMembers(parts[..k], lists[..k + 1], x);
      assert Added(lists[k], parts[k], lists[k + 1]);
      assert parts == parts[..k] + [parts[k]];
      MemberSnoc(parts[..k], parts[k], x);
    }
  }

  /** Two sequences of additions of the same ranges, in any order and with any repetition, end in the same list. */
  lemma AddOrderIrrelevant(parts: seq<Range>, lists: seq<seq<Range>>, others: seq<Range>, lists': seq<seq<Range>>)
    requires AddedAll(parts, lists) && AddedAll(others, lists')
    requires forall r :: r in parts <==> r in others
    ensures lists[|parts|] == lists'[|others|]
  {
    AddedAllMembers(parts, lists, 0);
    AddedAllMembers(others, lists', 0);
    forall x
      ensures Member(lists[|parts|], x) <==> Member(lists'[|others|], x)
    {
      AddedAllMembers(parts, lists, x);
      AddedAllMembers(others, lists', x);
      SameParts(parts, others, x);
      SameParts(others, parts, x);
    }
    SameIdsSameList(lists[|parts|], lists'[|others|]);
  }

  lemma SameParts(parts: seq<Range>, others: seq<Range>, x: int)
    requires forall r :: r in parts ==> r in others
    ensures Member(parts, x) ==> Member(others, x)
  {
    if Member(parts, x) {
      var i :| 0 <= i < |parts| && In(parts[i], x);
      assert parts[i] in others;
      var j :| 0 <= j < |others| && others[j] == parts[i];
      assert In(others[j], x);
    }
  }

  // ----- The two fast paths -----

  function Max(a: int, b: int): int {
    if a < b then b else a
  }

  function Min(a: int, b: int): int {
    if a < b then a else b
  }

  lemma LastSplit(rs: seq<Range>)
    requires rs != []
    ensures forall x :: Member(rs, x) <==> Member(rs[..|rs| - 1], x) || In(rs[|rs| - 1], x)
  {
  }

  /** A range that starts inside or right after the last one extends it. */
  lemma ExtendLast(rs: seq<Range>, added: Range, r: seq<Range>)
    requires Canonical(rs) && rs != [] && added.start <= added.end
    requires var last := rs[|rs| - 1];
             && last.start <= added.start <= last.end + 1
             && r == rs[|rs| - 1 := Range(last.start, Max(last.end, added.end))]
    ensures Canonical(r) && Adds(r, rs, added)
  {
    LastSplit(rs);
    LastSplit(r);
    assert r[..|r| - 1] == rs[..|rs| - 1];
  }

  /** A range beyond the last one and not adjacent to it is appended. */
  lemma AppendLast(rs: seq<Range>, added: Range)
    requires Canonical(rs) && added.start <= added.end
    requires rs != [] ==> rs[|rs| - 1].end + 1 < added.start
    ensures Canonical(rs + [added]) && Adds(rs + [added], rs, added)
  {
    forall x
      ensures Member(rs + [added], x) <==> Member(rs, x) || In(added, x)
    {
      MemberSnoc(rs, added, x);
    }
  }

  // ----- The general merge -----

  /** Every range of rs ends at least two before x. */
  ghost predicate EndBefore(rs: seq<Range>, x: int) {
    forall i :: 0 <= i < |rs| ==> rs[i].end + 1 < x
  }

  /** The loop before the grown range is put down. */
  ghost predicate Growing(done: seq<Range>, added: Range, merged: seq<Range>, grown: Range) {
    && Canonical(merged) && EndBefore(merged, grown.start) && grown.start <= grown.end
    && (forall i :: 0 <= i < |merged| ==> merged[i] in done)
    && (forall x :: Member(merged, x) || In(grown, x) <==> Member(done, x) || In(added, x))
  }

  /** The loop afterwards. */
  ghost predicate PutDown(done: seq<Range>, added: Range, merged: seq<Range>, grown: Range) {
    && Canonical(merged) && Adds(merged, done, added) && grown.start <= grown.end
    && done != [] && merged != [] && merged[|merged| - 1] == done[|done| - 1]
    && grown.end + 1 < done[|done| - 1].start
  }

  lemma DoneSnoc(rs: seq<Range>, k: nat)
    requires k < |rs|
    ensures rs[..k + 1] == rs[..k] + [rs[k]]
    ensures forall x :: Member(rs[..k + 1], x) <==> Member(rs[..k], x) || In(rs[k], x)
  {
  }

  /** The current range lies before the grown one and is kept. */
  lemma KeepBefore(rs: seq<Range>, k: nat, added: Range, merged: seq<Range>, grown: Range)
    requires Canonical(rs) && k < |rs| && Growing(rs[..k], added, merged, grown)
    requires rs[k].end + 1 < grown.start
    ensures Growing(rs[..k + 1], added, merged + [rs[k]], grown)
  {
    DoneSnoc(rs, k);
    forall i | 0 <= i < |merged|
      ensures merged[i].end + 1 < rs[k].start
    {
      assert merged[i] in rs[..k];
    }
    AppendLast(merged, rs[k]);
  }

  /** The current range touches the grown one and is absorbed. */
  lemma Absorb(rs: seq<Range>, k: nat, added: Range, merged: seq<Range>, grown: Range)
    requires Canonical(rs) && k < |rs| && Growing(rs[..k], added, merged, grown)
    requires grown.start <= rs[k].end + 1 && rs[k].start <= grown.end + 1
    ensures Growing(rs[..k + 1], added, merged, Range(Min(grown.start, rs[k].start), Max(grown.end, rs[k].end)))
  {
  }

  /** The current range lies after the grown one, which is put down before it. */
  lemma PutBefore(rs: seq<Range>, k: nat, added: Range, merged: seq<Range>, grown: Range)
    requires Canonical(rs) && k < |rs| && Growing(rs[..k], added, merged, grown)
    requires grown.end + 1 < rs[k].start
    ensures PutDown(rs[..k + 1], added, merged + [grown] + [rs[k]], grown)
  {
    DoneSnoc(rs, k);
    AppendLast(merged, grown);
    AppendLast(merged + [grown], rs[k]);
  }

  /** Once it is put down all later ranges are kept. */
  lemma KeepAfter(rs: seq<Range>, k: nat, added: Range, merged: seq<Range>, grown: Range)
    requires Canonical(rs) && k < |rs| && PutDown(rs[..k], added, merged, grown)
    ensures grown.end + 1 < rs[k].start && PutDown(rs[..k + 1], added, merged + [rs[k]], grown)
  {
    DoneSnoc(rs, k);
    AppendLast(merged, rs[k]);
  }

  class ProcessedRanges {
    var ranges: seq<Range>

    ghost predicate Valid()
      reads this
    {
      Canonical(ranges)
    }

    constructor ()
      ensures Valid() && ranges == []
    {
      ranges := [];
    }

    /** Adds the given ranges in order; the first that is inverted is an error, which ends the loop. */
    method AddAll(parts: seq<Range>) returns (result: Result)
      requires Valid() && ranges == []
      modifies this
      ensures Valid() && (result == Ok <==> forall i :: 0 <= i < |parts| ==> parts[i].start <= parts[i].end)
      ensures result == Ok ==> exists lists :: AddedAll(parts, lists) && lists[|parts|] == ranges
    {
      ghost var lists := [ranges];
      result := Ok;
      for i := 0 to |parts|
        invariant AddedAll(parts[..i], lists) && lists[i] == ranges && Valid() && result == Ok
        invariant forall j :: 0 <= j < i ==> parts[j].start <= parts[j].end
      {
        result := AddRange(parts[i].start, parts[i].end);
        if result == ValueError {
          return;
        }
        lists := lists + [ranges];
      }
      assert parts[..|parts|] == parts;
    }

    /** Membership, whichever path is taken. */
    method Contains(id: int) returns (found: bool)
      requires Valid()
      ensures found <==> Member(ranges, id)
    {
      if ranges == [] {
        return false;
      }
      var last := ranges[|ranges| - 1];
      if last.start <= id <= last.end {
        assert In(ranges[|ranges| - 1], id);
        return true;
      }
      if last.end < id {
        return false;
      }
      for i := 0 to |ranges|
        invariant forall j :: 0 <= j < i ==> !In(ranges[j], id)
      {
        if id < ranges[i].start {
          return false;
        }
        if ranges[i].start <= id <= ranges[i].end {
          assert In(ranges[i], id);
          return true;
        }
      }
      found := false;
    }

    method Add(id: int)
      requires Valid()
      modifies this
      ensures Valid() && Adds(ranges, old(ranges), Range(id, id))
    {
      var _ := AddRange(id, id);
    }

    /** The ids of the range are added, and nothing else; an empty range is an error. */
    method AddRange(start: int, end: int) returns (result: Result)
      requires Valid()
      modifies this
      ensures Valid() && (result == ValueError <==> end < start)
      ensures Added(old(ranges), Range(start, end), ranges)
    {
      if start > end {
        return ValueError;
      }
      result := Ok;
      if ranges == [] {
        AppendLast([], Range(start, end));
        ranges := [Range(start, end)];
        assert [] + [Range(start, end)] == ranges;
        return;
      }
      var last := ranges[|ranges| - 1];
      if last.start <= start <= last.end + 1 {
        ranges := ranges[|ranges| - 1 := Range(last.start, Max(last.end, end))];
        ExtendLast(old(ranges), Range(start, end), ranges);
        return;
      }
      if start > last.end + 1 {
        AppendLast(ranges, Range(start, end));
        ranges := ranges + [Range(start, end)];
        return;
      }
      ranges := Merge(ranges, Range(start, end));
    }
  }

  method Merge(rs: seq<Range>, added: Range) returns (merged: seq<Range>)
    requires Canonical(rs) && added.start <= added.end
    ensures Canonical(merged) && Adds(merged, rs, added)
  {
    var grown := added;
    var inserted := false;
    merged := [];
    for k := 0 to |rs|
      invariant if inserted then PutDown(rs[..k], added, merged, grown) else Growing(rs[..k], added, merged, grown)
    {
      if rs[k].end + 1 < grown.start {
        if inserted {
          KeepAfter(rs, k, added, merged, grown);
        } else {
          KeepBefore(rs, k, added, merged, grown);
        }
        merged := merged + [rs[k]];
      } else if grown.end + 1 < rs[k].start {
        if !inserted {
          PutBefore(rs, k, added, merged, grown);
          merged := merged + [grown];
          inserted := true;
        } else {
          KeepAfter(rs, k, added, merged, grown);
        }
        merged := merged + [rs[k]];
      } else {
        if inserted {
          KeepAfter(rs, k, added, merged, grown);
        }
        Absorb(rs, k, added, merged, grown);
        grown := Range(Min(grown.start, rs[k].start), Max(grown.end, rs[k].end));
      }
    }
    assert rs[..|rs|] == rs;
    if !inserted {
      AppendLast(merged, grown);
      merged := merged + [grown];
    }
  }
}
