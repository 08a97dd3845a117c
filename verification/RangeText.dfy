/** Ranges as text: single ids and start-end pairs, separated by semicolons. */
module RangeText {
  import opened Options
  import opened Decimal
  import opened Ranges

  // ----- Splitting and joining -----

  /** The pieces between separators; the empty text has one empty piece. */
  function Split(s: string, separator: char): (pieces: seq<string>)
    ensures pieces != []
  {
    if s == [] then [[]]
    else if s[0] == separator then [[]] + Split(s[1..], separator)
    else
      var rest := Split(s[1..], separator);
      [[s[0]] + rest[0]] + rest[1..]
  }

  function Join(pieces: seq<string>, separator: char): string {
    if pieces == [] then []
    else if |pieces| == 1 then pieces[0]
    else pieces[0] + [separator] + Join(pieces[1..], separator)
  }

  lemma {:induction false} SplitPrefix(prefix: string, s: string, separator: char)
    requires separator !in prefix
    ensures Split(prefix + s, separator)[0] == prefix + Split(s, separator)[0]
    ensures Split(prefix + s, separator)[1..] == Split(s, separator)[1..]
    decreases |prefix|
  {
    if prefix == [] {
      assert prefix + s == s;
    } else {
      assert (prefix + s)[1..] == prefix[1..] + s;
      SplitPrefix(prefix[1..], s, separator);
    }
  }

  lemma {:induction false} SplitJoin(pieces: seq<string>, separator: char)
    requires pieces != [] && forall i :: 0 <= i < |pieces| ==> separator !in pieces[i]
    ensures Split(Join(pieces, separator), separator) == pieces
    decreases |pieces|
  {
    if |pieces| == 1 {
      SplitPrefix(pieces[0], [], separator);
      assert pieces[0] + [] == pieces[0];
      assert Split(pieces[0], separator) == [pieces[0]];
    } else {
      var rest := [separator] + Join(pieces[1..], separator);
      assert Join(pieces, separator) == pieces[0] + rest;
      SplitPrefix(pieces[0], rest, separator);
      assert rest[1..] == Join(pieces[1..], separator);
      SplitJoin(pieces[1..], separator);
      assert Split(rest, separator)[1..] == pieces[1..];
      assert Split(pieces[0] + rest, separator)[0] == pieces[0];
    }
  }

  /** Every text is its pieces put together, and no piece holds a separator. */
  lemma {:induction false} JoinSplit(s: string, separator: char)
    ensures Join(Split(s, separator), separator) == s
    ensures forall i :: 0 <= i < |Split(s, separator)| ==> separator !in Split(s, separator)[i]
    decreases |s|
  {
    if s != [] {
      var rest := Split(s[1..], separator);
      JoinSplit(s[1..], separator);
      if s[0] == separator {
        assert Split(s, separator)[1..] == rest;
        assert Join(Split(s, separator), separator) == [] + [separator] + s[1..];
      } else {
        assert Split(s, separator)[1..] == rest[1..];
        assert Join(Split(s, separator), separator) == [s[0]] + s[1..];
      }
    }
  }

  // ----- One part -----

  function Text(r: Range): string {
    if r.start == r.end then IntText(r.start) else IntText(r.start) + "-" + IntText(r.end)
  }

  /** The text before and after the first occurrence of c. */
  function SplitOnce(s: string, c: char): (r: (string, string))
    requires c in s
    ensures c !in r.0 && s == r.0 + [c] + r.1
  {
    if s[0] == c then ([], s[1..])
    else
      var (before, after) := SplitOnce(s[1..], c);
      ([s[0]] + before, after)
  }

  /** A range, or None where an exception is raised: not integers, or the start beyond the end. */
  function ParsePart(part: string): Option<Range> {
    if '-' in part then
      var (before, after) := SplitOnce(part, '-');
      match (ParseInt(before), ParseInt(after))
      case (Some(start), Some(end)) => if start > end then None else Some(Range(start, end))
      case _ => None
    else
      match ParseInt(part)
      case Some(id) => Some(Range(id, id))
      case None => None
  }

  lemma {:induction false} SplitOnceAt(before: string, c: char, after: string)
    requires c !in before
    ensures SplitOnce(before + [c] + after, c) == (before, after)
    decreases |before|
  {
    var s := before + [c] + after;
    assert s[|before|] == c;
    if before == [] {
      assert s[1..] == after;
    } else {
      assert s[1..] == before[1..] + [c] + after;
      SplitOnceAt(before[1..], c, after);
      assert [before[0]] + before[1..] == before;
    }
  }

  lemma NoMinus(n: nat)
    ensures '-' !in IntText(n) && ';' !in IntText(n) && IntText(n) != []
  {
    DigitsRoundTrip(n);
  }

  /** The text of a range reads back as the range exactly if its start is not negative. */
  lemma PartRoundTrip(r: Range)
    requires r.start <= r.end
    ensures ParsePart(Text(r)) == if r.start >= 0 then Some(r) else None
  {
    if r.start >= 0 {
      NoMinus(r.start);
      IntRoundTrip(r.start);
      IntRoundTrip(r.end);
      if r.start != r.end {
        SplitOnceAt(IntText(r.start), '-', IntText(r.end));
      }
    } else {
      var after := Text(r)[1..];
      assert Text(r) == [] + ['-'] + after;
      SplitOnceAt([], '-', after);
    }
  }

  /** A part without a dash is one id; the first dash separates a start from an end that must not be smaller. */
  lemma PartMeans(before: string, after: string)
    requires '-' !in before
    ensures ParsePart(before) == match ParseInt(before) case Some(id) => Some(Range(id, id)) case None => None
    ensures var start, end := ParseInt(before), ParseInt(after);
            ParsePart(before + ['-'] + after) ==
              if start.Some? && end.Some? && start.value <= end.value then Some(Range(start.value, end.value)) else None
  {
    hide ParseInt;
    SplitOnceAt(before, '-', after);
  }

  lemma TextPlain(r: Range)
    ensures ';' !in Text(r) && Text(r) != []
  {
    IntPlain(r.start);
    IntPlain(r.end);
  }

  lemma IntPlain(n: int)
    ensures ';' !in IntText(n) && IntText(n) != []
  {
    DigitsRoundTrip(if n < 0 then -n else n);
  }

  // ----- Whole texts -----

  function Texts(rs: seq<Range>): (parts: seq<string>)
    ensures |parts| == |rs| && forall i :: 0 <= i < |rs| ==> parts[i] == Text(rs[i])
  {
    if rs == [] then [] else Texts(rs[..|rs| - 1]) + [Text(rs[|rs| - 1])]
  }

  /** The ranges of all parts that are not empty, unless one of them raises an exception. */
  function ParseParts(parts: seq<string>): Option<seq<Range>> {
    if parts == [] then Some([])
    else
      var front := ParseParts(parts[..|parts| - 1]);
      var part := parts[|parts| - 1];
      if part == [] then front
      else
        match (front, ParsePart(part))
        case (Some(rs), Some(r)) => Some(rs + [r])
        case _ => None
  }

  function Parse(value: Option<string>): Option<seq<Range>> {
    if value == None || value.value == [] then Some([]) else ParseParts(Split(value.value, ';'))
  }

  /** The part holds the id. */
  ghost predicate Holds(part: string, x: int) {
    part != [] && ParsePart(part).Some? && In(ParsePart(part).value, x)
  }

  ghost predicate Readable(parts: seq<string>) {
    forall i :: 0 <= i < |parts| ==> parts[i] == [] || ParsePart(parts[i]).Some?
  }

  lemma {:induction false} PartsMean(parts: seq<string>, x: int)
    ensures ParseParts(parts).Some? <==> Readable(parts)
    ensures Readable(parts) ==> (Member(ParseParts(parts).value, x) <==> exists i :: 0 <= i < |parts| && Holds(parts[i], x))
    decreases |parts|
  {
    hide ParsePart;
    if parts != [] {
      var front, last := parts[..|parts| - 1], parts[|parts| - 1];
      PartsMean(front, x);
      assert forall i :: 0 <= i < |front| ==> front[i] == parts[i];
      if Readable(parts) {
        assert Readable(front);
        if last != [] {
          MemberSnoc(ParseParts(front).value, ParsePart(last).value, x);
        }
        if i :| 0 <= i < |front| && Holds(front[i], x) {
          assert Holds(parts[i], x);
        }
        if i :| 0 <= i < |parts| && Holds(parts[i], x) {
          assert i < |front| ==> Holds(front[i], x);
        }
      }
    }
  }

  /**
   A text of pieces separated by semicolons is read exactly if every piece that
   is not empty is a part, and then stands for the ids of all its parts.
   */
  lemma TextMeans(pieces: seq<string>, x: int)
    requires pieces != [] && forall i :: 0 <= i < |pieces| ==> ';' !in pieces[i]
    ensures var r := Parse(Some(Join(pieces, ';')));
            && (r.Some? <==> Readable(pieces))
            && (r.Some? ==> (Member(r.value, x) <==> exists i :: 0 <= i < |pieces| && Holds(pieces[i], x)))
  {
    hide ParsePart, ParseParts, Split, Join;
    SplitJoin(pieces, ';');
    PartsMean(pieces, x);
    if Join(pieces, ';') == [] {
      NothingSplit();
      assert pieces == [[]];
    }
  }

  lemma NothingSplit()
    ensures Split([], ';') == [[]]
  {
  }

  /** How a list is written: single ids without a dash, semicolons only in between. */
  lemma WrittenAs()
    ensures Join(Texts([Range(1, 3), Range(7, 7), Range(9, 9)]), ';') == "1-3;7;9" && Join(Texts([]), ';') == ""
  {
    var rs := [Range(1, 3), Range(7, 7), Range(9, 9)];
    assert IntText(1) == "1" && IntText(3) == "3" && IntText(7) == "7" && IntText(9) == "9";
    var parts := Texts(rs);
    assert "1" + "-" + "3" == "1-3";
    assert parts[0] == "1-3" && parts[1] == "7" && parts[2] == "9";
    assert parts == ["1-3", "7", "9"];
    assert parts[1..] == ["7", "9"] && parts[1..][1..] == ["9"];
    assert ["7", "9"][1..] == ["9"] && Join(["7", "9"], ';') == "7" + ";" + "9" == "7;9";
    assert "1-3" + ";" + "7;9" == "1-3;7;9";
  }

  method ToString(ranges: ProcessedRanges) returns (text: string)
    ensures text == Join(Texts(ranges.ranges), ';')
  {
    var parts := [];
    for i := 0 to |ranges.ranges|
      invariant parts == Texts(ranges.ranges[..i])
    {
      var r := ranges.ranges[i];
      assert ranges.ranges[..i + 1][..i] == ranges.ranges[..i];
      if r.start == r.end {
        parts := parts + [IntText(r.start)];
      } else {
        parts := parts + [IntText(r.start) + "-" + IntText(r.end)];
      }
    }
    assert ranges.ranges[..|ranges.ranges|] == ranges.ranges;
    text := Join(parts, ';');
  }

  /**
   Any text, in any order and with any overlaps, gives the canonical list of the
   union of its parts, unless one of its parts is not a range.
   */
  method FromString(value: Option<string>) returns (ranges: ProcessedRanges, result: Result)
    ensures fresh(ranges) && ranges.Valid()
    ensures result.Ok? <==> Parse(value).Some?
    ensures result.Ok? ==> forall x :: Member(ranges.ranges, x) <==> Member(Parse(value).value, x)
  {
    hide ParsePart, Split;
    ranges := new ProcessedRanges();
    result := Ok;
    if value == None || value.value == [] {
      return;
    }
    var parts := Split(value.value, ';');
    for i := 0 to |parts|
      invariant fresh(ranges) && ranges.Valid()
      invariant ParseParts(parts[..i]).Some?
      invariant forall x :: Member(ranges.ranges, x) <==> Member(ParseParts(parts[..i]).value, x)
    {
      assert parts[..i + 1][..i] == parts[..i];
      if parts[i] == [] {
        continue;
      }
      var part := ParsePart(parts[i]);
      if part == None {
        FailsFor(parts, i);
        return ranges, ValueError;
      }
      ghost var before := ranges.ranges;
      result := ranges.AddRange(part.value.start, part.value.end);
      forall x
        ensures Member(ranges.ranges, x) <==> Member(ParseParts(parts[..i + 1]).value, x)
      {
        MemberSnoc(ParseParts(parts[..i]).value, part.value, x);
      }
    }
    assert parts[..|parts|] == parts;
    result := Ok;
  }

  /** One bad part spoils the whole text. */
  lemma {:induction false} FailsFor(parts: seq<string>, i: nat)
    requires i < |parts| && parts[i] != [] && ParsePart(parts[i]) == None
    ensures ParseParts(parts) == None
    decreases |parts|
  {
    if i < |parts| - 1 {
      FailsFor(parts[..|parts| - 1], i);
    }
  }

  lemma {:induction false} PartsRoundTrip(rs: seq<Range>)
    requires forall i :: 0 <= i < |rs| ==> 0 <= rs[i].start <= rs[i].end
    ensures ParseParts(Texts(rs)) == Some(rs)
    decreases |rs|
  {
    hide ParsePart, Text;
    if rs != [] {
      var last := rs[|rs| - 1];
      PartsRoundTrip(rs[..|rs| - 1]);
      PartRoundTrip(last);
      TextPlain(last);
      assert Texts(rs)[..|rs| - 1] == Texts(rs[..|rs| - 1]);
      assert rs[..|rs| - 1] + [last] == rs;
    }
  }

  lemma TextsSplit(rs: seq<Range>)
    requires rs != []
    ensures Split(Join(Texts(rs), ';'), ';') == Texts(rs) && Join(Texts(rs), ';') != []
  {
    forall i | 0 <= i < |rs|
      ensures ';' !in Texts(rs)[i]
    {
      TextPlain(rs[i]);
    }
    SplitJoin(Texts(rs), ';');
    TextPlain(rs[0]);
  }

  /** The text of a list reads back as the list exactly if no id is negative. */
  lemma RoundTrip(rs: seq<Range>)
    requires Canonical(rs)
    ensures Parse(Some(Join(Texts(rs), ';'))) ==
            if forall i :: 0 <= i < |rs| ==> rs[i].start >= 0 then Some(rs) else None
  {
    if rs != [] {
      TextsSplit(rs);
      if i :| 0 <= i < |rs| && rs[i].start < 0 {
        PartRoundTrip(rs[i]);
        TextPlain(rs[i]);
        FailsFor(Texts(rs), i);
      } else {
        PartsRoundTrip(rs);
      }
    }
  }

  /** So a set of non-negative ids that is written and read back is the same list again. */
  lemma ReloadIsSame(rs: seq<Range>, reloaded: seq<Range>)
    requires Canonical(rs) && Canonical(reloaded) && forall i :: 0 <= i < |rs| ==> rs[i].start >= 0
    requires var text := Join(Texts(rs), ';');
             Parse(Some(text)).Some? ==> forall x :: Member(reloaded, x) <==> Member(Parse(Some(text)).value, x)
    ensures reloaded == rs
  {
    RoundTrip(rs);
    SameIdsSameList(reloaded, rs);
  }
}
