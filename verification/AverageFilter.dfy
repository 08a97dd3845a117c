/**
 Small payments: the average amount per payment format is computed by mappers and
 one joiner, then every payment below one percent of its format's average is
 kept. For one client, over exact numbers.
 */
module AverageFilter {
  import opened Options
  import opened Sums

  /** A payment format and an amount. */
  datatype Row = Row(format: string, amount: real)

  /** A sum and a count of one format, as a mapper reports it. */
  datatype Partial = Partial(format: string, sum: real, count: int)

  // ----- Sums over rows and over partials -----

  function RowSum(rows: seq<Row>, f: string): real {
    if rows == [] then 0.0
    else RowSum(rows[..|rows| - 1], f) + (var r := rows[|rows| - 1]; if r.format == f then r.amount else 0.0)
  }

  function RowCount(rows: seq<Row>, f: string): nat {
    if rows == [] then 0
    else RowCount(rows[..|rows| - 1], f) + if rows[|rows| - 1].format == f then 1 else 0
  }

  function PartialSum(ps: seq<Partial>, f: string): real {
    if ps == [] then 0.0
    else PartialSum(ps[..|ps| - 1], f) + (var p := ps[|ps| - 1]; if p.format == f then p.sum else 0.0)
  }

  function PartialCount(ps: seq<Partial>, f: string): int {
    if ps == [] then 0
    else PartialCount(ps[..|ps| - 1], f) + (var p := ps[|ps| - 1]; if p.format == f then p.count else 0)
  }

  /** One row or partial counts for its own format only, with its whole amount. */
  lemma OneCounts(r: Row, p: Partial, f: string)
    ensures RowSum([r], f) == (if r.format == f then r.amount else 0.0) && RowCount([r], f) == if r.format == f then 1 else 0
    ensures PartialSum([p], f) == (if p.format == f then p.sum else 0.0)
    ensures PartialCount([p], f) == if p.format == f then p.count else 0
  {
    assert [r][..0] == [] && [p][..0] == [];
  }

  /** The rows of a format are themselves partials of one row each. */
  function AsPartials(rows: seq<Row>): (ps: seq<Partial>)
    ensures |ps| == |rows| && forall i :: 0 <= i < |rows| ==> ps[i] == Partial(rows[i].format, rows[i].amount, 1)
  {
    seq(|rows|, i requires 0 <= i < |rows| => Partial(rows[i].format, rows[i].amount, 1))
  }

  lemma {:induction false} RowsArePartials(rows: seq<Row>, f: string)
    ensures PartialSum(AsPartials(rows), f) == RowSum(rows, f) && PartialCount(AsPartials(rows), f) == RowCount(rows, f)
    decreases |rows|
  {
    if rows != [] {
      RowsArePartials(rows[..|rows| - 1], f);
      assert AsPartials(rows)[..|rows| - 1] == AsPartials(rows[..|rows| - 1]);
    }
  }

  lemma {:induction false} PartialsAppend(a: seq<Partial>, b: seq<Partial>, f: string)
    ensures PartialSum(a + b, f) == PartialSum(a, f) + PartialSum(b, f)
    ensures PartialCount(a + b, f) == PartialCount(a, f) + PartialCount(b, f)
    decreases |b|
  {
    if b == [] {
      assert a + b == a;
    } else {
      assert (a + b)[..|a + b| - 1] == a + b[..|b| - 1];
      PartialsAppend(a, b[..|b| - 1], f);
    }
  }

  /** Taking one partial out of the middle. */
  lemma PartialsWithout(ps: seq<Partial>, k: nat, f: string)
    requires k < |ps|
    ensures PartialSum(ps, f) == PartialSum(ps[..k] + ps[k + 1..], f) + if ps[k].format == f then ps[k].sum else 0.0
    ensures PartialCount(ps, f) == PartialCount(ps[..k] + ps[k + 1..], f) + if ps[k].format == f then ps[k].count else 0
  {
    assert ps == ps[..k] + ([ps[k]] + ps[k + 1..]);
    PartialsAppend(ps[..k], [ps[k]] + ps[k + 1..], f);
    PartialsAppend([ps[k]], ps[k + 1..], f);
    PartialsAppend(ps[..k], ps[k + 1..], f);
    assert [ps[k]][..0] == [];
  }

  /** Where the last element of a list is in a rearrangement of it, and what is left of both without it. */
  lemma LastElsewhere<T>(a: seq<T>, b: seq<T>) returns (k: nat)
    requires a != [] && multiset(a) == multiset(b)
    ensures k < |b| && b[k] == a[|a| - 1]
    ensures multiset(a[..|a| - 1]) == multiset(b[..k] + b[k + 1..])
  {
    var last := a[|a| - 1];
    assert last in multiset(a);
    assert last in b;
    k :| 0 <= k < |b| && b[k] == last;
    Without(a, |a| - 1);
    Without(b, k);
    assert a[..|a| - 1] + a[|a|..] == a[..|a| - 1];
    SameRest(multiset(a[..|a| - 1]), multiset(b[..k] + b[k + 1..]), last);
  }

  lemma SameRest<T>(a: multiset<T>, b: multiset<T>, last: T)
    requires a + multiset{last} == b + multiset{last}
    ensures a == b
  {
    assert a == (a + multiset{last}) - multiset{last} == (b + multiset{last}) - multiset{last} == b;
  }

  lemma Without<T>(b: seq<T>, k: nat)
    requires k < |b|
    ensures multiset(b) == multiset(b[..k] + b[k + 1..]) + multiset{b[k]}
  {
    assert b == b[..k] + [b[k]] + b[k + 1..];
  }

  /** Sums and counts do not depend on the order of the partials. */
  lemma {:induction false} OrderIrrelevant(a: seq<Partial>, b: seq<Partial>, f: string)
    requires multiset(a) == multiset(b)
    ensures PartialSum(a, f) == PartialSum(b, f) && PartialCount(a, f) == PartialCount(b, f)
    decreases |a|
  {
    if a == [] {
      assert |multiset(b)| == |b| == 0;
    } else {
      var k := LastElsewhere(a, b);
      OrderIrrelevant(a[..|a| - 1], b[..k] + b[k + 1..], f);
      PartialsWithout(b, k, f);
    }
  }

  /** The partials report exactly the rows. */
  ghost predicate Reports(ps: seq<Partial>, rows: seq<Row>) {
    forall f :: PartialSum(ps, f) == RowSum(rows, f) && PartialCount(ps, f) == RowCount(rows, f)
  }

  lemma {:induction false} ReportsFlatten(sent: seq<seq<Partial>>, split: seq<seq<Row>>)
    requires |sent| == |split| && forall i :: 0 <= i < |sent| ==> Reports(sent[i], split[i])
    ensures Reports(Flatten(sent), Flatten(split))
    decreases |sent|
  {
    if sent != [] {
      var n := |sent| - 1;
      ReportsFlatten(sent[..n], split[..n]);
      forall f
        ensures PartialSum(Flatten(sent), f) == RowSum(Flatten(split), f)
        ensures PartialCount(Flatten(sent), f) == RowCount(Flatten(split), f)
      {
        PartialsAppend(Flatten(sent[..n]), sent[n], f);
        RowsAppend(Flatten(split[..n]), split[n], f);
        assert Reports(sent[n], split[n]);
      }
    }
  }

  lemma RowsAppend(a: seq<Row>, b: seq<Row>, f: string)
    ensures RowSum(a + b, f) == RowSum(a, f) + RowSum(b, f) && RowCount(a + b, f) == RowCount(a, f) + RowCount(b, f)
  {
    hide PartialSum, PartialCount, RowSum, RowCount;
    RowsArePartials(a, f);
    RowsArePartials(b, f);
    RowsArePartials(a + b, f);
    assert AsPartials(a + b) == AsPartials(a) + AsPartials(b);
    PartialsAppend(AsPartials(a), AsPartials(b), f);
  }

  lemma RowsWithout(rows: seq<Row>, k: nat, f: string)
    requires k < |rows|
    ensures RowSum(rows, f) == RowSum(rows[..k] + rows[k + 1..], f) + if rows[k].format == f then rows[k].amount else 0.0
    ensures RowCount(rows, f) == RowCount(rows[..k] + rows[k + 1..], f) + if rows[k].format == f then 1 else 0
  {
    assert rows == rows[..k] + ([rows[k]] + rows[k + 1..]);
    RowsAppend(rows[..k], [rows[k]] + rows[k + 1..], f);
    RowsAppend([rows[k]], rows[k + 1..], f);
    RowsAppend(rows[..k], rows[k + 1..], f);
    assert [rows[k]][..0] == [];
  }

  lemma {:induction false} RowOrderIrrelevant(a: seq<Row>, b: seq<Row>, f: string)
    requires multiset(a) == multiset(b)
    ensures RowSum(a, f) == RowSum(b, f) && RowCount(a, f) == RowCount(b, f)
    decreases |a|
  {
    if a == [] {
      assert |multiset(b)| == |b| == 0;
    } else {
      var k := LastElsewhere(a, b);
      RowOrderIrrelevant(a[..|a| - 1], b[..k] + b[k + 1..], f);
      RowsWithout(b, k, f);
    }
  }

  // ----- The average -----

  /** The average of a format, which exists if the format has a row. */
  function Average(rows: seq<Row>, f: string): Option<real> {
    if RowCount(rows, f) == 0 then None else Some(RowSum(rows, f) / RowCount(rows, f) as real)
  }

  /** What the joiner computes from the partials it merged. */
  function Merged(ps: seq<Partial>, f: string): Option<real> {
    if PartialCount(ps, f) <= 0 then None else Some(PartialSum(ps, f) / PartialCount(ps, f) as real)
  }

  /**
   However the rows are split among the mappers, and in whatever order their
   partials arrive, the merged average of every format is its average over all rows.
   */
  lemma MergedIsAverage(rows: seq<Row>, split: seq<seq<Row>>, sent: seq<seq<Partial>>, inbox: seq<Partial>, f: string)
    requires multiset(Flatten(split)) == multiset(rows)
    requires |sent| == |split| && forall i :: 0 <= i < |sent| ==> Reports(sent[i], split[i])
    requires multiset(inbox) == multiset(Flatten(sent))
    ensures Merged(inbox, f) == Average(rows, f)
  {
    ReportsFlatten(sent, split);
    OrderIrrelevant(inbox, Flatten(sent), f);
    RowOrderIrrelevant(Flatten(split), rows, f);
  }

  // ----- The workers -----

  /** An amount as it arrives: absent counts as zero, text that is no number does not count. */
  datatype Amount = Missing | Malformed | Given(value: real)

  lemma RowAdded(rows: seq<Row>, row: Row, longer: seq<Row>)
    requires longer == rows + [row]
    ensures forall f :: RowSum(longer, f) == RowSum(rows, f) + if f == row.format then row.amount else 0.0
    ensures forall f :: RowCount(longer, f) == RowCount(rows, f) + if f == row.format then 1 else 0
  {
  }

  class AverageMapper {
    var sums: map<string, (real, nat)>
    ghost var rows: seq<Row>

    ghost predicate Valid()
      reads this
    {
      && "" !in sums && (forall f :: f in sums <==> RowCount(rows, f) > 0)
      && (forall f :: Entry(f) == (RowSum(rows, f), RowCount(rows, f)))
    }

    function Entry(f: string): (real, nat)
      reads this
    {
      if f in sums then sums[f] else (0.0, 0)
    }

    constructor ()
      ensures Valid() && rows == []
    {
      sums, rows := map[], [];
    }

    /** A row without format or with a malformed amount is skipped. */
    method OnTransaction(format: Option<string>, amount: Amount)
      requires Valid()
      modifies this
      ensures Valid()
      ensures rows == if format.Some? && format.value != "" && !amount.Malformed?
                      then old(rows) + [Row(format.value, if amount.Given? then amount.value else 0.0)]
                      else old(rows)
    {
      hide RowSum, RowCount;
      if format.None? || format.value == "" || amount.Malformed? {
        return;
      }
      var f := format.value;
      var value := if amount.Given? then amount.value else 0.0;
      sums := sums[f := (Entry(f).0 + value, Entry(f).1 + 1)];
      rows := rows + [Row(f, value)];
      RowAdded(old(rows), Row(f, value), rows);
    }

    /** One partial per format, which together report the rows. */
    method OnConsensus() returns (sends: seq<Partial>)
      requires Valid()
      ensures Reports(sends, rows) && forall p :: p in sends ==> p.format != ""
    {
      sends := [];
      var rest := sums.Keys;
      while rest != {}
        invariant rest <= sums.Keys && forall p :: p in sends ==> p.format != ""
        invariant forall f :: PartialSum(sends, f) == if f in sums.Keys - rest then sums[f].0 else 0.0
        invariant forall f :: PartialCount(sends, f) == if f in sums.Keys - rest then sums[f].1 else 0
        decreases |rest|
      {
        var f :| f in rest;
        var longer := sends + [Partial(f, sums[f].0, sums[f].1)];
        assert longer[..|sends|] == sends;
        sends := longer;
        rest := rest - {f};
      }
      forall f
        ensures PartialSum(sends, f) == RowSum(rows, f) && PartialCount(sends, f) == RowCount(rows, f)
      {
        assert Entry(f) == (RowSum(rows, f), RowCount(rows, f));
      }
    }
  }

  class AverageJoiner {
    var averages: map<string, (real, int)>
    ghost var inbox: seq<Partial>

    function Entry(f: string): (real, int)
      reads this
    {
      if f in averages then averages[f] else (0.0, 0)
    }

    ghost predicate Valid()
      reads this
    {
      forall f :: Entry(f) == (PartialSum(inbox, f), PartialCount(inbox, f))
    }

    constructor ()
      ensures Valid() && inbox == []
    {
      averages, inbox := map[], [];
    }

    /** A partial without format is skipped. */
    method OnPartial(p: Partial)
      requires Valid()
      modifies this
      ensures Valid() && inbox == if p.format != "" then old(inbox) + [p] else old(inbox)
    {
      if p.format == "" {
        return;
      }
      averages := averages[p.format := (Entry(p.format).0 + p.sum, Entry(p.format).1 + p.count)];
      inbox := inbox + [p];
      assert inbox[..|inbox| - 1] == old(inbox);
    }

    /** The averages of the formats with a positive count. */
    method BuildAverages() returns (result: map<string, real>)
      requires Valid()
      ensures forall f :: (if f in result then Some(result[f]) else None) == Merged(inbox, f)
      ensures forall f :: f in result <==> PartialCount(inbox, f) > 0
    {
      result := map[];
      var rest := averages.Keys;
      while rest != {}
        invariant rest <= averages.Keys
        invariant forall f :: f in result <==> f in averages.Keys - rest && averages[f].1 > 0
        invariant forall f :: f in result ==> result[f] == averages[f].0 / averages[f].1 as real
        decreases |rest|
      {
        var f :| f in rest;
        rest := rest - {f};
        var count := averages[f].1;
        if count <= 0 {
          continue;
        }
        result := result[f := averages[f].0 / count as real];
      }
      forall f
        ensures (if f in result then Some(result[f]) else None) == Merged(inbox, f)
      {
        assert Entry(f) == (PartialSum(inbox, f), PartialCount(inbox, f));
      }
    }
  }

  // ----- The filter -----

  /** The filter keeps a hundredth of each average; a format without one counts as zero. */
  predicate Passes(row: Row, limits: map<string, real>) {
    row.amount > 0.0 && row.amount < if row.format in limits then limits[row.format] else 0.0
  }

  /** A row that went through the filter, with the limits there were when it did. */
  datatype Handled = Handled(row: Row, limits: map<string, real>)

  function RowsOf(handled: seq<Handled>): (rows: seq<Row>)
    ensures |rows| == |handled| && forall i :: 0 <= i < |handled| ==> rows[i] == handled[i].row
  {
    seq(|handled|, i requires 0 <= i < |handled| => handled[i].row)
  }

  function Kept(handled: seq<Handled>): seq<Row> {
    if handled == [] then []
    else
      var last := handled[|handled| - 1];
      Kept(handled[..|handled| - 1]) + if Passes(last.row, last.limits) then [last.row] else []
  }

  lemma RowsOfSnoc(handled: seq<Handled>, last: Handled)
    ensures RowsOf(handled + [last]) == RowsOf(handled) + [last.row]
    ensures Kept(handled + [last]) == Kept(handled) + if Passes(last.row, last.limits) then [last.row] else []
  {
    assert (handled + [last])[..|handled|] == handled;
  }

  ghost predicate SameLimits(handled: seq<Handled>, limits: map<string, real>) {
    forall h :: h in handled ==> h.limits == limits
  }

  lemma HandledMore(handled: seq<Handled>, limits: map<string, real>, row: Row)
    ensures SameLimits(handled, limits) ==> SameLimits(handled + [Handled(row, limits)], limits)
  {
  }

  /** A row that was received has been handled or is still stored. */
  ghost predicate Accounted(received: seq<Row>, handled: seq<Handled>, stored: seq<Row>) {
    multiset(received) == multiset(RowsOf(handled)) + multiset(stored)
  }

  lemma AccountedStored(received: seq<Row>, handled: seq<Handled>, stored: seq<Row>, row: Row)
    requires Accounted(received, handled, stored)
    ensures Accounted(received + [row], handled, stored + [row])
  {
  }

  lemma AccountedHandled(received: seq<Row>, handled: seq<Handled>, stored: seq<Row>, h: Handled)
    requires Accounted(received, handled, stored)
    ensures Accounted(received + [h.row], handled + [h], stored)
    ensures stored != [] && stored[0] == h.row ==> Accounted(received, handled + [h], stored[1..])
  {
    hide RowsOf, Kept;
    RowsOfSnoc(handled, h);
    if stored != [] {
      assert stored == [stored[0]] + stored[1..];
    }
  }

  /** Under the same limits for all, a row is kept as often as it occurs, or not at all. */
  lemma {:induction false} KeptExactly(handled: seq<Handled>, limits: map<string, real>, row: Row)
    requires SameLimits(handled, limits)
    ensures multiset(Kept(handled))[row] == if Passes(row, limits) then multiset(RowsOf(handled))[row] else 0
    decreases |handled|
  {
    if handled != [] {
      var front, last := handled[..|handled| - 1], handled[|handled| - 1];
      KeptExactly(front, limits, row);
      assert handled == front + [last];
      RowsOfSnoc(front, last);
    }
  }

  /** Each row received was emitted as often as it was received if it passes, and never otherwise. */
  ghost predicate FilteredBy(emitted: seq<Row>, received: seq<Row>, limits: map<string, real>) {
    forall row :: multiset(emitted)[row] == if Passes(row, limits) then multiset(received)[row] else 0
  }

  class AmountFilter {
    var ready: bool                  // all averages have been received
    var limits: map<string, real>
    var pending: seq<Row>            // rows stored until then
    var drained: nat                 // stored rows already filtered by the callback
    var emitted: seq<Row>
    ghost var received: seq<Row>     // rows that arrived
    ghost var handled: seq<Handled>  // rows that went through the filter
    ghost var late: bool             // averages arrived after the callback began

    ghost predicate Valid()
      reads this
    {
      && drained <= |pending|
      && Accounted(received, handled, pending[drained..])
      && emitted == Kept(handled)
      && (!ready ==> handled == [] && drained == 0)
      && (!late ==> SameLimits(handled, limits))
    }

    constructor ()
      ensures Valid() && received == [] && emitted == [] && limits == map[] && !ready && !late
    {
      ready, limits, pending, drained, emitted := false, map[], [], 0, [];
      received, handled, late := [], [], false;
    }

    /** Averages are stored whenever they arrive; nothing that was filtered before is looked at again. */
    method OnAverages(averages: map<string, real>)
      requires Valid()
      modifies `limits, `late
      ensures Valid() && late == (old(late) || ready)
      ensures forall f :: f in limits <==> f in old(limits) || f in averages
      ensures forall f :: f in limits ==> limits[f] == if f in averages then averages[f] * 0.01 else old(limits)[f]
    {
      hide Kept, RowsOf, Accounted;
      late := late || ready;
      var rest := averages.Keys;
      while rest != {}
        invariant rest <= averages.Keys
        invariant forall f :: f in limits <==> f in old(limits) || f in averages.Keys - rest
        invariant forall f :: f in limits ==>
                    limits[f] == if f in averages.Keys - rest then averages[f] * 0.01 else old(limits)[f]
        modifies `limits
        decreases |rest|
      {
        var f :| f in rest;
        limits := limits[f := averages[f] * 0.01];
        rest := rest - {f};
      }
    }

    method Filter(row: Row)
      modifies `emitted, `handled
      ensures handled == old(handled) + [Handled(row, limits)]
      ensures emitted == old(emitted) + if Passes(row, limits) then [row] else []
    {
      handled := handled + [Handled(row, limits)];
      var limit := if row.format in limits then limits[row.format] else 0.0;
      if row.amount > 0.0 && row.amount < limit {
        emitted := emitted + [row];
      }
    }

    /** A row is stored before the averages are complete and filtered at once afterwards. */
    method OnRow(row: Row)
      requires Valid()
      modifies `received, `pending, `emitted, `handled
      ensures Valid() && received == old(received) + [row]
      ensures emitted == old(emitted) + if ready && Passes(row, limits) then [row] else []
      ensures pending == old(pending) + if ready then [] else [row]
    {
      hide Kept, RowsOf, Passes, SameLimits, Accounted;
      received := received + [row];
      if !ready {
        pending := pending + [row];
        assert pending[drained..] == old(pending[drained..]) + [row];
        AccountedStored(old(received), handled, old(pending[drained..]), row);
      } else {
        AccountedHandled(old(received), handled, pending[drained..], Handled(row, limits));
        RowsOfSnoc(handled, Handled(row, limits));
        Filter(row);
        HandledMore(old(handled), limits, row);
      }
    }

    /** The on-consensus callback first declares the averages complete. */
    method BeginConsensus()
      requires Valid()
      modifies `ready
      ensures Valid() && ready
    {
      ready := true;
    }

    /** Then it filters the stored rows one by one; rows may arrive in between. */
    method DrainNext()
      requires Valid() && ready && drained < |pending|
      modifies `drained, `emitted, `handled
      ensures Valid() && drained == old(drained) + 1
      ensures emitted == old(emitted) + if Passes(pending[old(drained)], limits) then [pending[old(drained)]] else []
    {
      hide Kept, RowsOf, Passes, SameLimits, Accounted;
      assert pending[drained..][1..] == pending[drained + 1..];
      AccountedHandled(received, handled, pending[drained..], Handled(pending[drained], limits));
      RowsOfSnoc(handled, Handled(pending[drained], limits));
      Filter(pending[drained]);
      HandledMore(old(handled), limits, pending[drained]);
      drained := drained + 1;
    }

    /**
     When every stored row is drained and no averages came late: each received
     row was emitted as often as it was received if it passes, and never
     otherwise, whatever the interleaving.
     */
    lemma EachRowOnce()
      requires Valid() && drained == |pending| && !late
      ensures FilteredBy(emitted, received, limits)
    {
      assert pending[drained..] == [];
      forall row
        ensures multiset(emitted)[row] == if Passes(row, limits) then multiset(received)[row] else 0
      {
        KeptExactly(handled, limits, row);
      }
    }
  }

  // ----- The whole query -----

  /** The limits are a hundredth of the averages. */
  ghost predicate Hundredths(limits: map<string, real>, averages: map<string, real>) {
    && (forall f :: f in limits <==> f in averages)
    && (forall f :: f in limits ==> limits[f] == averages[f] * 0.01)
  }

  /** The query: positive, and below one percent of the average of its format. */
  predicate IsSmall(row: Row, rows: seq<Row>) {
    match Average(rows, row.format)
    case None => false
    case Some(average) => 0.0 < row.amount && row.amount * 100.0 < average
  }

  /** With the averages of all rows as limits, a row passes exactly if the query asks for it. */
  lemma PassesExactly(row: Row, rows: seq<Row>, averages: map<string, real>, limits: map<string, real>)
    requires forall f :: (if f in averages then Some(averages[f]) else None) == Average(rows, f)
    requires Hundredths(limits, averages)
    ensures Passes(row, limits) <==> IsSmall(row, rows)
  {
  }

  lemma {:induction false} EmittedTogether(shares: seq<seq<Row>>, emitted: seq<seq<Row>>, row: Row, passes: bool)
    requires |emitted| == |shares|
    requires forall i :: 0 <= i < |shares| ==> multiset(emitted[i])[row] == if passes then multiset(shares[i])[row] else 0
    ensures multiset(Flatten(emitted))[row] == if passes then multiset(Flatten(shares))[row] else 0
    decreases |shares|
  {
    if shares != [] {
      EmittedTogether(shares[..|shares| - 1], emitted[..|emitted| - 1], row, passes);
    }
  }

  /**
   From the rows the mappers saw to the payments the filters let through: for
   every split of the rows among the mappers, every order of their partials, and
   every split of the payments among the filters, a payment reaches the client as
   often as it was made if it is below one percent of its format's average over
   all rows, and never otherwise. The hypotheses are what AverageMapper.OnConsensus,
   AverageJoiner.BuildAverages, AmountFilter.OnAverages and EachRowOnce ensure.
   */
  lemma QueryAnswered(rows: seq<Row>, split: seq<seq<Row>>, sent: seq<seq<Partial>>, inbox: seq<Partial>,
                      averages: map<string, real>, limits: seq<map<string, real>>,
                      payments: seq<Row>, shares: seq<seq<Row>>, emitted: seq<seq<Row>>, row: Row)
    requires multiset(Flatten(split)) == multiset(rows)
    requires |sent| == |split| && forall i :: 0 <= i < |sent| ==> Reports(sent[i], split[i])
    requires multiset(inbox) == multiset(Flatten(sent))
    requires forall f :: (if f in averages then Some(averages[f]) else None) == Merged(inbox, f)
    requires multiset(Flatten(shares)) == multiset(payments)
    requires |limits| == |emitted| == |shares|
    requires forall i :: 0 <= i < |shares| ==> Hundredths(limits[i], averages) && FilteredBy(emitted[i], shares[i], limits[i])
    ensures multiset(Flatten(emitted))[row] == if IsSmall(row, rows) then multiset(payments)[row] else 0
  {
    forall f
      ensures (if f in averages then Some(averages[f]) else None) == Average(rows, f)
    {
      MergedIsAverage(rows, split, sent, inbox, f);
    }
    forall i | 0 <= i < |shares|
      ensures multiset(emitted[i])[row] == if IsSmall(row, rows) then multiset(shares[i])[row] else 0
    {
      PassesExactly(row, rows, averages, limits[i]);
    }
    EmittedTogether(shares, emitted, row, IsSmall(row, rows));
  }
}
