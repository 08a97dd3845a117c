/**
 The largest transfer per bank, for one client: transactions are partitioned by
 bank, each mapper keeps a maximum per bank, and joiners attach the bank's name.
 */
module MaxPerBank {
  import opened Options
  import opened Decimal

  /** A transaction whose bank and amount are both present. */
  datatype Tx = Tx(bank: int, origin: string, amount: real)

  /** A bank as a bank filter forwards it; the name may be missing. */
  datatype Named = Named(bank: int, name: Option<string>)

  type Best = map<int, (real, string)>

  /** A row of the answer; the bank itself travels in the row's data id. */
  datatype Row = Row(bank: int, name: string, origin: string, amount: real)

  ghost predicate HasTx(txs: set<Tx>, bank: int) {
    exists t :: t in txs && t.bank == bank
  }

  /** No transaction of the bank is larger, and this one is among them. */
  ghost predicate IsMaximum(txs: set<Tx>, bank: int, amount: real, origin: string) {
    Tx(bank, origin, amount) in txs && forall t :: t in txs && t.bank == bank ==> t.amount <= amount
  }

  /** One maximum for each bank that has a transaction, and for no other. */
  ghost predicate Maxima(txs: set<Tx>, best: Best) {
    && (forall b :: b in best <==> HasTx(txs, b))
    && (forall b :: b in best ==> IsMaximum(txs, b, best[b].0, best[b].1))
  }

  /** The name a joiner takes from a message: the first of two fields, unless it is empty. */
  function NameOf(bankName: Option<string>, name: Option<string>): Option<string> {
    if bankName.Some? && bankName.value != "" then bankName else name
  }

  /** The last non-empty name received for a bank. */
  function LastName(names: seq<Named>, bank: int): Option<string>
    decreases |names|
  {
    if names == [] then None
    else
      var last := names[|names| - 1];
      if last.bank == bank && NameOf(last.name, None).Some? then NameOf(last.name, None)
      else LastName(names[..|names| - 1], bank)
  }

  function Lookup(cache: map<int, string>, bank: int): Option<string> {
    if bank in cache then Some(cache[bank]) else None
  }

  /** A later name of a bank takes the place of an earlier one. */
  ghost predicate Cached(names: seq<Named>, cache: map<int, string>) {
    forall b :: Lookup(cache, b) == LastName(names, b)
  }

  const UNKNOWN := "Unknown"

  // ----- Routing -----

  /** A bank id as the hash sees it: filters and mappers pass a number, redirectors its text. */
  datatype BankId = AsNumber(n: int) | AsText(s: string)

  /** The number an id stands for; an id that is no number makes the handler raise. */
  function BankNumber(id: BankId): Option<int> {
    match id
    case AsNumber(n) => Some(n)
    case AsText(s) => ParseInt(s)
  }

  /** The checksum of the id's text, written in one way for every id that is a number. */
  function StableHash(crc: string -> nat, id: BankId): nat {
    match id
    case AsNumber(n) => crc(IntText(n))
    case AsText(s) =>
      match ParseInt(s)
      case Some(n) => crc(IntText(n))
      case None => crc(Strip(s))
  }

  /** A bank goes the same way whether its id is passed as a number or as text. */
  lemma SameWay(crc: string -> nat, bank: int)
    ensures StableHash(crc, AsText(IntText(bank))) == StableHash(crc, AsNumber(bank))
  {
    IntRoundTrip(bank);
  }

  /** Leading zeros, a sign or blanks around a bank's number change neither the bank nor its way. */
  lemma PaddedSameWay(crc: string -> nat, zeros: string, bank: nat, front: string, back: string)
    requires AllZeros(zeros) && AllBlank(front) && AllBlank(back)
    ensures var id := AsText(front + (zeros + IntText(bank)) + back);
            BankNumber(id) == Some(bank) && StableHash(crc, id) == crc(IntText(bank))
    ensures var id := AsText(front + ("+" + (zeros + IntText(bank))) + back);
            BankNumber(id) == Some(bank) && StableHash(crc, id) == crc(IntText(bank))
  {
    hide ParseInt, Value, Strip;
    var digits := zeros + Digits(bank);
    DigitsRoundTrip(bank);
    LeadingZeros(zeros, Digits(bank));
    BlanksIgnored(front, digits, back);
    BlanksIgnored(front, "+" + digits, back);
    OnlyDigitsSame(digits);
    ZerosValue(zeros);
    ValueAppend(zeros, Digits(bank));
    SignsAre(digits);
  }

  /** The worker, of the given number of workers, that a bank belongs to. */
  function Home(crc: string -> nat, bank: int, workers: nat): (home: nat)
    requires workers > 0
    ensures home == crc(IntText(bank)) % workers
  {
    StableHash(crc, AsNumber(bank)) % workers
  }

  // ----- Bank filters -----

  /** The first record of each bank, in order. */
  function FirstSeen(records: seq<Named>): seq<Named> {
    if records == [] then []
    else
      var front, last := records[..|records| - 1], records[|records| - 1];
      if BankSeen(front, last.bank) then FirstSeen(front) else FirstSeen(front) + [last]
  }

  predicate BankSeen(records: seq<Named>, bank: int) {
    exists i :: 0 <= i < |records| && records[i].bank == bank
  }

  /** The record is the first of its bank. */
  ghost predicate IsFirst(records: seq<Named>, n: Named) {
    exists k :: 0 <= k < |records| && records[k] == n && !BankSeen(records[..k], n.bank)
  }

  lemma FirstSnoc(records: seq<Named>, last: Named, n: Named)
    ensures IsFirst(records + [last], n) <==> IsFirst(records, n) || (n == last && !BankSeen(records, n.bank))
  {
    var all := records + [last];
    if IsFirst(records, n) {
      var k :| 0 <= k < |records| && records[k] == n && !BankSeen(records[..k], n.bank);
      assert all[..k] == records[..k] && all[k] == n;
    }
    if n == last && !BankSeen(records, n.bank) {
      assert all[..|records|] == records && all[|records|] == n;
    }
    if IsFirst(all, n) {
      var k :| 0 <= k < |all| && all[k] == n && !BankSeen(all[..k], n.bank);
      if k < |records| {
        assert all[..k] == records[..k] && records[k] == n;
      } else {
        assert all[..k] == records;
      }
    }
  }

  /** Exactly the first record of each bank is forwarded. */
  lemma {:induction false} FirstSeenIsFirst(records: seq<Named>, n: Named)
    ensures n in FirstSeen(records) <==> IsFirst(records, n)
    decreases |records|
  {
    if records != [] {
      var front, last := records[..|records| - 1], records[|records| - 1];
      FirstSeenIsFirst(front, n);
      FirstSnoc(front, last, n);
      assert front + [last] == records;
    }
  }

  /** So no bank is forwarded twice. */
  lemma {:induction false} ForwardedOnce(records: seq<Named>)
    ensures forall i, j :: 0 <= i < j < |FirstSeen(records)| ==> FirstSeen(records)[i].bank != FirstSeen(records)[j].bank
    decreases |records|
  {
    if records != [] {
      var front := records[..|records| - 1];
      ForwardedOnce(front);
      forall i | 0 <= i < |FirstSeen(front)|
        ensures BankSeen(front, FirstSeen(front)[i].bank)
      {
        FirstSeenIsFirst(front, FirstSeen(front)[i]);
      }
    }
  }

  class BankFilter {
    const crc: string -> nat
    const joiners: nat
    var seen: set<int>
    ghost var records: seq<Named>

    ghost predicate Valid()
      reads this
    {
      joiners > 0 && forall b :: b in seen <==> BankSeen(records, b)
    }

    constructor (crc: string -> nat, joiners: nat)
      requires joiners > 0
      ensures Valid() && records == [] && this.crc == crc && this.joiners == joiners
    {
      this.crc, this.joiners := crc, joiners;
      seen, records := {}, [];
    }

    /**
     A record is forwarded to its bank's joiner exactly if it is the first of its
     bank; one without bank is skipped, and one whose bank is no number refused.
     */
    method OnRecord(id: Option<BankId>, name: Option<string>) returns (ok: bool, forwarded: Option<(nat, Named)>)
      requires Valid()
      modifies this
      ensures Valid()
      ensures ok <==> id.None? || BankNumber(id.value).Some?
      ensures records == if ok && id.Some? then old(records) + [Named(BankNumber(id.value).value, name)] else old(records)
      ensures FirstSeen(records) == FirstSeen(old(records)) + if forwarded.Some? then [forwarded.value.1] else []
      ensures forwarded.Some? ==> forwarded.value.0 == Home(crc, forwarded.value.1.bank, joiners)
    {
      ok, forwarded := true, None;
      if id.Some? {
        var bank := BankNumber(id.value);
        if bank.None? {
          ok := false;
          return;
        }
        records := records + [Named(bank.value, name)];
        assert records[..|records| - 1] == old(records);
        if bank.value !in seen {
          seen := seen + {bank.value};
          var partition := StableHash(crc, AsNumber(bank.value)) % joiners;
          forwarded := Some((partition, Named(bank.value, name)));
        }
        forall b
          ensures BankSeen(records, b) <==> BankSeen(old(records), b) || b == bank.value
        {
          SeenSnoc(old(records), Named(bank.value, name), b);
        }
      }
    }
  }

  lemma SeenSnoc(records: seq<Named>, n: Named, b: int)
    ensures BankSeen(records + [n], b) <==> BankSeen(records, b) || b == n.bank
  {
    if BankSeen(records, b) {
      var i :| 0 <= i < |records| && records[i].bank == b;
      assert (records + [n])[i].bank == b;
    }
    if b == n.bank {
      assert (records + [n])[|records|].bank == b;
    }
  }

  // ----- Redirectors and mappers -----

  /** The redirector sends whatever has a bank to the mapper of that bank, hashing the bank's text. */
  method Redirect(id: Option<BankId>, crc: string -> nat, mappers: nat) returns (ok: bool, target: Option<nat>)
    requires mappers > 0
    ensures ok <==> id.None? || BankNumber(id.value).Some?
    ensures target == if ok && id.Some? then Some(Home(crc, BankNumber(id.value).value, mappers)) else None
    ensures target.Some? ==> target.value == crc(IntText(BankNumber(id.value).value)) % mappers
  {
    if id.None? {
      return true, None;
    }
    var bank := BankNumber(id.value);
    if bank.None? {
      return false, None;
    }
    ok := true;
    var text := IntText(bank.value);
    SameWay(crc, bank.value);
    target := Some(StableHash(crc, AsText(text)) % mappers);
  }

  /** What a mapper and a joiner do with one more amount of a bank. */
  function Improved(best: Best, t: Tx): Best {
    if t.bank !in best || t.amount > best[t.bank].0 then best[t.bank := (t.amount, t.origin)] else best
  }

  /** Keeping the larger amount keeps a maximum per bank. */
  lemma ImprovedMaxima(txs: set<Tx>, best: Best, t: Tx)
    requires Maxima(txs, best)
    ensures Maxima(txs + {t}, Improved(best, t))
  {
  }

  /** Some element, as the iteration of a dictionary yields its keys in an order of its own. */
  method Pick<T(==)>(s: set<T>) returns (x: T)
    requires s != {}
    ensures x in s
  {
    x :| x in s;
  }

  class MaxMapper {
    const crc: string -> nat
    const joiners: nat
    var bankMax: Best
    ghost var txs: set<Tx>

    ghost predicate Valid()
      reads this
    {
      joiners > 0 && Maxima(txs, bankMax)
    }

    constructor (crc: string -> nat, joiners: nat)
      requires joiners > 0
      ensures Valid() && txs == {} && this.crc == crc && this.joiners == joiners
    {
      this.crc, this.joiners := crc, joiners;
      bankMax, txs := map[], {};
    }

    /** A transaction without bank or amount is skipped; one whose bank is no number is refused. */
    method OnTransaction(id: Option<BankId>, origin: string, amount: Option<real>) returns (ok: bool)
      requires Valid()
      modifies this
      ensures Valid()
      ensures ok <==> id.None? || amount.None? || BankNumber(id.value).Some?
      ensures txs == old(txs) + if ok && id.Some? && amount.Some?
                                then {Tx(BankNumber(id.value).value, origin, amount.value)} else {}
      ensures forall b :: (b in old(bankMax) && (txs == old(txs) || b != BankNumber(id.value).value
                                                 || amount.value <= old(bankMax)[b].0)) ==>
                b in bankMax && bankMax[b] == old(bankMax)[b]
    {
      ok := true;
      if id.Some? && amount.Some? {
        var bank := BankNumber(id.value);
        if bank.None? {
          return false;
        }
        ghost var t := Tx(bank.value, origin, amount.value);
        ImprovedMaxima(txs, bankMax, t);
        if bank.value !in bankMax || amount.value > bankMax[bank.value].0 {
          bankMax := bankMax[bank.value := (amount.value, origin)];
        }
        txs := txs + {t};
      }
    }

    /** One result per bank, to the joiner of that bank. */
    method OnConsensus() returns (sends: seq<(nat, Tx)>)
      requires Valid()
      ensures forall i, j :: 0 <= i < j < |sends| ==> sends[i].1.bank != sends[j].1.bank
      ensures forall j, t :: (j, t) in sends <==>
                t.bank in bankMax && (t.amount, t.origin) == bankMax[t.bank] && j == Home(crc, t.bank, joiners)
    {
      sends := [];
      var rest := bankMax.Keys;
      while rest != {}
        invariant rest <= bankMax.Keys
        invariant forall i :: 0 <= i < |sends| ==> sends[i].1.bank !in rest
        invariant forall i, j :: 0 <= i < j < |sends| ==> sends[i].1.bank != sends[j].1.bank
        invariant forall j, t :: (j, t) in sends <==>
                    t.bank in bankMax.Keys - rest && (t.amount, t.origin) == bankMax[t.bank] && j == Home(crc, t.bank, joiners)
        decreases |rest|
      {
        var b := Pick(rest);
        sends := sends + [(StableHash(crc, AsNumber(b)) % joiners, Tx(b, bankMax[b].1, bankMax[b].0))];
        rest := rest - {b};
      }
    }
  }

  // ----- Joiners -----

  class MaxJoiner {
    var bankCache: map<int, string>
    var pending: Best
    ghost var named: seq<Named>
    ghost var results: set<Tx>

    ghost predicate Valid()
      reads this
    {
      Maxima(results, pending) && Cached(named, bankCache)
    }

    constructor ()
      ensures Valid() && named == [] && results == {}
    {
      bankCache, pending, named, results := map[], map[], [], {};
    }

    /** A bank filter's message has a bank and at most the first name field. */
    method OnBank(bank: int, bankName: Option<string>)
      requires Valid()
      modifies this
      ensures Valid() && named == old(named) + [Named(bank, bankName)] && results == old(results)
    {
      var name := NameOf(bankName, None);
      if name.Some? {
        bankCache := bankCache[bank := name.value];
      }
      named := named + [Named(bank, bankName)];
      CachedMore(old(named), old(bankCache), bank, bankName, bankCache);
    }

    method OnResult(bank: int, origin: string, amount: real)
      requires Valid()
      modifies this
      ensures Valid() && results == old(results) + {Tx(bank, origin, amount)} && named == old(named)
      ensures forall b :: b in old(pending) && (b != bank || amount <= old(pending)[b].0) ==>
                b in pending && pending[b] == old(pending)[b]
    {
      ImprovedMaxima(results, pending, Tx(bank, origin, amount));
      if bank !in pending || amount > pending[bank].0 {
        pending := pending[bank := (amount, origin)];
      }
      results := results + {Tx(bank, origin, amount)};
    }

    /** A row per bank with a maximum and a known name. */
    method OnConsensus() returns (rows: seq<Row>)
      requires Valid()
      ensures forall i, j :: 0 <= i < j < |rows| ==> rows[i].bank != rows[j].bank
      ensures forall r :: r in rows <==> Joined(pending, bankCache, r)
    {
      rows := [];
      var rest := pending.Keys;
      while rest != {}
        invariant rest <= pending.Keys
        invariant forall i :: 0 <= i < |rows| ==> rows[i].bank !in rest
        invariant forall i, j :: 0 <= i < j < |rows| ==> rows[i].bank != rows[j].bank
        invariant forall r :: r in rows <==> r.bank !in rest && Joined(pending, bankCache, r)
        decreases |rest|
      {
        var b := Pick(rest);
        rest := rest - {b};
        var name := if b in bankCache then bankCache[b] else UNKNOWN;
        if name == UNKNOWN {
          continue;
        }
        rows := rows + [Row(b, name, pending[b].1, pending[b].0)];
      }
    }
  }

  ghost predicate Joined(pending: Best, cache: map<int, string>, r: Row) {
    && r.bank in pending && pending[r.bank] == (r.amount, r.origin)
    && r.bank in cache && cache[r.bank] == r.name && r.name != UNKNOWN
  }

  lemma CachedMore(names: seq<Named>, cache: map<int, string>, bank: int, name: Option<string>, after: map<int, string>)
    requires Cached(names, cache)
    requires after == if NameOf(name, None).Some? then cache[bank := NameOf(name, None).value] else cache
    ensures Cached(names + [Named(bank, name)], after)
  {
    var longer := names + [Named(bank, name)];
    assert longer[..|longer| - 1] == names;
  }

  // ----- The whole pipeline -----

  datatype Routing = Routing(toMapper: int -> nat, toJoiner: int -> nat)

  /** What the workers of the last two stages received, and what they had made of it. */
  datatype Run = Run(
    mapperTxs: nat -> set<Tx>,
    mapperBest: nat -> Best,
    joinerResults: nat -> set<Tx>,
    joinerBest: nat -> Best,
    joinerNamed: nat -> seq<Named>,
    joinerCache: nat -> map<int, string>)

  ghost predicate SentToJoiner(r: Run, t: Tx) {
    exists m :: t.bank in r.mapperBest(m) && r.mapperBest(m)[t.bank] == (t.amount, t.origin)
  }

  ghost predicate Delivered(r: Run, h: Routing, txs: set<Tx>, forwarded: set<Named>) {
    && (forall m, t :: t in r.mapperTxs(m) <==> t in txs && m == h.toMapper(t.bank))
    && (forall m :: Maxima(r.mapperTxs(m), r.mapperBest(m)))
    && (forall j, t :: t in r.joinerResults(j) <==> SentToJoiner(r, t) && j == h.toJoiner(t.bank))
    && (forall j :: Maxima(r.joinerResults(j), r.joinerBest(j)))
    && (forall j, n :: n in r.joinerNamed(j) <==> n in forwarded && j == h.toJoiner(n.bank))
    && (forall j :: Cached(r.joinerNamed(j), r.joinerCache(j)))
  }

  lemma MaximaMeet(r: Run, h: Routing, txs: set<Tx>, forwarded: set<Named>, j: nat, b: int)
    requires Delivered(r, h, txs, forwarded)
    ensures b in r.joinerBest(j) <==> HasTx(txs, b) && j == h.toJoiner(b)
    ensures b in r.joinerBest(j) ==> IsMaximum(txs, b, r.joinerBest(j)[b].0, r.joinerBest(j)[b].1)
  {
    var m := h.toMapper(b);
    assert Maxima(r.mapperTxs(m), r.mapperBest(m)) && Maxima(r.joinerResults(j), r.joinerBest(j));
    if HasTx(txs, b) && j == h.toJoiner(b) {
      var t :| t in txs && t.bank == b;
      assert t in r.mapperTxs(m);
      var best := Tx(b, r.mapperBest(m)[b].1, r.mapperBest(m)[b].0);
      assert SentToJoiner(r, best);
      assert best in r.joinerResults(j);
    }
    if b in r.joinerBest(j) {
      var best := Tx(b, r.joinerBest(j)[b].1, r.joinerBest(j)[b].0);
      assert best in r.joinerResults(j);
      var k :| b in r.mapperBest(k) && r.mapperBest(k)[b] == (best.amount, best.origin);
      assert IsMaximum(r.mapperTxs(k), b, best.amount, best.origin) by {
        assert Maxima(r.mapperTxs(k), r.mapperBest(k));
      }
      assert best in r.mapperTxs(k) && k == m;
      forall t | t in txs && t.bank == b
        ensures t.amount <= best.amount
      {
        assert t in r.mapperTxs(m);
      }
    }
  }

  /** A non-empty name was forwarded for the bank. */
  ghost predicate NameForwarded(forwarded: set<Named>, b: int, name: string) {
    Named(b, Some(name)) in forwarded && name != ""
  }

  /** The last non-empty name is one that was received, and there is one if any was. */
  lemma {:induction false} LastNameReceived(names: seq<Named>, b: int)
    ensures LastName(names, b).Some? ==> LastName(names, b).value != "" && Named(b, LastName(names, b)) in names
    ensures LastName(names, b).None? ==> forall n :: n in names && n.bank == b ==> NameOf(n.name, None).None?
    decreases |names|
  {
    if names != [] {
      LastNameReceived(names[..|names| - 1], b);
      assert names == names[..|names| - 1] + [names[|names| - 1]];
    }
  }

  lemma NamesMeet(r: Run, h: Routing, txs: set<Tx>, forwarded: set<Named>, j: nat, b: int)
    requires Delivered(r, h, txs, forwarded)
    ensures b in r.joinerCache(j) <==> j == h.toJoiner(b) && exists name :: NameForwarded(forwarded, b, name)
    ensures b in r.joinerCache(j) ==> NameForwarded(forwarded, b, r.joinerCache(j)[b])
    ensures Lookup(r.joinerCache(j), b) == LastName(r.joinerNamed(j), b)
  {
    assert Cached(r.joinerNamed(j), r.joinerCache(j));
    assert Lookup(r.joinerCache(j), b) == LastName(r.joinerNamed(j), b);
    LastNameReceived(r.joinerNamed(j), b);
    if b in r.joinerCache(j) {
      assert Named(b, Some(r.joinerCache(j)[b])) in r.joinerNamed(j);
      assert NameForwarded(forwarded, b, r.joinerCache(j)[b]);
    }
    if name :| NameForwarded(forwarded, b, name) && j == h.toJoiner(b) {
      assert Named(b, Some(name)) in r.joinerNamed(j);
    }
  }

  /**
   For any routing and any order of delivery, names and maximum of a bank meet at
   one joiner: its row has the bank's maximum, attained by the row's origin, and a
   forwarded name that is not the placeholder.
   */
  lemma RowsAreMaxima(r: Run, h: Routing, txs: set<Tx>, forwarded: set<Named>, j: nat, row: Row)
    requires Delivered(r, h, txs, forwarded)
    ensures Joined(r.joinerBest(j), r.joinerCache(j), row) ==>
              && j == h.toJoiner(row.bank) && IsMaximum(txs, row.bank, row.amount, row.origin)
              && NameForwarded(forwarded, row.bank, row.name) && row.name != UNKNOWN
  {
    MaximaMeet(r, h, txs, forwarded, j, row.bank);
    NamesMeet(r, h, txs, forwarded, j, row.bank);
  }

  // ----- Which banks have a row -----

  ghost predicate HasRow(r: Run, j: nat, b: int) {
    exists row: Row :: row.bank == b && Joined(r.joinerBest(j), r.joinerCache(j), row)
  }

  /**
   A bank has a row exactly if it has a transaction and the last non-empty name
   its joiner received, one of those forwarded, is not the placeholder.
   */
  lemma RowExactly(r: Run, h: Routing, txs: set<Tx>, forwarded: set<Named>, b: int)
    requires Delivered(r, h, txs, forwarded)
    ensures HasRow(r, h.toJoiner(b), b) <==> (HasTx(txs, b) && exists name ::
              NameForwarded(forwarded, b, name) && LastName(r.joinerNamed(h.toJoiner(b)), b) == Some(name) && name != UNKNOWN)
  {
    var j := h.toJoiner(b);
    MaximaMeet(r, h, txs, forwarded, j, b);
    NamesMeet(r, h, txs, forwarded, j, b);
    if b in r.joinerCache(j) && HasTx(txs, b) && r.joinerCache(j)[b] != UNKNOWN {
      var best := r.joinerBest(j)[b];
      assert Joined(r.joinerBest(j), r.joinerCache(j), Row(b, r.joinerCache(j)[b], best.1, best.0));
    }
  }

  /** The same messages, those with names in another order. */
  ghost predicate Reordered(r: Run, q: Run) {
    && q == r.(joinerNamed := q.joinerNamed, joinerCache := q.joinerCache)
    && (forall j :: multiset(q.joinerNamed(j)) == multiset(r.joinerNamed(j)))
    && (forall j :: Cached(q.joinerNamed(j), q.joinerCache(j)))
  }

  lemma ReorderedDelivered(r: Run, h: Routing, txs: set<Tx>, forwarded: set<Named>, q: Run)
    requires Delivered(r, h, txs, forwarded) && Reordered(r, q)
    ensures Delivered(q, h, txs, forwarded)
  {
    forall j, n
      ensures n in q.joinerNamed(j) <==> n in r.joinerNamed(j)
    {
      assert n in multiset(q.joinerNamed(j)) <==> n in multiset(r.joinerNamed(j));
    }
    forall t
      ensures SentToJoiner(q, t) <==> SentToJoiner(r, t)
    {
    }
  }

  function CacheOf(names: seq<Named>): map<int, string>
    decreases |names|
  {
    if names == [] then map[]
    else
      var cache, last := CacheOf(names[..|names| - 1]), names[|names| - 1];
      if NameOf(last.name, None).Some? then cache[last.bank := NameOf(last.name, None).value] else cache
  }

  lemma {:induction false} CacheOfCached(names: seq<Named>)
    ensures Cached(names, CacheOf(names))
    decreases |names|
  {
    if names != [] {
      CacheOfCached(names[..|names| - 1]);
    }
  }

  /** The names in another order: the one at k comes last. */
  function MovedLast(names: seq<Named>, k: nat): (moved: seq<Named>)
    requires k < |names|
    ensures multiset(moved) == multiset(names)
  {
    assert names == names[..k] + [names[k]] + names[k + 1..];
    names[..k] + names[k + 1..] + [names[k]]
  }

  /** One joiner receives its names in another order. */
  ghost function WithNames(r: Run, home: nat, names: seq<Named>): Run {
    r.(joinerNamed := (j: nat) => if j == home then names else r.joinerNamed(j),
       joinerCache := (j: nat) => if j == home then CacheOf(names) else r.joinerCache(j))
  }

  lemma WithNamesReordered(r: Run, home: nat, names: seq<Named>)
    requires forall j :: Cached(r.joinerNamed(j), r.joinerCache(j))
    requires multiset(names) == multiset(r.joinerNamed(home))
    ensures Reordered(r, WithNames(r, home, names))
  {
    hide Cached;
    CacheOfCached(names);
  }

  /** Any name forwarded for a bank is the last one in some order. */
  lemma AnyNameLast(r: Run, h: Routing, txs: set<Tx>, forwarded: set<Named>, b: int, name: string) returns (q: Run)
    requires Delivered(r, h, txs, forwarded) && NameForwarded(forwarded, b, name)
    ensures Reordered(r, q) && LastName(q.joinerNamed(h.toJoiner(b)), b) == Some(name)
  {
    hide Cached, Maxima, Reordered, SentToJoiner;
    var names := r.joinerNamed(h.toJoiner(b));
    assert Named(b, Some(name)) in names;
    var k :| 0 <= k < |names| && names[k] == Named(b, Some(name));
    q := WithNames(r, h.toJoiner(b), MovedLast(names, k));
    WithNamesReordered(r, h.toJoiner(b), MovedLast(names, k));
  }

  /**
   A bank with a transaction has a row whatever the order in which names arrive
   exactly if a non-empty name was forwarded for it and none that is the placeholder.
   */
  lemma RowInEveryOrder(r: Run, h: Routing, txs: set<Tx>, forwarded: set<Named>, b: int)
    requires Delivered(r, h, txs, forwarded)
    ensures (forall q :: Reordered(r, q) ==> HasRow(q, h.toJoiner(b), b)) <==>
            && HasTx(txs, b) && (exists name :: NameForwarded(forwarded, b, name))
            && forall name :: NameForwarded(forwarded, b, name) ==> name != UNKNOWN
  {
    forall q | Reordered(r, q)
      ensures HasRow(q, h.toJoiner(b), b) <==> (HasTx(txs, b) && exists name ::
                NameForwarded(forwarded, b, name) && LastName(q.joinerNamed(h.toJoiner(b)), b) == Some(name) && name != UNKNOWN)
      ensures (exists name :: NameForwarded(forwarded, b, name)) ==>
                exists name :: NameForwarded(forwarded, b, name) && LastName(q.joinerNamed(h.toJoiner(b)), b) == Some(name)
    {
      ReorderedDelivered(r, h, txs, forwarded, q);
      RowExactly(q, h, txs, forwarded, b);
      NamesMeet(q, h, txs, forwarded, h.toJoiner(b), b);
    }
    assert Reordered(r, r);
    if NameForwarded(forwarded, b, UNKNOWN) {
      var q := AnyNameLast(r, h, txs, forwarded, b, UNKNOWN);
    }
  }

  /** It has none in any order exactly if every non-empty name forwarded for it is the placeholder. */
  lemma RowInNoOrder(r: Run, h: Routing, txs: set<Tx>, forwarded: set<Named>, b: int)
    requires Delivered(r, h, txs, forwarded)
    ensures (forall q :: Reordered(r, q) ==> !HasRow(q, h.toJoiner(b), b)) <==>
            HasTx(txs, b) ==> forall name :: NameForwarded(forwarded, b, name) ==> name == UNKNOWN
  {
    forall q | Reordered(r, q)
      ensures HasRow(q, h.toJoiner(b), b) <==> (HasTx(txs, b) && exists name ::
                NameForwarded(forwarded, b, name) && LastName(q.joinerNamed(h.toJoiner(b)), b) == Some(name) && name != UNKNOWN)
    {
      ReorderedDelivered(r, h, txs, forwarded, q);
      RowExactly(q, h, txs, forwarded, b);
    }
    if name :| HasTx(txs, b) && NameForwarded(forwarded, b, name) && name != UNKNOWN {
      var q := AnyNameLast(r, h, txs, forwarded, b, name);
      assert HasRow(q, h.toJoiner(b), b);
    }
  }

  // ----- From the records of the bank filters -----

  /** The name on the first record of the bank at some filter. */
  ghost predicate FirstNamed(filters: seq<seq<Named>>, b: int, name: string) {
    name != "" && exists k :: 0 <= k < |filters| && IsFirst(filters[k], Named(b, Some(name)))
  }

  /** What the filters forward, each the first record of every bank. */
  ghost predicate ForwardedBy(filters: seq<seq<Named>>, forwarded: set<Named>) {
    forall n :: n in forwarded <==> exists k :: 0 <= k < |filters| && n in FirstSeen(filters[k])
  }

  lemma ForwardedNames(filters: seq<seq<Named>>, forwarded: set<Named>, b: int, name: string)
    requires ForwardedBy(filters, forwarded)
    ensures NameForwarded(forwarded, b, name) <==> FirstNamed(filters, b, name)
  {
    var n := Named(b, Some(name));
    forall k | 0 <= k < |filters|
      ensures n in FirstSeen(filters[k]) <==> IsFirst(filters[k], n)
    {
      FirstSeenIsFirst(filters[k], n);
    }
  }

  /**
   From records to rows: whatever records the filters received and in whatever
   order names reach the joiner, a bank with a transaction has a row exactly if
   the last non-empty name received is the name on its first record at some
   filter and not the placeholder. It has one in every order exactly if some
   filter's first record of it has a name and none the placeholder; later
   records of the bank never matter.
   */
  lemma RowFromRecords(r: Run, h: Routing, txs: set<Tx>, filters: seq<seq<Named>>, forwarded: set<Named>, b: int)
    requires ForwardedBy(filters, forwarded) && Delivered(r, h, txs, forwarded)
    ensures HasRow(r, h.toJoiner(b), b) <==> (HasTx(txs, b) && exists name ::
              FirstNamed(filters, b, name) && LastName(r.joinerNamed(h.toJoiner(b)), b) == Some(name) && name != UNKNOWN)
    ensures (forall q :: Reordered(r, q) ==> HasRow(q, h.toJoiner(b), b)) <==>
            && HasTx(txs, b) && (exists name :: FirstNamed(filters, b, name))
            && forall name :: FirstNamed(filters, b, name) ==> name != UNKNOWN
    ensures (forall q :: Reordered(r, q) ==> !HasRow(q, h.toJoiner(b), b)) <==>
            HasTx(txs, b) ==> forall name :: FirstNamed(filters, b, name) ==> name == UNKNOWN
  {
    hide Delivered, Reordered, HasRow, FirstNamed, NameForwarded, ForwardedBy, LastName;
    forall name
      ensures NameForwarded(forwarded, b, name) <==> FirstNamed(filters, b, name)
    {
      ForwardedNames(filters, forwarded, b, name);
    }
    RowExactly(r, h, txs, forwarded, b);
    RowInEveryOrder(r, h, txs, forwarded, b);
    RowInNoOrder(r, h, txs, forwarded, b);
  }

  /** A bank whose first record at every filter that saw it has no name has no row, whatever later records say. */
  lemma NamelessFirst(r: Run, h: Routing, txs: set<Tx>, filters: seq<seq<Named>>, forwarded: set<Named>, b: int, j: nat)
    requires ForwardedBy(filters, forwarded) && Delivered(r, h, txs, forwarded)
    requires forall k, n: Named :: 0 <= k < |filters| && n.bank == b && IsFirst(filters[k], n) ==> NameOf(n.name, None).None?
    ensures !HasRow(r, j, b)
  {
    hide Delivered, Reordered, ForwardedBy, LastName, IsFirst;
    if HasRow(r, j, b) {
      var row: Row :| row.bank == b && Joined(r.joinerBest(j), r.joinerCache(j), row);
      RowsAreMaxima(r, h, txs, forwarded, j, row);
      ForwardedNames(filters, forwarded, b, row.name);
    }
  }

  const PAYMENT := Tx(1, "a", 1.0)
  const NAMELESS := Named(1, Some(UNKNOWN))

  lemma PlaceholderRecords()
    ensures HasTx({PAYMENT}, 1)
    ensures Maxima({PAYMENT}, map[1 := (1.0, "a")]) && Maxima({}, map[])
    ensures Cached([NAMELESS], map[1 := UNKNOWN]) && Cached([], map[])
  {
    assert IsMaximum({PAYMENT}, 1, 1.0, "a");
    assert [NAMELESS][..0] == [];
  }

  /** A bank that is named like the placeholder: it has a transaction and a name, and no row. */
  lemma NamedLikeThePlaceholder()
    ensures exists r, h, txs, forwarded ::
              && Delivered(r, h, txs, forwarded)
              && HasTx(txs, 1) && NameForwarded(forwarded, 1, UNKNOWN)
              && forall j :: !HasRow(r, j, 1)
  {
    hide Maxima, Cached, HasTx;
    PlaceholderRecords();
    var best: Best := map[1 := (1.0, "a")];
    var h := Routing(b => 0, b => 0);
    var r := Run((m: nat) => if m == 0 then {PAYMENT} else {}, (m: nat) => if m == 0 then best else map[],
                 (j: nat) => if j == 0 then {PAYMENT} else {}, (j: nat) => if j == 0 then best else map[],
                 (j: nat) => if j == 0 then [NAMELESS] else [], (j: nat) => if j == 0 then map[1 := UNKNOWN] else map[]);
    assert SentToJoiner(r, PAYMENT) by {
      assert 1 in r.mapperBest(0) && r.mapperBest(0)[1] == (1.0, "a");
    }
    assert Delivered(r, h, {PAYMENT}, {NAMELESS});
  }
}
