/**
 The protocol between clients and the gateway: every message is a type followed
 by fields, strings preceded by their length, read from a socket that delivers
 bytes in pieces of any size. Text is ASCII, one octet per character, section 3
 of RFC 3629; doubles are eight uninterpreted octets.
 */
module Wire {

  type Byte = b: nat | b < 256

  const UINT32_LIMIT := 0x1_0000_0000
  const UINT32_SIZE := 4
  const DOUBLE_SIZE := 8

  // ----- Messages -----

  const ACCOUNT_RECORD := 1
  const TRANSACTION_RECORD := 2
  const QUERY_1_RESULT := 3
  const QUERY_2_RESULT := 4
  const QUERY_3_RESULT := 5
  const QUERY_4_RESULT := 6
  const QUERY_5_RESULT := 7
  const CLOSE := 10

  /** An EntityField is sent as text and received as a number. */
  datatype Field = StringField | DoubleField | NumberField | EntityField

  datatype Value = Text(text: string) | Double(bits: seq<Byte>) | Number(n: nat)

  /** A record with the fields of its type, or the list of accounts that answers query 4. */
  datatype Message = Record(kind: nat, values: seq<Value>) | Accounts(accounts: seq<string>)

  /** The fields of each type, in the order they are sent and received; ACK, EOF and CLOSE have none. */
  function Layout(kind: nat): seq<Field> {
    if kind == ACCOUNT_RECORD then [StringField, NumberField, StringField, EntityField, StringField]
    else if kind == TRANSACTION_RECORD then
      [StringField, StringField, StringField, StringField, StringField, DoubleField,
       StringField, DoubleField, StringField, StringField]
    else if kind == QUERY_1_RESULT || kind == QUERY_2_RESULT then [StringField, StringField, DoubleField]
    else if kind == QUERY_3_RESULT then [StringField, DoubleField]
    else if kind == QUERY_5_RESULT then [NumberField]
    else []
  }

  predicate HasHandler(kind: nat) {
    ACCOUNT_RECORD <= kind <= CLOSE
  }

  predicate Sendable(s: string) {
    |s| < UINT32_LIMIT && forall i :: 0 <= i < |s| ==> s[i] as int < 128
  }

  predicate Fits(f: Field, v: Value) {
    match f
    case StringField => v.Text? && Sendable(v.text)
    case DoubleField => v.Double? && |v.bits| == DOUBLE_SIZE
    case NumberField => v.Number? && v.n < UINT32_LIMIT
    case EntityField => v.Text? && Sendable(v.text)
  }

  predicate AllFit(fields: seq<Field>, values: seq<Value>) {
    |values| == |fields| && forall i :: 0 <= i < |fields| ==> Fits(fields[i], values[i])
  }

  predicate ValidMessage(m: Message) {
    match m
    case Record(kind, values) => HasHandler(kind) && kind != QUERY_4_RESULT && AllFit(Layout(kind), values)
    case Accounts(accounts) => |accounts| < UINT32_LIMIT && forall i :: 0 <= i < |accounts| ==> Sendable(accounts[i])
  }

  // ----- Sending -----

  function Uint32(n: nat): (bytes: seq<Byte>)
    requires n < UINT32_LIMIT
    ensures |bytes| == UINT32_SIZE
  {
    [n / 0x100_0000, n / 0x1_0000 % 256, n / 256 % 256, n % 256]
  }

  function Octets(s: string): (bytes: seq<Byte>)
    requires Sendable(s)
    ensures |bytes| == |s| && forall i :: 0 <= i < |s| ==> bytes[i] == s[i] as int
  {
    seq(|s|, i requires 0 <= i < |s| => s[i] as int)
  }

  function SerializeString(s: string): seq<Byte>
    requires Sendable(s)
  {
    Uint32(|s|) + Octets(s)
  }

  function SerializeValue(f: Field, v: Value): seq<Byte>
    requires Fits(f, v)
  {
    match v
    case Text(text) => SerializeString(text)
    case Double(bits) => bits
    case Number(n) => Uint32(n)
  }

  function SerializeValues(fields: seq<Field>, values: seq<Value>): seq<Byte>
    requires AllFit(fields, values)
  {
    if fields == [] then [] else SerializeValue(fields[0], values[0]) + SerializeValues(fields[1..], values[1..])
  }

  function SerializeStrings(ss: seq<string>): seq<Byte>
    requires forall i :: 0 <= i < |ss| ==> Sendable(ss[i])
  {
    if ss == [] then [] else SerializeString(ss[0]) + SerializeStrings(ss[1..])
  }

  function Serialize(m: Message): seq<Byte>
    requires ValidMessage(m)
  {
    match m
    case Record(kind, values) => Uint32(kind) + SerializeValues(Layout(kind), values)
    case Accounts(accounts) => Uint32(QUERY_4_RESULT) + (Uint32(|accounts|) + SerializeStrings(accounts))
  }

  function SerializeAll(ms: seq<Message>): seq<Byte>
    requires forall i :: 0 <= i < |ms| ==> ValidMessage(ms[i])
  {
    if ms == [] then [] else Serialize(ms[0]) + SerializeAll(ms[1..])
  }

  // ----- What a stream of bytes means -----

  /** A value and the bytes after it, or why there is none. */
  datatype Parsed<T> = Got(value: T, rest: seq<Byte>) | Incomplete | Malformed

  /** The unsigned big-endian number. */
  function FromBytes(bytes: seq<Byte>): nat {
    if bytes == [] then 0 else FromBytes(bytes[..|bytes| - 1]) * 256 + bytes[|bytes| - 1]
  }

  function ParseSized(bytes: seq<Byte>, size: nat): Parsed<seq<Byte>> {
    if |bytes| < size then Incomplete else Got(bytes[..size], bytes[size..])
  }

  function ParseUint32(bytes: seq<Byte>): Parsed<nat> {
    match ParseSized(bytes, UINT32_SIZE)
    case Got(value, rest) => Got(FromBytes(value), rest)
    case Incomplete => Incomplete
    case Malformed => Malformed
  }

  predicate Ascii(bytes: seq<Byte>) {
    forall i :: 0 <= i < |bytes| ==> bytes[i] < 128
  }

  function Decode(bytes: seq<Byte>): (s: string)
    requires Ascii(bytes)
    ensures |s| == |bytes| && forall i :: 0 <= i < |s| ==> s[i] as int == bytes[i]
  {
    seq(|bytes|, i requires 0 <= i < |bytes| => bytes[i] as char)
  }

  function ParseString(bytes: seq<Byte>): Parsed<string> {
    match ParseUint32(bytes)
    case Got(size, after) =>
      (match ParseSized(after, size)
       case Got(value, rest) => if Ascii(value) then Got(Decode(value), rest) else Malformed
       case Incomplete => Incomplete
       case Malformed => Malformed)
    case Incomplete => Incomplete
    case Malformed => Malformed
  }

  function ParseValue(f: Field, bytes: seq<Byte>): Parsed<Value> {
    match f
    case StringField =>
      (match ParseString(bytes)
       case Got(text, rest) => Got(Text(text), rest)
       case Incomplete => Incomplete
       case Malformed => Malformed)
    case DoubleField =>
      (match ParseSized(bytes, DOUBLE_SIZE)
       case Got(bits, rest) => Got(Double(bits), rest)
       case Incomplete => Incomplete
       case Malformed => Malformed)
    case NumberField =>
      (match ParseUint32(bytes)
       case Got(n, rest) => Got(Number(n), rest)
       case Incomplete => Incomplete
       case Malformed => Malformed)
    case EntityField =>
      (match ParseLengthThenNumber(bytes)
       case Got(n, rest) => Got(Number(n), rest)
       case Incomplete => Incomplete
       case Malformed => Malformed)
  }

  /** The octets of a text, read as one big-endian number. */
  function ParseLengthThenNumber(bytes: seq<Byte>): Parsed<nat> {
    match ParseUint32(bytes)
    case Got(size, after) =>
      (match ParseSized(after, size)
       case Got(value, rest) => Got(FromBytes(value), rest)
       case Incomplete => Incomplete
       case Malformed => Malformed)
    case Incomplete => Incomplete
    case Malformed => Malformed
  }

  /** The values of the fields, after those already read. */
  function ParseValues(fields: seq<Field>, bytes: seq<Byte>, read: seq<Value>): Parsed<seq<Value>>
    decreases |fields|
  {
    if fields == [] then Got(read, bytes)
    else
      match ParseValue(fields[0], bytes)
      case Got(value, rest) => ParseValues(fields[1..], rest, read + [value])
      case Incomplete => Incomplete
      case Malformed => Malformed
  }

  function ParseStrings(count: nat, bytes: seq<Byte>, read: seq<string>): Parsed<seq<string>>
    decreases count
  {
    if count == 0 then Got(read, bytes)
    else
      match ParseString(bytes)
      case Got(s, rest) => ParseStrings(count - 1, rest, read + [s])
      case Incomplete => Incomplete
      case Malformed => Malformed
  }

  function ParseAccounts(bytes: seq<Byte>): Parsed<Message> {
    match ParseUint32(bytes)
    case Got(count, after) =>
      (match ParseStrings(count, after, [])
       case Got(accounts, rest) => Got(Accounts(accounts), rest)
       case Incomplete => Incomplete
       case Malformed => Malformed)
    case Incomplete => Incomplete
    case Malformed => Malformed
  }

  function ParseRecord(kind: nat, bytes: seq<Byte>): Parsed<Message> {
    match ParseValues(Layout(kind), bytes, [])
    case Got(values, rest) => Got(Record(kind, values), rest)
    case Incomplete => Incomplete
    case Malformed => Malformed
  }

  /** One message; a type without a handler is an error. */
  function ParseMessage(bytes: seq<Byte>): Parsed<Message> {
    match ParseUint32(bytes)
    case Got(kind, after) =>
      if !HasHandler(kind) then Malformed
      else if kind == QUERY_4_RESULT then ParseAccounts(after)
      else ParseRecord(kind, after)
    case Incomplete => Incomplete
    case Malformed => Malformed
  }

  function ParseMessages(count: nat, bytes: seq<Byte>): Parsed<seq<Message>> {
    if count == 0 then Got([], bytes)
    else
      match ParseMessage(bytes)
      case Got(m, after) =>
        (match ParseMessages(count - 1, after)
         case Got(ms, rest) => Got([m] + ms, rest)
         case Incomplete => Incomplete
         case Malformed => Malformed)
      case Incomplete => Incomplete
      case Malformed => Malformed
  }

  // ----- Round trips -----

  lemma SizedThen(a: seq<Byte>, rest: seq<Byte>)
    ensures ParseSized(a + rest, |a|) == Got(a, rest)
  {
  }

  lemma FourBytes(b: seq<Byte>)
    requires |b| == 4
    ensures FromBytes(b) == b[0] as int * 0x100_0000 + b[1] as int * 0x1_0000 + b[2] as int * 256 + b[3] as int
  {
    assert b[..3][..2] == b[..2] && b[..2][..1] == b[..1] && b[..1][..0] == [];
    assert FromBytes(b[..1]) == b[0];
    assert FromBytes(b[..2]) == FromBytes(b[..1]) * 256 + b[1];
    assert FromBytes(b[..3]) == FromBytes(b[..2]) * 256 + b[2];
  }

  lemma Uint32Value(n: nat)
    requires n < UINT32_LIMIT
    ensures FromBytes(Uint32(n)) == n
  {
    FourBytes(Uint32(n));
    assert n / 256 / 256 == n / 0x1_0000 && n / 256 / 256 / 256 == n / 0x100_0000;
    assert n == n / 256 * 256 + n % 256;
    assert n / 256 == n / 256 / 256 * 256 + n / 256 % 256;
    assert n / 256 / 256 == n / 256 / 256 / 256 * 256 + n / 256 / 256 % 256;
  }

  lemma Grouped<T>(a: seq<T>, b: seq<T>, c: seq<T>)
    ensures (a + b) + c == a + (b + c)
  {
  }

  lemma Uint32RoundTrip(n: nat, rest: seq<Byte>)
    requires n < UINT32_LIMIT
    ensures ParseUint32(Uint32(n) + rest) == Got(n, rest)
  {
    SizedThen(Uint32(n), rest);
    Uint32Value(n);
  }

  lemma StringRoundTrip(s: string, rest: seq<Byte>)
    requires Sendable(s)
    ensures ParseString(SerializeString(s) + rest) == Got(s, rest)
  {
    assert SerializeString(s) + rest == Uint32(|s|) + (Octets(s) + rest);
    Uint32RoundTrip(|s|, Octets(s) + rest);
    SizedThen(Octets(s), rest);
    assert Decode(Octets(s)) == s;
  }

  /** What the other side receives: the value itself, or the number its octets spell. */
  function Arrives(f: Field, v: Value): Value
    requires Fits(f, v)
  {
    if f == EntityField then Number(FromBytes(Octets(v.text))) else v
  }

  function ArriveAll(fields: seq<Field>, values: seq<Value>): (arrived: seq<Value>)
    requires AllFit(fields, values)
    ensures |arrived| == |values| && forall i :: 0 <= i < |values| ==> arrived[i] == Arrives(fields[i], values[i])
  {
    if values == [] then [] else [Arrives(fields[0], values[0])] + ArriveAll(fields[1..], values[1..])
  }

  function Received(m: Message): Message
    requires ValidMessage(m)
  {
    if m.Record? then Record(m.kind, ArriveAll(Layout(m.kind), m.values)) else m
  }

  /** Every message arrives as it was sent, account records excepted. */
  lemma ReceivedAsSent(m: Message)
    requires ValidMessage(m)
    ensures Received(m) == m <==> !(m.Record? && m.kind == ACCOUNT_RECORD)
  {
    if m.Record? {
      var arrived := ArriveAll(Layout(m.kind), m.values);
      if m.kind == ACCOUNT_RECORD {
        assert arrived[3] == Arrives(EntityField, m.values[3]);
      } else {
        assert forall i :: 0 <= i < |Layout(m.kind)| ==> Layout(m.kind)[i] != EntityField;
        assert arrived == m.values;
      }
    }
  }

  lemma EntityArrives(text: string, rest: seq<Byte>)
    requires Sendable(text)
    ensures ParseLengthThenNumber(SerializeString(text) + rest) == Got(FromBytes(Octets(text)), rest)
  {
    assert SerializeString(text) + rest == Uint32(|text|) + (Octets(text) + rest);
    Uint32RoundTrip(|text|, Octets(text) + rest);
    SizedThen(Octets(text), rest);
  }

  lemma ValueRoundTrip(f: Field, v: Value, rest: seq<Byte>)
    requires Fits(f, v)
    ensures ParseValue(f, SerializeValue(f, v) + rest) == Got(Arrives(f, v), rest)
  {
    match v
    case Text(text) =>
      StringRoundTrip(text, rest);
      EntityArrives(text, rest);
    case Double(bits) => SizedThen(bits, rest);
    case Number(n) => Uint32RoundTrip(n, rest);
  }

  lemma {:induction false} ValuesRoundTrip(fields: seq<Field>, values: seq<Value>, rest: seq<Byte>, read: seq<Value>)
    requires AllFit(fields, values)
    ensures ParseValues(fields, SerializeValues(fields, values) + rest, read) == Got(read + ArriveAll(fields, values), rest)
    decreases |fields|
  {
    if fields == [] {
      assert read + ArriveAll(fields, values) == read;
      assert [] + rest == rest;
    } else {
      var tail := SerializeValues(fields[1..], values[1..]) + rest;
      Grouped(SerializeValue(fields[0], values[0]), SerializeValues(fields[1..], values[1..]), rest);
      ValueRoundTrip(fields[0], values[0], tail);
      var first := Arrives(fields[0], values[0]);
      ValuesRoundTrip(fields[1..], values[1..], rest, read + [first]);
      Grouped(read, [first], ArriveAll(fields[1..], values[1..]));
    }
  }

  lemma {:induction false} StringsRoundTrip(ss: seq<string>, rest: seq<Byte>, read: seq<string>)
    requires forall i :: 0 <= i < |ss| ==> Sendable(ss[i])
    ensures ParseStrings(|ss|, SerializeStrings(ss) + rest, read) == Got(read + ss, rest)
    decreases |ss|
  {
    if ss == [] {
      assert read + ss == read;
      assert [] + rest == rest;
    } else {
      var tail := SerializeStrings(ss[1..]) + rest;
      Grouped(SerializeString(ss[0]), SerializeStrings(ss[1..]), rest);
      StringRoundTrip(ss[0], tail);
      StringsRoundTrip(ss[1..], rest, read + [ss[0]]);
      Grouped(read, [ss[0]], ss[1..]);
      assert [ss[0]] + ss[1..] == ss;
    }
  }

  lemma MessageRoundTrip(m: Message, rest: seq<Byte>)
    requires ValidMessage(m)
    ensures ParseMessage(Serialize(m) + rest) == Got(Received(m), rest)
  {
    match m
    case Record(kind, values) =>
      var body := SerializeValues(Layout(kind), values);
      assert Serialize(m) + rest == Uint32(kind) + (body + rest);
      Uint32RoundTrip(kind, body + rest);
      ValuesRoundTrip(Layout(kind), values, rest, []);
      assert [] + ArriveAll(Layout(kind), values) == ArriveAll(Layout(kind), values);
    case Accounts(accounts) =>
      AccountsRoundTrip(accounts, rest);
  }

  lemma AccountsRoundTrip(accounts: seq<string>, rest: seq<Byte>)
    requires ValidMessage(Accounts(accounts))
    ensures ParseMessage(Serialize(Accounts(accounts)) + rest) == Got(Accounts(accounts), rest)
  {
    var list := SerializeStrings(accounts);
    var after := Uint32(|accounts|) + (list + rest);
    assert Serialize(Accounts(accounts)) + rest == Uint32(QUERY_4_RESULT) + after;
    Uint32RoundTrip(QUERY_4_RESULT, after);
    Uint32RoundTrip(|accounts|, list + rest);
    StringsRoundTrip(accounts, rest, []);
    assert [] + accounts == accounts;
  }

  function ReceivedAll(ms: seq<Message>): (received: seq<Message>)
    requires forall i :: 0 <= i < |ms| ==> ValidMessage(ms[i])
    ensures |received| == |ms| && forall i :: 0 <= i < |ms| ==> received[i] == Received(ms[i])
  {
    if ms == [] then [] else [Received(ms[0])] + ReceivedAll(ms[1..])
  }

  lemma StreamStep(m: Message, after: seq<Byte>, count: nat, ms: seq<Message>, rest: seq<Byte>)
    requires ValidMessage(m) && ParseMessages(count, after) == Got(ms, rest)
    ensures ParseMessages(count + 1, Serialize(m) + after) == Got([Received(m)] + ms, rest)
  {
    MessageRoundTrip(m, after);
  }

  /** The bytes of a list of messages read back, one message after the other, as the list. */
  lemma {:induction false} StreamRoundTrip(ms: seq<Message>, rest: seq<Byte>)
    requires forall i :: 0 <= i < |ms| ==> ValidMessage(ms[i])
    ensures ParseMessages(|ms|, SerializeAll(ms) + rest) == Got(ReceivedAll(ms), rest)
    decreases |ms|
  {
    if ms == [] {
      assert SerializeAll(ms) + rest == rest;
    } else {
      StreamRoundTrip(ms[1..], rest);
      StreamStep(ms[0], SerializeAll(ms[1..]) + rest, |ms| - 1, ReceivedAll(ms[1..]), rest);
      Grouped(Serialize(ms[0]), SerializeAll(ms[1..]), rest);
    }
  }

  /** What is read next when the first i messages have been read. */
  lemma HeadOfStream(ms: seq<Message>, i: nat)
    requires i < |ms| && forall k :: 0 <= k < |ms| ==> ValidMessage(ms[k])
    ensures ParseMessage(SerializeAll(ms[i..])) == Got(Received(ms[i]), SerializeAll(ms[i + 1..]))
  {
    assert ms[i..][0] == ms[i] && ms[i..][1..] == ms[i + 1..];
    MessageRoundTrip(ms[i], SerializeAll(ms[i + 1..]));
  }

  lemma NothingLeft(ms: seq<Message>)
    ensures SerializeAll(ms[|ms|..]) == []
  {
  }

  // ----- The octets themselves -----

  lemma SmallNumber(n: nat)
    requires n < 256
    ensures Uint32(n) == [0, 0, 0, n]
  {
  }

  /** The first four octets are the type; ACK, EOF and CLOSE, types 8, 9 and 10, have nothing else. */
  lemma TypeComesFirst(m: Message)
    requires ValidMessage(m)
    ensures |Serialize(m)| >= 4 && Serialize(m)[..4] == [0, 0, 0, if m.Record? then m.kind else 6]
    ensures m.Record? && m.kind >= 8 ==> Serialize(m) == [0, 0, 0, m.kind]
  {
    SmallNumber(if m.Record? then m.kind else 6);
  }

  lemma LastThree(account: string, entity: string, owner: string)
    requires Sendable(account) && Sendable(entity) && Sendable(owner)
    ensures AllFit([StringField, EntityField, StringField], [Text(account), Text(entity), Text(owner)])
    ensures SerializeValues([StringField, EntityField, StringField], [Text(account), Text(entity), Text(owner)]) ==
              Uint32(|account|) + Octets(account) + Uint32(|entity|) + Octets(entity) + Uint32(|owner|) + Octets(owner)
  {
    hide Uint32, Octets, SerializeString, SerializeValues, Sendable;
    StringIs(account);
    StringIs(entity);
    StringIs(owner);
    FirstValue(StringField, [], Text(owner), [], [StringField], [Text(owner)]);
    FirstValue(EntityField, [StringField], Text(entity), [Text(owner)], [EntityField, StringField], [Text(entity), Text(owner)]);
    FirstValue(StringField, [EntityField, StringField], Text(account), [Text(entity), Text(owner)],
               [StringField, EntityField, StringField], [Text(account), Text(entity), Text(owner)]);
  }

  /** The octets of an account record: its fields in their order, each text after its length. */
  lemma AccountOctets(bank: string, id: nat, account: string, entity: string, owner: string)
    requires Sendable(bank) && Sendable(account) && Sendable(entity) && Sendable(owner) && id < UINT32_LIMIT
    ensures var m := Record(1, [Text(bank), Number(id), Text(account), Text(entity), Text(owner)]);
            ValidMessage(m) && Serialize(m) ==
              [0, 0, 0, 1] + ((Uint32(|bank|) + Octets(bank)) + (Uint32(id) +
                (Uint32(|account|) + Octets(account) + Uint32(|entity|) + Octets(entity) + Uint32(|owner|) + Octets(owner))))
  {
    hide Uint32, Octets, SerializeString, SerializeValues, Sendable;
    SmallNumber(1);
    StringIs(bank);
    LastThree(account, entity, owner);
    FirstValue(NumberField, [StringField, EntityField, StringField], Number(id), [Text(account), Text(entity), Text(owner)],
               [NumberField, StringField, EntityField, StringField], [Number(id), Text(account), Text(entity), Text(owner)]);
    FirstValue(StringField, [NumberField, StringField, EntityField, StringField],
               Text(bank), [Number(id), Text(account), Text(entity), Text(owner)],
               Layout(1), [Text(bank), Number(id), Text(account), Text(entity), Text(owner)]);
  }

  lemma StringIs(s: string)
    requires Sendable(s)
    ensures SerializeString(s) == Uint32(|s|) + Octets(s)
  {
  }

  lemma FirstValue(f: Field, fields: seq<Field>, v: Value, values: seq<Value>, allFields: seq<Field>, all: seq<Value>)
    requires Fits(f, v) && AllFit(fields, values) && allFields == [f] + fields && all == [v] + values
    ensures AllFit(allFields, all)
    ensures SerializeValues(allFields, all) == SerializeValue(f, v) + SerializeValues(fields, values)
    ensures fields == [] ==> SerializeValues(fields, values) == []
  {
    assert allFields[1..] == fields && all[1..] == values;
  }

  /** The octets of the answer to query 4: the number of accounts, then each after its length. */
  lemma TwoAccountsOctets(a: string, b: string)
    requires Sendable(a) && Sendable(b)
    ensures ValidMessage(Accounts([a, b]))
    ensures Serialize(Accounts([a, b])) ==
              [0, 0, 0, 6] + [0, 0, 0, 2] + Uint32(|a|) + Octets(a) + Uint32(|b|) + Octets(b)
  {
    SmallNumber(6);
    SmallNumber(2);
    assert [a, b][1..] == [b] && [b][1..] == [];
    assert SerializeStrings([b]) == SerializeString(b) + SerializeStrings([]);
    assert SerializeStrings([a, b]) == SerializeString(a) + SerializeStrings([b]);
  }

  /** A type from 1 to 10 has a handler and no other: what follows any other type is never looked at. */
  lemma UnknownTypes(n: nat, rest: seq<Byte>)
    requires n < UINT32_LIMIT && !(1 <= n <= 10)
    ensures ParseMessage(Uint32(n) + rest) == Malformed
  {
    Uint32RoundTrip(n, rest);
  }

  // ----- A stream that ends too early -----

  lemma NumberCutShort(n: nat, k: nat)
    requires n < UINT32_LIMIT && k < 4
    ensures ParseUint32(Uint32(n)[..k]).Incomplete?
  {
  }

  lemma StringCutShort(s: string, k: nat)
    requires Sendable(s) && k < |SerializeString(s)|
    ensures ParseString(SerializeString(s)[..k]).Incomplete? && ParseLengthThenNumber(SerializeString(s)[..k]).Incomplete?
  {
    hide FromBytes, Uint32;
    var bytes := SerializeString(s);
    if k < 4 {
      assert bytes[..k] == Uint32(|s|)[..k];
    } else {
      assert bytes[..k] == Uint32(|s|) + Octets(s)[..k - 4];
      Uint32RoundTrip(|s|, Octets(s)[..k - 4]);
    }
  }

  lemma ValueCutShort(f: Field, v: Value, k: nat)
    requires Fits(f, v) && k < |SerializeValue(f, v)|
    ensures ParseValue(f, SerializeValue(f, v)[..k]).Incomplete?
  {
    hide ParseString, ParseLengthThenNumber;
    match v
    case Text(text) => StringCutShort(text, k);
    case Double(bits) =>
    case Number(n) => NumberCutShort(n, k);
  }

  lemma {:induction false} ValuesCutShort(fields: seq<Field>, values: seq<Value>, k: nat, read: seq<Value>)
    requires AllFit(fields, values) && k < |SerializeValues(fields, values)|
    ensures ParseValues(fields, SerializeValues(fields, values)[..k], read).Incomplete?
    decreases |fields|
  {
    hide ParseValue, SerializeValue, Fits;
    var first, tail := SerializeValue(fields[0], values[0]), SerializeValues(fields[1..], values[1..]);
    if k < |first| {
      assert (first + tail)[..k] == first[..k];
      ValueCutShort(fields[0], values[0], k);
    } else {
      assert (first + tail)[..k] == first + tail[..k - |first|];
      ValueRoundTrip(fields[0], values[0], tail[..k - |first|]);
      ValuesCutShort(fields[1..], values[1..], k - |first|, read + [Arrives(fields[0], values[0])]);
    }
  }

  lemma {:induction false} StringsCutShort(ss: seq<string>, k: nat, read: seq<string>)
    requires (forall i :: 0 <= i < |ss| ==> Sendable(ss[i])) && k < |SerializeStrings(ss)|
    ensures ParseStrings(|ss|, SerializeStrings(ss)[..k], read).Incomplete?
    decreases |ss|
  {
    hide ParseString, SerializeString;
    var first, tail := SerializeString(ss[0]), SerializeStrings(ss[1..]);
    if k < |first| {
      assert (first + tail)[..k] == first[..k];
      StringCutShort(ss[0], k);
    } else {
      assert (first + tail)[..k] == first + tail[..k - |first|];
      StringRoundTrip(ss[0], tail[..k - |first|]);
      StringsCutShort(ss[1..], k - |first|, read + [ss[0]]);
    }
  }

  /** Of a message that is cut short nothing is read: wherever the stream ends before its last octet, that is an error. */
  lemma CutShort(m: Message, k: nat)
    requires ValidMessage(m) && k < |Serialize(m)|
    ensures ParseMessage(Serialize(m)[..k]).Incomplete?
  {
    hide Uint32, SerializeValues, SerializeStrings, ParseValues, ParseStrings, Sendable, Fits;
    var kind := if m.Record? then m.kind else QUERY_4_RESULT;
    var body := if m.Record? then SerializeValues(Layout(m.kind), m.values)
                else Uint32(|m.accounts|) + SerializeStrings(m.accounts);
    assert Serialize(m) == Uint32(kind) + body;
    if k < 4 {
      assert Serialize(m)[..k] == Uint32(kind)[..k];
      NumberCutShort(kind, k);
    } else {
      assert Serialize(m)[..k] == Uint32(kind) + body[..k - 4];
      Uint32RoundTrip(kind, body[..k - 4]);
      if m.Record? {
        ValuesCutShort(Layout(m.kind), m.values, k - 4, []);
      } else {
        AccountsCutShort(m.accounts, k - 4);
      }
    }
  }

  lemma AccountsCutShort(accounts: seq<string>, k: nat)
    requires ValidMessage(Accounts(accounts)) && k < |Uint32(|accounts|) + SerializeStrings(accounts)|
    ensures ParseAccounts((Uint32(|accounts|) + SerializeStrings(accounts))[..k]).Incomplete?
  {
    hide Uint32, SerializeStrings, ParseStrings;
    var body := Uint32(|accounts|) + SerializeStrings(accounts);
    if k < 4 {
      assert body[..k] == Uint32(|accounts|)[..k];
      NumberCutShort(|accounts|, k);
    } else {
      assert body[..k] == Uint32(|accounts|) + SerializeStrings(accounts)[..k - 4];
      Uint32RoundTrip(|accounts|, SerializeStrings(accounts)[..k - 4]);
      StringsCutShort(accounts, k - 4, []);
    }
  }

  // ----- Reading from a socket -----

  class Socket {
    var pending: seq<Byte>   // what will still arrive before the peer closes

    constructor (pending: seq<Byte>)
      ensures this.pending == pending
    {
      this.pending := pending;
    }

    /** Some of the next bytes, at least one unless none is asked for or the peer has closed. */
    method RecvInto(space: nat) returns (chunk: seq<Byte>)
      modifies this
      ensures old(pending) == chunk + pending && |chunk| <= space
      ensures chunk == [] <==> space == 0 || old(pending) == []
    {
      if space == 0 || pending == [] {
        return [];
      }
      var n :| 1 <= n <= space && n <= |pending|;
      chunk, pending := pending[..n], pending[n..];
    }
  }

  /** Exactly size bytes, however they arrive, or an error if the stream ends before. */
  method RecvSized(socket: Socket, size: nat) returns (r: Parsed<seq<Byte>>)
    modifies socket
    ensures r == ParseSized(old(socket.pending), size)
    ensures r.Got? ==> socket.pending == r.rest
    ensures if |old(socket.pending)| < size then r.Incomplete?
            else r.Got? && r.value == old(socket.pending)[..size] && socket.pending == old(socket.pending)[size..]
  {
    var buffer := new Byte[size];
    var position := 0;
    while position < size
      invariant 0 <= position <= size
      invariant old(socket.pending) == buffer[..position] + socket.pending
      invariant fresh(buffer)
    {
      ghost var stream := socket.pending;
      var chunk := socket.RecvInto(size - position);
      if chunk == [] {
        return Incomplete;
      }
      ghost var before, after := buffer[..position], socket.pending;
      for i := 0 to |chunk|
        invariant buffer[..position + i] == before + chunk[..i] && socket.pending == after
      {
        buffer[position + i] := chunk[i];
      }
      assert chunk[..|chunk|] == chunk;
      assert before + stream == before + chunk + after;
      position := position + |chunk|;
    }
    r := Got(buffer[..], socket.pending);
    assert buffer[..position] == buffer[..];
    SizedThen(buffer[..], socket.pending);
  }

  method RecvUint32(socket: Socket) returns (r: Parsed<nat>)
    modifies socket
    ensures r == ParseUint32(old(socket.pending))
    ensures r.Got? ==> socket.pending == r.rest
  {
    var sized := RecvSized(socket, UINT32_SIZE);
    match sized
    case Got(value, rest) => r := Got(FromBytes(value), rest);
    case Incomplete => r := Incomplete;
    case Malformed => r := Malformed;
  }

  method RecvString(socket: Socket) returns (r: Parsed<string>)
    modifies socket
    ensures r == ParseString(old(socket.pending))
    ensures r.Got? ==> socket.pending == r.rest
  {
    var size := RecvUint32(socket);
    match size {
      case Incomplete => return Incomplete;
      case Malformed => return Malformed;
      case Got(n, _) =>
        var sized := RecvSized(socket, n);
        match sized
        case Got(value, rest) => r := if Ascii(value) then Got(Decode(value), rest) else Malformed;
        case Incomplete => r := Incomplete;
        case Malformed => r := Malformed;
    }
  }

  method RecvLengthThenNumber(socket: Socket) returns (r: Parsed<nat>)
    modifies socket
    ensures r == ParseLengthThenNumber(old(socket.pending))
    ensures r.Got? ==> socket.pending == r.rest
  {
    var size := RecvUint32(socket);
    match size {
      case Incomplete => return Incomplete;
      case Malformed => return Malformed;
      case Got(n, _) =>
        var sized := RecvSized(socket, n);
        match sized
        case Got(value, rest) => r := Got(FromBytes(value), rest);
        case Incomplete => r := Incomplete;
        case Malformed => r := Malformed;
    }
  }

  method RecvValue(socket: Socket, f: Field) returns (r: Parsed<Value>)
    modifies socket
    ensures r == ParseValue(f, old(socket.pending))
    ensures r.Got? ==> socket.pending == r.rest
  {
    match f {
      case StringField =>
        var s := RecvString(socket);
        r := match s case Got(text, rest) => Got(Text(text), rest) case Incomplete => Incomplete case Malformed => Malformed;
      case DoubleField =>
        var d := RecvSized(socket, DOUBLE_SIZE);
        r := match d case Got(bits, rest) => Got(Double(bits), rest) case Incomplete => Incomplete case Malformed => Malformed;
      case NumberField =>
        var n := RecvUint32(socket);
        r := match n case Got(value, rest) => Got(Number(value), rest) case Incomplete => Incomplete case Malformed => Malformed;
      case EntityField =>
        var e := RecvLengthThenNumber(socket);
        r := match e case Got(value, rest) => Got(Number(value), rest) case Incomplete => Incomplete case Malformed => Malformed;
    }
  }

  /** The handlers of all types but query 4: one read per field. */
  method RecvRecord(socket: Socket, kind: nat) returns (r: Parsed<Message>)
    modifies socket
    ensures r == ParseRecord(kind, old(socket.pending))
    ensures r.Got? ==> socket.pending == r.rest
  {
    var fields := Layout(kind);
    var values := [];
    for i := 0 to |fields|
      invariant ParseValues(fields, old(socket.pending), []) == ParseValues(fields[i..], socket.pending, values)
    {
      var v := RecvValue(socket, fields[i]);
      assert fields[i..][1..] == fields[i + 1..];
      match v {
        case Got(value, _) => values := values + [value];
        case Incomplete => return Incomplete;
        case Malformed => return Malformed;
      }
    }
    r := Got(Record(kind, values), socket.pending);
  }

  method RecvAccounts(socket: Socket) returns (r: Parsed<Message>)
    modifies socket
    ensures r == ParseAccounts(old(socket.pending))
    ensures r.Got? ==> socket.pending == r.rest
  {
    hide ParseString, ParseUint32, FromBytes;
    var size := RecvUint32(socket);
    if !size.Got? {
      return if size.Incomplete? then Incomplete else Malformed;
    }
    ghost var after := socket.pending;
    var accounts := [];
    for i := 0 to size.value
      invariant ParseStrings(size.value, after, []) == ParseStrings(size.value - i, socket.pending, accounts)
    {
      var s := RecvString(socket);
      match s {
        case Got(account, _) => accounts := accounts + [account];
        case Incomplete => return Incomplete;
        case Malformed => return Malformed;
      }
    }
    r := Got(Accounts(accounts), socket.pending);
  }

  /** The next message of the stream, whatever pieces its bytes arrive in. */
  method RecvMessage(socket: Socket) returns (r: Parsed<Message>)
    modifies socket
    ensures r == ParseMessage(old(socket.pending))
    ensures r.Got? ==> socket.pending == r.rest
  {
    var kind := RecvUint32(socket);
    if !kind.Got? {
      return if kind.Incomplete? then Incomplete else Malformed;
    }
    if !HasHandler(kind.value) {
      return Malformed;
    }
    if kind.value == QUERY_4_RESULT {
      r := RecvAccounts(socket);
    } else {
      r := RecvRecord(socket, kind.value);
    }
  }

  /** The read after the first i messages returns the next one. */
  method RecvNext(socket: Socket, ghost sent: seq<Message>, ghost i: nat) returns (m: Message)
    requires i < |sent| && forall k :: 0 <= k < |sent| ==> ValidMessage(sent[k])
    requires socket.pending == SerializeAll(sent[i..])
    modifies socket
    ensures m == Received(sent[i]) && socket.pending == SerializeAll(sent[i + 1..])
  {
    HeadOfStream(sent, i);
    var r := RecvMessage(socket);
    m := r.value;
  }

  /** Repeated reads return exactly the messages that were sent. */
  method RecvAll(socket: Socket, ghost sent: seq<Message>, count: nat) returns (received: seq<Message>)
    requires count == |sent| && forall i :: 0 <= i < |sent| ==> ValidMessage(sent[i])
    requires socket.pending == SerializeAll(sent)
    modifies socket
    ensures |received| == |sent| && forall i :: 0 <= i < |sent| ==> received[i] == Received(sent[i])
    ensures socket.pending == []
  {
    hide SerializeAll, Received;
    received := [];
    assert sent[0..] == sent;
    NothingLeft(sent);
    for i := 0 to count
      invariant |received| == i && forall k :: 0 <= k < i ==> received[k] == Received(sent[k])
      invariant socket.pending == SerializeAll(sent[i..])
    {
      var m := RecvNext(socket, sent, i);
      received := received + [m];
    }
  }
}
