/** Integers as decimal text, and the text that is read as an integer. */
module Decimal {
  import opened Options

  predicate IsDigit(c: char) {
    '0' <= c <= '9'
  }

  function DigitOf(d: nat): (c: char)
    requires d < 10
    ensures IsDigit(c) && c as int - '0' as int == d
  {
    (d + '0' as int) as char
  }

  predicate AllDigits(s: string) {
    forall i :: 0 <= i < |s| ==> IsDigit(s[i])
  }

  function Digits(n: nat): string {
    if n < 10 then [DigitOf(n)] else Digits(n / 10) + [DigitOf(n % 10)]
  }

  function Value(s: string): nat
    requires AllDigits(s)
  {
    if s == [] then 0 else 10 * Value(s[..|s| - 1]) + (s[|s| - 1] as int - '0' as int)
  }

  // ----- What is read as an integer -----

  /** The space, and the control characters that count as blanks. */
  predicate IsBlank(c: char) {
    c == ' ' || '\t' <= c <= '\r' || 0x1c <= c as int <= 0x1f
  }

  /** The text without blanks at its ends. */
  function Strip(s: string): string {
    if s == [] then []
    else if IsBlank(s[0]) then Strip(s[1..])
    else if IsBlank(s[|s| - 1]) then Strip(s[..|s| - 1])
    else s
  }

  /** Digits, with single underscores between them. */
  predicate Grouped(s: string) {
    && s != [] && IsDigit(s[0]) && IsDigit(s[|s| - 1])
    && (forall i :: 0 <= i < |s| ==> IsDigit(s[i]) || s[i] == '_')
    && (forall i :: 0 < i < |s| ==> IsDigit(s[i - 1]) || IsDigit(s[i]))
  }

  function OnlyDigits(s: string): (digits: string)
    ensures AllDigits(digits)
  {
    if s == [] then []
    else OnlyDigits(s[..|s| - 1]) + if IsDigit(s[|s| - 1]) then [s[|s| - 1]] else []
  }

  function ParseNat(s: string): Option<nat> {
    if Grouped(s) then Some(Value(OnlyDigits(s))) else None
  }

  /** Digits after an optional sign. */
  function ParseSigned(s: string): Option<int> {
    if s != [] && s[0] == '-' then Signed(-1, ParseNat(s[1..]))
    else if s != [] && s[0] == '+' then Signed(1, ParseNat(s[1..]))
    else Signed(1, ParseNat(s))
  }

  function ParseInt(s: string): Option<int> {
    ParseSigned(Strip(s))
  }

  function Signed(sign: int, n: Option<nat>): Option<int> {
    match n
    case None => None
    case Some(value) => Some(sign * value)
  }

  // ----- Round trip -----

  function IntText(n: int): string {
    if n < 0 then "-" + Digits(-n) else Digits(n)
  }

  lemma {:induction false} DigitsRoundTrip(n: nat)
    ensures Digits(n) != [] && AllDigits(Digits(n)) && Value(Digits(n)) == n
  {
    if n < 10 {
      assert Digits(n)[..0] == [];
    } else {
      DigitsRoundTrip(n / 10);
      assert Digits(n)[..|Digits(n)| - 1] == Digits(n / 10);
    }
  }

  lemma {:induction false} OnlyDigitsSame(digits: string)
    requires AllDigits(digits)
    ensures OnlyDigits(digits) == digits
    decreases |digits|
  {
    if digits != [] {
      OnlyDigitsSame(digits[..|digits| - 1]);
    }
  }

  lemma NothingToStrip(s: string)
    requires s != [] && !IsBlank(s[0]) && !IsBlank(s[|s| - 1])
    ensures Strip(s) == s
  {
  }

  lemma ParseDigits(digits: string)
    requires digits != [] && AllDigits(digits)
    ensures ParseInt(digits) == Some(Value(digits) as int) && ParseInt("-" + digits) == Signed(-1, Some(Value(digits)))
  {
    hide Strip, Value, OnlyDigits;
    OnlyDigitsSame(digits);
    var signed := "-" + digits;
    NothingToStrip(digits);
    NothingToStrip(signed);
    assert signed[1..] == digits;
  }

  lemma TextRoundTrip(n: nat, digits: string)
    requires digits == Digits(n)
    ensures ParseInt(digits) == Some(n as int) && ParseInt("-" + digits) == Signed(-1, Some(n))
  {
    DigitsRoundTrip(n);
    ParseDigits(digits);
  }

  /** Reading back the text of an integer gives the integer. */
  lemma IntRoundTrip(n: int)
    ensures ParseInt(IntText(n)) == Some(n)
  {
    if n < 0 {
      TextRoundTrip(-n, Digits(-n));
    } else {
      TextRoundTrip(n, Digits(n));
    }
  }

  // ----- What a text is read as -----

  function Pow10(n: nat): nat {
    if n == 0 then 1 else 10 * Pow10(n - 1)
  }

  lemma DigitValue(d: nat)
    requires d < 10
    ensures AllDigits([DigitOf(d)]) && Value([DigitOf(d)]) == d
  {
    assert [DigitOf(d)][..0] == [];
  }

  lemma Shifted(v: nat, n: nat, w: nat)
    requires n > 0
    ensures 10 * (v * Pow10(n - 1) + w) == v * Pow10(n) + 10 * w
  {
  }

  /** Positional notation: the digits of a count as many tens as there are digits after them. */
  lemma {:induction false} ValueAppend(a: string, b: string)
    requires AllDigits(a) && AllDigits(b)
    ensures AllDigits(a + b) && Value(a + b) == Value(a) * Pow10(|b|) + Value(b)
    decreases |b|
  {
    if b == [] {
      assert a + b == a;
    } else {
      assert (a + b)[..|a + b| - 1] == a + b[..|b| - 1];
      ValueAppend(a, b[..|b| - 1]);
      Shifted(Value(a), |b|, Value(b[..|b| - 1]));
    }
  }

  predicate AllZeros(s: string) {
    forall i :: 0 <= i < |s| ==> s[i] == '0'
  }

  lemma {:induction false} ZerosValue(zeros: string)
    requires AllZeros(zeros)
    ensures AllDigits(zeros) && Value(zeros) == 0
    decreases |zeros|
  {
    if zeros != [] {
      ZerosValue(zeros[..|zeros| - 1]);
    }
  }

  /** Leading zeros do not matter. */
  lemma LeadingZeros(zeros: string, digits: string)
    requires AllZeros(zeros) && AllDigits(digits) && digits != []
    ensures ParseInt(zeros + digits) == ParseInt(digits) == Some(Value(digits) as int)
  {
    hide ParseInt, Value;
    ZerosValue(zeros);
    ValueAppend(zeros, digits);
    ParseDigits(digits);
    ParseDigits(zeros + digits);
  }

  /** The text of a number has no needless zero in front. */
  lemma {:induction false} NoLeadingZero(n: nat)
    ensures |Digits(n)| > 0 && (Digits(n)[0] == '0' ==> n == 0 && Digits(n) == "0")
    decreases n
  {
    if n >= 10 {
      NoLeadingZero(n / 10);
    }
  }

  predicate AllBlank(s: string) {
    forall i :: 0 <= i < |s| ==> IsBlank(s[i])
  }

  lemma {:induction false} StripFront(blanks: string, s: string)
    requires AllBlank(blanks)
    ensures Strip(blanks + s) == Strip(s)
    decreases |blanks|
  {
    if blanks == [] {
      assert blanks + s == s;
    } else {
      assert (blanks + s)[1..] == blanks[1..] + s;
      StripFront(blanks[1..], s);
    }
  }

  lemma {:induction false} StripBlank(s: string, c: char)
    requires IsBlank(c)
    ensures Strip(s + [c]) == Strip(s)
    decreases |s|
  {
    if s == [] {
      assert [c][1..] == [];
    } else if IsBlank(s[0]) {
      assert (s + [c])[1..] == s[1..] + [c];
      StripBlank(s[1..], c);
    } else {
      assert (s + [c])[..|s + [c]| - 1] == s;
    }
  }

  lemma {:induction false} StripBack(s: string, blanks: string)
    requires AllBlank(blanks)
    ensures Strip(s + blanks) == Strip(s)
    decreases |blanks|
  {
    if blanks == [] {
      assert s + blanks == s;
    } else {
      var k := |blanks| - 1;
      assert s + blanks == (s + blanks[..k]) + [blanks[k]];
      StripBlank(s + blanks[..k], blanks[k]);
      StripBack(s, blanks[..k]);
    }
  }

  /** Blanks at the ends do not matter. */
  lemma BlanksIgnored(front: string, s: string, back: string)
    requires AllBlank(front) && AllBlank(back)
    ensures ParseInt(front + s + back) == ParseInt(s)
  {
    StripBack(front + s, back);
    StripFront(front, s);
  }

  /** A text without blanks at its ends is stripped to itself, and any other to one of that kind. */
  lemma {:induction false} StrippedEnds(s: string)
    ensures var t := Strip(s); t == [] || (!IsBlank(t[0]) && !IsBlank(t[|t| - 1]))
    decreases |s|
  {
    if s != [] && IsBlank(s[0]) {
      StrippedEnds(s[1..]);
    } else if s != [] && IsBlank(s[|s| - 1]) {
      StrippedEnds(s[..|s| - 1]);
    }
  }

  /** Digits and single underscores between them, with an optional sign. */
  lemma SignsAre(s: string)
    requires Grouped(s)
    ensures var n := Value(OnlyDigits(s)) as int;
            ParseInt(s) == Some(n) && ParseInt("+" + s) == Some(n) && ParseInt("-" + s) == Some(-n)
  {
    hide Strip, Value, OnlyDigits;
    NothingToStrip(s);
    NothingToStrip("+" + s);
    NothingToStrip("-" + s);
    assert ("+" + s)[1..] == s && ("-" + s)[1..] == s;
  }

  lemma {:induction false} OnlyDigitsAppend(a: string, b: string)
    ensures OnlyDigits(a + b) == OnlyDigits(a) + OnlyDigits(b)
    decreases |b|
  {
    if b == [] {
      assert a + b == a;
    } else {
      assert (a + b)[..|a + b| - 1] == a + b[..|b| - 1];
      OnlyDigitsAppend(a, b[..|b| - 1]);
    }
  }

  lemma NoDigits()
    ensures OnlyDigits("_") == []
  {
    assert "_"[..0] == [];
  }

  /** An underscore between two groups only joins them. */
  lemma UnderscoreJoins(a: string, b: string)
    requires Grouped(a) && Grouped(b)
    ensures Grouped(a + "_" + b) && ParseInt(a + "_" + b) == Some(Value(OnlyDigits(a) + OnlyDigits(b)) as int)
  {
    hide ParseInt, Value, OnlyDigits, Grouped;
    OnlyDigitsAppend(a + "_", b);
    OnlyDigitsAppend(a, "_");
    NoDigits();
    assert OnlyDigits(a) + [] + OnlyDigits(b) == OnlyDigits(a) + OnlyDigits(b);
    GroupsJoin(a, b);
    SignsAre(a + "_" + b);
  }

  lemma GroupsJoin(a: string, b: string)
    requires Grouped(a) && Grouped(b)
    ensures Grouped(a + "_" + b)
  {
    var s := a + "_" + b;
    assert s[0] == a[0] && s[|s| - 1] == b[|b| - 1] && s[|a|] == '_';
    forall i | 0 <= i < |s|
      ensures IsDigit(s[i]) || s[i] == '_'
    {
      assert i > |a| ==> s[i] == b[i - |a| - 1];
    }
    forall i | 0 < i < |s|
      ensures IsDigit(s[i - 1]) || IsDigit(s[i])
    {
      if i > |a| + 1 {
        assert s[i - 1] == b[i - |a| - 2] && s[i] == b[i - |a| - 1];
      }
    }
  }

  /** What is not of that form is not read: no digit at an end, two underscores, another character. */
  lemma NotRead(s: string)
    requires s == [] || !Grouped(if s[0] == '+' || s[0] == '-' then s[1..] else s)
    requires s == [] || (!IsBlank(s[0]) && !IsBlank(s[|s| - 1]))
    ensures ParseInt(s) == None
  {
    if s != [] {
      NothingToStrip(s);
    }
  }

  lemma One()
    ensures AllDigits("1") && Value("1") == 1
  {
    DigitValue(1);
    assert [DigitOf(1)] == "1";
  }

  lemma Thousand()
    ensures Grouped("1_000") && Value(OnlyDigits("1_000")) == 1000
  {
    hide OnlyDigits, Value, Grouped;
    assert Grouped("1") && Grouped("000") by {
      OneGroup();
    }
    GroupsJoin("1", "000");
    OnlyDigitsAppend("1" + "_", "000");
    OnlyDigitsAppend("1", "_");
    OnlyDigitsSame("1");
    OnlyDigitsSame("000");
    NoDigits();
    One();
    ValueAppend("1", "000");
    ZerosValue("000");
    assert "1" + "_" + "000" == "1_000" && "1" + [] + "000" == "1" + "000";
    assert Pow10(3) == 10 * Pow10(2) && Pow10(2) == 10 * Pow10(1) && Pow10(1) == 10 * Pow10(0);
  }

  lemma OneGroup()
    ensures Grouped("1") && Grouped("000")
  {
  }

  /** Some texts that are read: leading zeros, a sign, blanks, an underscore. */
  lemma TextsThatAreRead()
    ensures ParseInt("001") == Some(1) && ParseInt("+1_000") == ParseInt(" +1_000\n") == Some(1000)
    ensures ParseInt("-1_000") == Some(-1000)
  {
    hide ParseInt, Value, OnlyDigits, Grouped;
    One();
    LeadingZeros("00", "1");
    assert "00" + "1" == "001";
    Thousand();
    SignsAre("1_000");
    assert "+" + "1_000" == "+1_000" && "-" + "1_000" == "-1_000";
    BlanksIgnored(" ", "+1_000", "\n");
    assert " " + "+1_000" + "\n" == " +1_000\n";
  }

  /** And some that are not. */
  lemma TextsThatAreNot()
    ensures ParseInt("") == None && ParseInt("1__0") == None && ParseInt("_1") == None && ParseInt("1_") == None
    ensures ParseInt("- 1") == None && ParseInt("+-1") == None && ParseInt("1.0") == None
  {
    hide ParseInt;
    assert "- 1"[1..] == " 1" && "+-1"[1..] == "-1";
    assert "1__0"[1] == '_' && "1__0"[2] == '_' && "1.0"[1] == '.';
    NotRead("");
    NotRead("1__0");
    NotRead("_1");
    NotRead("1_");
    NotRead("- 1");
    NotRead("+-1");
    NotRead("1.0");
  }
}
