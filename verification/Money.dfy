/** Amounts as decimal strings and as whole cents: the parser, the printer, and the rounding rule of winnings. */
module Money {
  import opened Wrappers
  import opened Ledger

  // ---- Digits ----

  predicate IsDigit(c: char) {
    '0' <= c <= '9'
  }

  predicate AllDigits(s: string) {
    forall i | 0 <= i < |s| :: IsDigit(s[i])
  }

  function DigitValue(c: char): nat
    requires IsDigit(c)
  {
    c as int - '0' as int
  }

  function DigitOf(d: nat): (c: char)
    requires d < 10
    ensures IsDigit(c) && DigitValue(c) == d
  {
    ('0' as int + d) as char
  }

  function Number(s: string): nat
    requires AllDigits(s)
  {
    if s == "" then 0 else 10 * Number(s[..|s| - 1]) + DigitValue(s[|s| - 1])
  }

  /** Decimal notation without leading zeros. */
  function Digits(n: nat): (s: string)
    ensures s != "" && AllDigits(s)
  {
    if n < 10 then [DigitOf(n)] else Digits(n / 10) + [DigitOf(n % 10)]
  }

  predicate NoLeadingZero(s: string) {
    s != "" && (s[0] == '0' ==> |s| == 1)
  }

  lemma {:induction false} DigitsParse(n: nat)
    ensures Number(Digits(n)) == n && NoLeadingZero(Digits(n))
    ensures n > 0 ==> Digits(n)[0] != '0'
  {
    if n >= 10 {
      DigitsParse(n / 10);
      var s := Digits(n);
      assert s[..|s| - 1] == Digits(n / 10);
    } else {
      assert Digits(n)[..0] == "";
    }
  }

  lemma {:induction false} ParsedDigits(s: string)
    requires AllDigits(s) && NoLeadingZero(s)
    ensures Digits(Number(s)) == s
  {
    var init, last := s[..|s| - 1], s[|s| - 1];
    if init == "" {
      assert s == [last] && Number(init) == 0;
      DigitIs(last);
    } else {
      ParsedDigits(init);
      DigitIs(last);
      assert s[0] == init[0] && init[0] != '0';
      PositiveNumber(init);
      assert Number(s) / 10 == Number(init) && Number(s) % 10 == DigitValue(last);
      assert s == init + [last];
    }
  }

  lemma DigitIs(c: char)
    requires IsDigit(c)
    ensures DigitOf(DigitValue(c)) == c && DigitValue(c) < 10
  {
  }

  lemma {:induction false} PositiveNumber(s: string)
    requires AllDigits(s) && s != "" && s[0] != '0'
    ensures Number(s) > 0
  {
    if |s| > 1 {
      PositiveNumber(s[..|s| - 1]);
    } else {
      assert s[..0] == "";
    }
  }

  // ---- The parser ----

  /** Characters `trim` removes. */
  predicate IsBlank(c: char) {
    || '\t' <= c <= '\r' || c == ' ' || c == '\U{A0}' || c == '\U{1680}' || '\U{2000}' <= c <= '\U{200A}'
    || c == '\U{2028}' || c == '\U{2029}' || c == '\U{202F}' || c == '\U{205F}' || c == '\U{3000}' || c == '\U{FEFF}'
  }

  function TrimStart(s: string): string {
    if s != "" && IsBlank(s[0]) then TrimStart(s[1..]) else s
  }

  function TrimEnd(s: string): string {
    if s != "" && IsBlank(s[|s| - 1]) then TrimEnd(s[..|s| - 1]) else s
  }

  /** Position of the first dot, or the length. */
  function DotAt(s: string): (i: nat)
    ensures i <= |s|
    ensures forall j | 0 <= j < i :: s[j] != '.'
    ensures i < |s| ==> s[i] == '.'
  {
    if s == "" || s[0] == '.' then 0 else 1 + DotAt(s[1..])
  }

  /** Units and at most two decimals, in cents. */
  function UnsignedCents(s: string): (r: Option<int>)
    ensures r.Some? ==> 0 <= r.value <= MAX_SAFE_INTEGER
  {
    var dot := DotAt(s);
    var units, fraction := s[..dot], if dot < |s| then s[dot + 1..] else "";
    if units == "" || !AllDigits(units) || !AllDigits(fraction) then None
    else if dot < |s| && !(1 <= |fraction| <= 2) then None
    else
      var cents := 100 * Number(units) + (if |fraction| == 1 then 10 * Number(fraction) else Number(fraction));
      if cents > MAX_SAFE_INTEGER then None else Some(cents)
  }

  /** Exact conversion to whole cents; `None` where the source throws. */
  function ToCents(value: string): Option<int> {
    var s := TrimEnd(TrimStart(value));
    var negative := s != "" && s[0] == '-';
    match UnsignedCents(if negative then s[1..] else s)
    case None => None
    case Some(cents) => Some(if negative then -cents else cents)
  }

  // ---- The printer ----

  function TwoDigits(n: nat): string
    requires n < 100
  {
    [DigitOf(n / 10), DigitOf(n % 10)]
  }

  function Abs(n: int): nat {
    if n < 0 then -n else n
  }

  function FromCents(cents: int): Option<string> {
    if Abs(cents) > MAX_SAFE_INTEGER then None
    else Some((if cents < 0 then "-" else "") + Digits(Abs(cents) / 100) + "." + TwoDigits(Abs(cents) % 100))
  }

  // ---- They undo each other ----

  lemma {:induction false} DotAfterDigits(units: string, rest: string)
    requires AllDigits(units)
    ensures DotAt(units + "." + rest) == |units|
  {
    if units != "" {
      DotAfterDigits(units[1..], rest);
      assert (units + "." + rest)[1..] == units[1..] + "." + rest;
    }
  }

  lemma TwoDigitsParse(n: nat)
    requires n < 100
    ensures AllDigits(TwoDigits(n)) && Number(TwoDigits(n)) == n
  {
    NumberOfTwo(TwoDigits(n));
  }

  lemma NumberOfTwo(s: string)
    requires |s| == 2 && AllDigits(s)
    ensures Number(s) == 10 * DigitValue(s[0]) + DigitValue(s[1])
  {
    var first := s[..1];
    assert first[..0] == "" && first[0] == s[0];
    assert Number(first) == DigitValue(s[0]);
  }

  lemma UnsignedRoundTrip(n: nat)
    requires n <= MAX_SAFE_INTEGER
    ensures UnsignedCents(Digits(n / 100) + "." + TwoDigits(n % 100)) == Some(n)
  {
    var units, fraction := Digits(n / 100), TwoDigits(n % 100);
    var s := units + "." + fraction;
    DotAfterDigits(units, fraction);
    assert s[..|units|] == units && s[|units| + 1..] == fraction;
    DigitsParse(n / 100);
    TwoDigitsParse(n % 100);
  }

  lemma NothingToTrim(s: string)
    requires s != "" && !IsBlank(s[0]) && !IsBlank(s[|s| - 1])
    ensures TrimEnd(TrimStart(s)) == s
  {
  }

  function Signed(negative: bool, body: string): string {
    if negative then "-" + body else body
  }

  lemma ParseSigned(negative: bool, body: string)
    requires body != "" && IsDigit(body[0]) && IsDigit(body[|body| - 1])
    ensures ToCents(Signed(negative, body)) ==
      if UnsignedCents(body).None? then None
      else Some(if negative then -UnsignedCents(body).value else UnsignedCents(body).value)
  {
    hide UnsignedCents;
    var s := Signed(negative, body);
    assert s[|s| - 1] == body[|body| - 1];
    assert negative ==> s[1..] == body;
    NothingToTrim(s);
  }

  /** Parsing a printed amount gives it back, for every safe integer. */
  lemma PrintThenParse(cents: int)
    requires Abs(cents) <= MAX_SAFE_INTEGER
    ensures ToCents(FromCents(cents).value) == Some(cents)
  {
    hide ToCents, UnsignedCents;
    var units, fraction := Digits(Abs(cents) / 100), TwoDigits(Abs(cents) % 100);
    var body := units + "." + fraction;
    UnsignedRoundTrip(Abs(cents));
    assert body[0] == units[0] && body[|body| - 1] == fraction[1];
    assert FromCents(cents).value == Signed(cents < 0, body);
    ParseSigned(cents < 0, body);
  }

  /** Units without leading zeros, a dot, two decimals, and a sign only before an amount that is not zero. */
  predicate IsNormal(s: string) {
    var negative := s != "" && s[0] == '-';
    var body := if negative then s[1..] else s;
    && |body| >= 4 && body[|body| - 3] == '.'
    && AllDigits(body[..|body| - 3]) && AllDigits(body[|body| - 2..])
    && NoLeadingZero(body[..|body| - 3])
    && (negative ==> body != "0.00")
  }

  lemma PrintedIsNormal(cents: int)
    requires Abs(cents) <= MAX_SAFE_INTEGER
    ensures IsNormal(FromCents(cents).value)
  {
    var units, fraction := Digits(Abs(cents) / 100), TwoDigits(Abs(cents) % 100);
    var s := FromCents(cents).value;
    var body := units + "." + fraction;
    assert IsDigit(units[0]);
    assert s == (if cents < 0 then "-" + body else body);
    assert cents < 0 ==> s[1..] == body;
    assert body[..|body| - 3] == units && body[|body| - 2..] == fraction && body[|body| - 3] == '.';
    DigitsParse(Abs(cents) / 100);
    TwoDigitsParse(Abs(cents) % 100);
    if cents < 0 && body == "0.00" {
      assert units == "0" && fraction == "00";
      ZeroText();
    }
  }

  lemma ZeroText()
    ensures Number("0") == 0 && Number("00") == 0 && Digits(0) == "0" && TwoDigits(0) == "00"
  {
    NumberOfTwo("00");
    assert "0"[..0] == "";
  }

  lemma TwoDigitsOf(s: string)
    requires |s| == 2 && AllDigits(s)
    ensures Number(s) < 100 && TwoDigits(Number(s)) == s
  {
    NumberOfTwo(s);
    DigitIs(s[0]);
    DigitIs(s[1]);
  }

  lemma NormalReprints(body: string)
    requires |body| >= 4 && body[|body| - 3] == '.'
    requires AllDigits(body[..|body| - 3]) && AllDigits(body[|body| - 2..]) && NoLeadingZero(body[..|body| - 3])
    requires UnsignedCents(body).Some?
    ensures var cents := UnsignedCents(body).value;
      && Digits(cents / 100) + "." + TwoDigits(cents % 100) == body
      && (cents == 0 <==> body == "0.00")
  {
    var units, fraction := body[..|body| - 3], body[|body| - 2..];
    assert body == units + "." + fraction;
    DotAfterDigits(units, fraction);
    ParsedDigits(units);
    TwoDigitsOf(fraction);
    var cents := UnsignedCents(body).value;
    assert cents == 100 * Number(units) + Number(fraction);
    assert cents / 100 == Number(units) && cents % 100 == Number(fraction);
    ZeroText();
  }

  /**
   * Parsing then printing leaves a string unchanged exactly when it is in normal form; the
   * printed form of any accepted string is normal and stands for the same amount.
   */
  lemma ParseThenPrint(value: string)
    requires ToCents(value).Some?
    ensures Abs(ToCents(value).value) <= MAX_SAFE_INTEGER
    ensures var printed := FromCents(ToCents(value).value).value;
      && IsNormal(printed)
      && ToCents(printed) == ToCents(value)
      && (printed == value <==> IsNormal(value))
  {
    hide ToCents, IsNormal;
    ParsedIsSafe(value);
    var cents := ToCents(value).value;
    PrintThenParse(cents);
    PrintedIsNormal(cents);
    if IsNormal(value) {
      NormalStays(value);
    }
  }

  lemma ParsedIsSafe(value: string)
    requires ToCents(value).Some?
    ensures Abs(ToCents(value).value) <= MAX_SAFE_INTEGER
  {
    hide UnsignedCents;
  }

  lemma NormalStays(value: string)
    requires IsNormal(value) && ToCents(value).Some?
    ensures FromCents(ToCents(value).value) == Some(value)
  {
    hide ToCents, UnsignedCents, Number, Digits;
    var negative := value[0] == '-';
    var body := if negative then value[1..] else value;
    assert body[|body| - 2..][1] == body[|body| - 1] && body[..|body| - 3][0] == body[0];
    assert value == Signed(negative, body);
    ParseSigned(negative, body);
    NormalReprints(body);
    var cents, signed := UnsignedCents(body).value, ToCents(value).value;
    assert Abs(signed) == cents && (signed < 0 <==> negative);
    assert FromCents(signed).value == Signed(negative, Digits(cents / 100) + "." + TwoDigits(cents % 100));
  }

  // ---- Which texts are amounts ----

  /** A sign, units, and a dot before the decimals if there are some. */
  function Spelled(negative: bool, units: string, decimals: string): string {
    Signed(negative, if decimals == "" then units else units + "." + decimals)
  }

  /** Some digits and at most two decimals, filled up with zeros, within the safe integers. */
  predicate IsSpelling(text: string, cents: int, negative: bool, units: string, decimals: string) {
    && units != "" && AllDigits(units) && AllDigits(decimals) && |decimals| <= 2
    && text == Spelled(negative, units, decimals)
    && Abs(cents) == 100 * Number(units) + Number((decimals + "00")[..2]) <= MAX_SAFE_INTEGER
    && (if negative then cents <= 0 else cents >= 0)
  }

  ghost predicate IsAmount(text: string, cents: int) {
    exists negative, units, decimals :: IsSpelling(text, cents, negative, units, decimals)
  }

  /** The text without the blanks around it. */
  ghost predicate IsTrimmed(value: string, text: string) {
    exists i, j | 0 <= i <= j <= |value| ::
      && value[i..j] == text
      && (forall k | 0 <= k < i || j <= k < |value| :: IsBlank(value[k]))
      && (text != "" ==> !IsBlank(text[0]) && !IsBlank(text[|text| - 1]))
  }

  lemma {:induction false} TrimsStart(s: string) returns (n: nat)
    ensures n <= |s| && TrimStart(s) == s[n..]
    ensures forall k | 0 <= k < n :: IsBlank(s[k])
    ensures n < |s| ==> !IsBlank(s[n])
  {
    hide IsBlank;
    if s == "" || !IsBlank(s[0]) {
      n := 0;
    } else {
      var rest := s[1..];
      var m := TrimsStart(rest);
      n := m + 1;
      assert rest[m..] == s[n..];
      forall k | 0 <= k < n
        ensures IsBlank(s[k])
      {
        assert k > 0 ==> s[k] == rest[k - 1];
      }
    }
  }

  lemma {:induction false} TrimsEnd(s: string) returns (n: nat)
    ensures n <= |s| && TrimEnd(s) == s[..n]
    ensures forall k | n <= k < |s| :: IsBlank(s[k])
    ensures n > 0 ==> !IsBlank(s[n - 1])
  {
    hide IsBlank;
    if s == "" || !IsBlank(s[|s| - 1]) {
      n := |s|;
    } else {
      var init := s[..|s| - 1];
      n := TrimsEnd(init);
      assert init[..n] == s[..n];
      forall k | n <= k < |s|
        ensures IsBlank(s[k])
      {
        assert k < |init| ==> s[k] == init[k];
      }
    }
  }

  lemma TrimsBoth(s: string)
    ensures IsTrimmed(s, TrimEnd(TrimStart(s)))
  {
    hide IsBlank, TrimStart, TrimEnd;
    var i := TrimsStart(s);
    var n := TrimsEnd(s[i..]);
    assert s[i..][..n] == s[i..i + n];
    assert forall k | i + n <= k < |s| :: s[k] == s[i..][k - i];
  }

  /** Two decimals stand for themselves, one for ten cents each, none for nothing. */
  lemma PaddedDecimals(decimals: string)
    requires AllDigits(decimals) && |decimals| <= 2
    ensures AllDigits((decimals + "00")[..2])
    ensures Number((decimals + "00")[..2]) == if |decimals| == 1 then 10 * Number(decimals) else Number(decimals)
  {
    var padded := (decimals + "00")[..2];
    NumberOfTwo(padded);
    if |decimals| == 1 {
      assert decimals[..0] == "" && Number(decimals[..0]) == 0;
      assert padded[0] == decimals[0] && padded[1] == '0';
    } else if |decimals| == 2 {
      assert padded == decimals;
    }
  }

  lemma {:induction false} NoDot(units: string)
    requires AllDigits(units)
    ensures DotAt(units) == |units|
  {
    if units != "" {
      NoDot(units[1..]);
    }
  }

  lemma SpellingParses(units: string, decimals: string)
    requires units != "" && AllDigits(units) && AllDigits(decimals) && |decimals| <= 2
    ensures
      var cents := 100 * Number(units) + Number((decimals + "00")[..2]);
      UnsignedCents(Spelled(false, units, decimals)) == if cents <= MAX_SAFE_INTEGER then Some(cents) else None
  {
    hide Number;
    PaddedDecimals(decimals);
    NumberOfNone();
    var s := Spelled(false, units, decimals);
    if decimals == "" {
      NoDot(units);
      assert s[..|units|] == units;
    } else {
      DotAfterDigits(units, decimals);
      assert s[..|units|] == units && s[|units| + 1..] == decimals;
    }
  }

  lemma NumberOfNone()
    ensures Number("") == 0
  {
  }

  lemma ParsesSpelling(s: string) returns (units: string, decimals: string)
    requires UnsignedCents(s).Some?
    ensures units != "" && AllDigits(units) && AllDigits(decimals) && |decimals| <= 2 && s == Spelled(false, units, decimals)
  {
    var dot := DotAt(s);
    units, decimals := s[..dot], if dot < |s| then s[dot + 1..] else "";
    assert s == if dot < |s| then units + "." + decimals else units;
  }

  /** The trimmed text is parsed exactly when it spells an amount, and to that amount. */
  lemma AmountsExactly(value: string, cents: int)
    ensures IsTrimmed(value, TrimEnd(TrimStart(value)))
    ensures ToCents(value) == Some(cents) <==> IsAmount(TrimEnd(TrimStart(value)), cents)
  {
    hide IsTrimmed, TrimStart, TrimEnd, UnsignedCents, Number, AllDigits;
    TrimsBoth(value);
    var text := TrimEnd(TrimStart(value));
    var negative := text != "" && text[0] == '-';
    var body := if negative then text[1..] else text;
    if ToCents(value) == Some(cents) {
      var units, decimals := ParsesSpelling(body);
      SpellingParses(units, decimals);
      assert text == Signed(negative, body);
      ParsedIsPositive(body);
      assert IsSpelling(text, cents, negative, units, decimals);
    }
    if IsAmount(text, cents) {
      var minus, units, decimals :| IsSpelling(text, cents, minus, units, decimals);
      SpellingParses(units, decimals);
      FirstIsDigit(units);
      assert text[0] == (if minus then '-' else units[0]);
      assert body == Spelled(false, units, decimals);
    }
  }

  lemma ParsedIsPositive(s: string)
    requires UnsignedCents(s).Some?
    ensures UnsignedCents(s).value >= 0
  {
  }

  lemma FirstIsDigit(units: string)
    requires units != "" && AllDigits(units)
    ensures units[0] != '-'
  {
  }

  // ---- Winnings ----

  /** Net profit of a winning stake: odds in thousandths, rounded to the nearest cent, halves up. */
  function WinningProfit(stake: int, odd: int): int {
    (2 * stake * (odd - 1000) + 1000) / 2000
  }

  /** The profit is the whole cent nearest to stake × (odd − 1), never negative for odds of one or more. */
  lemma WinningProfitIsNearest(stake: nat, odd: int)
    requires odd >= 1000
    ensures WinningProfit(stake, odd) >= 0
    ensures -500 < 1000 * WinningProfit(stake, odd) - stake * (odd - 1000) <= 500
  {
    var exact := stake * (odd - 1000);
    assert exact >= 0;
    assert 2 * stake * (odd - 1000) == 2 * exact;
    var n := 2 * exact + 1000;
    assert n == 2000 * (n / 2000) + n % 2000;
  }
}
