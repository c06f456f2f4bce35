/** Printing and parsing of money text in the browser. */
module MoneyText {
  // ---------- characters and string helpers ----------

  predicate IsDigit(c: char) {
    '0' <= c <= '9'
  }

  predicate IsDigitOrDot(c: char) {
    IsDigit(c) || c == '.'
  }

  predicate IsNumeric(c: char) {
    IsDigitOrDot(c) || c == '-'
  }

  predicate AllDigits(s: string) {
    forall i :: 0 <= i < |s| ==> IsDigit(s[i])
  }

  /** The white space and line terminators that `trim` removes. */
  predicate IsSpace(c: char) {
    || '\t' <= c <= '\r' || c == ' ' || c == '\U{00A0}' || c == '\U{1680}' || c == '\U{2028}' || c == '\U{2029}'
    || c == '\U{202F}' || c == '\U{205F}' || c == '\U{3000}' || c == '\U{FEFF}'
    || '\U{2000}' <= c <= '\U{200A}'
  }

  function TrimStart(s: string): string {
    if s != "" && IsSpace(s[0]) then TrimStart(s[1..]) else s
  }

  function TrimEnd(s: string): string {
    if s != "" && IsSpace(s[|s| - 1]) then TrimEnd(s[..|s| - 1]) else s
  }

  function Trim(s: string): string {
    TrimEnd(TrimStart(s))
  }

  /** The characters of `s` that satisfy `keep`: a global replace of the others by nothing. */
  function Keep(keep: char -> bool, s: string): string {
    if s == "" then "" else (if keep(s[0]) then [s[0]] else "") + Keep(keep, s[1..])
  }

  function Split(s: string, sep: char): (parts: seq<string>)
    ensures |parts| >= 1
  {
    if s == "" then [""]
    else if s[0] == sep then [""] + Split(s[1..], sep)
    else
      var rest := Split(s[1..], sep);
      [[s[0]] + rest[0]] + rest[1..]
  }

  function Prefix(s: string, n: nat): string {
    if |s| <= n then s else s[..n]
  }

  function PadEndZeros(s: string, n: nat): string
    decreases n - |s|
  {
    if |s| >= n then s else PadEndZeros(s + "0", n)
  }

  // ---------- the two functions ----------

  /** A comma goes before position `i` of a digit string when a multiple of three digits follows. */
  predicate CommaBefore(s: string, i: nat) {
    0 < i < |s| && (|s| - i) % 3 == 0
  }

  function GroupFrom(s: string, i: nat): string
    requires i <= |s|
    decreases |s| - i
  {
    if i == |s| then "" else (if CommaBefore(s, i) then "," else "") + [s[i]] + GroupFrom(s, i + 1)
  }

  function Group(s: string): string {
    GroupFrom(s, 0)
  }

  const CURRENCY_SYMBOLS: map<string, string> :=
    map["CNY" := "¥", "USD" := "$", "EUR" := "€", "GBP" := "£", "JPY" := "¥", "HKD" := "HK$"]

  function Symbol(currency: string): string {
    if currency in CURRENCY_SYMBOLS then CURRENCY_SYMBOLS[currency] else currency
  }

  function OrZero(s: string): string {
    if s == "" then "0" else s
  }

  function Part(parts: seq<string>, i: nat): string {
    if i < |parts| then parts[i] else ""
  }

  function Signed(negative: bool, s: string): string {
    if negative then "-" + s else s
  }

  function FormatWith(amount: string, symbol: string): string {
    var str := Trim(amount);
    if str == "" || str == "-" then "-"
    else
      var negative := str[0] == '-';
      var digits := Keep(IsDigitOrDot, str);
      if digits == "" || digits == "." then symbol + "0.00"
      else
        var parts := Split(digits, '.');
        Signed(negative, symbol + Group(OrZero(parts[0])) + "." + Prefix(PadEndZeros(Part(parts, 1), 2), 2))
  }

  function FormatMoney(amount: string, currency: string): string {
    FormatWith(amount, Symbol(currency))
  }

  /** The whole part and at most two decimals of an unsigned cleaned text. */
  function ParsedTail(positive: string): string {
    var parts := Split(positive, '.');
    var dec := Prefix(Part(parts, 1), 2);
    if dec != "" then OrZero(parts[0]) + "." + dec else OrZero(parts[0])
  }

  function ParseMoney(str: string): string {
    if str == "" then "0"
    else
      var cleaned := Keep(IsNumeric, str);
      if cleaned == "" || cleaned == "-" || cleaned == "." then "0"
      else
        var negative := cleaned[0] == '-';
        var positive := if negative then cleaned[1..] else cleaned;
        Signed(negative, ParsedTail(positive))
  }

  // ---------- lemmas on the helpers ----------

  lemma {:induction false} KeepConcat(keep: char -> bool, a: string, b: string)
    ensures Keep(keep, a + b) == Keep(keep, a) + Keep(keep, b)
  {
    if a == "" {
      assert a + b == b;
    } else {
      var head := if keep(a[0]) then [a[0]] else "";
      assert (a + b)[0] == a[0] && (a + b)[1..] == a[1..] + b;
      KeepConcat(keep, a[1..], b);
    }
  }

  lemma KeepAll(keep: char -> bool, s: string)
    requires forall i :: 0 <= i < |s| ==> keep(s[i])
    ensures Keep(keep, s) == s
  {
  }

  lemma KeepNone(keep: char -> bool, s: string)
    requires forall i :: 0 <= i < |s| ==> !keep(s[i])
    ensures Keep(keep, s) == ""
  {
  }

  lemma KeepOnly(keep: char -> bool, s: string)
    ensures forall c :: c in Keep(keep, s) ==> keep(c) && c in s
  {
  }

  lemma {:induction false} SplitAt(a: string, b: string, sep: char)
    requires sep !in a
    ensures Split(a + [sep] + b, sep) == [a] + Split(b, sep)
  {
    var s := a + [sep] + b;
    if a == "" {
      assert s[1..] == b;
    } else {
      assert s[1..] == a[1..] + [sep] + b;
      SplitAt(a[1..], b, sep);
      assert [s[0]] + a[1..] == a;
    }
  }

  lemma SplitWhole(s: string, sep: char)
    requires sep !in s
    ensures Split(s, sep) == [s]
  {
    if s != "" {
      SplitWhole(s[1..], sep);
      assert [s[0]] + s[1..] == s;
    }
  }

  /** No part holds the separator, and every character of a part comes from the text. */
  lemma {:induction false} SplitParts(s: string, sep: char, k: nat)
    requires k < |Split(s, sep)|
    ensures forall c :: c in Split(s, sep)[k] ==> c != sep && c in s
  {
    if s != "" {
      if s[0] == sep {
        if k > 0 {
          SplitParts(s[1..], sep, k - 1);
        }
      } else {
        SplitParts(s[1..], sep, k);
      }
    }
  }

  lemma SplitCons(c: char, t: string, sep: char)
    ensures c == sep ==> Split([c] + t, sep) == [""] + Split(t, sep)
    ensures c != sep ==> Split([c] + t, sep) == [[c] + Split(t, sep)[0]] + Split(t, sep)[1..]
  {
  }

  lemma PadTwo(s: string)
    ensures |s| == 0 ==> PadEndZeros(s, 2) == "00"
    ensures |s| == 1 ==> PadEndZeros(s, 2) == s + "0"
    ensures |s| >= 2 ==> PadEndZeros(s, 2) == s
  {
    if |s| == 0 {
      assert s == "" && s + "0" + "0" == "00";
      assert PadEndZeros("0", 2) == PadEndZeros("0" + "0", 2);
    }
  }

  lemma KeepKept(keep: char -> bool, s: string, i: nat)
    requires i < |s| && keep(s[i])
    ensures s[i] in Keep(keep, s)
  {
    if i > 0 {
      assert s[1..][i - 1] == s[i];
      KeepKept(keep, s[1..], i - 1);
    }
  }

  lemma TrimNothing(s: string)
    requires s != "" && !IsSpace(s[0]) && !IsSpace(s[|s| - 1])
    ensures Trim(s) == s
  {
  }

  // ---------- thousands grouping ----------

  /** The regular expression of the grouping at position `i`: not a word boundary, and followed by
      whole groups of three digits up to the end of the digit run. */
  ghost predicate RegexMatchesAt(s: string, i: nat)
    requires i <= |s| && AllDigits(s)
  {
    && 0 < i < |s|
    && exists k: nat | 1 <= k && i + 3 * k <= |s| :: i + 3 * k == |s| || !IsDigit(s[i + 3 * k])
  }

  /** On digit strings the modelled comma rule is the regular expression. */
  lemma CommaRuleIsRegex(s: string, i: nat)
    requires i <= |s| && AllDigits(s)
    ensures CommaBefore(s, i) <==> RegexMatchesAt(s, i)
  {
    if CommaBefore(s, i) {
      var k := (|s| - i) / 3;
      assert i + 3 * k == |s| && 1 <= k;
    }
  }

  lemma {:induction false} KeepGroupFrom(keep: char -> bool, s: string, i: nat)
    requires i <= |s| && !keep(',')
    requires forall k :: 0 <= k < |s| ==> keep(s[k])
    ensures Keep(keep, GroupFrom(s, i)) == s[i..]
    decreases |s| - i
  {
    if i < |s| {
      KeepGroupFrom(keep, s, i + 1);
      KeepConcat(keep, (if CommaBefore(s, i) then "," else "") + [s[i]], GroupFrom(s, i + 1));
      KeepConcat(keep, if CommaBefore(s, i) then "," else "", [s[i]]);
      assert s[i..] == [s[i]] + s[i + 1..];
    }
  }

  /** Commas removed, the digits are unchanged. */
  lemma UngroupGroup(keep: char -> bool, s: string)
    requires !keep(',') && forall k :: 0 <= k < |s| ==> keep(s[k])
    ensures Keep(keep, Group(s)) == s
  {
    KeepGroupFrom(keep, s, 0);
  }

  /** The groups from digit `i` on: only the first may be short, by what three does not divide. */
  lemma {:induction false} GroupsFrom(s: string, i: nat)
    requires i < |s| && AllDigits(s)
    ensures var groups := Split([s[i]] + GroupFrom(s, i + 1), ',');
      && |groups[0]| == (|s| - i - 1) % 3 + 1
      && forall k :: 1 <= k < |groups| ==> |groups[k]| == 3
    decreases |s| - i
  {
    SplitCons(s[i], GroupFrom(s, i + 1), ',');
    if i + 1 < |s| {
      GroupsFrom(s, i + 1);
      var tail := [s[i + 1]] + GroupFrom(s, i + 2);
      if CommaBefore(s, i + 1) {
        SplitCons(',', tail, ',');
        assert GroupFrom(s, i + 1) == [','] + tail;
      } else {
        assert GroupFrom(s, i + 1) == tail;
      }
    }
  }

  /** Between one and three digits, then groups of exactly three. */
  lemma GroupShape(s: string)
    requires s != "" && AllDigits(s)
    ensures var groups := Split(Group(s), ',');
      && 1 <= |groups[0]| <= 3
      && forall k :: 1 <= k < |groups| ==> |groups[k]| == 3
  {
    GroupsFrom(s, 0);
    assert Group(s) == [s[0]] + GroupFrom(s, 1);
  }

  // ---------- what a printed amount says ----------

  /** A sign, a whole part and exactly two decimals. */
  datatype Amount = Amount(neg: bool, units: string, cents: string) {
    predicate Canonical() {
      units != "" && AllDigits(units) && |cents| == 2 && AllDigits(cents)
    }

    /** The amount without its sign, as plain decimal text. */
    function Tail(): string {
      units + "." + cents
    }

    /** The amount as plain decimal text. */
    function Plain(): string {
      Signed(neg, Tail())
    }

    /** The amount as the screen shows it. */
    function Shown(symbol: string): string {
      Signed(neg, symbol + Group(units) + "." + cents)
    }
  }

  predicate Blank(amount: string) {
    Trim(amount) == "" || Trim(amount) == "-"
  }

  /** The amount that a text denotes for the printer: digits and the first dot, cut to two decimals. */
  function Reading(amount: string): Amount {
    var digits := Keep(IsDigitOrDot, Trim(amount));
    if digits == "" || digits == "." then Amount(false, "0", "00")
    else
      var parts := Split(digits, '.');
      Amount(Trim(amount)[..1] == "-", OrZero(parts[0]), Prefix(PadEndZeros(Part(parts, 1), 2), 2))
  }

  lemma PartIsDigits(digits: string, k: nat)
    requires forall c :: c in digits ==> IsDigitOrDot(c)
    ensures AllDigits(Part(Split(digits, '.'), k))
  {
    if k < |Split(digits, '.')| {
      SplitParts(digits, '.', k);
      var part := Split(digits, '.')[k];
      forall i | 0 <= i < |part| ensures IsDigit(part[i]) {
        assert part[i] in part;
      }
    }
  }

  lemma ReadingIsCanonical(amount: string)
    ensures Reading(amount).Canonical()
  {
    var digits := Keep(IsDigitOrDot, Trim(amount));
    KeepOnly(IsDigitOrDot, Trim(amount));
    PartIsDigits(digits, 0);
    PartIsDigits(digits, 1);
    PadTwo(Part(Split(digits, '.'), 1));
  }

  /** The printer shows exactly its reading, and `-` for blank input only. */
  lemma FormatShowsReading(amount: string, symbol: string)
    ensures FormatWith(amount, symbol) == if Blank(amount) then "-" else Reading(amount).Shown(symbol)
    ensures FormatWith(amount, symbol) == "-" <==> Blank(amount)
  {
  }

  // ---------- round trips ----------

  lemma KeepSigned(negative: bool, s: string)
    ensures Keep(IsNumeric, Signed(negative, s)) == Signed(negative, Keep(IsNumeric, s))
    ensures Keep(IsDigitOrDot, Signed(negative, s)) == Keep(IsDigitOrDot, s)
  {
  }

  /** Splitting the join of a dot-free whole part and a dot-free decimal part. */
  lemma SplitJoin(whole: string, dec: string)
    requires '.' !in whole && '.' !in dec
    ensures Split(whole + "." + dec, '.') == [whole, dec]
  {
    SplitAt(whole, dec, '.');
    SplitWhole(dec, '.');
    assert whole + ['.'] + dec == whole + "." + dec;
  }

  lemma TailOfJoin(whole: string, dec: string)
    requires whole != "" && '.' !in whole && '.' !in dec
    ensures ParsedTail(whole + "." + dec) == if dec == "" then whole else whole + "." + Prefix(dec, 2)
  {
    SplitJoin(whole, dec);
  }

  lemma TailOfWhole(whole: string)
    requires whole != "" && '.' !in whole
    ensures ParsedTail(whole) == whole
  {
    SplitWhole(whole, '.');
  }

  lemma CanonicalTail(a: Amount)
    requires a.Canonical()
    ensures '.' !in a.units && '.' !in a.cents
    ensures |a.Tail()| >= 4 && IsDigit(a.Tail()[0]) && IsDigit(a.Tail()[|a.Tail()| - 1])
    ensures forall i :: 0 <= i < |a.Tail()| ==> IsDigitOrDot(a.Tail()[i])
  {
  }

  lemma ParseCleaned(str: string, a: Amount)
    requires a.Canonical() && Keep(IsNumeric, str) == a.Plain()
    ensures ParseMoney(str) == a.Plain()
  {
    CanonicalTail(a);
    TailOfJoin(a.units, a.cents);
  }

  /** What the parser keeps of a shown amount: the numeric part of the symbol, then the digits. */
  lemma KeepShown(a: Amount, symbol: string)
    requires a.Canonical()
    ensures Keep(IsNumeric, a.Shown(symbol)) == Signed(a.neg, Keep(IsNumeric, symbol) + a.Tail())
  {
    var rest := Group(a.units) + "." + a.cents;
    KeepSigned(a.neg, symbol + Group(a.units) + "." + a.cents);
    assert symbol + Group(a.units) + "." + a.cents == symbol + rest;
    KeepConcat(IsNumeric, symbol, rest);
    KeepGrouped(a);
  }

  lemma KeepGrouped(a: Amount)
    requires a.Canonical()
    ensures Keep(IsNumeric, Group(a.units) + "." + a.cents) == a.Tail()
  {
    UngroupGroup(IsNumeric, a.units);
    KeepConcat(IsNumeric, Group(a.units) + ".", a.cents);
    KeepConcat(IsNumeric, Group(a.units), ".");
    KeepAll(IsNumeric, ".");
    KeepAll(IsNumeric, a.cents);
  }

  predicate NoNumeric(symbol: string) {
    forall i :: 0 <= i < |symbol| ==> !IsNumeric(symbol[i])
  }

  lemma PlainIsTrimmed(a: Amount)
    requires a.Canonical()
    ensures Trim(a.Plain()) == a.Plain() && !Blank(a.Plain())
    ensures (a.Plain()[..1] == "-") == a.neg
  {
  }

  lemma ReadingOfPlain(a: Amount)
    requires a.Canonical()
    ensures !Blank(a.Plain()) && Reading(a.Plain()) == a
  {
    CanonicalTail(a);
    PlainIsTrimmed(a);
    KeepSigned(a.neg, a.Tail());
    KeepAll(IsDigitOrDot, a.Tail());
    assert Keep(IsDigitOrDot, a.Plain()) == a.Tail();
    SplitJoin(a.units, a.cents);
    assert PadEndZeros(a.cents, 2) == a.cents;
  }

  /** Parsing a printed amount gives its plain text, and printing that gives the same text again. */
  lemma RoundTrip(amount: string, symbol: string)
    requires NoNumeric(symbol) && FormatWith(amount, symbol) != "-"
    ensures ParseMoney(FormatWith(amount, symbol)) == Reading(amount).Plain()
    ensures FormatWith(ParseMoney(FormatWith(amount, symbol)), symbol) == FormatWith(amount, symbol)
  {
    var a := Reading(amount);
    FormatShowsReading(amount, symbol);
    ReadingIsCanonical(amount);
    KeepShown(a, symbol);
    KeepNone(IsNumeric, symbol);
    assert "" + a.Tail() == a.Tail();
    ParseCleaned(a.Shown(symbol), a);
    ReadingOfPlain(a);
    FormatShowsReading(a.Plain(), symbol);
  }

  /** The round trip for every listed currency. */
  lemma ListedCurrencyRoundTrip(amount: string, currency: string)
    requires currency in CURRENCY_SYMBOLS && FormatMoney(amount, currency) != "-"
    ensures ParseMoney(FormatMoney(amount, currency)) == Reading(amount).Plain()
    ensures FormatMoney(ParseMoney(FormatMoney(amount, currency)), currency) == FormatMoney(amount, currency)
  {
    RoundTrip(amount, Symbol(currency));
  }

  ghost predicate RoundTrips(amount: string, symbol: string) {
    FormatWith(amount, symbol) != "-" ==> ParseMoney(FormatWith(amount, symbol)) == Reading(amount).Plain()
  }

  lemma ParseOfShown(a: Amount, symbol: string)
    requires a.Canonical() && !a.neg && Keep(IsNumeric, symbol) != ""
    ensures var x := Keep(IsNumeric, symbol);
      ParseMoney(a.Shown(symbol)) == Signed(x[0] == '-', ParsedTail((if x[0] == '-' then x[1..] else x) + a.Tail()))
  {
    KeepShown(a, symbol);
    var x := Keep(IsNumeric, symbol);
    var cleaned := x + a.Tail();
    assert cleaned[1..] == x[1..] + a.Tail();
    assert |cleaned| >= 4;
  }

  function Small(units: string): Amount {
    Amount(false, units, "00")
  }

  /** A symbol that leaves numeric characters behind spoils one of the amounts `0` and `1`. */
  lemma NumericSymbolBreaks(symbol: string)
    requires !NoNumeric(symbol)
    ensures !RoundTrips(Small("0").Plain(), symbol) || !RoundTrips(Small("1").Plain(), symbol)
  {
    var x := Keep(IsNumeric, symbol);
    var i :| 0 <= i < |symbol| && IsNumeric(symbol[i]);
    KeepKept(IsNumeric, symbol, i);
    ReadingOfPlain(Small("0"));
    ReadingOfPlain(Small("1"));
    FormatShowsReading(Small("0").Plain(), symbol);
    FormatShowsReading(Small("1").Plain(), symbol);
    ParseOfShown(Small("0"), symbol);
    ParseOfShown(Small("1"), symbol);
    if x[0] != '-' {
      PrefixDecidesWhole(x);
    }
  }

  /** With text in front, the parsed text cannot be `0.00` and `1.00` for the two suffixes. */
  lemma PrefixDecidesWhole(x: string)
    requires x != ""
    ensures ParsedTail(x + Small("0").Tail()) != Small("0").Tail()
            || ParsedTail(x + Small("1").Tail()) != Small("1").Tail()
  {
    if '.' in x {
      assert Small("0").Tail()[0] == '0' && Small("1").Tail()[0] == '1';
    } else {
      TailOfJoin(x + "1", "00");
      assert x + Small("1").Tail() == x + "1" + "." + "00";
      assert |ParsedTail(x + Small("1").Tail())| == |x| + 4;
    }
  }

  function FirstDot(s: string): (k: nat)
    requires '.' in s
    ensures k < |s| && s[k] == '.' && '.' !in s[..k]
  {
    if s[0] == '.' then 0 else FirstDot(s[1..]) + 1
  }

  /** For an unlisted currency its own code is the symbol: every amount survives the round trip
      exactly when that code has no digit, dot or minus. */
  lemma RoundTripsIffSymbolNotNumeric(symbol: string)
    ensures (forall amount :: RoundTrips(amount, symbol)) <==> NoNumeric(symbol)
  {
    if NoNumeric(symbol) {
      forall amount ensures RoundTrips(amount, symbol) {
        if FormatWith(amount, symbol) != "-" {
          RoundTrip(amount, symbol);
        }
      }
    } else {
      NumericSymbolBreaks(symbol);
    }
  }

  // ---------- the parser on its own output ----------

  /** The unsigned part of a parse is numeric, parses to itself and starts with no new sign. */
  lemma TailAgain(positive: string)
    requires forall c :: c in positive ==> IsNumeric(c)
    ensures var tail := ParsedTail(positive);
      && tail != "" && tail != "." && ParsedTail(tail) == tail
      && (forall c :: c in tail ==> IsNumeric(c))
      && (positive == "" || positive[0] != '-' ==> tail[0] != '-')
  {
    var parts := Split(positive, '.');
    SplitParts(positive, '.', 0);
    var whole := OrZero(parts[0]);
    if |parts| > 1 {
      SplitParts(positive, '.', 1);
    }
    var dec := Prefix(Part(parts, 1), 2);
    assert forall c :: c in dec ==> c in Part(parts, 1);
    TailOfWhole(whole);
    TailOfJoin(whole, dec);
    if positive != "" {
      SplitCons(positive[0], positive[1..], '.');
      assert [positive[0]] + positive[1..] == positive;
    }
  }

  lemma ParseOfNumeric(r: string)
    requires forall c :: c in r ==> IsNumeric(c)
    ensures Keep(IsNumeric, r) == r
  {
  }

  /** Parsing twice is parsing once, on every text. */
  lemma ParseIdempotent(str: string)
    ensures ParseMoney(ParseMoney(str)) == ParseMoney(str)
  {
    var cleaned := Keep(IsNumeric, str);
    KeepOnly(IsNumeric, str);
    if str == "" || cleaned in ["", "-", "."] {
      TailOfWhole("0");
      KeepAll(IsNumeric, "0");
    } else {
      var negative := cleaned[0] == '-';
      var positive := if negative then cleaned[1..] else cleaned;
      TailAgain(positive);
      var tail := ParsedTail(positive);
      ParseOfNumeric(Signed(negative, tail));
      assert ("-" + tail)[1..] == tail;
    }
  }

  // ---------- what the texts are worth ----------

  function Digit(c: char): (d: int)
    requires IsDigit(c)
  {
    c as int - '0' as int
  }

  function WholeValue(s: string): int
    requires AllDigits(s)
  {
    if s == "" then 0 else 10 * WholeValue(s[..|s| - 1]) + Digit(s[|s| - 1])
  }

  function DecimalValue(s: string): real
    requires AllDigits(s)
  {
    if s == "" then 0.0 else (Digit(s[0]) as real + DecimalValue(s[1..])) / 10.0
  }

  predicate IsNegative(s: string) {
    s != "" && s[0] == '-'
  }

  function Unsigned(s: string): string {
    if IsNegative(s) then s[1..] else s
  }

  /** An optional minus, digits, and possibly a dot with further digits. */
  predicate WellFormed(s: string) {
    var parts := Split(Unsigned(s), '.');
    |parts| <= 2 && parts[0] != "" && AllDigits(parts[0]) && AllDigits(Part(parts, 1))
  }

  /** The absolute value of a well-formed decimal. */
  function Magnitude(s: string): real
    requires WellFormed(s)
  {
    var parts := Split(Unsigned(s), '.');
    WholeValue(parts[0]) as real + DecimalValue(Part(parts, 1))
  }

  lemma DecimalBounds(s: string)
    requires AllDigits(s)
    ensures 0.0 <= DecimalValue(s) < 1.0
  {
  }

  /** Cutting decimals after the second loses less than a hundredth. */
  lemma DecimalCut(s: string)
    requires AllDigits(s)
    ensures 0.0 <= DecimalValue(s) - DecimalValue(Prefix(s, 2)) < 0.01
  {
    if |s| > 2 {
      DecimalBounds(s[2..]);
      var cut := s[..2];
      assert cut[1..] == [s[1]] && s[1..][1..] == s[2..];
      assert DecimalValue([s[1]]) == (Digit(s[1]) as real + DecimalValue("")) / 10.0 by {
        assert [s[1]][1..] == "";
      }
      assert DecimalValue(s[1..]) == (Digit(s[1]) as real + DecimalValue(s[2..])) / 10.0;
    }
  }

  /** Padding with zeros adds nothing. */
  lemma DecimalPad(s: string)
    requires AllDigits(s)
    ensures AllDigits(PadEndZeros(s, 2))
    ensures DecimalValue(Prefix(PadEndZeros(s, 2), 2)) == DecimalValue(Prefix(s, 2))
  {
    PadTwo(s);
    if |s| == 0 {
      assert "00"[1..] == "0" && "0"[1..] == "";
    } else if |s| == 1 {
      assert (s + "0")[1..] == "0" && "0"[1..] == "" && s[1..] == "";
    }
  }

  /** Every character of a well-formed decimal is numeric, so the parser keeps all of it. */
  lemma WellFormedIsNumeric(s: string)
    requires WellFormed(s)
    ensures Unsigned(s) != "" && IsDigit(Unsigned(s)[0])
    ensures forall i :: 0 <= i < |Unsigned(s)| ==> IsDigitOrDot(Unsigned(s)[i])
  {
    var u := Unsigned(s);
    SplitCons(u[0], u[1..], '.');
    assert [u[0]] + u[1..] == u;
    SplitCovers(u);
  }

  lemma {:induction false} CharInPart(u: string, i: nat) returns (k: nat)
    requires i < |u| && u[i] != '.'
    ensures k < |Split(u, '.')| && u[i] in Split(u, '.')[k]
  {
    if i == 0 {
      k := 0;
    } else {
      k := CharInPart(u[1..], i - 1);
      if u[0] == '.' {
        k := k + 1;
      }
    }
  }

  lemma {:induction false} SplitCovers(u: string)
    requires var parts := Split(u, '.'); |parts| <= 2 && AllDigits(parts[0]) && AllDigits(Part(parts, 1))
    ensures forall i :: 0 <= i < |u| ==> IsDigitOrDot(u[i])
  {
    forall i | 0 <= i < |u| ensures IsDigitOrDot(u[i]) {
      if u[i] != '.' {
        var k := CharInPart(u, i);
        var part := Split(u, '.')[k];
        assert part == Part(Split(u, '.'), 0) || part == Part(Split(u, '.'), 1);
      }
    }
  }

  /** On well-formed decimals the parser keeps the sign and truncates toward zero to hundredths. */
  lemma ParseTruncates(s: string)
    requires WellFormed(s)
    ensures WellFormed(ParseMoney(s)) && (IsNegative(ParseMoney(s)) <==> IsNegative(s))
    ensures 0.0 <= Magnitude(s) - Magnitude(ParseMoney(s)) < 0.01
  {
    var u := Unsigned(s);
    WellFormedIsNumeric(s);
    assert s == Signed(IsNegative(s), u);
    KeepSigned(IsNegative(s), u);
    KeepAll(IsNumeric, u);
    TailParts(u);
    assert Unsigned(Signed(IsNegative(s), ParsedTail(u))) == ParsedTail(u);
    DecimalCut(Part(Split(u, '.'), 1));
  }

  lemma TailParts(u: string)
    requires var parts := Split(u, '.'); parts[0] != "" && AllDigits(parts[0]) && AllDigits(Part(parts, 1))
    ensures var parts := Split(u, '.'); var cut := Split(ParsedTail(u), '.');
      && |cut| <= 2 && cut[0] == parts[0] && Part(cut, 1) == Prefix(Part(parts, 1), 2)
      && ParsedTail(u) != "" && ParsedTail(u)[0] != '-'
  {
    var parts := Split(u, '.');
    var dec := Prefix(Part(parts, 1), 2);
    SplitWhole(parts[0], '.');
    SplitJoin(parts[0], dec);
  }

  lemma ReadingOfWellFormed(s: string)
    requires WellFormed(s)
    ensures !Blank(s)
    ensures var parts := Split(Unsigned(s), '.');
      Reading(s) == Amount(IsNegative(s), parts[0], Prefix(PadEndZeros(Part(parts, 1), 2), 2))
  {
    var u := Unsigned(s);
    WellFormedIsNumeric(s);
    WellFormedEnds(s);
    TrimNothing(s);
    assert s == Signed(IsNegative(s), u);
    KeepSigned(IsNegative(s), u);
    KeepAll(IsDigitOrDot, u);
    assert s[..1] == [s[0]];
  }

  /** The printer shows the sign and the very hundredths that the parser returns. */
  lemma FormatShowsParsedValue(s: string, symbol: string)
    requires WellFormed(s) && NoNumeric(symbol)
    ensures FormatWith(s, symbol) == Reading(s).Shown(symbol) && Reading(s).neg == IsNegative(s)
    ensures WellFormed(ParseMoney(FormatWith(s, symbol))) && WellFormed(ParseMoney(s))
    ensures Magnitude(ParseMoney(FormatWith(s, symbol))) == Magnitude(ParseMoney(s))
  {
    ReadingOfWellFormed(s);
    FormatShowsReading(s, symbol);
    RoundTrip(s, symbol);
    ReadingIsCanonical(s);
    DecimalPad(Part(Split(Unsigned(s), '.'), 1));
    PlainWorth(Reading(s));
    ParsedWorth(s);
  }

  lemma WellFormedEnds(s: string)
    requires WellFormed(s)
    ensures s != "" && !IsSpace(s[0]) && !IsSpace(s[|s| - 1]) && s != "-" && Unsigned(s) != "."
  {
    WellFormedIsNumeric(s);
    var u := Unsigned(s);
    assert s[|s| - 1] == u[|u| - 1];
  }

  lemma PlainWorth(a: Amount)
    requires a.Canonical()
    ensures WellFormed(a.Plain())
    ensures Magnitude(a.Plain()) == WholeValue(a.units) as real + DecimalValue(a.cents)
  {
    CanonicalTail(a);
    SplitJoin(a.units, a.cents);
    assert Unsigned(a.Plain()) == a.Tail();
  }

  lemma ParsedWorth(s: string)
    requires WellFormed(s)
    ensures WellFormed(ParseMoney(s))
    ensures var parts := Split(Unsigned(s), '.');
      Magnitude(ParseMoney(s)) == WholeValue(parts[0]) as real + DecimalValue(Prefix(Part(parts, 1), 2))
  {
    var u := Unsigned(s);
    WellFormedIsNumeric(s);
    assert s == Signed(IsNegative(s), u);
    KeepSigned(IsNegative(s), u);
    KeepAll(IsNumeric, u);
    TailParts(u);
    assert Unsigned(Signed(IsNegative(s), ParsedTail(u))) == ParsedTail(u);
  }

  // ---------- texts with several dots ----------

  /** What follows a second dot does not reach the first two parts. */
  lemma {:induction false} FirstTwoParts(s: string, t: string)
    requires '.' in s
    ensures |Split(s, '.')| >= 2 && |Split(s + "." + t, '.')| >= 2
    ensures Split(s + "." + t, '.')[..2] == Split(s, '.')[..2]
  {
    var dot := FirstDot(s);
    var a, b := s[..dot], s[dot + 1..];
    assert s == a + "." + b && s + "." + t == a + "." + (b + "." + t);
    SplitAt(a, b, '.');
    SplitAt(a, b + "." + t, '.');
    FirstPart(b, t);
  }

  lemma {:induction false} FirstPart(s: string, t: string)
    ensures Split(s + "." + t, '.')[0] == Split(s, '.')[0]
  {
    var u := s + "." + t;
    if s == "" {
      assert u[0] == '.';
    } else {
      assert u[1..] == s[1..] + "." + t;
      FirstPart(s[1..], t);
    }
  }

  lemma {:induction false} TailStops(u: string, t: string)
    requires '.' in u
    ensures ParsedTail(u + "." + t) == ParsedTail(u)
  {
    FirstTwoParts(u, t);
    var p, q := Split(u + "." + t, '.'), Split(u, '.');
    assert p[0] == p[..2][0] == q[..2][0] == q[0] && p[1] == p[..2][1] == q[..2][1] == q[1];
  }

  lemma {:induction false} KeepDotted(keep: char -> bool, s: string, t: string)
    requires keep('.') && '.' in s
    ensures Keep(keep, s + "." + t) == Keep(keep, s) + "." + Keep(keep, t)
    ensures '.' in Keep(keep, s)
  {
    KeepConcat(keep, s + ".", t);
    KeepConcat(keep, s, ".");
    assert "."[1..] == "";
    var i :| 0 <= i < |s| && s[i] == '.';
    KeepKept(keep, s, i);
  }

  /** What is parsed depends on the numeric characters alone. */
  function ParsedClean(cleaned: string): string {
    if cleaned == "" || cleaned == "-" || cleaned == "." then "0"
    else if cleaned[0] == '-' then "-" + ParsedTail(cleaned[1..])
    else ParsedTail(cleaned)
  }

  lemma {:induction false} ParseIsClean(s: string)
    ensures ParseMoney(s) == ParsedClean(Keep(IsNumeric, s))
  {
  }

  lemma {:induction false} CleanStops(c: string, d: string)
    requires '.' in c
    ensures ParsedClean(c + "." + d) == ParsedClean(c)
  {
    var e := c + "." + d;
    if c[0] == '-' {
      assert c == "-" + c[1..] && e[1..] == c[1..] + "." + d;
      TailStops(c[1..], d);
    } else {
      TailStops(c, d);
      if c == "." {
        assert ParsedTail(".") == "0" by {
          SplitAt("", "", '.');
          assert "." == "" + "." + "";
        }
      }
    }
  }

  /** The parser reads a text up to its second dot only. */
  lemma {:induction false} ParserStopsAtSecondDot(s: string, t: string)
    requires '.' in s
    ensures ParseMoney(s + "." + t) == ParseMoney(s)
  {
    ParseIsClean(s);
    ParseIsClean(s + "." + t);
    KeepDotted(IsNumeric, s, t);
    CleanStops(Keep(IsNumeric, s), Keep(IsNumeric, t));
  }

  lemma {:induction false} KeepTrimStart(s: string)
    ensures Keep(IsDigitOrDot, TrimStart(s)) == Keep(IsDigitOrDot, s)
  {
    if s != "" && IsSpace(s[0]) {
      KeepTrimStart(s[1..]);
    }
  }

  lemma {:induction false} KeepTrimEnd(s: string)
    ensures Keep(IsDigitOrDot, TrimEnd(s)) == Keep(IsDigitOrDot, s)
    ensures TrimEnd(s) <= s
  {
    if s != "" && IsSpace(s[|s| - 1]) {
      var init, last := s[..|s| - 1], [s[|s| - 1]];
      assert s == init + last && last[1..] == "";
      KeepConcat(IsDigitOrDot, init, last);
      KeepTrimEnd(init);
    }
  }

  /** Does the text, blanks aside, begin with a minus sign? */
  predicate Negated(s: string) {
    TrimStart(s) != "" && TrimStart(s)[0] == '-'
  }

  lemma {:induction false} TrimStartDotted(s: string, t: string)
    requires '.' in s
    ensures '.' in TrimStart(s) && TrimStart(s + t) == TrimStart(s) + t
  {
    assert (s + t)[0] == s[0];
    if IsSpace(s[0]) {
      assert (s + t)[1..] == s[1..] + t;
      TrimStartDotted(s[1..], t);
    }
  }

  /** What is printed of a text with a dot depends on its digits and dots and its sign. */
  function Dotted(negative: bool, digits: string, symbol: string): string {
    if digits == "." then symbol + "0.00"
    else
      var parts := Split(digits, '.');
      Signed(negative, symbol + Group(OrZero(parts[0])) + "." + Prefix(PadEndZeros(Part(parts, 1), 2), 2))
  }

  lemma {:induction false} FormatDotted(s: string, symbol: string)
    requires '.' in s
    ensures FormatWith(s, symbol) == Dotted(Negated(s), Keep(IsDigitOrDot, s), symbol)
    ensures '.' in Keep(IsDigitOrDot, s)
  {
    KeepTrimStart(s);
    KeepTrimEnd(TrimStart(s));
    var i :| 0 <= i < |s| && s[i] == '.';
    KeepKept(IsDigitOrDot, s, i);
    assert Trim(s) != "" && Trim(s)[0] == TrimStart(s)[0];
    assert Keep(IsDigitOrDot, "-") == "" by {
      assert "-"[1..] == "";
    }
  }

  lemma {:induction false} DottedStops(negative: bool, digits: string, t: string, symbol: string)
    requires '.' in digits && digits != "."
    ensures Dotted(negative, digits + "." + t, symbol) == Dotted(negative, digits, symbol)
  {
    FirstTwoParts(digits, t);
    var p, q := Split(digits + "." + t, '.'), Split(digits, '.');
    assert p[0] == p[..2][0] == q[..2][0] == q[0] && p[1] == p[..2][1] == q[..2][1] == q[1];
  }

  lemma {:induction false} LoneDotShown(negative: bool, t: string, symbol: string)
    ensures Dotted(negative, "." + "." + t, symbol) == Signed(negative, symbol + "0.00")
  {
    SplitAt("", "." + t, '.');
    SplitAt("", t, '.');
    assert "." + "." + t == "" + "." + ("." + t) && "." + t == "" + "." + t;
    PadTwo("");
    assert Group("0") == "0" by {
      assert GroupFrom("0", 1) == "";
    }
  }

  lemma {:induction false} NegatedByHead(s: string, t: string)
    requires '.' in s
    ensures Negated(s + "." + t) == Negated(s)
  {
    TrimStartDotted(s, "." + t);
    assert s + "." + t == s + ("." + t);
  }

  /** So does the printer, exactly unless a minus sign stands before a lone dot: a negative zero shows
      its sign only from the second dot on. */
  lemma {:induction false} PrinterStopsAtSecondDotIff(s: string, t: string, symbol: string)
    requires '.' in s
    ensures FormatWith(s + "." + t, symbol) == FormatWith(s, symbol)
            <==> !(Negated(s) && Keep(IsDigitOrDot, s) == ".")
  {
    var digits, more := Keep(IsDigitOrDot, s), Keep(IsDigitOrDot, t);
    FormatDotted(s, symbol);
    FormatDotted(s + "." + t, symbol);
    KeepDotted(IsDigitOrDot, s, t);
    NegatedByHead(s, t);
    DottedStopsIff(Negated(s), digits, more, symbol);
  }

  lemma {:induction false} DottedStopsIff(negative: bool, digits: string, t: string, symbol: string)
    requires '.' in digits
    ensures Dotted(negative, digits + "." + t, symbol) == Dotted(negative, digits, symbol)
            <==> !(negative && digits == ".")
  {
    if digits == "." {
      LoneDotShown(negative, t, symbol);
    } else {
      DottedStops(negative, digits, t, symbol);
    }
  }
}
