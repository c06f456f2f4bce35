/** Which characters of a money text count, and what the printer and the parser make of each form. */
module MoneyForms {
  import opened MoneyText

  const BLANKS: set<char> :=
    {'\t', '\n', '\U{000B}', '\U{000C}', '\r', ' ', '\U{00A0}', '\U{1680}', '\U{2000}', '\U{2001}', '\U{2002}',
     '\U{2003}', '\U{2004}', '\U{2005}', '\U{2006}', '\U{2007}', '\U{2008}', '\U{2009}', '\U{200A}', '\U{2028}',
     '\U{2029}', '\U{202F}', '\U{205F}', '\U{3000}', '\U{FEFF}'}

  const DIGITS: set<char> := {'0', '1', '2', '3', '4', '5', '6', '7', '8', '9'}

  predicate Blanks(s: string) {
    forall i :: 0 <= i < |s| ==> s[i] in BLANKS
  }

  predicate Digits(s: string) {
    forall i :: 0 <= i < |s| ==> s[i] in DIGITS
  }

  lemma {:induction false} CharactersAreListed(c: char)
    ensures IsSpace(c) <==> c in BLANKS
    ensures IsDigit(c) <==> c in DIGITS
  {
  }

  // ---------- blanks ----------

  lemma {:induction false} TrimStartBlanks(a: string, x: string)
    requires Blanks(a)
    ensures TrimStart(a + x) == TrimStart(x)
  {
    if a == "" {
      assert a + x == x;
    } else {
      assert IsSpace(a[0]) && (a + x)[1..] == a[1..] + x;
      TrimStartBlanks(a[1..], x);
    }
  }

  lemma {:induction false} TrimEndBlanks(x: string, b: string)
    requires Blanks(b)
    ensures TrimEnd(x + b) == TrimEnd(x)
  {
    if b == "" {
      assert x + b == x;
    } else {
      var n := |b| - 1;
      assert IsSpace(b[n]) && (x + b)[..|x + b| - 1] == x + b[..n];
      TrimEndBlanks(x, b[..n]);
    }
  }

  lemma {:induction false} TrimStartSplits(s: string) returns (a: string)
    ensures s == a + TrimStart(s) && Blanks(a)
  {
    a := "";
    if s != "" && IsSpace(s[0]) {
      var rest := TrimStartSplits(s[1..]);
      a := [s[0]] + rest;
      assert a + TrimStart(s) == [s[0]] + (rest + TrimStart(s[1..]));
    }
  }

  lemma {:induction false} TrimEndSplits(s: string) returns (b: string)
    ensures s == TrimEnd(s) + b && Blanks(b)
  {
    b := "";
    if s != "" && IsSpace(s[|s| - 1]) {
      var n := |s| - 1;
      var rest := TrimEndSplits(s[..n]);
      b := rest + [s[n]];
      assert TrimEnd(s) + b == (TrimEnd(s[..n]) + rest) + [s[n]];
    }
  }

  predicate DashAt(s: string, k: nat)
    requires k < |s|
  {
    s[k] == '-' && Blanks(s[..k]) && Blanks(s[k + 1..])
  }

  lemma {:induction false} BlankHasForm(s: string)
    requires Blank(s)
    ensures Blanks(s) || exists k :: 0 <= k < |s| && DashAt(s, k)
  {
    var a := TrimStartSplits(s);
    var b := TrimEndSplits(TrimStart(s));
    if Trim(s) == "-" {
      assert s == a + ("-" + b) && s[..|a|] == a && s[|a| + 1..] == b;
      assert DashAt(s, |a|);
    } else {
      assert s == a + b;
    }
  }

  lemma {:induction false} DashIsTrimmed(s: string, k: nat)
    requires k < |s| && DashAt(s, k)
    ensures Trim(s) == "-"
  {
    var b := s[k + 1..];
    assert s == s[..k] + ("-" + b);
    TrimStartBlanks(s[..k], "-" + b);
    TrimEndBlanks("-", b);
    TrimNothing("-");
  }

  /** The printer answers a bare dash exactly to blanks with at most one minus among them. */
  lemma {:induction false} DashIff(s: string, symbol: string)
    ensures FormatWith(s, symbol) == "-" <==> Blanks(s) || exists k :: 0 <= k < |s| && DashAt(s, k)
  {
    FormatShowsReading(s, symbol);
    if Blank(s) {
      BlankHasForm(s);
    }
    if Blanks(s) {
      TrimStartBlanks(s, "");
      assert s + "" == s;
    }
    if k :| 0 <= k < |s| && DashAt(s, k) {
      DashIsTrimmed(s, k);
    }
  }

  // ---------- what is ignored ----------

  lemma {:induction false} FormatKept(s: string, symbol: string)
    requires Keep(IsDigitOrDot, s) != ""
    ensures FormatWith(s, symbol) == Dotted(Negated(s), Keep(IsDigitOrDot, s), symbol)
  {
    KeepTrimStart(s);
    KeepTrimEnd(TrimStart(s));
    assert Keep(IsDigitOrDot, "-") == "" by {
      assert "-"[1..] == "";
    }
  }

  lemma {:induction false} TrimStartStops(u: string, v: string)
    requires !Blanks(u)
    ensures TrimStart(u) != "" && TrimStart(u + v) == TrimStart(u) + v
  {
    assert (u + v)[0] == u[0];
    if IsSpace(u[0]) {
      assert (u + v)[1..] == u[1..] + v;
      TrimStartStops(u[1..], v);
    }
  }

  lemma {:induction false} KeepDrops(keep: char -> bool, u: string, c: char, v: string)
    requires !keep(c)
    ensures Keep(keep, u + [c] + v) == Keep(keep, u + v)
  {
    KeepConcat(keep, u + [c], v);
    KeepConcat(keep, u, [c]);
    KeepConcat(keep, u, v);
    KeepNone(keep, [c]);
  }

  /** Behind the first character of a text that is not blank, only digits and dots count. */
  lemma {:induction false} PrinterIgnores(u: string, c: char, v: string, symbol: string)
    requires !Blanks(u) && c !in DIGITS && c != '.'
    requires exists i :: 0 <= i < |u + v| && ((u + v)[i] in DIGITS || (u + v)[i] == '.')
    ensures FormatWith(u + [c] + v, symbol) == FormatWith(u + v, symbol)
  {
    var i :| 0 <= i < |u + v| && ((u + v)[i] in DIGITS || (u + v)[i] == '.');
    KeepKept(IsDigitOrDot, u + v, i);
    KeepDrops(IsDigitOrDot, u, c, v);
    FormatKept(u + v, symbol);
    FormatKept(u + [c] + v, symbol);
    TrimStartStops(u, v);
    TrimStartStops(u, [c] + v);
    assert u + [c] + v == u + ([c] + v);
  }

  /** The parser ignores every other character wherever it stands. */
  lemma {:induction false} ParserIgnores(u: string, c: char, v: string)
    requires c !in DIGITS && c != '.' && c != '-'
    ensures ParseMoney(u + [c] + v) == ParseMoney(u + v)
  {
    ParseIsClean(u + [c] + v);
    ParseIsClean(u + v);
    KeepDrops(IsNumeric, u, c, v);
  }

  // ---------- what is printed ----------

  /** Blanks around a text, a minus sign in front of it. */
  function Text(a: string, negative: bool, body: string, b: string): string {
    a + ((if negative then "-" else "") + body) + b
  }

  predicate DigitsAndDots(body: string) {
    body != "" && forall i :: 0 <= i < |body| ==> IsDigitOrDot(body[i])
  }

  lemma {:induction false} TextIsSigned(a: string, negative: bool, body: string, b: string)
    requires Blanks(a) && DigitsAndDots(body)
    ensures Negated(Text(a, negative, body, b)) == negative
  {
    var signed := (if negative then "-" else "") + body;
    assert signed[0] == if negative then '-' else body[0];
    assert Text(a, negative, body, b) == a + (signed + b);
    TrimStartBlanks(a, signed + b);
    assert (signed + b)[0] == signed[0];
  }

  lemma {:induction false} TextIsKept(a: string, negative: bool, body: string, b: string)
    requires Blanks(a) && Blanks(b) && DigitsAndDots(body)
    ensures Keep(IsDigitOrDot, Text(a, negative, body, b)) == body
  {
    var sign := if negative then "-" else "";
    KeepNone(IsDigitOrDot, a);
    KeepNone(IsDigitOrDot, b);
    KeepNone(IsDigitOrDot, sign);
    KeepAll(IsDigitOrDot, body);
    KeepConcat(IsDigitOrDot, a + (sign + body), b);
    KeepConcat(IsDigitOrDot, a, sign + body);
    KeepConcat(IsDigitOrDot, sign, body);
  }

  lemma {:induction false} FormatText(a: string, negative: bool, body: string, b: string, symbol: string)
    requires Blanks(a) && Blanks(b) && DigitsAndDots(body)
    ensures FormatWith(Text(a, negative, body, b), symbol) == Dotted(negative, body, symbol)
  {
    TextIsKept(a, negative, body, b);
    TextIsSigned(a, negative, body, b);
    FormatKept(Text(a, negative, body, b), symbol);
  }

  lemma {:induction false} TwoDecimals(dec: string)
    ensures Prefix(PadEndZeros(dec, 2), 2) == (dec + "00")[..2]
  {
    PadTwo(dec);
    if |dec| == 0 {
      assert dec + "00" == "00";
    } else if |dec| == 1 {
      assert (dec + "00")[..2] == dec + "0";
    } else {
      assert (dec + "00")[..2] == dec[..2];
    }
  }

  lemma {:induction false} SignIsFirst(negative: bool, s: string)
    ensures Signed(negative, s) == (if negative then "-" else "") + s
  {
    assert "" + s == s;
  }

  lemma {:induction false} JoinIsDigits(whole: string, dec: string)
    requires Digits(whole) && Digits(dec) && whole + dec != ""
    ensures DigitsAndDots(whole + "." + dec) && whole + "." + dec != "."
    ensures '.' !in whole && '.' !in dec
  {
    var joined := whole + "." + dec;
    assert |joined| == |whole| + |dec| + 1;
    forall i | 0 <= i < |joined| ensures IsDigitOrDot(joined[i]) {
      CharactersAreListed(joined[i]);
    }
  }

  /** Sign, symbol, grouped whole part or zero, and two decimals, cut or filled with zeros. */
  lemma {:induction false} DecimalIsPrinted(
    a: string, negative: bool, whole: string, dec: string, b: string, symbol: string)
    requires Blanks(a) && Blanks(b) && Digits(whole) && Digits(dec) && whole + dec != ""
    ensures FormatWith(Text(a, negative, whole + "." + dec, b), symbol)
         == (if negative then "-" else "")
            + (symbol + Group(if whole == "" then "0" else whole) + "." + (dec + "00")[..2])
  {
    JoinIsDigits(whole, dec);
    FormatText(a, negative, whole + "." + dec, b, symbol);
    SplitJoin(whole, dec);
    TwoDecimals(dec);
    SignIsFirst(negative, symbol + Group(OrZero(whole)) + "." + (dec + "00")[..2]);
  }

  lemma {:induction false} WholeIsPrinted(a: string, negative: bool, whole: string, b: string, symbol: string)
    requires Blanks(a) && Blanks(b) && Digits(whole) && whole != ""
    ensures FormatWith(Text(a, negative, whole, b), symbol)
         == (if negative then "-" else "") + (symbol + Group(whole) + "." + "00")
  {
    FormatText(a, negative, whole, b, symbol);
    SplitWhole(whole, '.');
    TwoDecimals("");
    SignIsFirst(negative, symbol + Group(whole) + "." + "00");
  }

  lemma {:induction false} KeptDots(s: string)
    requires forall i :: 0 <= i < |s| ==> s[i] !in DIGITS
    requires forall i, j :: 0 <= i < j < |s| ==> !(s[i] == '.' && s[j] == '.')
    ensures Keep(IsDigitOrDot, s) == "" || Keep(IsDigitOrDot, s) == "."
    ensures (forall i :: 0 <= i < |s| ==> s[i] != '.') ==> Keep(IsDigitOrDot, s) == ""
  {
    if s != "" {
      KeptDots(s[1..]);
      if s[0] == '.' {
        forall i | 0 <= i < |s[1..]| ensures s[1..][i] != '.' {
          assert s[i + 1] == s[1..][i];
        }
      }
    }
  }

  /** Without a digit and with at most one dot, all but the dash prints as zero without a sign. */
  lemma {:induction false} NoDigitsPrintZero(s: string, symbol: string)
    requires forall i :: 0 <= i < |s| ==> s[i] !in DIGITS
    requires forall i, j :: 0 <= i < j < |s| ==> !(s[i] == '.' && s[j] == '.')
    requires FormatWith(s, symbol) != "-"
    ensures FormatWith(s, symbol) == symbol + "0.00"
  {
    KeptDots(s);
    KeepTrimStart(s);
    KeepTrimEnd(TrimStart(s));
  }

  /** The six listed currencies print their symbol, every other one prints itself. */
  lemma {:induction false} CurrencyIsPrinted(amount: string, currency: string)
    ensures FormatMoney(amount, "CNY") == FormatWith(amount, "¥")
    ensures FormatMoney(amount, "USD") == FormatWith(amount, "$")
    ensures FormatMoney(amount, "EUR") == FormatWith(amount, "€")
    ensures FormatMoney(amount, "GBP") == FormatWith(amount, "£")
    ensures FormatMoney(amount, "JPY") == FormatWith(amount, "¥")
    ensures FormatMoney(amount, "HKD") == FormatWith(amount, "HK$")
    ensures currency !in {"CNY", "USD", "EUR", "GBP", "JPY", "HKD"}
            ==> FormatMoney(amount, currency) == FormatWith(amount, currency)
  {
  }

  // ---------- what is parsed ----------

  lemma {:induction false} ParseText(negative: bool, body: string)
    requires DigitsAndDots(body) && (negative || body != ".")
    ensures ParseMoney((if negative then "-" else "") + body) == Signed(negative, ParsedTail(body))
  {
    var s := Signed(negative, body);
    KeepAll(IsNumeric, s);
    assert s == (if negative then "-" else "") + body;
    assert negative ==> s[1..] == body;
  }

  lemma {:induction false} LoneDotParsed(negative: bool)
    ensures ParseMoney((if negative then "-" else "") + ".") == (if negative then "-" else "") + "0"
  {
    if negative {
      ParseText(true, ".");
      SplitAt("", "", '.');
      assert "" + ['.'] + "" == ".";
    } else {
      KeepAll(IsNumeric, ".");
      assert "" + "." == ".";
    }
  }

  lemma {:induction false} TailOfDecimal(whole: string, dec: string)
    requires Digits(whole) && Digits(dec) && whole + dec != ""
    ensures ParsedTail(whole + "." + dec)
         == (if whole == "" then "0" else whole)
            + if dec == "" then "" else "." + if |dec| <= 2 then dec else dec[..2]
  {
    JoinIsDigits(whole, dec);
    SplitJoin(whole, dec);
    var whole' := OrZero(whole);
    assert whole' + "." + Prefix(dec, 2) == whole' + ("." + Prefix(dec, 2));
    assert whole' + "" == whole';
  }

  /** The sign, the whole part or zero, and at most two decimals, cut. */
  lemma {:induction false} DecimalIsParsed(negative: bool, whole: string, dec: string)
    requires Digits(whole) && Digits(dec)
    ensures ParseMoney((if negative then "-" else "") + (whole + "." + dec))
         == (if negative then "-" else "")
            + ((if whole == "" then "0" else whole)
               + if dec == "" then "" else "." + if |dec| <= 2 then dec else dec[..2])
  {
    if whole + dec == "" {
      assert whole + "." + dec == "." && "0" + "" == "0";
      LoneDotParsed(negative);
    } else {
      JoinIsDigits(whole, dec);
      TailOfDecimal(whole, dec);
      ParseText(negative, whole + "." + dec);
      SignIsFirst(negative, ParsedTail(whole + "." + dec));
    }
  }

  lemma {:induction false} WholeIsParsed(negative: bool, whole: string)
    requires Digits(whole)
    ensures ParseMoney((if negative then "-" else "") + whole)
         == if whole == "" then "0" else (if negative then "-" else "") + whole
  {
    if whole == "" {
      KeepAll(IsNumeric, "-");
      assert "-" + "" == "-" && "" + "" == "";
    } else {
      assert IsDigit(whole[0]) && whole != ".";
      ParseText(negative, whole);
      SplitWhole(whole, '.');
      SignIsFirst(negative, whole);
    }
  }
}
