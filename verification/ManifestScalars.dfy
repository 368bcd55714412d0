// The scalars of an update manifest: quoted strings, numbers and flags, as printed
// and parsed by scripts/merge-mac-update-manifests.ts.
module ManifestScalars {
  import opened Wrappers
  import opened TextLines

  // ---- Single-quoted strings ----

  // value.replace(/'/g, "''")
  function Double(s: string): string {
    if s == "" then ""
    else (if s[0] == '\'' then "''" else [s[0]]) + Double(s[1..])
  }

  // value.replace(/''/g, "'")
  function Undouble(s: string): string {
    if s == "" then ""
    else if |s| >= 2 && s[0] == '\'' && s[1] == '\'' then "'" + Undouble(s[2..])
    else [s[0]] + Undouble(s[1..])
  }

  // Section 7.3.2 of YAML 1.2.2: doubling the quotes of a single-quoted scalar loses nothing.
  lemma {:induction false} UndoubleUndoesDouble(s: string)
    ensures Undouble(Double(s)) == s
  {
    if s != "" {
      UndoubleUndoesDouble(s[1..]);
      if s[0] == '\'' {
        assert Double(s)[2..] == Double(s[1..]);
      } else {
        assert Double(s)[1..] == Double(s[1..]);
      }
      assert [s[0]] + s[1..] == s;
    }
  }

  lemma {:induction false} DoubleIsOneLine(s: string)
    requires OneLine(s)
    ensures OneLine(Double(s))
  {
    if s != "" {
      DoubleIsOneLine(s[1..]);
    }
  }

  function Quote(s: string): string {
    "'" + Double(s) + "'"
  }

  predicate Quoted(s: string) {
    s != "" && s[0] == '\'' && s[|s| - 1] == '\''
  }

  // A lone quote both starts and ends the text, and nothing is left of it.
  function StripQuotes(s: string): string {
    if Quoted(s) then (if |s| == 1 then "" else Undouble(s[1..|s| - 1])) else s
  }

  lemma StripUndoesQuote(s: string)
    ensures Quoted(Quote(s)) && StripQuotes(Quote(s)) == s
  {
    UndoubleUndoesDouble(s);
    assert Quote(s)[1..|Quote(s)| - 1] == Double(s);
  }

  // A text that lacks a quote at either end is left alone, by itself and as a scalar.
  lemma UnquotedIsItself(s: string)
    requires s != "" && (s[0] != '\'' || s[|s| - 1] != '\'')
    ensures StripQuotes(s) == s
    ensures Printable(s) && s != "true" && s != "false" && ParseDecimal(s).None? ==> ParseScalar(s) == Text(s)
  {
    hide ParseDecimal;
    if Printable(s) {
      PrintableTrim(s);
    }
  }

  // ---- Numbers ----

  predicate IsDigit(c: char) {
    '0' <= c <= '9'
  }

  predicate Digits(s: string) {
    forall i :: 0 <= i < |s| ==> IsDigit(s[i])
  }

  function PrintNat(n: nat): (s: string)
    ensures s != "" && Digits(s)
  {
    var digit := ('0' as int + n % 10) as char;
    if n < 10 then [digit] else PrintNat(n / 10) + [digit]
  }

  function ParseNat(s: string): nat
    requires Digits(s)
  {
    if s == "" then 0 else ParseNat(s[..|s| - 1]) * 10 + (s[|s| - 1] as int - '0' as int)
  }

  lemma {:induction false} ParseUndoesPrintNat(n: nat)
    ensures ParseNat(PrintNat(n)) == n
  {
    var s := PrintNat(n);
    if n < 10 {
      assert s[..0] == "";
    } else {
      ParseUndoesPrintNat(n / 10);
      assert s[..|s| - 1] == PrintNat(n / 10);
    }
  }

  function DigitCount(s: string): (n: nat)
    ensures n <= |s| && Digits(s[..n])
    ensures n < |s| ==> !IsDigit(s[n])
  {
    if s == "" || !IsDigit(s[0]) then 0
    else
      var n := 1 + DigitCount(s[1..]);
      assert s[..n] == [s[0]] + s[1..][..n - 1];
      n
  }

  lemma {:induction false} DigitCountOf(digits: string, rest: string)
    requires Digits(digits) && (rest != "" ==> !IsDigit(rest[0]))
    ensures DigitCount(digits + rest) == |digits|
  {
    if digits == "" {
      assert digits + rest == rest;
    } else {
      assert (digits + rest)[1..] == digits[1..] + rest;
      DigitCountOf(digits[1..], rest);
    }
  }

  // A number: sign, whole part and decimal places, without trailing zeros. Zero has no sign.
  datatype Decimal = Decimal(negative: bool, whole: nat, places: string)

  predicate Canonical(d: Decimal) {
    && Digits(d.places)
    && (d.places != "" ==> d.places[|d.places| - 1] != '0')
    && (d.negative ==> d.whole != 0 || d.places != "")
  }

  function TrimZeros(s: string): (r: string)
    ensures Digits(s) ==> Digits(r)
    ensures r != "" ==> r[|r| - 1] != '0'
    ensures s == "" || s[|s| - 1] != '0' ==> r == s
  {
    if s == "" || s[|s| - 1] != '0' then s else TrimZeros(s[..|s| - 1])
  }

  function PrintPlaces(places: string): string {
    if places == "" then "" else "." + places
  }

  function LeadingZeros(s: string): (n: nat)
    ensures n <= |s|
  {
    if s == "" || s[0] != '0' then 0 else 1 + LeadingZeros(s[1..])
  }

  // From here on, numbers are printed with an exponent; and so are those under 0.000001.
  const EXPONENT_FROM: nat := 1_000_000_000_000_000_000_000

  // String(number) writes the number out.
  predicate WithoutExponent(d: Decimal) {
    d.whole < EXPONENT_FROM && (d.whole == 0 && d.places != "" ==> LeadingZeros(d.places) < 6)
  }

  function Significand(digits: string): string {
    if |digits| <= 1 then digits else digits[..1] + "." + digits[1..]
  }

  function PrintExponent(d: Decimal): string {
    if d.whole == 0 then
      var zeros := LeadingZeros(d.places);
      Significand(d.places[zeros..]) + "e-" + PrintNat(zeros + 1)
    else
      var whole := PrintNat(d.whole);
      Significand(TrimZeros(whole + d.places)) + "e+" + PrintNat(|whole| - 1)
  }

  function PrintUnsigned(d: Decimal): string {
    if WithoutExponent(d) then PrintNat(d.whole) + PrintPlaces(d.places) else PrintExponent(d)
  }

  // String(number)
  function PrintDecimal(d: Decimal): string {
    if d.negative then "-" + PrintUnsigned(d) else PrintUnsigned(d)
  }

  function Signed(negative: bool, whole: nat, places: string): (d: Decimal)
    requires Digits(places)
    ensures Canonical(d)
  {
    var trimmed := TrimZeros(places);
    Decimal(negative && (whole != 0 || trimmed != ""), whole, trimmed)
  }

  function ParseUnsigned(negative: bool, s: string): (r: Option<Decimal>)
    ensures r.Some? ==> Canonical(r.value)
  {
    var n := DigitCount(s);
    if n == 0 then None
    else if n == |s| then
      assert s[..n] == s;
      Some(Signed(negative, ParseNat(s), ""))
    else if s[n] == '.' && n + 1 < |s| && Digits(s[n + 1..]) then
      Some(Signed(negative, ParseNat(s[..n]), s[n + 1..]))
    else None
  }

  // A text matching /^-?\d+(?:\.\d+)?$/, and the number it stands for.
  function ParseDecimal(s: string): (r: Option<Decimal>)
    ensures r.Some? ==> Canonical(r.value)
  {
    if s != "" && s[0] == '-' then ParseUnsigned(true, s[1..]) else ParseUnsigned(false, s)
  }

  lemma ReadsUnsigned(negative: bool, whole: string, places: string)
    requires whole != "" && Digits(whole) && Digits(places)
    ensures ParseUnsigned(negative, whole + PrintPlaces(places)) == Some(Signed(negative, ParseNat(whole), places))
  {
    hide Signed, ParseNat, DigitCount;
    var tail := PrintPlaces(places);
    DigitCountOf(whole, tail);
    if places == "" {
      assert whole + tail == whole;
    } else {
      assert (whole + tail)[..|whole|] == whole;
      assert (whole + tail)[|whole| + 1..] == places;
    }
  }

  lemma ParseUndoesPrintUnsigned(d: Decimal)
    requires Canonical(d) && WithoutExponent(d)
    ensures ParseUnsigned(d.negative, PrintUnsigned(d)) == Some(d)
  {
    assert PrintUnsigned(d) == PrintNat(d.whole) + PrintPlaces(d.places);
    assert Signed(d.negative, d.whole, d.places) == d;
    hide PrintUnsigned, ParseUnsigned, WithoutExponent, Signed, PrintNat;
    ParseUndoesPrintNat(d.whole);
    ReadsUnsigned(d.negative, PrintNat(d.whole), d.places);
  }

  lemma ParsedHasNoExponent(s: string)
    requires ParseDecimal(s).Some?
    ensures 'e' !in s
  {
    var unsigned := if s != "" && s[0] == '-' then s[1..] else s;
    var n := DigitCount(unsigned);
    assert unsigned == unsigned[..n] + unsigned[n..];
    hide DigitCount, ParseNat, TrimZeros;
  }

  lemma ExponentPrinted(d: Decimal)
    requires !WithoutExponent(d)
    ensures 'e' in PrintDecimal(d)
  {
    var unsigned := PrintUnsigned(d);
    assert 'e' in unsigned by {
      hide PrintNat, LeadingZeros, TrimZeros, Significand, WithoutExponent;
      assert 'e' in "e-" && 'e' in "e+";
    }
  }

  // Reading a printed number gives it back, unless it was printed with an exponent.
  lemma ParseUndoesPrintDecimal(d: Decimal)
    requires Canonical(d)
    ensures ParseDecimal(PrintDecimal(d)) == if WithoutExponent(d) then Some(d) else None
  {
    if WithoutExponent(d) {
      ParseUndoesPrintUnsigned(d);
      var unsigned := PrintUnsigned(d);
      assert unsigned[0] == PrintNat(d.whole)[0] && IsDigit(unsigned[0]);
      hide PrintUnsigned, ParseUnsigned;
      if d.negative {
        assert ("-" + unsigned)[1..] == unsigned;
      }
    } else {
      ExponentPrinted(d);
      hide PrintDecimal, ParseDecimal;
      if ParseDecimal(PrintDecimal(d)).Some? {
        ParsedHasNoExponent(PrintDecimal(d));
      }
    }
  }

  predicate IsNumberChar(c: char) {
    IsDigit(c) || c == '-' || c == '.' || c == 'e' || c == '+'
  }

  predicate NumberChars(s: string) {
    forall i :: 0 <= i < |s| ==> IsNumberChar(s[i])
  }

  lemma PrintDecimalShape(d: Decimal)
    requires Digits(d.places)
    ensures PrintDecimal(d) != "" && NumberChars(PrintDecimal(d))
  {
    hide PrintNat, LeadingZeros, TrimZeros;
    assert NumberChars(PrintNat(d.whole)) && NumberChars(PrintPlaces(d.places));
    assert NumberChars(PrintUnsigned(d));
  }

  // A size as a template literal prints it.
  function PrintSize(n: nat): string {
    PrintDecimal(Decimal(false, n, ""))
  }

  lemma PrintSizeOf(n: nat)
    ensures n < EXPONENT_FROM ==> PrintSize(n) == PrintNat(n)
    ensures PrintSize(n) != "" && NumberChars(PrintSize(n))
  {
    PrintDecimalShape(Decimal(false, n, ""));
  }

  // A printed size is read as that size exactly if it has no exponent.
  lemma ParseUndoesPrintSize(n: nat)
    ensures Digits(PrintSize(n)) && ParseNat(PrintSize(n)) == n <==> n < EXPONENT_FROM
    ensures n >= EXPONENT_FROM ==> !Digits(PrintSize(n))
  {
    PrintSizeOf(n);
    hide PrintNat;
    if n < EXPONENT_FROM {
      ParseUndoesPrintNat(n);
    } else {
      ExponentPrinted(Decimal(false, n, ""));
      assert !IsDigit('e');
    }
  }

  // ---- Scalars ----

  datatype Scalar = Text(text: string) | Number(number: Decimal) | Flag(flag: bool)

  function ParseScalar(raw: string): Scalar {
    var trimmed := Trim(raw);
    if Quoted(trimmed) && |trimmed| >= 2 then Text(Undouble(trimmed[1..|trimmed| - 1]))
    else if trimmed == "true" then Flag(true)
    else if trimmed == "false" then Flag(false)
    else match ParseDecimal(trimmed)
      case Some(d) => Number(d)
      case None => Text(trimmed)
  }

  function PrintScalar(value: Scalar): string {
    match value
    case Text(text) => Quote(text)
    case Number(d) => PrintDecimal(d)
    case Flag(b) => if b then "true" else "false"
  }

  predicate WellFormedScalar(value: Scalar) {
    match value
    case Text(text) => OneLine(text)
    case Number(d) => Canonical(d)
    case Flag(_) => true
  }

  // A number printed with an exponent is read as a text.
  predicate PlainScalar(value: Scalar) {
    value.Number? ==> WithoutExponent(value.number)
  }

  function ReadScalar(value: Scalar): Scalar {
    if PlainScalar(value) then value else Text(PrintDecimal(value.number))
  }

  // A text that is printed bare and still read as a text.
  predicate PlainText(s: string) {
    && s != "" && OneLine(s) && Trimmed(s) && !(Quoted(s) && |s| >= 2)
    && s != "true" && s != "false" && ParseDecimal(s).None?
  }

  // What is printed on one line: it survives trimming and matching.
  predicate Printable(s: string) {
    s != "" && OneLine(s) && Trimmed(s)
  }

  lemma QuotePrintable(s: string)
    requires OneLine(s)
    ensures Printable(Quote(s)) && Quoted(Quote(s)) && |Quote(s)| >= 2
    ensures Undouble(Quote(s)[1..|Quote(s)| - 1]) == s
  {
    DoubleIsOneLine(s);
    UndoubleUndoesDouble(s);
    assert Quote(s)[1..|Quote(s)| - 1] == Double(s);
  }

  lemma PrintableTrim(s: string)
    requires Printable(s)
    ensures Trim(s) == s
  {
  }

  lemma ScalarPrintable(value: Scalar)
    requires WellFormedScalar(value)
    ensures Printable(PrintScalar(value))
  {
    hide PrintDecimal, Quote, Printable, NumberChars;
    match value
    case Text(text) => QuotePrintable(text);
    case Number(d) =>
      PrintDecimalShape(d);
      NumberIsPrintable(PrintDecimal(d));
    case Flag(_) => FlagIsPrintable(value);
  }

  lemma FlagIsPrintable(value: Scalar)
    requires value.Flag?
    ensures Printable(PrintScalar(value))
  {
  }

  lemma NumberIsPrintable(s: string)
    requires NumberChars(s) && s != ""
    ensures Printable(s)
  {
  }

  lemma NumberIsNotAWord(s: string)
    requires NumberChars(s)
    ensures !Quoted(s) && s != "true" && s != "false"
  {
    assert "true"[0] == 't' && "false"[0] == 'f';
  }

  // Reading a printed scalar gives it back, with its type, exactly if it is no number that
  // prints with an exponent; of these the printed text is read.
  lemma ParseUndoesPrintScalar(value: Scalar)
    requires WellFormedScalar(value)
    ensures ParseScalar(PrintScalar(value)) == ReadScalar(value)
    ensures ReadScalar(value) == value <==> PlainScalar(value)
  {
    ScalarPrintable(value);
    PrintableTrim(PrintScalar(value));
    match value
    case Text(text) => QuotePrintable(text);
    case Number(d) =>
      PrintDecimalShape(d);
      NumberIsNotAWord(PrintDecimal(d));
      ParseUndoesPrintDecimal(d);
      hide PrintDecimal, ParseDecimal, WithoutExponent;
    case Flag(_) =>
  }

  // So a small enough number does not survive being printed.
  lemma SmallNumberIsReadAsText()
    ensures var small := Number(Decimal(false, 0, "0000001"));
            && ParseScalar("0.0000001") == small && PrintScalar(small) == "1e-7"
            && ParseScalar("1e-7") == Text("1e-7")
  {
    var d := Decimal(false, 0, "0000001");
    PrintsSmall(d);
    ReadsSmall(d);
    SmallText();
    hide PrintDecimal, ParseDecimal, ParseScalar, NumberChars;
    NumberIsScalar("0.0000001");
    ParseUndoesPrintScalar(Number(d));
  }

  lemma SmallText()
    ensures NumberChars("0.0000001") && "0.0000001" != ""
  {
  }

  lemma NumberIsScalar(s: string)
    requires NumberChars(s) && s != "" && ParseDecimal(s).Some?
    ensures ParseScalar(s) == Number(ParseDecimal(s).value)
  {
    NumberIsNotAWord(s);
    NumberIsPrintable(s);
    PrintableTrim(s);
    hide ParseDecimal, Trim;
  }

  lemma PrintsSmall(d: Decimal)
    requires d == Decimal(false, 0, "0000001")
    ensures PrintDecimal(d) == "1e-7" && !WithoutExponent(d)
  {
    SixZeros();
    hide LeadingZeros;
    assert PrintNat(7) == "7";
  }

  lemma ReadsSmall(d: Decimal)
    requires d == Decimal(false, 0, "0000001")
    ensures ParseDecimal("0.0000001") == Some(d)
  {
    var s := "0.0000001";
    assert s == "0" + ".0000001" && s[2..] == "0000001" && s[..1] == "0";
    DigitCountOf("0", ".0000001");
    ParseUndoesPrintNat(0);
    assert PrintNat(0) == "0";
    hide DigitCount, ParseNat, PrintNat;
  }

  lemma SixZeros()
    ensures LeadingZeros("0000001") == 6 && "0000001"[6..] == "1"
  {
    var s := "0000001";
    assert s[1..] == "000001" && s[1..][1..] == "00001" && s[2..] == "00001" && s[3..] == "0001" && s[4..] == "001";
    assert LeadingZeros("1") == 0 && "01"[1..] == "1" && "001"[1..] == "01" && "0001"[1..] == "001";
    assert "00001"[1..] == "0001" && "000001"[1..] == "00001";
    assert LeadingZeros("001") == 2;
    assert LeadingZeros("00001") == 4;
  }

  lemma PlainTextIsRead(s: string)
    requires PlainText(s)
    ensures ParseScalar(s) == Text(s)
  {
    PrintableTrim(s);
  }
}
