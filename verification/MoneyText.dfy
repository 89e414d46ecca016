/** The text form of Money, an int64 count of cents (templates/bank/internal/corebanking/domain/money.go).
    Negation and the truncating division of int64 are written out. */
module MoneyText {
  import opened Common
  import opened Text

  const MIN: int := -MAX_INT64 - 1

  predicate IsInt64(n: int) { MIN <= n <= MAX_INT64 }

  /** int64 negation: the smallest value is its own negative. */
  function Negate(n: int): (r: int)
    requires IsInt64(n)
    ensures IsInt64(r)
  {
    if n == MIN then MIN else -n
  }

  /** Division and remainder truncate toward zero. */
  function Quotient(n: int, d: int): int
    requires d > 0
  {
    if n >= 0 then n / d else -((-n) / d)
  }

  function Remainder(n: int, d: int): int
    requires d > 0
  {
    n - d * Quotient(n, d)
  }

  // ---------- String ----------

  /** %02d */
  function PrintPadded(n: int): string {
    if 0 <= n < 10 then "0" + Decimal(n) else PrintInt(n)
  }

  function Print(m: int): string
    requires IsInt64(m)
  {
    var n := if m < 0 then Negate(m) else m;
    var text := PrintInt(Quotient(n, 100)) + "." + PrintPadded(Remainder(n, 100));
    if m < 0 then "-" + text else text
  }

  // ---------- ParseCents ----------

  /** strconv.ParseInt base 10, 64 bits: one optional sign, then digits only, within range. */
  function ParseInt(s: string): (r: Option<int>)
    ensures r.Some? ==> IsInt64(r.value)
  {
    var signed := s != "" && (s[0] == '-' || s[0] == '+');
    var digits := if signed then s[1..] else s;
    if digits == "" || !AllDigits(digits) then None
    else
      var v: int := Value(digits);
      var n := if signed && s[0] == '-' then -v else v;
      if IsInt64(n) then Some(n) else None
  }

  /** strings.IndexByte(s, '.') */
  function FirstDot(s: string): (r: Option<nat>)
    ensures r.Some? ==> r.value < |s|
  {
    if s == "" then None
    else if s[0] == '.' then Some(0)
    else
      match FirstDot(s[1..])
      case None => None
      case Some(i) => Some(i + 1)
  }

  function Padded(fraction: string): (r: string)
    ensures |fraction| <= 2 ==> |r| == 2
  {
    if |fraction| == 0 then "00" else if |fraction| == 1 then fraction + "0" else fraction
  }

  /** What ParseCents returns. */
  function Parse(text: string): (r: Option<int>)
    ensures r.Some? ==> IsInt64(r.value)
  {
    ParseTrimmed(Trim(text))
  }

  function ParseTrimmed(s: string): (r: Option<int>)
    ensures r.Some? ==> IsInt64(r.value)
  {
    if s != "" && s[0] == '-' then
      match ParseUnsigned(s[1..])
      case None => None
      case Some(n) => Some(Negate(n))
    else ParseUnsigned(s)
  }

  /** What follows the minus. */
  function ParseUnsigned(body: string): (r: Option<int>)
    ensures r.Some? ==> IsInt64(r.value)
  {
    var dot := FirstDot(body);
    var whole := if dot.Some? then body[..dot.value] else body;
    var fraction := if dot.Some? then body[dot.value + 1..] else "";
    if |fraction| > 2 then None else ParseInt((if whole == "" then "0" else whole) + Padded(fraction))
  }

  method ParseCents(text: string) returns (r: Option<int>)
    ensures r == Parse(text)
  {
    var s, neg := Trim(text), false;
    if |s| > 0 && s[0] == '-' {
      neg := true;
      s := s[1..];
    }
    var whole, fraction := s, "";
    var dot := IndexDot(s);
    if dot.Some? {
      whole, fraction := s[..dot.value], s[dot.value + 1..];
    }
    if whole == "" { whole := "0"; }
    if |fraction| > 2 { return None; }
    ghost var given := fraction;
    while |fraction| < 2
      invariant |fraction| <= 2 && Padded(fraction) == Padded(given)
    {
      fraction := fraction + "0";
    }
    var n := ParseInt(whole + fraction);
    if n.None? { return None; }
    return Some(if neg then Negate(n.value) else n.value);
  }

  method IndexDot(s: string) returns (r: Option<nat>)
    ensures r == FirstDot(s)
  {
    for i := 0 to |s|
      invariant FirstDot(s) == match FirstDot(s[i..]) case None => None case Some(k) => Some(k + i)
    {
      if s[i] == '.' { return Some(i); }
      assert s[i..][1..] == s[i + 1..];
    }
    return None;
  }

  // ---------- what is accepted ----------

  /** Cents of a whole part and up to two fraction digits. */
  function Cents(whole: string, fraction: string): nat
    requires AllDigits(whole) && AllDigits(fraction)
  {
    100 * Value(whole) + (if |fraction| == 0 then 0 else if |fraction| == 1 then 10 * Value(fraction) else Value(fraction))
  }

  lemma {:induction false} ValueZeros(s: string)
    requires AllDigits(s)
    ensures AllDigits("0" + s) && Value("0" + s) == Value(s)
  {
    if s != "" {
      var n := |s| - 1;
      ValueZeros(s[..n]);
      assert ("0" + s)[..n + 1] == "0" + s[..n];
    } else {
      assert "0" + s == "0" && "0"[..0] == "";
    }
  }

  /** Whole part and padded fraction, read as one number. */
  lemma ReadAsOne(whole: string, fraction: string)
    requires AllDigits(whole) && AllDigits(fraction) && |fraction| <= 2
    ensures var digits := (if whole == "" then "0" else whole) + Padded(fraction);
            AllDigits(digits) && digits != "" && Value(digits) == Cents(whole, fraction)
  {
    var w := if whole == "" then "0" else whole;
    if whole == "" { ValueZeros(""); }
    var p := Padded(fraction);
    assert AllDigits(p) && |p| == 2;
    ValueAppend(w, p[0]);
    ValueAppend(w + [p[0]], p[1]);
    assert w + p == w + [p[0]] + [p[1]];
    OneOrTwo(fraction);
  }

  lemma ValueOne(c: char)
    requires IsDigit(c)
    ensures AllDigits([c]) && Value([c]) == DigitValue(c)
  {
    assert [c][..0] == [];
  }

  lemma ValueTwo(c: char, d: char)
    requires IsDigit(c) && IsDigit(d)
    ensures AllDigits([c, d]) && Value([c, d]) == 10 * DigitValue(c) + DigitValue(d)
  {
    ValueOne(c);
    assert [c, d][..1] == [c];
  }

  lemma OneOrTwo(f: string)
    requires AllDigits(f) && |f| <= 2
    ensures |f| == 0 ==> Padded(f)[0] == '0' && Padded(f)[1] == '0'
    ensures |f| == 1 ==> Value(f) == DigitValue(f[0]) && Padded(f)[0] == f[0] && Padded(f)[1] == '0'
    ensures |f| == 2 ==> Value(f) == 10 * DigitValue(f[0]) + DigitValue(f[1]) && Padded(f) == f
  {
    if |f| == 1 {
      assert f == [f[0]];
      ValueOne(f[0]);
    } else if |f| == 2 {
      assert f == [f[0], f[1]];
      ValueTwo(f[0], f[1]);
    }
    hide Value;
  }

  lemma ParseIntDigits(digits: string)
    requires digits != "" && AllDigits(digits)
    ensures ParseInt(digits) == if Value(digits) <= MAX_INT64 then Some(Value(digits)) else None
  {
  }

  /** A body split at its first dot, with and without the minus in front. */
  lemma ParseBody(body: string, dot: nat)
    requires FirstDot(body) == Some(dot) && |body| <= dot + 3
    ensures var n := ParseInt((if dot == 0 then "0" else body[..dot]) + Padded(body[dot + 1..]));
            && (body[0] != '-' ==> ParseTrimmed(body) == n)
            && ParseTrimmed("-" + body) == match n case None => None case Some(v) => Some(Negate(v))
  {
    assert ParseUnsigned(body) == ParseInt((if dot == 0 then "0" else body[..dot]) + Padded(body[dot + 1..])) by {
      hide ParseInt, FirstDot, Padded;
    }
    hide ParseUnsigned, ParseInt, FirstDot, Padded, Negate, IsInt64;
    var s := "-" + body;
    assert s[0] == '-' && s[1..] == body;
  }

  /** A text of digits, a dot and at most two more digits, with or without a minus in front, is read as its cents
      when they fit; both parts may be empty. "1.5" is 150 and ".05" is 5. */
  lemma ParseMeaning(whole: string, fraction: string)
    requires AllDigits(whole) && AllDigits(fraction) && |fraction| <= 2
    ensures var text := whole + "." + fraction;
            var cents: int := Cents(whole, fraction);
            && ParseTrimmed(text) == (if cents <= MAX_INT64 then Some(cents) else None)
            && ParseTrimmed("-" + text) == (if cents <= MAX_INT64 then Some(-cents) else None)
  {
    var text := whole + "." + fraction;
    DotAfter(whole, fraction);
    ReadAsOne(whole, fraction);
    ParseBody(text, |whole|);
    ParseIntDigits((if whole == "" then "0" else whole) + Padded(fraction));
    assert text[..|whole|] == whole && text[|whole| + 1..] == fraction;
    assert text[0] == if whole == "" then '.' else whole[0];
    hide ParseInt, FirstDot, Padded, Cents, ParseTrimmed, Value;
  }

  /** So is one without a dot. */
  lemma ParseWhole(whole: string)
    requires AllDigits(whole)
    ensures ParseTrimmed(whole) == (if 100 * Value(whole) <= MAX_INT64 then Some(100 * Value(whole)) else None)
  {
    NoDot(whole);
    ReadAsOne(whole, "");
    ParseIntDigits((if whole == "" then "0" else whole) + Padded(""));
    hide ParseInt, FirstDot, Padded;
  }

  lemma {:induction false} NoDot(digits: string)
    requires AllDigits(digits)
    ensures FirstDot(digits) == None
  {
    if digits != "" { NoDot(digits[1..]); }
  }

  lemma ParseIntSigned(sign: char, digits: string)
    requires digits != "" && AllDigits(digits) && sign in {'+', '-'}
    ensures var v: int := Value(digits);
            var n := if sign == '-' then -v else v;
            ParseInt([sign] + digits) == if IsInt64(n) then Some(n) else None
  {
    assert ([sign] + digits)[1..] == digits;
    hide Value;
  }

  lemma SignedDot(sign: char, whole: string, fraction: string)
    requires AllDigits(whole) && sign != '.'
    ensures var body := [sign] + (whole + "." + fraction);
            && FirstDot(body) == Some(|whole| + 1)
            && body[..|whole| + 1] == [sign] + whole && body[|whole| + 2..] == fraction
  {
    DotAfter(whole, fraction);
    var body := [sign] + (whole + "." + fraction);
    assert body[1..] == whole + "." + fraction;
    hide AllDigits;
  }

  /** A sign ParseInt reads, after the minus ParseCents reads or without it. */
  lemma SignedParts(sign: char, whole: string, fraction: string)
    requires AllDigits(whole) && |fraction| <= 2 && sign in {'+', '-'}
    ensures var body := [sign] + (whole + "." + fraction);
            var n := ParseInt([sign] + (whole + Padded(fraction)));
            && (sign == '+' ==> ParseTrimmed(body) == n)
            && ParseTrimmed("-" + body) == match n case None => None case Some(v) => Some(Negate(v))
  {
    hide *;
    var body := [sign] + (whole + "." + fraction);
    SignedDot(sign, whole, fraction);
    ParseBody(body, |whole| + 1);
    Regroup([sign], whole, Padded(fraction));
  }

  lemma Regroup(a: string, b: string, c: string)
    ensures a + b + c == a + (b + c)
  {
  }

  /** ReadAsOne without the zero for an empty whole part. */
  lemma ReadUnfilled(whole: string, fraction: string)
    requires AllDigits(whole) && AllDigits(fraction) && |fraction| <= 2
    ensures var digits := whole + Padded(fraction);
            AllDigits(digits) && digits != "" && Value(digits) == Cents(whole, fraction)
  {
    ReadAsOne(whole, fraction);
    OneOrTwo(fraction);
    var padded := Padded(fraction);
    hide Value, Padded, Cents;
    if whole == "" {
      assert whole + padded == padded;
      ValueZeros(padded);
    }
  }

  /** A second sign is read as one: "+1.5" is 150, "-+1.5" is -150 and "--1.5" is 150 again, where the smallest
      amount is its own negative. */
  lemma ParseSigns(sign: char, whole: string, fraction: string)
    requires AllDigits(whole) && AllDigits(fraction) && |fraction| <= 2 && sign in {'+', '-'}
    ensures var text := [sign] + (whole + "." + fraction);
            var cents: int := Cents(whole, fraction);
            && (sign == '+' ==> ParseTrimmed(text) == (if cents <= MAX_INT64 then Some(cents) else None))
            && ParseTrimmed("-" + text)
               == (if cents <= MAX_INT64 then Some(if sign == '+' then -cents else cents)
                   else if sign == '-' && cents == -MIN then Some(MIN) else None)
  {
    hide Cents, Value, Padded, ParseInt, ParseTrimmed, AllDigits, IsInt64, Negate;
    var digits := whole + Padded(fraction);
    ReadUnfilled(whole, fraction);
    SignedParts(sign, whole, fraction);
    ParseIntSigned(sign, digits);
    SignedOutcome(sign, Cents(whole, fraction));
  }

  lemma SignedOutcome(sign: char, cents: int)
    requires sign in {'+', '-'} && cents >= 0
    ensures var n := if sign == '-' then -cents else cents;
            && (IsInt64(n) <==> cents <= MAX_INT64 || (sign == '-' && cents == -MIN))
            && (IsInt64(n) ==> Negate(n) == if sign == '+' then -cents else if cents == -MIN then MIN else cents)
  {
  }

  /** A third fraction digit, or anything but digits after the dot, is refused. */
  lemma ParseRefuses(whole: string, fraction: string)
    requires AllDigits(whole) && (|fraction| > 2 || !AllDigits(fraction))
    ensures ParseTrimmed(whole + "." + fraction) == None
  {
    var text := whole + "." + fraction;
    DotAfter(whole, fraction);
    assert text[..|whole|] == whole && text[|whole| + 1..] == fraction;
    assert text[0] == if whole == "" then '.' else whole[0];
    if |fraction| <= 2 {
      var w := if whole == "" then "0" else whole;
      var i :| 0 <= i < |fraction| && !IsDigit(fraction[i]);
      var digits := w + Padded(fraction);
      assert digits[|w| + i] == fraction[i];
      assert ParseInt(digits) == None by { NotAllDigits(digits, |w| + i); }
    }
    hide ParseInt, FirstDot;
  }

  lemma NotAllDigits(s: string, i: nat)
    requires 0 < i < |s| && !IsDigit(s[i])
    ensures ParseInt(s) == None
  {
    assert s[1..][i - 1] == s[i];
  }

  // ---------- the round trip ----------

  lemma {:induction false} DotAfter(digits: string, rest: string)
    requires AllDigits(digits)
    ensures FirstDot(digits + "." + rest) == Some(|digits|)
  {
    var s := digits + "." + rest;
    if digits != "" {
      DotAfter(digits[1..], rest);
      assert s[1..] == digits[1..] + "." + rest;
    }
  }

  lemma PaddedValue(n: nat)
    requires n < 100
    ensures AllDigits(PrintPadded(n)) && |PrintPadded(n)| == 2
    ensures PrintPadded(n)[0] == Digit(n / 10) && PrintPadded(n)[1] == Digit(n % 10)
  {
    if n >= 10 { assert Decimal(n) == Decimal(n / 10) + [Digit(n % 10)] == [Digit(n / 10)] + [Digit(n % 10)]; }
  }

  /** Reading whole and padded cents as one number. */
  lemma JoinedValue(y: nat, c: nat)
    requires c < 100
    ensures AllDigits(Decimal(y) + PrintPadded(c)) && Value(Decimal(y) + PrintPadded(c)) == 100 * y + c
  {
    PaddedValue(c);
    ValueDecimal(y);
    var p := PrintPadded(c);
    ValueAppend(Decimal(y), p[0]);
    ValueAppend(Decimal(y) + [p[0]], p[1]);
    assert Decimal(y) + p == Decimal(y) + [p[0]] + [p[1]];
  }

  /** Parsing a text split at its first dot. */
  lemma ParseParts(whole: string, fraction: string)
    requires whole != "" && |fraction| == 2 && FirstDot(whole + "." + fraction) == Some(|whole|)
    ensures var body := whole + "." + fraction;
            && (whole[0] != '-' ==> ParseTrimmed(body) == ParseInt(whole + fraction))
            && ParseTrimmed("-" + body) == match ParseInt(whole + fraction) case None => None case Some(n) => Some(Negate(n))
  {
    hide ParseInt, FirstDot;
    var body := whole + "." + fraction;
    assert body[0] == whole[0] && ("-" + body)[1..] == body;
    assert body[..|whole|] == whole && body[|whole| + 1..] == fraction;
  }

  lemma ParseDigits(s: string)
    requires s != "" && AllDigits(s) && Value(s) <= MAX_INT64
    ensures ParseInt(s) == Some(Value(s))
  {
  }

  /** The unsigned text of an amount within int64 parses to it, and with a sign to its negative. */
  lemma ParsePlain(y: nat, c: nat)
    requires c < 100 && 100 * y + c <= MAX_INT64
    ensures var text := Decimal(y) + "." + PrintPadded(c);
            && ParseTrimmed(text) == Some(100 * y + c)
            && ParseTrimmed("-" + text) == Some(-(100 * y + c))
  {
    hide ParseTrimmed, ParseInt, Decimal, FirstDot;
    DotAfter(Decimal(y), PrintPadded(c));
    PaddedValue(c);
    JoinedValue(y, c);
    ParseDigits(Decimal(y) + PrintPadded(c));
    assert IsDigit(Decimal(y)[0]);
    ParseParts(Decimal(y), PrintPadded(c));
  }

  lemma SignInside(digits: string)
    requires AllDigits(digits)
    ensures ParseInt("-" + digits + "-8") == None
  {
    var joined := "-" + digits + "-8";
    assert joined[1..] == digits + "-8";
    assert (digits + "-8")[|digits|] == '-';
  }

  lemma SmallestIs()
    ensures Print(MIN) == "-" + ("-" + Decimal(92233720368547758) + "." + "-8")
  {
    assert Quotient(MIN, 100) == -92233720368547758 && Remainder(MIN, 100) == -8;
    EightIs();
    hide Decimal;
  }

  lemma EightIs()
    ensures PrintPadded(-8) == "-8"
  {
    assert Decimal(8) == ['8'];
  }

  /** The text of the smallest amount: its absolute value does not exist, so both parts keep a sign. */
  lemma SmallestText()
    ensures Print(MIN) == "-" + ("-" + Decimal(92233720368547758) + "." + "-8")
    ensures ParseTrimmed(Print(MIN)) == None
  {
    hide Print, ParseTrimmed, ParseInt, Decimal;
    SmallestIs();
    var digits := Decimal(92233720368547758);
    DotAfter(digits, "-8");
    var body := "-" + digits + "." + "-8";
    assert body[1..] == digits + "." + "-8";
    assert FirstDot(body) == Some(|digits| + 1);
    ParseParts("-" + digits, "-8");
    SignInside(digits);
  }

  lemma PrintIs(m: int)
    requires IsInt64(m) && m != MIN
    ensures var n := if m < 0 then -m else m;
            var text := Decimal(n / 100) + "." + PrintPadded(n % 100);
            Print(m) == if m < 0 then "-" + text else text
  {
    hide Decimal, PrintPadded;
  }

  lemma Hundreds(n: nat)
    ensures n == 100 * (n / 100) + n % 100 && n % 100 < 100
  {
  }

  lemma RoundTripTrimmed(m: int)
    requires IsInt64(m)
    ensures ParseTrimmed(Print(m)) == Some(m) <==> m != MIN
  {
    if m == MIN {
      SmallestText();
    } else {
      hide *;
      PrintIs(m);
      var n := if m < 0 then -m else m;
      var units, cents := n / 100, n % 100;
      Hundreds(n);
      assert n <= MAX_INT64;
      ParsePlain(units, cents);
    }
  }

  /** Printed texts start with a sign or a digit and end in a digit, so trimming leaves them alone. */
  lemma PrintTrimmed(m: int)
    requires IsInt64(m)
    ensures Trimmed(Print(m))
  {
    hide Print, Decimal;
    var n := if m < 0 then -m else m;
    if m == MIN { SmallestIs(); } else { PrintIs(m); PaddedValue(n % 100); }
  }

  /** MAIN THEOREM. Printing and parsing gives the amount back exactly when it is not the smallest int64:
      negative amounts, amounts below one unit, padded cents and surrounding spaces included. */
  lemma RoundTrip(m: int, before: string, after: string)
    requires IsInt64(m) && AllSpaces(before) && AllSpaces(after)
    ensures Parse(before + Print(m) + after) == Some(m) <==> m != MIN
  {
    hide Print, ParseTrimmed, Trim, IsSpace;
    PrintTrimmed(m);
    TrimMeaning(before, Print(m), after);
    RoundTripTrimmed(m);
  }
}
