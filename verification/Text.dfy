/** Texts: trimming and decimal numbers, as Go's strings and strconv packages read and write them. */
module Text {
  import opened Common

  // ---------- strings.TrimSpace ----------

  /** unicode.IsSpace */
  predicate IsSpace(c: char) {
    || '\t' <= c <= '\r'
    || c in [' ', '\U{0085}', '\U{00A0}', '\U{1680}', '\U{2028}', '\U{2029}', '\U{202F}', '\U{205F}', '\U{3000}']
    || '\U{2000}' <= c <= '\U{200A}'
  }

  /** The code points that count. */
  lemma SpacesAre(c: char)
    ensures IsSpace(c) <==> c as int in {9, 10, 11, 12, 13, 32, 0x85, 0xA0, 0x1680, 0x2000, 0x2001, 0x2002, 0x2003, 0x2004, 0x2005,
                                         0x2006, 0x2007, 0x2008, 0x2009, 0x200A, 0x2028, 0x2029, 0x202F, 0x205F, 0x3000}
  {
  }

  /** Neither end is a space. */
  predicate Trimmed(s: string) {
    s == "" || (!IsSpace(s[0]) && !IsSpace(s[|s| - 1]))
  }

  predicate AllSpaces(s: string) {
    forall i :: 0 <= i < |s| ==> IsSpace(s[i])
  }

  function Trim(s: string): (t: string)
    ensures Trimmed(t) && |t| <= |s|
    ensures Trimmed(s) ==> t == s
  {
    if s == "" then s
    else if IsSpace(s[0]) then Trim(s[1..])
    else if IsSpace(s[|s| - 1]) then Trim(s[..|s| - 1])
    else s
  }

  lemma {:induction false} TrimBefore(before: string, s: string)
    requires AllSpaces(before)
    ensures Trim(before + s) == Trim(s)
  {
    if before != "" {
      assert (before + s)[1..] == before[1..] + s;
      TrimBefore(before[1..], s);
    } else {
      assert before + s == s;
    }
  }

  lemma {:induction false} TrimAfter(s: string, after: string)
    requires AllSpaces(after) && Trimmed(s)
    ensures Trim(s + after) == s
  {
    if s == "" {
      TrimBefore(after, "");
      assert s + after == after + "";
    } else if after != "" {
      var n := |after| - 1;
      TrimAfter(s, after[..n]);
      assert (s + after)[..|s| + n] == s + after[..n];
    } else {
      assert s + after == s;
    }
  }

  /** Spaces around a trimmed text are exactly what Trim removes. */
  lemma TrimMeaning(before: string, s: string, after: string)
    requires AllSpaces(before) && AllSpaces(after) && Trimmed(s)
    ensures Trim(before + s + after) == s
  {
    hide *;
    assert before + s + after == before + (s + after);
    TrimBefore(before, s + after);
    TrimAfter(s, after);
  }

  // ---------- strings.ToUpper ----------

  /** Exact for every letter whose upper case is an ASCII letter; the upper case of others is left out, since it
      never makes a text equal to an ASCII code. */
  function UpperLetter(c: char): char {
    if 'a' <= c <= 'z' then c - 'a' + 'A'
    else if c == '\U{0131}' then 'I'
    else if c == '\U{017F}' then 'S'
    else c
  }

  function Upper(s: string): (r: string)
    ensures |r| == |s|
  {
    seq(|s|, i requires 0 <= i < |s| => UpperLetter(s[i]))
  }

  // ---------- digits ----------

  predicate IsDigit(c: char) { '0' <= c <= '9' }

  predicate AllDigits(s: string) {
    forall i :: 0 <= i < |s| ==> IsDigit(s[i])
  }

  function Digit(d: nat): (c: char)
    requires d < 10
    ensures IsDigit(c)
  {
    '0' + d as char
  }

  function DigitValue(c: char): (d: nat)
    requires IsDigit(c)
    ensures d < 10 && Digit(d) == c
  {
    (c - '0') as nat
  }

  function Decimal(n: nat): (s: string)
    ensures s != "" && AllDigits(s)
  {
    if n < 10 then [Digit(n)] else Decimal(n / 10) + [Digit(n % 10)]
  }

  function Value(s: string): nat
    requires AllDigits(s)
  {
    if s == "" then 0 else Value(s[..|s| - 1]) * 10 + DigitValue(s[|s| - 1])
  }

  lemma ValueAppend(s: string, c: char)
    requires AllDigits(s) && IsDigit(c)
    ensures AllDigits(s + [c]) && Value(s + [c]) == Value(s) * 10 + DigitValue(c)
  {
    assert (s + [c])[..|s|] == s;
  }

  lemma {:induction false} ValueDecimal(n: nat)
    ensures Value(Decimal(n)) == n
  {
    if n < 10 {
      ValueAppend("", Digit(n));
      assert "" + [Digit(n)] == Decimal(n);
    } else {
      ValueDecimal(n / 10);
      ValueAppend(Decimal(n / 10), Digit(n % 10));
    }
  }

  /** No zero in front of a longer number. */
  lemma {:induction false} DecimalStarts(n: nat)
    ensures n < 10 <==> |Decimal(n)| == 1
    ensures Decimal(n)[0] == '0' <==> n == 0
  {
    if n >= 10 { DecimalStarts(n / 10); }
  }

  /** %d */
  function PrintInt(n: int): string {
    if n < 0 then "-" + Decimal(-n) else Decimal(n)
  }
}
