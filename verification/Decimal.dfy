/** Decimal numerals: printing as `%d` does, reading as strconv.ParseInt(s, 10, 32) does. */
module Decimal {
  const MAX_UINT32 := 0xFFFF_FFFF
  const LIMIT := 0x8000_0000

  predicate IsDigit(c: char) {
    '0' <= c <= '9'
  }

  function DigitChar(d: nat): char
    requires d < 10
  {
    '0' + d as char
  }

  function DigitValue(c: char): nat
    requires IsDigit(c)
  {
    (c - '0') as nat
  }

  function Digits(n: nat): (s: string)
    ensures |s| >= 1
    ensures forall i | 0 <= i < |s| :: IsDigit(s[i])
  {
    if n < 10 then [DigitChar(n)] else Digits(n / 10) + [DigitChar(n % 10)]
  }

  function Printed(i: int): string {
    if i < 0 then "-" + Digits(-i) else Digits(i)
  }

  datatype Scan = Syntax | Range | Number(n: nat)

  /** Reads digits from the left; stops at the first character that is not one, or as soon as the
      number does not fit 32 bits. */
  function Scanned(s: string, n: nat): Scan {
    if s == "" then Number(n)
    else if !IsDigit(s[0]) then Syntax
    else
      var next := n * 10 + DigitValue(s[0]);
      if next > MAX_UINT32 then Range else Scanned(s[1..], next)
  }

  /** The value ParseInt yields, whether or not it also reports an error: 0 for a malformed numeral,
      the nearest bound for one out of range. */
  function ParsedInt32(s: string): int {
    var negative := s != "" && s[0] == '-';
    var body := if s != "" && (s[0] == '-' || s[0] == '+') then s[1..] else s;
    if body == "" then 0
    else
      match Scanned(body, 0)
      case Syntax => 0
      case Range => if negative then -LIMIT else LIMIT - 1
      case Number(m) =>
        var n: int := m;
        if negative then (if n > LIMIT then -LIMIT else -n)
        else if n >= LIMIT then LIMIT - 1 else n
  }

  function Clamped(i: int): int {
    if i < -LIMIT then -LIMIT else if i >= LIMIT then LIMIT - 1 else i
  }

  lemma {:induction false} ScanAppend(s: string, c: char, n: nat)
    requires IsDigit(c)
    ensures Scanned(s + [c], n) ==
      match Scanned(s, n)
      case Number(m) =>
        if m * 10 + DigitValue(c) > MAX_UINT32 then Range else Number(m * 10 + DigitValue(c))
      case other => other
    decreases |s|
  {
    if s == "" {
      assert s + [c] == [c];
      assert [c][1..] == "";
    } else {
      assert (s + [c])[1..] == s[1..] + [c];
      if IsDigit(s[0]) && n * 10 + DigitValue(s[0]) <= MAX_UINT32 {
        ScanAppend(s[1..], c, n * 10 + DigitValue(s[0]));
      }
    }
  }

  lemma {:induction false} ScanDigits(n: nat)
    ensures Scanned(Digits(n), 0) == if n <= MAX_UINT32 then Number(n) else Range
  {
    if n < 10 {
      assert Digits(n)[1..] == "";
    } else {
      ScanDigits(n / 10);
      ScanAppend(Digits(n / 10), DigitChar(n % 10), 0);
      assert DigitValue(DigitChar(n % 10)) == n % 10;
    }
  }

  /** Reading back a printed integer gives it, cut off at the 32-bit bounds. */
  lemma ParseUndoesPrint(i: int)
    ensures ParsedInt32(Printed(i)) == Clamped(i)
  {
    var n := if i < 0 then -i else i;
    ScanDigits(n);
    var digits := Digits(n);
    assert IsDigit(digits[0]);
    if i < 0 {
      assert Printed(i)[1..] == digits;
    }
  }

  lemma {:induction false} ScanStops(s: string, n: nat, c: char, rest: string)
    requires Scanned(s, n).Number? && !IsDigit(c)
    ensures Scanned(s + [c] + rest, n) == Syntax
    decreases |s|
  {
    var all := s + [c] + rest;
    if s != "" {
      assert all[1..] == s[1..] + [c] + rest;
      ScanStops(s[1..], n * 10 + DigitValue(s[0]), c, rest);
    }
  }

  /** A numeral spoilt by a character that is not a digit is read as 0, and so is an empty one; a plus sign
      changes nothing. */
  lemma MalformedIsZero(n: nat, c: char, rest: string)
    ensures ParsedInt32("") == 0 && ParsedInt32("-") == 0 && ParsedInt32("+") == 0
    ensures n <= MAX_UINT32 && !IsDigit(c) ==>
      ParsedInt32(Digits(n) + [c] + rest) == 0 && ParsedInt32("-" + (Digits(n) + [c] + rest)) == 0
    ensures ParsedInt32("+" + Digits(n)) == Clamped(n)
  {
    var spoilt := Digits(n) + [c] + rest;
    ScanDigits(n);
    assert IsDigit(Digits(n)[0]) && spoilt[0] == Digits(n)[0];
    assert ("-" + spoilt)[1..] == spoilt && ("+" + Digits(n))[1..] == Digits(n);
    if n <= MAX_UINT32 && !IsDigit(c) {
      ScanStops(Digits(n), 0, c, rest);
    }
  }

  lemma {:induction false} DigitsInjective(m: nat, n: nat)
    requires Digits(m) == Digits(n)
    ensures m == n
    decreases m
  {
    var a, b := Digits(m), Digits(n);
    if m < 10 || n < 10 {
      assert |a| == |b| == 1;
      assert DigitValue(a[0]) == DigitValue(b[0]);
    } else {
      assert a[..|a| - 1] == Digits(m / 10) && b[..|b| - 1] == Digits(n / 10);
      assert DigitValue(a[|a| - 1]) == m % 10 && DigitValue(b[|b| - 1]) == n % 10;
      DigitsInjective(m / 10, n / 10);
    }
  }

  lemma PrintedInjective(i: int, j: int)
    requires Printed(i) == Printed(j)
    ensures i == j
  {
    PrintedSign(i);
    PrintedSign(j);
    if i < 0 {
      assert Printed(i)[1..] == Digits(-i) && Printed(j)[1..] == Digits(-j);
      DigitsInjective(-i, -j);
    } else {
      DigitsInjective(i, j);
    }
  }

  lemma PrintedSign(i: int)
    ensures Printed(i) != "" && (Printed(i)[0] == '-' <==> i < 0)
  {
    if i >= 0 {
      assert IsDigit(Digits(i)[0]);
    }
  }

  function Tagged(head: string, n: nat): string {
    head + "-" + Digits(n)
  }

  lemma TaggedShape(head: string, n: nat)
    ensures var s := Tagged(head, n);
      && |s| == |head| + 1 + |Digits(n)|
      && s[..|head|] == head && s[|head|] == '-' && s[|head| + 1..] == Digits(n)
      && forall i | |head| < i < |s| :: s[i] != '-'
  {
    var s := Tagged(head, n);
    forall i | |head| < i < |s| ensures s[i] != '-' {
      assert s[i] == Digits(n)[i - |head| - 1];
    }
  }

  /** A numeral after the last dash can be told from what is before it. */
  lemma TaggedInjective(a: string, m: nat, b: string, n: nat)
    requires Tagged(a, m) == Tagged(b, n)
    ensures a == b && m == n
  {
    TaggedShape(a, m);
    TaggedShape(b, n);
    assert |a| == |b|;
    DigitsInjective(m, n);
  }
}
