/**
 The C library's decimal formatting and parsing, as far as the programs use it:
 printf's %d, %ld and %llu, and the common core of atoi, strtoull and scanf.
 Values are mathematical integers; the range each caller needs is stated there.
 */
module Decimal {
  import opened Options

  predicate IsDigit(c: char) { '0' <= c <= '9' }

  predicate IsSpace(c: char) { c == ' ' || '\t' <= c <= '\r' }

  function DigitChar(d: nat): char
    requires d < 10
  {
    '0' + d as char
  }

  function DigitValue(c: char): nat
    requires IsDigit(c)
  {
    (c - '0') as nat
  }

  /** %llu */
  function Digits(n: nat): string
  {
    if n < 10 then [DigitChar(n)] else Digits(n / 10) + [DigitChar(n % 10)]
  }

  /** %d, %ld */
  function Print(z: int): string
  {
    if z < 0 then "-" + Digits(-z) else Digits(z)
  }

  function SkipSpaces(s: string): string
  {
    if s != "" && IsSpace(s[0]) then SkipSpaces(s[1..]) else s
  }

  /** Reads digits onto `acc`; the second result is the rest of the text. */
  function ReadDigits(s: string, acc: nat): (nat, string)
  {
    if s != "" && IsDigit(s[0]) then ReadDigits(s[1..], 10 * acc + DigitValue(s[0])) else (acc, s)
  }

  /** White space, an optional sign, at least one digit, and what follows. */
  function Scan(s: string): Option<(int, string)>
  {
    var t := SkipSpaces(s);
    var negative := t != "" && t[0] == '-';
    var u := if t != "" && (t[0] == '-' || t[0] == '+') then t[1..] else t;
    if u == "" || !IsDigit(u[0]) then None
    else
      var (n, rest) := ReadDigits(u, 0);
      var v: int := n;
      Some((if negative then -v else v, rest))
  }

  /** atoi: 0 if there is no number. */
  function AtoI(s: string): int
  {
    match Scan(s) case None => 0 case Some(r) => r.0
  }

  const ULLONG_MAX: nat := 0xffff_ffff_ffff_ffff

  function ToULL(v: int): nat
  {
    if v > ULLONG_MAX || -v > ULLONG_MAX then ULLONG_MAX else v % (ULLONG_MAX + 1)
  }

  /** strtoull(s, NULL, 10): saturates, and negates modulo 2^64 after a minus sign. */
  function StrToULL(s: string): nat
  {
    ToULL(AtoI(s))
  }

  // ----- what a text denotes

  function Pow10(k: nat): nat
  {
    if k == 0 then 1 else 10 * Pow10(k - 1)
  }

  ghost predicate AllDigits(s: string) { forall k :: 0 <= k < |s| ==> '0' <= s[k] <= '9' }

  ghost predicate AllSpaces(s: string) { forall k :: 0 <= k < |s| ==> s[k] == ' ' || '\t' <= s[k] <= '\r' }

  ghost predicate NoDigitFirst(s: string) { s == "" || !('0' <= s[0] <= '9') }

  /** The positional value of a digit string: the digit at `i` counts Pow10(|s| - 1 - i) times. */
  ghost function Positional(s: string): int
  {
    if s == "" then 0 else (s[0] as int - '0' as int) * Pow10(|s| - 1) + Positional(s[1..])
  }

  lemma {:induction false} PositionalAppend(s: string, c: char)
    ensures Positional(s + [c]) == 10 * Positional(s) + (c as int - '0' as int)
    decreases |s|
  {
    if s == "" {
      assert s + [c] == [c];
      assert Positional([c][1..]) == 0;
    } else {
      assert (s + [c])[1..] == s[1..] + [c];
      PositionalAppend(s[1..], c);
      var d := s[0] as int - '0' as int;
      assert d * Pow10(|s|) == 10 * (d * Pow10(|s| - 1));
    }
  }

  /** White space, an optional sign, digits, and a rest that does not go on with a digit. */
  ghost predicate Splits(s: string, pre: string, sign: string, digits: string, rest: string)
  {
    && s == pre + (sign + (digits + rest))
    && AllSpaces(pre) && (sign == "" || sign == "-" || sign == "+")
    && digits != "" && AllDigits(digits) && NoDigitFirst(rest)
  }

  /** `s` starts with a decimal number of value `z`, and `rest` follows it. */
  ghost predicate Denotes(s: string, z: int, rest: string)
  {
    exists pre, sign, digits ::
      Splits(s, pre, sign, digits, rest) && z == if sign == "-" then -Positional(digits) else Positional(digits)
  }

  ghost predicate StartsWithNumber(s: string, z: int) { exists rest :: Denotes(s, z, rest) }

  lemma {:induction false} SkipSpacesSplit(s: string) returns (pre: string)
    ensures s == pre + SkipSpaces(s) && AllSpaces(pre)
    decreases |s|
  {
    if s != "" && IsSpace(s[0]) {
      var more := SkipSpacesSplit(s[1..]);
      pre := [s[0]] + more;
    } else {
      pre := "";
    }
  }

  lemma {:induction false} SpacesSkipped(pre: string, s: string)
    requires AllSpaces(pre) && (s == "" || !IsSpace(s[0]))
    ensures SkipSpaces(pre + s) == s
    decreases |pre|
  {
    if pre == "" {
      assert pre + s == s;
    } else {
      assert (pre + s)[1..] == pre[1..] + s;
      SpacesSkipped(pre[1..], s);
    }
  }

  lemma {:induction false} DigitsValue(digits: string, rest: string, before: string)
    requires AllDigits(digits) && NoDigitFirst(rest) && Positional(before) >= 0
    ensures Positional(before + digits) >= 0
    ensures ReadDigits(digits + rest, Positional(before)) == (Positional(before + digits), rest)
    decreases |digits|
  {
    if digits == "" {
      assert digits + rest == rest && before + digits == before;
    } else {
      var c := digits[0];
      PositionalAppend(before, c);
      DigitsValue(digits[1..], rest, before + [c]);
      assert (digits + rest)[1..] == digits[1..] + rest && (before + [c]) + digits[1..] == before + digits;
    }
  }

  lemma {:induction false} ReadDigitsSplit(s: string, acc: nat) returns (digits: string)
    ensures s == digits + ReadDigits(s, acc).1 && AllDigits(digits) && NoDigitFirst(ReadDigits(s, acc).1)
    ensures s != "" && IsDigit(s[0]) ==> digits != ""
    decreases |s|
  {
    digits := "";
    if s != "" && IsDigit(s[0]) {
      var more := ReadDigitsSplit(s[1..], 10 * acc + DigitValue(s[0]));
      digits := [s[0]] + more;
    }
  }

  lemma SplitIsScanned(s: string, pre: string, sign: string, digits: string, rest: string)
    requires Splits(s, pre, sign, digits, rest)
    ensures Scan(s) == Some((if sign == "-" then -Positional(digits) else Positional(digits), rest))
  {
    var t := sign + (digits + rest);
    assert t[0] == if sign == "" then digits[0] else sign[0];
    SpacesSkipped(pre, t);
    assert sign != "" ==> t[1..] == digits + rest;
    assert sign == "" ==> t == digits + rest;
    assert "" + digits == digits;
    DigitsValue(digits, rest, "");
    hide SkipSpaces, ReadDigits, Positional;
  }

  lemma ScannedSplits(s: string) returns (pre: string, sign: string, digits: string)
    requires Scan(s).Some?
    ensures Splits(s, pre, sign, digits, Scan(s).value.1)
  {
    pre := SkipSpacesSplit(s);
    var t := SkipSpaces(s);
    sign := if t[0] == '-' || t[0] == '+' then [t[0]] else "";
    var u := if t[0] == '-' || t[0] == '+' then t[1..] else t;
    digits := ReadDigitsSplit(u, 0);
    assert t == sign + u;
    hide SkipSpaces, ReadDigits;
  }

  /** Scanning any text: it succeeds exactly if the text starts with a number, and yields its value and the rest. */
  lemma ScanMeaning(s: string, z: int, rest: string)
    ensures Scan(s) == Some((z, rest)) <==> Denotes(s, z, rest)
  {
    hide Scan, Positional;
    if Scan(s).Some? {
      var pre, sign, digits := ScannedSplits(s);
      SplitIsScanned(s, pre, sign, digits, Scan(s).value.1);
    }
    if Denotes(s, z, rest) {
      var pre, sign, digits :| Splits(s, pre, sign, digits, rest)
        && z == if sign == "-" then -Positional(digits) else Positional(digits);
      SplitIsScanned(s, pre, sign, digits, rest);
    }
  }

  /** atoi of any text: the number it starts with, and 0 if there is none. */
  lemma AtoIMeaning(s: string)
    ensures forall z, rest :: Denotes(s, z, rest) ==> AtoI(s) == z
    ensures (forall z, rest :: !Denotes(s, z, rest)) ==> AtoI(s) == 0
  {
    hide Scan;
    forall z, rest
      ensures Scan(s) == Some((z, rest)) <==> Denotes(s, z, rest)
    {
      ScanMeaning(s, z, rest);
    }
    if Scan(s).Some? {
      assert Denotes(s, Scan(s).value.0, Scan(s).value.1);
    }
  }

  /** strtoull of any text: the number it starts with, saturated, and after a minus sign modulo 2^64. */
  lemma StrToULLMeaning(s: string, z: int, rest: string)
    requires Denotes(s, z, rest)
    ensures StrToULL(s) ==
      if z > ULLONG_MAX || -z > ULLONG_MAX then ULLONG_MAX else if z >= 0 then z else ULLONG_MAX + 1 + z
  {
    AtoIMeaning(s);
    hide AtoI, Denotes;
  }

  /** The decimal text of any number: its digits have its value, and no zero comes first. */
  lemma {:induction false} DigitsMeaning(n: nat)
    ensures Digits(n) != "" && AllDigits(Digits(n)) && Positional(Digits(n)) == n
    ensures n > 0 ==> Digits(n)[0] != '0'
    decreases n
  {
    if n < 10 {
      assert Positional(Digits(n)[1..]) == 0;
    } else {
      DigitsMeaning(n / 10);
      PositionalAppend(Digits(n / 10), DigitChar(n % 10));
    }
  }

  lemma PrintMeaning(z: int)
    ensures z >= 0 ==> Print(z) != "" && AllDigits(Print(z)) && Positional(Print(z)) == z
    ensures z < 0 ==> |Print(z)| > 1 && Print(z)[0] == '-'
    ensures z < 0 ==> AllDigits(Print(z)[1..]) && Positional(Print(z)[1..]) == -z
  {
    DigitsMeaning(if z < 0 then -z else z);
    if z < 0 { assert Print(z)[1..] == Digits(-z); }
  }

  // ----- the round trip

  /** The text goes on with something that is not a digit, or ends. */
  predicate DigitsEnd(s: string) { s == "" || !IsDigit(s[0]) }

  lemma {:induction false} ReadDigitsOfDigits(n: nat, rest: string)
    ensures ReadDigits(Digits(n) + rest, 0) == ReadDigits(rest, n)
    decreases n
  {
    var d := [DigitChar(n % 10)];
    assert (d + rest)[1..] == rest;
    if n >= 10 {
      assert Digits(n) + rest == Digits(n / 10) + (d + rest);
      ReadDigitsOfDigits(n / 10, d + rest);
    }
  }

  lemma {:induction false} DigitsShape(n: nat)
    ensures Digits(n) != "" && forall k :: 0 <= k < |Digits(n)| ==> IsDigit(Digits(n)[k])
    decreases n
  {
    if n >= 10 {
      DigitsShape(n / 10);
    }
  }

  lemma SignedDigitsScanned(sign: string, digits: string, rest: string)
    requires (sign == "" || sign == "-") && digits != "" && AllDigits(digits) && DigitsEnd(rest)
    ensures Scan((sign + digits) + rest) == Some((if sign == "-" then -Positional(digits) else Positional(digits), rest))
  {
    assert (sign + digits) + rest == "" + (sign + (digits + rest));
    hide Positional, Scan;
    SplitIsScanned((sign + digits) + rest, "", sign, digits, rest);
  }

  /** Scanning a printed number gives it back, and leaves what followed it. */
  lemma ScanPrint(z: int, rest: string)
    requires DigitsEnd(rest)
    ensures Scan(Print(z) + rest) == Some((z, rest))
  {
    var digits, sign := Digits(if z < 0 then -z else z), if z < 0 then "-" else "";
    DigitsMeaning(if z < 0 then -z else z);
    assert Print(z) == sign + digits by { hide Positional; }
    hide *;
    SignedDigitsScanned(sign, digits, rest);
  }

  /** Scanning skips the space between two printed fields. */
  lemma ScanAfterSpace(z: int, rest: string)
    requires DigitsEnd(rest)
    ensures Scan(" " + (Print(z) + rest)) == Some((z, rest))
  {
    ScanPrint(z, rest);
    var text := Print(z) + rest;
    DigitsShape(if z < 0 then -z else z);
    assert (" " + text)[1..] == text;
    assert text[0] == Print(z)[0];
    assert SkipSpaces(text) == text;
  }

  lemma AtoIPrint(z: int, rest: string)
    requires DigitsEnd(rest)
    ensures AtoI(Print(z) + rest) == z
  {
    ScanPrint(z, rest);
  }

  /** "%llu" and strtoull are inverse on the whole range of unsigned long long. */
  lemma CounterRoundTrip(n: nat)
    requires n <= ULLONG_MAX
    ensures StrToULL(Digits(n)) == n
  {
    assert AtoI(Digits(n)) == n by {
      AtoIPrint(n, "");
      assert Print(n) + "" == Digits(n);
    }
    hide AtoI;
    assert ToULL(n) == n;
  }

  lemma PrintInjective(x: int, y: int)
    requires Print(x) == Print(y)
    ensures x == y
  {
    AtoIPrint(x, "");
    AtoIPrint(y, "");
  }

  // ----- lengths

  lemma {:induction false} DigitsLength(n: nat, k: nat)
    requires 0 < k && n < Pow10(k)
    ensures |Digits(n)| <= k
    decreases k
  {
    if n >= 10 {
      DigitsLength(n / 10, k - 1);
    }
  }

  lemma Powers()
    ensures Pow10(10) == 10_000_000_000
    ensures Pow10(19) == 10_000_000_000_000_000_000
    ensures Pow10(20) == 100_000_000_000_000_000_000
  {
  }

  /** The longest counter has 20 digits, so it fits the 64-byte buffers with its terminator. */
  lemma CounterLength(n: nat)
    requires n <= ULLONG_MAX
    ensures 1 <= |Digits(n)| <= 20
  {
    DigitsShape(n);
    Powers();
    DigitsLength(n, 20);
  }

  /** "%d" and "%ld" texts. */
  lemma IntLength(z: int)
    ensures -0x8000_0000 <= z <= 0x7fff_ffff ==> |Print(z)| <= 11
    ensures -0x8000_0000_0000_0000 <= z <= 0x7fff_ffff_ffff_ffff ==> |Print(z)| <= 20
  {
    Powers();
    var n := if z < 0 then -z else z;
    if n <= 0x8000_0000 { DigitsLength(n, 10); }
    if n <= 0x8000_0000_0000_0000 { DigitsLength(n, 19); }
  }

  // ----- the record of sleep_wake_process.c

  datatype Record = Record(procId: int, totalJitter: int, iterations: int)

  predicate InRange(r: Record)
  {
    && -0x8000_0000 <= r.procId <= 0x7fff_ffff
    && -0x8000_0000_0000_0000 <= r.totalJitter <= 0x7fff_ffff_ffff_ffff
    && -0x8000_0000_0000_0000 <= r.iterations <= 0x7fff_ffff_ffff_ffff
  }

  /** snprintf "%d %ld %ld": sleep_wake_process.c:75. */
  function PrintRecord(r: Record): string
  {
    Print(r.procId) + (" " + (Print(r.totalJitter) + (" " + (Print(r.iterations) + ""))))
  }

  /** sscanf "%d %ld %ld" == 3: sleep_wake_process.c:206. */
  function ScanRecord(s: string): Option<Record>
  {
    match Scan(s) case None => None case Some(a) =>
    match Scan(a.1) case None => None case Some(b) =>
    match Scan(b.1) case None => None case Some(c) => Some(Record(a.0, b.0, c.0))
  }

  /** The process, the jitter and the iterations are the first three numbers of any text, in this order. */
  lemma ScanRecordMeaning(s: string, r: Record)
    ensures ScanRecord(s) == Some(r) <==>
      exists a, b, c :: Denotes(s, r.procId, a) && Denotes(a, r.totalJitter, b) && Denotes(b, r.iterations, c)
  {
    hide Scan, Denotes;
    forall t, z, rest
      ensures Scan(t) == Some((z, rest)) <==> Denotes(t, z, rest)
    {
      ScanMeaning(t, z, rest);
    }
    if ScanRecord(s) == Some(r) {
      var a := Scan(s).value.1;
      var b := Scan(a).value.1;
      var c := Scan(b).value.1;
      assert Denotes(s, r.procId, a) && Denotes(a, r.totalJitter, b) && Denotes(b, r.iterations, c);
    }
  }

  lemma RecordRoundTrip(r: Record)
    ensures ScanRecord(PrintRecord(r)) == Some(r)
  {
    var third := Print(r.iterations) + "";
    var second := Print(r.totalJitter) + (" " + third);
    ScanPrint(r.procId, " " + second);
    ScanAfterSpace(r.totalJitter, " " + third);
    ScanAfterSpace(r.iterations, "");
  }

  /** The record's text always fits the 128-byte buffers with its terminator. */
  lemma RecordLength(r: Record)
    requires InRange(r)
    ensures 1 <= |PrintRecord(r)| <= 53
  {
    IntLength(r.procId);
    IntLength(r.totalJitter);
    IntLength(r.iterations);
  }
}
