/** Decimal numerals as the archiver's language parses them, and as stream entry IDs print them. */
module Numerals {

  const MAX_UINT64: int := 0xFFFF_FFFF_FFFF_FFFF
  const MAX_INT64: int := 0x7FFF_FFFF_FFFF_FFFF

  /** A parse also yields a value when it reports an error: the nearest bound, or zero. */
  datatype Parsed = Good(value: int) | OutOfRange(value: int) | Malformed {
    function ValueOrZero(): int { if Malformed? then 0 else value }
  }

  predicate IsDigit(c: char) { '0' <= c <= '9' }

  function DigitValue(c: char): int
    requires IsDigit(c)
  {
    c as int - '0' as int
  }

  /** Unsigned digits, left to right; the first fault met decides, so an overflow hides later garbage. */
  function Scan(s: string): Parsed {
    if s == "" then Good(0)
    else
      match Scan(s[..|s|-1])
      case Good(n) =>
        var c := s[|s|-1];
        if !IsDigit(c) then Malformed
        else if n * 10 + DigitValue(c) > MAX_UINT64 then OutOfRange(MAX_UINT64)
        else Good(n * 10 + DigitValue(c))
      case fault => fault
  }

  function ParseUint(s: string): Parsed { if s == "" then Malformed else Scan(s) }

  /** Base 10, 64 bits, with an optional sign. */
  function ParseInt(s: string): Parsed {
    var neg := s != "" && s[0] == '-';
    var u := ParseUint(if s != "" && (s[0] == '-' || s[0] == '+') then s[1..] else s);
    if u.Malformed? then Malformed
    else if !neg && u.value > MAX_INT64 then OutOfRange(MAX_INT64)
    else if neg && u.value > MAX_INT64 + 1 then OutOfRange(-MAX_INT64 - 1)
    else Good(if neg then -u.value else u.value)
  }

  function Digit(d: nat): char
    requires d < 10
  {
    (d + '0' as int) as char
  }

  function Digits(n: nat): (s: string)
    ensures s != ""
  {
    if n < 10 then [Digit(n)] else Digits(n / 10) + [Digit(n % 10)]
  }

  function IndexOf(s: string, c: char): (i: int)
    ensures -1 <= i < |s|
  {
    if s == "" then -1
    else if s[0] == c then 0
    else var i := IndexOf(s[1..], c); if i < 0 then -1 else i + 1
  }

  lemma {:induction false} ScanDigits(n: nat)
    requires n <= MAX_UINT64
    ensures Scan(Digits(n)) == Good(n)
  {
    var s := Digits(n);
    assert s[|s|-1] == Digit(n % 10);
    if n < 10 {
      assert s[..0] == "";
    } else {
      ScanDigits(n / 10);
      assert s[..|s|-1] == Digits(n / 10);
    }
  }

  lemma {:induction false} DigitsAreDigits(n: nat)
    ensures forall i :: 0 <= i < |Digits(n)| ==> IsDigit(Digits(n)[i])
  {
    if n >= 10 {
      DigitsAreDigits(n / 10);
    }
  }

  /** Printing and parsing: the round trip succeeds exactly for the numbers that fit 64 signed bits. */
  lemma ParseDigits(n: nat)
    requires n <= MAX_UINT64
    ensures ParseInt(Digits(n)) == if n <= MAX_INT64 then Good(n) else OutOfRange(MAX_INT64)
  {
    ScanDigits(n);
    DigitsAreDigits(n);
    assert IsDigit(Digits(n)[0]);
  }

  lemma {:induction false} IndexAfter(s: string, t: string, c: char)
    requires forall i :: 0 <= i < |s| ==> s[i] != c
    ensures IndexOf(s + [c] + t, c) == |s|
  {
    if s != "" {
      IndexAfter(s[1..], t, c);
      assert (s + [c] + t)[1..] == s[1..] + [c] + t;
    }
  }

  lemma DigitsInjective(m: nat, n: nat)
    requires m <= MAX_UINT64 && n <= MAX_UINT64 && Digits(m) == Digits(n)
    ensures m == n
  {
    ScanDigits(m);
    ScanDigits(n);
  }

  // ---- What a numeral means ----------------------------------------------------------------------

  predicate AllDigits(s: string) { forall i :: 0 <= i < |s| ==> '0' <= s[i] <= '9' }

  function PowerOfTen(n: nat): nat { if n == 0 then 1 else 10 * PowerOfTen(n - 1) }

  /** Place value, from the most significant digit down. */
  function PlaceValue(s: string): nat
    requires AllDigits(s)
  {
    if s == "" then 0 else (s[0] as int - '0' as int) * PowerOfTen(|s| - 1) + PlaceValue(s[1..])
  }

  lemma TenTimes(d: int, p: int)
    ensures d * (10 * p) == 10 * (d * p)
  {
  }

  lemma {:induction false} PlaceValueSnoc(s: string, c: char)
    requires AllDigits(s) && '0' <= c <= '9'
    ensures AllDigits(s + [c]) && PlaceValue(s + [c]) == 10 * PlaceValue(s) + (c as int - '0' as int)
  {
    if s == "" {
      assert ([] + [c])[1..] == "" && PowerOfTen(0) == 1;
    } else {
      PlaceValueSnoc(s[1..], c);
      assert (s + [c])[1..] == s[1..] + [c];
      TenTimes(s[0] as int - '0' as int, PowerOfTen(|s| - 1));
    }
  }

  /** Scanning succeeds exactly on digits whose value fits, and gives that value. */
  lemma {:induction false} ScanIff(s: string)
    ensures Scan(s).Good? <==> AllDigits(s) && PlaceValue(s) <= MAX_UINT64
    ensures Scan(s).Good? ==> Scan(s).value == PlaceValue(s)
    ensures Scan(s).OutOfRange? ==> Scan(s).value == MAX_UINT64
  {
    if s != "" {
      var r, c := s[..|s|-1], s[|s|-1];
      assert s == r + [c];
      ScanIff(r);
      assert AllDigits(s) <==> AllDigits(r) && '0' <= c <= '9' by {
        assert forall i :: 0 <= i < |r| ==> r[i] == s[i];
      }
      if AllDigits(s) { PlaceValueSnoc(r, c); }
    }
  }

  /** `s` is `v` in decimal, with an optional sign. */
  ghost predicate Numeral(s: string, v: int) {
    exists body :: Signed(s, body, v)
  }

  ghost predicate Signed(s: string, body: string, v: int) {
    && body != "" && AllDigits(body)
    && (((s == body || s == "+" + body) && v == PlaceValue(body)) || (s == "-" + body && -v == PlaceValue(body)))
  }

  /** The part of a numeral after its sign. */
  function Unsigned(s: string): string { if s != "" && (s[0] == '-' || s[0] == '+') then s[1..] else s }

  lemma UnsignedSigned(s: string, v: int)
    ensures var body := Unsigned(s);
      Numeral(s, v) <==> (&& body != "" && AllDigits(body)
                          && v == if s != "" && s[0] == '-' then -(PlaceValue(body) as int) else PlaceValue(body))
  {
    hide PlaceValue;
    var body := Unsigned(s);
    if s != "" { assert s == [s[0]] + s[1..]; }
    if body != "" && AllDigits(body) && v == (if s[0] == '-' then -(PlaceValue(body) as int) else PlaceValue(body)) {
      assert Signed(s, body, v);
    }
    if Numeral(s, v) {
      var b :| Signed(s, b, v);
      assert s[0] == b[0] || s[1..] == b;
      assert b == body;
    }
  }

  /** Parsing succeeds exactly on the decimal numerals of the numbers that fit 64 signed bits. */
  lemma ParseIntIff(s: string, v: int)
    ensures ParseInt(s) == Good(v) <==> Numeral(s, v) && -MAX_INT64 - 1 <= v <= MAX_INT64
  {
    hide Scan;
    hide PlaceValue;
    hide Numeral;
    hide AllDigits;
    UnsignedSigned(s, v);
    ScanIff(Unsigned(s));
  }

  lemma NothingIsNoNumeral(v: int)
    ensures !Numeral("", v)
  {
  }
}
