/** Decimal rendering and parsing of Go's 64-bit `int`, as done by
    `strconv.Itoa` and `strconv.Atoi`. The repository uses the first to number
    SQL placeholders; the query-parameter parser uses the second. */
module Decimal {
  import opened Wrappers

  /** Bounds of Go's `int` on a 64-bit platform. */
  const MinInt: int := -0x8000_0000_0000_0000
  const MaxInt: int :=  0x7fff_ffff_ffff_ffff

  predicate InRange(n: int) { MinInt <= n <= MaxInt }

  predicate IsDigit(c: char) { '0' <= c <= '9' }

  predicate AllDigits(s: string) { forall i :: 0 <= i < |s| ==> IsDigit(s[i]) }

  function DigitValue(c: char): (d: nat)
    requires IsDigit(c)
    ensures d < 10
  {
    (c as int) - ('0' as int)
  }

  function DigitChar(d: nat): (c: char)
    requires d < 10
    ensures IsDigit(c) && DigitValue(c) == d
  {
    (('0' as int) + d) as char
  }

  /** The number a string of decimal digits denotes, most significant first. */
  function Value(ds: string): nat
    requires AllDigits(ds)
  {
    if ds == [] then 0 else Value(ds[..|ds| - 1]) * 10 + DigitValue(ds[|ds| - 1])
  }

  /** The digits of `n` without leading zeros. */
  function NatToString(n: nat): (s: string)
    ensures 1 <= |s| && AllDigits(s)
    ensures |s| > 1 ==> s[0] != '0'
  {
    if n < 10 then [DigitChar(n)] else NatToString(n / 10) + [DigitChar(n % 10)]
  }

  /** `strconv.Itoa`: an optional minus sign followed by the digits of |n|. */
  function Itoa(n: int): (s: string)
    ensures 1 <= |s|
    ensures n >= 0 ==> AllDigits(s)
    ensures n < 0 ==> s[0] == '-' && AllDigits(s[1..]) && |s| >= 2
    ensures n >= 0 && |s| > 1 ==> s[0] != '0'
  {
    if n < 0 then "-" + NatToString(-n) else NatToString(n)
  }

  /** The `*strconv.NumError` Atoi returns; it records the rejected input. */
  datatype NumError = NumError(num: string)

  /** The part of `s` after an optional leading `+` or `-`. */
  function Unsigned(s: string): (body: string)
    ensures |body| <= |s|
  {
    if s != [] && (s[0] == '+' || s[0] == '-') then s[1..] else s
  }

  predicate Negative(s: string) { s != [] && s[0] == '-' }

  function SignedValue(s: string, body: string): int
    requires AllDigits(body)
  {
    if Negative(s) then -(Value(body) as int) else Value(body)
  }

  /** `strconv.Atoi`: an optional sign and at least one decimal digit, and
      nothing else, whose value fits Go's `int`. Leading zeros are allowed;
      spaces, underscores and a bare sign are not. */
  function Atoi(s: string): (r: Result<int, NumError>)
    ensures r.Ok? ==> InRange(r.value)
    ensures r.Err? ==> r.error == NumError(s)
  {
    var body := Unsigned(s);
    if body == [] || !AllDigits(body) then Err(NumError(s))
    else
      var v := SignedValue(s, body);
      if InRange(v) then Ok(v) else Err(NumError(s))
  }

  lemma {:induction false} ValueOfNatToString(n: nat)
    ensures Value(NatToString(n)) == n
  {
    var s := NatToString(n);
    if n >= 10 {
      ValueOfNatToString(n / 10);
      assert s[..|s| - 1] == NatToString(n / 10);
    }
  }

  /** Round trip: parsing the rendering of any `int` gives it back. */
  lemma AtoiItoa(n: int)
    requires InRange(n)
    ensures Atoi(Itoa(n)) == Ok(n)
  {
    var s := Itoa(n);
    if n < 0 {
      assert Unsigned(s) == NatToString(-n);
      ValueOfNatToString(-n);
    } else {
      ValueOfNatToString(n);
    }
  }

  /** A character other than a single leading sign, followed only by digits,
      makes Atoi fail. */
  lemma AtoiRejectsNonDigit(s: string, i: nat)
    requires i < |s| && !IsDigit(s[i])
    requires i > 0 || (s[0] != '+' && s[0] != '-')
    ensures Atoi(s).Err?
  {
    var body := Unsigned(s);
    if s[0] == '+' || s[0] == '-' {
      assert body[i - 1] == s[i];
    } else {
      assert body[i] == s[i];
    }
  }

  /** An integer outside Go's `int` is rejected, even when well formed. */
  lemma AtoiItoaOutOfRange(n: int)
    requires !InRange(n)
    ensures Atoi(Itoa(n)).Err?
  {
    var s := Itoa(n);
    if n < 0 {
      assert Unsigned(s) == NatToString(-n);
      ValueOfNatToString(-n);
    } else {
      ValueOfNatToString(n);
    }
  }

  /** Concrete cases that tell Atoi apart from a stricter or looser parser:
      a plus sign, a negative value, leading zeros, a bare sign and the empty
      string. */
  lemma AtoiExamples()
    ensures Atoi("+7") == Ok(7)
    ensures Atoi("-15") == Ok(-15)
    ensures Atoi("007") == Ok(7)
    ensures Atoi("-").Err?
    ensures Atoi("").Err?
  {
    assert Unsigned("+7") == "7";
    assert Unsigned("-15") == "15";
    assert "15"[..1] == "1";
    assert "007"[..2] == "00" && "00"[..1] == "0";
  }
}
