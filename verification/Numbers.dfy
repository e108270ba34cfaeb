/** `std::to_string`, `std::stoi` and `std::stoul` (base 10, 64-bit `long`, 32-bit `int`). */
module Numbers {
  import opened Wrappers
  import opened Text

  const INT_MIN: int := -0x8000_0000
  const INT_MAX: int := 0x7FFF_FFFF
  const TWO_64: int := 0x1_0000_0000_0000_0000

  predicate IsDigit(c: char) {
    '0' <= c <= '9'
  }

  function DigitValue(c: char): (n: nat)
    requires IsDigit(c)
  {
    c as int - '0' as int
  }

  function DigitOf(n: nat): (c: char)
    requires n < 10
    ensures IsDigit(c) && DigitValue(c) == n
  {
    ('0' as int + n) as char
  }

  /** The decimal digits of `n`, without leading zeros. */
  function Digits(n: nat): (s: string)
    ensures s != "" && forall i :: 0 <= i < |s| ==> IsDigit(s[i])
  {
    if n < 10 then [DigitOf(n)] else Digits(n / 10) + [DigitOf(n % 10)]
  }

  /** How an `int` is written to a stream or by `to_string`. */
  function Decimal(n: int): string {
    if n < 0 then "-" + Digits(-n) else Digits(n)
  }

  /** The number of leading digits of `s`. */
  function DigitRun(s: string): (n: nat)
    ensures n <= |s| && forall i :: 0 <= i < n ==> IsDigit(s[i])
    ensures n < |s| ==> !IsDigit(s[n])
  {
    if s != "" && IsDigit(s[0]) then DigitRun(s[1..]) + 1 else 0
  }

  /** The value of a string of digits. */
  function Magnitude(s: string): nat
    requires forall i :: 0 <= i < |s| ==> IsDigit(s[i])
  {
    if s == "" then 0 else 10 * Magnitude(s[..|s| - 1]) + DigitValue(s[|s| - 1])
  }

  /** What `strtol` and `strtoul` read: an optional sign and a non-empty run of digits, after white space. */
  datatype Literal = Literal(negative: bool, magnitude: nat)

  function ReadLiteral(s: string): Option<Literal> {
    var t := SkipSpaces(s);
    var signed := t != "" && (t[0] == '-' || t[0] == '+');
    var u := if signed then t[1..] else t;
    var n := DigitRun(u);
    if n == 0 then None else Some(Literal(signed && t[0] == '-', Magnitude(u[..n])))
  }

  function Signed(negative: bool, magnitude: int): int {
    if negative then -magnitude else magnitude
  }

  /** `std::stoi`; `None` is an exception. */
  function Stoi(s: string): (r: Option<int>)
    ensures r.Some? ==> INT_MIN <= r.value <= INT_MAX
  {
    match ReadLiteral(s)
    case None => None
    case Some(Literal(negative, magnitude)) =>
      var v := Signed(negative, magnitude);
      if INT_MIN <= v <= INT_MAX then Some(v) else None
  }

  /** `std::stoul`; a minus sign wraps around, too many digits are an exception. */
  function Stoul(s: string): (r: Option<nat>)
    ensures r.Some? ==> r.value < TWO_64
  {
    match ReadLiteral(s)
    case None => None
    case Some(Literal(negative, magnitude)) =>
      if magnitude >= TWO_64 then None
      else if negative then Some((TWO_64 - magnitude) % TWO_64)
      else Some(magnitude)
  }

  lemma {:induction false} DigitsRoundTrip(n: nat)
    ensures Magnitude(Digits(n)) == n
  {
    if n >= 10 {
      DigitsRoundTrip(n / 10);
      var s := Digits(n);
      assert s[..|s| - 1] == Digits(n / 10);
    } else {
      assert Digits(n)[..0] == "";
    }
  }

  lemma {:induction false} AllDigitsRun(s: string)
    requires forall i :: 0 <= i < |s| ==> IsDigit(s[i])
    ensures DigitRun(s) == |s|
  {
    if s != "" {
      AllDigitsRun(s[1..]);
    }
  }

  lemma ReadDecimal(n: int)
    ensures ReadLiteral(Decimal(n)) == Some(Literal(n < 0, if n < 0 then -n else n))
  {
    var m := if n < 0 then -n else n;
    var d := Digits(m);
    AllDigitsRun(d);
    DigitsRoundTrip(m);
    assert d[..|d|] == d && IsDigit(d[0]);
    if n < 0 {
      assert Decimal(n)[0] == '-' && Decimal(n)[1..] == d;
    }
  }

  /** Printing and reading an `int` is the identity. */
  lemma StoiDecimal(n: int)
    requires INT_MIN <= n <= INT_MAX
    ensures Stoi(Decimal(n)) == Some(n)
  {
    ReadDecimal(n);
  }

  lemma StoulDecimal(n: nat)
    requires n < TWO_64
    ensures Stoul(Decimal(n)) == Some(n)
  {
    ReadDecimal(n);
  }

  /** A printed number has no white space and none of the separators the text formats use. */
  lemma DecimalIsWord(n: int)
    ensures Decimal(n) != "" && forall c :: c in Decimal(n) ==> IsDigit(c) || c == '-'
  {
  }
}
