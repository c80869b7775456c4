/** Signed 64-bit integers and their decimal text. */
module Decimals {
  import opened Options

  const MinInt64 := -0x8000_0000_0000_0000
  const MaxInt64 := 0x7fff_ffff_ffff_ffff

  predicate IsInt64(n: int) {
    MinInt64 <= n <= MaxInt64
  }

  /** Addition wraps around. */
  function Wrap(n: int): (r: int)
    ensures IsInt64(r) && (r - n) % 0x1_0000_0000_0000_0000 == 0
  {
    (n - MinInt64) % 0x1_0000_0000_0000_0000 + MinInt64
  }

  lemma {:induction false} WrapIsUnique(n: int, r: int)
    requires IsInt64(r) && (r - n) % 0x1_0000_0000_0000_0000 == 0
    ensures Wrap(n) == r
  {
  }

  lemma {:induction false} WrapAbsorbs(a: int, b: int)
    ensures Wrap(Wrap(a) + b) == Wrap(a + b)
  {
  }

  function Digit(d: nat): char
    requires d < 10
  {
    '0' + d as char
  }

  predicate IsDigit(c: char) {
    '0' <= c <= '9'
  }

  predicate AllDigits(s: string) {
    s == [] || (IsDigit(s[|s| - 1]) && AllDigits(s[..|s| - 1]))
  }

  function Digits(n: nat): (s: string)
    ensures |s| > 0 && AllDigits(s) && IsDigit(s[0])
  {
    if n < 10 then assert [Digit(n)][..0] == []; [Digit(n)]
    else
      var s := Digits(n / 10) + [Digit(n % 10)];
      assert s[..|s| - 1] == Digits(n / 10);
      s
  }

  function Number(s: string): nat
    requires AllDigits(s)
  {
    if s == [] then 0
    else Number(s[..|s| - 1]) * 10 + (s[|s| - 1] as int - '0' as int)
  }

  lemma {:induction false} NumberOfDigits(n: nat)
    ensures Number(Digits(n)) == n
  {
    if n < 10 {
      assert [Digit(n)][..0] == [];
    } else {
      NumberOfDigits(n / 10);
      assert Digits(n)[..|Digits(n)| - 1] == Digits(n / 10);
    }
  }

  function FormatInt(n: int): string {
    if n < 0 then "-" + Digits(-n) else Digits(n)
  }

  /** The text is the usual decimal one: a digit more at the end is ten times the number and that digit, and a minus
      sign stands before a negative number. */
  lemma {:induction false} FormatIsDecimal(n: nat, d: nat)
    requires d < 10
    ensures FormatInt(d) == ["0123456789"[d]]
    ensures n > 0 ==> FormatInt(10 * n + d) == FormatInt(n) + ["0123456789"[d]]
    ensures n > 0 ==> FormatInt(0 - n) == "-" + FormatInt(n)
  {
    assert (10 * n + d) / 10 == n && (10 * n + d) % 10 == d;
  }

  /** Base 10, an optional sign, at least one digit, and in range. */
  function ParseInt(s: string): (r: Option<int>)
    ensures r.Some? ==> IsInt64(r.value)
  {
    var signed := s != [] && (s[0] == '-' || s[0] == '+');
    var digits := if signed then s[1..] else s;
    if digits == [] || !AllDigits(digits) then None
    else
      var n: int := if signed && s[0] == '-' then 0 - Number(digits) else Number(digits);
      if IsInt64(n) then Some(n) else None
  }

  lemma {:induction false} ParseUndoesFormat(n: int)
    requires IsInt64(n)
    ensures ParseInt(FormatInt(n)) == Some(n)
  {
    var digits := Digits(if n < 0 then -n else n);
    NumberOfDigits(if n < 0 then -n else n);
    if n < 0 {
      assert FormatInt(n)[1..] == digits;
    }
  }
}
