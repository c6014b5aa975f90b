/** Base-10 integer conversion as Go's strconv.Atoi performs it for a 64-bit `int`,
    together with the canonical rendering strconv.Itoa that inverts it. */
module StrConv {
  import opened Outcomes

  const MinInt64: int := -0x8000_0000_0000_0000
  const MaxInt64: int := 0x7FFF_FFFF_FFFF_FFFF

  predicate IsDigit(c: char) { '0' <= c <= '9' }

  predicate AllDigits(s: string) { forall k :: 0 <= k < |s| ==> IsDigit(s[k]) }

  function DigitValue(c: char): nat
    requires IsDigit(c)
  {
    c as int - '0' as int
  }

  function DigitChar(d: nat): (c: char)
    requires d < 10
    ensures IsDigit(c) && DigitValue(c) == d
  {
    ('0' as int + d) as char
  }

  /** The value of a run of decimal digits, most significant digit first. */
  function DigitsValue(s: string): nat
    requires AllDigits(s)
  {
    if s == [] then 0 else DigitsValue(s[..|s| - 1]) * 10 + DigitValue(s[|s| - 1])
  }

  /** The digits that follow an optional leading '+' or '-'. */
  function Unsigned(s: string): (u: string)
    ensures |u| <= |s| && u == s[|s| - |u|..]
  {
    if |s| > 0 && (s[0] == '+' || s[0] == '-') then s[1..] else s
  }

  /** The syntax Atoi accepts in base 10: an optional sign, then at least one ASCII digit,
      and nothing else (no spaces, no underscores, no base prefix). */
  predicate IsDecimal(s: string) { |Unsigned(s)| > 0 && AllDigits(Unsigned(s)) }

  /** The mathematical value of a well-formed decimal, before any range check. */
  function DecimalValue(s: string): int
    requires IsDecimal(s)
  {
    var magnitude: int := DigitsValue(Unsigned(s));
    if s[0] == '-' then -magnitude else magnitude
  }

  /** strconv.Atoi: `None` is the error result (a syntax error, or a value outside int64). */
  function Atoi(s: string): (r: Option<int>)
    ensures r.Some? ==> MinInt64 <= r.value <= MaxInt64
    ensures r.Some? ==> IsDecimal(s) && r.value == DecimalValue(s)
    ensures IsDecimal(s) && MinInt64 <= DecimalValue(s) <= MaxInt64 ==> r.Some?
  {
    if IsDecimal(s) && MinInt64 <= DecimalValue(s) <= MaxInt64 then Some(DecimalValue(s)) else None
  }

  /** The decimal digits of a natural number, without leading zeros. */
  function NatDigits(n: nat): (s: string)
    ensures |s| > 0 && AllDigits(s)
    ensures s[0] != '+' && s[0] != '-'
    decreases n
  {
    if n < 10 then [DigitChar(n)] else NatDigits(n / 10) + [DigitChar(n % 10)]
  }

  /** strconv.Itoa: the canonical base-10 rendering of an integer. */
  function FormatInt(n: int): string
  {
    if n < 0 then "-" + NatDigits(-n) else NatDigits(n)
  }

  lemma {:induction false} DigitsValueOfNatDigits(n: nat)
    ensures DigitsValue(NatDigits(n)) == n
    decreases n
  {
    var s := NatDigits(n);
    if n < 10 {
      assert s[..|s| - 1] == [];
    } else {
      assert s[..|s| - 1] == NatDigits(n / 10);
      DigitsValueOfNatDigits(n / 10);
    }
  }

  /** Atoi inverts FormatInt exactly on the 64-bit range and rejects every rendering outside it. */
  lemma AtoiFormatInt(n: int)
    ensures Atoi(FormatInt(n)) == if MinInt64 <= n <= MaxInt64 then Some(n) else None
  {
    var s := FormatInt(n);
    var digits := NatDigits(if n < 0 then -n else n);
    assert Unsigned(s) == digits;
    DigitsValueOfNatDigits(if n < 0 then -n else n);
    assert IsDecimal(s) && DecimalValue(s) == n;
  }

  /** A lone digit, with or without a minus sign, is read as its value. */
  lemma AtoiOneDigit(s: string)
    requires (|s| == 1 && IsDigit(s[0])) || (|s| == 2 && s[0] == '-' && IsDigit(s[1]))
    ensures Atoi(s) == Some(if |s| == 1 then DigitValue(s[0]) as int else -(DigitValue(s[1]) as int))
  {
    var u := Unsigned(s);
    assert u == [s[|s| - 1]];
    assert u[..0] == [];
    assert DigitsValue(u) == DigitValue(s[|s| - 1]);
  }
}
