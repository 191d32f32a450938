/** Numbers as text. */
module Numerals {

  function Digit(n: int): char
    requires 0 <= n < 10
  {
    '0' + n as char
  }

  function Decimal(n: nat): string {
    if n < 10 then [Digit(n)] else Decimal(n / 10) + [Digit(n % 10)]
  }

  function ShowInt(n: int): string {
    if n >= 0 then Decimal(n) else "-" + Decimal(-n)
  }

  function HexDigit(n: int): (c: char)
    requires 0 <= n < 16
  {
    if n < 10 then '0' + n as char else 'a' + (n - 10) as char
  }

  function ReadDecimal(s: string): nat {
    if s == "" then 0
    else ReadDecimal(s[..|s| - 1]) * 10 + (if '0' <= s[|s| - 1] <= '9' then s[|s| - 1] as int - '0' as int else 0)
  }

  function ReadInt(s: string): int {
    if s != "" && s[0] == '-' then 0 - ReadDecimal(s[1..]) else ReadDecimal(s)
  }

  lemma {:induction false} DecimalReads(n: nat)
    ensures ReadDecimal(Decimal(n)) == n
    ensures Decimal(n) != "" && forall i | 0 <= i < |Decimal(n)| :: '0' <= Decimal(n)[i] <= '9'
  {
    if n >= 10 {
      DecimalReads(n / 10);
      assert Decimal(n)[..|Decimal(n)| - 1] == Decimal(n / 10);
    } else {
      assert ReadDecimal("") == 0;
      assert Decimal(n)[..0] == "";
    }
  }

  lemma IntReads(n: int)
    ensures ReadInt(ShowInt(n)) == n
    ensures ShowInt(n) != "" && '0' <= ShowInt(n)[|ShowInt(n)| - 1] <= '9'
    ensures forall i | 0 <= i < |ShowInt(n)| :: '0' <= ShowInt(n)[i] <= '9' || ShowInt(n)[i] == '-'
  {
    if n >= 0 {
      DecimalReads(n);
    } else {
      DecimalReads(-n);
      assert ShowInt(n)[1..] == Decimal(-n);
    }
  }
}
