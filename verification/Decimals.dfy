/** Integers in decimal. */
module Decimals {
  function Digit(d: nat): char
    requires d < 10
  {
    '0' + d as char
  }

  function NatText(n: nat): string {
    if n < 10 then [Digit(n)] else NatText(n / 10) + [Digit(n % 10)]
  }

  function IntText(n: int): string { if n < 0 then "-" + NatText(-n) else NatText(n) }

  function ParseNat(text: string): nat {
    if text == "" then 0
    else
      var last := text[|text| - 1];
      10 * ParseNat(text[..|text| - 1]) + if '0' <= last <= '9' then (last - '0') as nat else 0
  }

  /** The number the text stands for. */
  function ParseInt(text: string): int {
    if text != "" && text[0] == '-' then 0 - ParseNat(text[1..]) else ParseNat(text)
  }

  lemma {:induction false} NatTextParses(n: nat)
    ensures ParseNat(NatText(n)) == n
    ensures NatText(n) != "" && forall c :: c in NatText(n) ==> '0' <= c <= '9'
  {
    if n >= 10 {
      NatTextParses(n / 10);
      var text := NatText(n);
      assert text[..|text| - 1] == NatText(n / 10);
    } else {
      assert [Digit(n)][..0] == "";
    }
  }

  lemma IntTextParses(n: int)
    ensures ParseInt(IntText(n)) == n
    ensures IntText(n) != "" && forall c :: c in IntText(n) ==> c == '-' || '0' <= c <= '9'
  {
    NatTextParses(if n < 0 then -n else n);
    if n < 0 {
      assert IntText(n)[1..] == NatText(-n);
    } else {
      assert IntText(n)[0] in IntText(n);
    }
  }
}
