// Numbers written out, and the names built from them.

module Decimal {

  const DIGITS := "0123456789"

  function Digits(n: nat): (s: string)
    ensures s != []
    ensures forall c :: c in s ==> c in DIGITS
  {
    if n < 10 then [DIGITS[n]] else Digits(n / 10) + [DIGITS[n % 10]]
  }

  // What digits stand for.
  function Value(s: string): int {
    if s == "" then 0 else 10 * Value(s[..|s| - 1]) + (s[|s| - 1] as int - '0' as int)
  }

  // A number printed is digits that stand for it, with no 0 in front.
  lemma {:induction false} DigitsRead(n: nat)
    ensures forall c :: c in Digits(n) ==> '0' <= c <= '9'
    ensures Value(Digits(n)) == n
    ensures n > 0 ==> Digits(n)[0] != '0'
  {
    assert forall d: nat :: d < 10 ==> DIGITS[d] as int == '0' as int + d;
    assert forall c :: c in DIGITS ==> '0' <= c <= '9';
    if n >= 10 {
      DigitsRead(n / 10);
      var s := Digits(n);
      assert s[..|s| - 1] == Digits(n / 10) && s[|s| - 1] == DIGITS[n % 10];
    }
  }

  // An integer as it is printed: a minus sign and digits.
  function IntText(n: int): string {
    if n < 0 then "-" + Digits(-n) else Digits(n)
  }

  lemma DigitsDistinct(a: nat, b: nat)
    requires a < 10 && b < 10 && DIGITS[a] == DIGITS[b]
    ensures a == b
  {
  }

  lemma {:induction false} DigitsInjective(a: nat, b: nat)
    requires Digits(a) == Digits(b)
    ensures a == b
    decreases a
  {
    var s, t := Digits(a), Digits(b);
    if a < 10 && b < 10 {
      DigitsDistinct(a, b);
    } else if a >= 10 && b >= 10 {
      assert s == Digits(a / 10) + [DIGITS[a % 10]];
      assert t == Digits(b / 10) + [DIGITS[b % 10]];
      assert s[..|s| - 1] == Digits(a / 10);
      assert t[..|t| - 1] == Digits(b / 10);
      assert s[|s| - 1] == DIGITS[a % 10] && t[|t| - 1] == DIGITS[b % 10];
      DigitsDistinct(a % 10, b % 10);
      DigitsInjective(a / 10, b / 10);
    }
  }

  lemma MinusFirst(a: int)
    ensures IntText(a) != "" && (IntText(a)[0] == '-' <==> a < 0)
  {
    assert '-' !in DIGITS;
    assert a >= 0 ==> IntText(a)[0] in Digits(a);
  }

  lemma {:induction false} IntTextInjective(a: int, b: int)
    requires IntText(a) == IntText(b)
    ensures a == b
  {
    hide Digits;
    MinusFirst(a);
    MinusFirst(b);
    if a < 0 {
      assert IntText(a)[1..] == Digits(-a) && IntText(b)[1..] == Digits(-b);
      DigitsInjective(-a, -b);
    } else {
      DigitsInjective(a, b);
    }
  }

  // A name, a dash and a number.
  function Numbered(name: string, n: nat): string {
    name + "-" + Digits(n)
  }

  // Whatever dashes and digits the name has of its own, the whole splits one
  // way only: at the last dash.
  lemma {:induction false} NumberedInjective(a: string, m: nat, b: string, n: nat)
    requires Numbered(a, m) == Numbered(b, n)
    ensures a == b && m == n
  {
    hide Digits;
    var s := Numbered(a, m);
    assert s[|a|] == '-' && s[|b|] == '-';
    assert forall i :: |a| < i < |s| ==> s[i] == Digits(m)[i - |a| - 1];
    assert forall i :: |b| < i < |s| ==> s[i] == Digits(n)[i - |b| - 1];
    assert '-' !in DIGITS;
    assert |a| == |b|;
    assert a == s[..|a|] && b == s[..|b|];
    assert Digits(m) == s[|a| + 1..] && Digits(n) == s[|b| + 1..];
    DigitsInjective(m, n);
  }
}
