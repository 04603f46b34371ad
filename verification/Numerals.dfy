/** Decimal numerals, as JavaScript prints a non-negative integer. */
module Numerals {

  /** The decimal digits, most significant first. */
  function Digits(n: nat): (r: seq<nat>)
    ensures r != [] && forall i :: 0 <= i < |r| ==> r[i] < 10
    ensures n > 0 ==> r[0] > 0
    ensures n == 0 ==> r == [0]
  {
    if n < 10 then [n] else Digits(n / 10) + [n % 10]
  }

  function ValueOf(digits: seq<nat>): nat {
    if digits == [] then 0 else 10 * ValueOf(digits[..|digits| - 1]) + digits[|digits| - 1]
  }

  lemma {:induction false} DigitsValue(n: nat)
    ensures ValueOf(Digits(n)) == n
  {
    if n >= 10 {
      DigitsValue(n / 10);
      assert Digits(n)[..|Digits(n)| - 1] == Digits(n / 10);
    }
  }

  function Decimal(n: nat): (r: string)
    ensures |r| == |Digits(n)|
    ensures forall i :: 0 <= i < |r| ==> '0' <= r[i] <= '9'
  {
    seq(|Digits(n)|, i requires 0 <= i < |Digits(n)| => ('0' as int + Digits(n)[i]) as char)
  }

  lemma DecimalInjective(m: nat, n: nat)
    requires Decimal(m) == Decimal(n)
    ensures m == n
  {
    assert |Digits(m)| == |Digits(n)|;
    forall i | 0 <= i < |Digits(m)| ensures Digits(m)[i] == Digits(n)[i] {
      assert Decimal(m)[i] == Decimal(n)[i];
    }
    assert Digits(m) == Digits(n);
    DigitsValue(m);
    DigitsValue(n);
  }

  /** Text before the first space determines both halves. */
  lemma SplitAtSpace(x: string, s: string, y: string, t: string)
    requires ' ' !in x && ' ' !in y && x + " " + s == y + " " + t
    ensures x == y && s == t
  {
    var a := x + " " + s;
    assert a[|x|] == ' ' && a[|y|] == ' ';
    assert forall k :: 0 <= k < |x| ==> a[k] == x[k];
    assert forall k :: 0 <= k < |y| ==> a[k] == y[k];
    assert |x| == |y|;
    assert x == a[..|x|] && y == a[..|y|];
    assert s == a[|x| + 1..] && t == a[|y| + 1..];
  }
}
