/** Numbers in text, and text cut at a separator. */
module Text {

  function Digit(n: nat): char
    requires n < 10
  {
    ('0' as int + n) as char
  }

  /** How a number, or an id standing for a UUID, is written inside a key. */
  function Decimal(n: nat): string {
    if n < 10 then [Digit(n)] else Decimal(n / 10) + [Digit(n % 10)]
  }

  lemma {:induction false} DecimalIsDigits(n: nat)
    ensures Decimal(n) != [] && forall c :: c in Decimal(n) ==> '0' <= c <= '9'
  {
    if n >= 10 {
      DecimalIsDigits(n / 10);
    }
  }

  lemma {:induction false} DecimalIsInjective(m: nat, n: nat)
    requires Decimal(m) == Decimal(n)
    ensures m == n
  {
    DecimalIsDigits(m / 10);
    DecimalIsDigits(n / 10);
    var k := |Decimal(m)| - 1;
    assert Decimal(m)[k] == Digit(m % 10) && Decimal(n)[k] == Digit(n % 10);
    if m >= 10 && n >= 10 {
      assert Decimal(m)[..k] == Decimal(m / 10) && Decimal(n)[..k] == Decimal(n / 10);
      DecimalIsInjective(m / 10, n / 10);
    }
  }

  /** Text cut at its first separator can be cut in one way only. */
  lemma CutAtSeparator(a: string, b: string, separator: char, x: string, y: string)
    requires separator !in a && separator !in b
    requires a + [separator] + x == b + [separator] + y
    ensures a == b && x == y
  {
    var left, right := a + [separator] + x, b + [separator] + y;
    assert forall i :: 0 <= i < |a| ==> left[i] == a[i];
    assert forall i :: 0 <= i < |b| ==> right[i] == b[i];
    assert left[|a|] == separator && right[|b|] == separator;
    assert |a| == |b|;
    assert a == left[..|a|] && b == right[..|b|];
    assert x == left[|a| + 1..] && y == right[|b| + 1..];
  }
}
