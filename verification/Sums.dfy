/** Sums of a quantity over a sequence, and floor division by a positive divisor. */
module Sums {

  function Sum<T>(s: seq<T>, f: T -> int): int {
    if |s| == 0 then 0 else Sum(s[..|s| - 1], f) + f(s[|s| - 1])
  }

  lemma {:induction false} SumAppend<T>(s: seq<T>, x: T, f: T -> int)
    ensures Sum(s + [x], f) == Sum(s, f) + f(x)
  {
  }

  lemma {:induction false} SumUpdate<T>(s: seq<T>, i: nat, x: T, f: T -> int)
    requires i < |s|
    ensures Sum(s[i := x], f) == Sum(s, f) - f(s[i]) + f(x)
  {
    var last := |s| - 1;
    if i == last {
      assert s[i := x][..last] == s[..last];
    } else {
      SumUpdate(s[..last], i, x, f);
      assert s[i := x][..last] == s[..last][i := x];
    }
  }

  lemma {:induction false} SumRemove<T>(s: seq<T>, i: nat, f: T -> int)
    requires i < |s|
    ensures Sum(s[..i] + s[i + 1..], f) == Sum(s, f) - f(s[i])
  {
    var last := |s| - 1;
    if i == last {
      assert s[..i] + s[i + 1..] == s[..last];
    } else {
      SumRemove(s[..last], i, f);
      assert s[..i] + s[i + 1..] == (s[..last][..i] + s[..last][i + 1..]) + [s[last]];
      SumAppend(s[..last][..i] + s[..last][i + 1..], s[last], f);
    }
  }

  lemma {:induction false} SumNonNegative<T>(s: seq<T>, f: T -> int)
    requires forall x :: x in s ==> f(x) >= 0
    ensures Sum(s, f) >= 0
    ensures forall x :: x in s ==> f(x) <= Sum(s, f)
  {
    if |s| > 0 {
      var front := s[..|s| - 1];
      assert s == front + [s[|s| - 1]];
      SumNonNegative(front, f);
    }
  }

  lemma {:induction false} SumAtMost<T>(s: seq<T>, f: T -> int, bound: int)
    requires forall x :: x in s ==> f(x) <= bound
    ensures Sum(s, f) <= bound * |s|
  {
    if |s| > 0 {
      var front := s[..|s| - 1];
      assert s == front + [s[|s| - 1]];
      SumAtMost(front, f, bound);
    }
  }

  function Pow10(n: nat): (p: nat)
    ensures p > 0
  {
    if n == 0 then 1 else 10 * Pow10(n - 1)
  }

  lemma {:induction false} Pow10Add(a: nat, b: nat)
    ensures Pow10(a + b) == Pow10(a) * Pow10(b)
  {
    if a > 0 {
      Pow10Add(a - 1, b);
      MulAssociates(10, Pow10(a - 1), Pow10(b));
    }
  }

  lemma MulAssociates(a: int, b: int, c: int)
    ensures (a * b) * c == a * (b * c)
  {
  }

  lemma MulDistributes(a: int, b: int, c: int)
    ensures (a + b) * c == a * c + b * c
  {
  }

  lemma DivMod(x: int, d: nat)
    requires d > 0
    ensures x == x / d * d + x % d && 0 <= x % d < d
  {
  }

  lemma DivUnique(x: int, d: nat, q: int, r: nat)
    requires r < d && x == q * d + r
    ensures x / d == q && x % d == r
  {
    var e := x / d - q;
    assert x == x / d * d + x % d;
    assert e * d == x / d * d - q * d;
    assert 0 - d < e * d < d;
    assert e == 0 by {
      assert e >= 1 ==> e * d >= d;
      assert e <= -1 ==> e * d <= -1 * d;
    }
  }

  /** BigInt division of a non-negative amount. */
  function Quotient(x: nat, d: nat): nat
    requires d > 0
  {
    x / d
  }

  /** Splitting an amount before flooring loses nothing or one unit. */
  lemma FloorSplit(a: nat, b: nat, d: nat)
    requires d > 0
    ensures a / d + b / d <= (a + b) / d <= a / d + b / d + 1
  {
    var q, r := a / d + b / d, a % d + b % d;
    assert a + b == q * d + r by {
      DivMod(a, d);
      DivMod(b, d);
      MulDistributes(a / d, b / d, d);
    }
    assert r < 2 * d;
    if r < d {
      DivUnique(a + b, d, q, r);
    } else {
      MulDistributes(q, 1, d);
      DivUnique(a + b, d, q + 1, r - d);
    }
  }

  lemma DivMonotone(a: nat, b: nat, d: nat)
    requires d > 0 && a <= b
    ensures a / d <= b / d
  {
    FloorSplit(a, b - a, d);
  }

  lemma MulMonotone(a: nat, b: int, c: int)
    requires b <= c
    ensures a * b <= a * c
  {
  }

  /** Dividing twice is dividing once by the product. */
  lemma DivDiv(x: int, a: nat, b: nat)
    requires a > 0 && b > 0
    ensures a * b > 0 && x / (a * b) == x / a / b
  {
    var y := x / a;
    DivMod(x, a);
    DivMod(y, b);
    var r := y % b * a + x % a;
    assert 0 <= r < a * b by {
      MulMonotone(a, y % b, b - 1);
      MulDistributes(b, -1, a);
    }
    assert x == y / b * (a * b) + r by {
      MulDistributes(y / b * b, y % b, a);
      MulAssociates(y / b, b, a);
    }
    DivUnique(x, a * b, y / b, r);
  }
}
