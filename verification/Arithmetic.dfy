/** The few facts about multiplication and division the other modules rest on,
    one at a time so that no larger proof has to rediscover them. */
module Arithmetic {

  lemma MulMono(a: int, b: int, c: int)
    requires a <= b && 0 <= c
    ensures a * c <= b * c
  {
    assert b * c - a * c == (b - a) * c;
  }

  lemma MulAdd(a: int, b: int, c: int)
    ensures (a + b) * c == a * c + b * c
  {
  }

  lemma DivUnique(a: int, q: int, m: int, d: int)
    requires d > 0 && a == q * d + m && 0 <= m < d
    ensures a / d == q && a % d == m
  {
    var q', m' := a / d, a % d;
    assert a == q' * d + m';
    if q' < q {
      MulMono(q' + 1, q, d);
      MulAdd(q', 1, d);
    } else if q < q' {
      MulMono(q + 1, q', d);
      MulAdd(q, 1, d);
    }
  }

  lemma DivBounds(a: int, d: int)
    requires d > 0
    ensures (a / d) * d <= a <= (a / d) * d + d - 1
    ensures a >= 0 ==> a / d >= 0
    ensures a < d ==> a / d <= 0
  {
    var q := a / d;
    assert a == q * d + a % d;
    if a >= 0 && q <= -1 {
      MulMono(q, -1, d);
    }
    if a < d && q >= 1 {
      MulMono(1, q, d);
    }
  }

  /** Two numbers less than `d` apart have different remainders. */
  lemma RemaindersDiffer(a: int, b: int, d: int)
    requires 0 < a - b < d
    ensures a % d != b % d
  {
    if a % d == b % d {
      MulAdd(a / d, -(b / d), d);
      if a / d <= b / d {
        MulMono(a / d - b / d, 0, d);
      } else {
        MulMono(1, a / d - b / d, d);
      }
    }
  }

  lemma RemainderOfSuccessor(a: int, d: int)
    requires d > 0
    ensures (a % d + 1) % d == (a + 1) % d
  {
    var q, m := a / d, a % d;
    if m + 1 < d {
      DivUnique(a + 1, q, m + 1, d);
      DivUnique(m + 1, 0, m + 1, d);
    } else {
      MulAdd(q, 1, d);
      DivUnique(a + 1, q + 1, 0, d);
      DivUnique(m + 1, 1, 0, d);
    }
  }
}
