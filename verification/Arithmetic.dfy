/** The few facts about products and remainders that the solver needs spelled out. */
module Arithmetic {
  lemma Quotient(x: int, m: nat)
    requires m > 0
    ensures x % m == x - (x / m) * m
  {
  }

  lemma SmallMultiple(e: int, m: nat)
    requires e != 0
    ensures e * m >= m || e * m <= 0 - m
  {
    if e >= 1 {
      AtLeastOnce(e, m);
    } else {
      AtLeastOnce(-e, m);
    }
  }

  lemma {:induction false} AtLeastOnce(e: int, m: nat)
    requires e >= 1
    ensures e * m >= m
  {
    if e > 1 {
      AtLeastOnce(e - 1, m);
    }
  }

  /** No two consecutive numbers are both multiples of anything but 1. */
  lemma NotTwice(n: nat, every: nat)
    requires every > 1 && n % every == 0
    ensures (n + 1) % every != 0
  {
    if (n + 1) % every == 0 {
      Quotient(n, every);
      Quotient(n + 1, every);
      var d := (n + 1) / every - n / every;
      assert d * every == (n + 1) / every * every - n / every * every;
      if d != 0 {
        SmallMultiple(d, every);
      }
    }
  }
}
