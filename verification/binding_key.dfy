/** The 64-bit key under which a column of an aggregate is looked up. */
module BindingKey {
  const WORD: nat := 0x1_0000_0000_0000_0000
  const MULTIPLIER: nat := 0x9e3779b97f4a7c15
  /** The inverse of MULTIPLIER modulo 2^64. */
  const INVERSE: nat := 0xf1de83e19937733d

  function Xor(a: nat, b: nat): nat {
    if a == 0 && b == 0 then 0 else (a % 2 + b % 2) % 2 + 2 * Xor(a / 2, b / 2)
  }

  function Key(table: nat, column: nat): nat {
    Xor(table, (column * MULTIPLIER) % WORD)
  }

  lemma SameDigits(a: nat, h: nat, b: nat, k: nat)
    requires a < 2 && b < 2 && a + 2 * h == b + 2 * k
    ensures a == b && h == k
  {
  }

  lemma SameParity(t: nat, x: nat, y: nat)
    requires (t % 2 + x % 2) % 2 == (t % 2 + y % 2) % 2
    ensures x % 2 == y % 2
  {
  }

  lemma {:induction false} XorCancels(t: nat, x: nat, y: nat)
    requires Xor(t, x) == Xor(t, y)
    ensures x == y
    decreases t + x + y
  {
    if t + x + y > 0 {
      SameDigits((t % 2 + x % 2) % 2, Xor(t / 2, x / 2), (t % 2 + y % 2) % 2, Xor(t / 2, y / 2));
      SameParity(t, x, y);
      XorCancels(t / 2, x / 2, y / 2);
    }
  }

  lemma Remainder(n: nat)
    ensures n == WORD * (n / WORD) + n % WORD
  {
  }

  /** Multiplying by the inverse: MULTIPLIER * INVERSE == 1 + 10771413168148108919 * 2^64. */
  lemma Invert(e: int, q: int)
    requires MULTIPLIER * e == WORD * q
    ensures e == WORD * (INVERSE * q - 10771413168148108919 * e)
  {
    assert INVERSE * (MULTIPLIER * e) == INVERSE * (WORD * q);
  }

  lemma SmallMultiple(e: int, k: int)
    requires e == WORD * k && e < WORD && -e < WORD
    ensures e == 0
  {
  }

  lemma MultiplierCancels(c: nat, d: nat)
    requires c < WORD && d < WORD
    requires (c * MULTIPLIER) % WORD == (d * MULTIPLIER) % WORD
    ensures c == d
  {
    Remainder(c * MULTIPLIER);
    Remainder(d * MULTIPLIER);
    var q := (c * MULTIPLIER) / WORD - (d * MULTIPLIER) / WORD;
    Invert(c - d, q);
    SmallMultiple(c - d, INVERSE * q - 10771413168148108919 * (c - d));
  }

  /** For a fixed aggregate no two column indexes share a key. */
  lemma KeyInjective(table: nat, c: nat, d: nat)
    requires c < WORD && d < WORD && Key(table, c) == Key(table, d)
    ensures c == d
  {
    XorCancels(table, (c * MULTIPLIER) % WORD, (d * MULTIPLIER) % WORD);
    MultiplierCancels(c, d);
  }
}
