/** Machine words: bytes, 64-bit wrap-around and the signed reading of a 64-bit pattern. */
module Words {

  type byte = x: int | 0 <= x < 256

  const WORD: int := 0x1_0000_0000_0000_0000
  const HALF: int := 0x8000_0000_0000_0000

  /** The value of a uint64 after arithmetic. */
  function Wrap(x: int): (r: nat)
    ensures r < WORD
    ensures 0 <= x < WORD ==> r == x
    ensures -WORD <= x < 0 ==> r == x + WORD
    ensures WORD <= x < 2 * WORD ==> r == x - WORD
  {
    x % WORD
  }

  /** A uint64 converted to int64. */
  function Signed(u: nat): (r: int)
    requires u < WORD
    ensures -HALF <= r < HALF && Wrap(r) == u
  {
    if u < HALF then u else u - WORD
  }

  lemma Shift(x: int, k: int)
    ensures Wrap(x + k * WORD) == Wrap(x)
  {
    var q := x / WORD;
    assert x + k * WORD == WORD * (q + k) + x % WORD;
  }

  lemma WrapAdd(a: int, b: int)
    ensures Wrap(Wrap(a) + b) == Wrap(a + b)
    ensures Wrap(a + Wrap(b)) == Wrap(a + b)
  {
    Shift(a + b, -(a / WORD));
    assert Wrap(a) + b == a + b + -(a / WORD) * WORD;
    Shift(a + b, -(b / WORD));
    assert a + Wrap(b) == a + b + -(b / WORD) * WORD;
  }

  lemma WrapSub(a: int, b: int)
    ensures Wrap(Wrap(a) - Wrap(b)) == Wrap(a - b)
  {
    var qa, qb := a / WORD, b / WORD;
    assert Wrap(a) - Wrap(b) == (a - b) + (qb - qa) * WORD;
    Shift(a - b, qb - qa);
  }

  /** Words that are equal stay equal when the same amount is added. */
  lemma WrapCong(a: int, b: int, c: int)
    requires Wrap(a) == Wrap(b)
    ensures Wrap(a + c) == Wrap(b + c)
  {
    WrapAdd(a, c);
    WrapAdd(b, c);
  }

  lemma WrapBoth(a: int, b: int)
    ensures Wrap(Wrap(a) + Wrap(b)) == Wrap(a + b)
  {
    WrapAdd(a, b);
    WrapAdd(Wrap(a), b);
  }

  /** Amounts added one after the other to a total that is only known modulo 2^64. */
  lemma WrapChain(a: int, b: int, c: int, x: int, y: int, z: int)
    requires Wrap(b) == Wrap(a + x) && Wrap(c) == Wrap(b + y) && z == x + y
    ensures Wrap(c) == Wrap(a + z)
  {
    WrapCong(b, a + x, y);
    assert a + x + y == a + z;
  }

  /** A part of a total changes by an amount modulo 2^64; so does the total. */
  lemma WrapPart(total: int, total': int, part: int, part': int, amount: int)
    requires total' - part' == total - part && Wrap(part') == Wrap(part + amount)
    ensures Wrap(total') == Wrap(total + amount)
  {
    WrapCong(part', part + amount, total - part);
    assert part + amount + (total - part) == total + amount;
  }

  lemma WrapPair(x: int, y: int, p: int, q: int, z: int)
    requires x == Wrap(p) && y == Wrap(q) && z == p + q
    ensures Wrap(x + y) == Wrap(z)
  {
    WrapBoth(p, q);
  }
}
