/** 32-bit words as numbers: addition modulo 2^32, and bitwise operations bit by bit. */
module Words {
  import opened Octets

  const WORD: nat := 0x1_0000_0000

  type word = x: int | 0 <= x < 0x1_0000_0000

  function Plus(x: word, y: word): (w: word) {
    (x + y) % WORD
  }

  lemma PlusShift(x: word, y: word, z: word)
    ensures Plus(x, Plus(y, z)) == Plus(Plus(x, y), z) && Plus(x, y) == Plus(y, x)
  {
  }

  // ---------- the lowest n bits ----------

  function Bit(b: bool): (d: nat) {
    if b then 1 else 0
  }

  function AndBits(n: nat, x: nat, y: nat): (w: nat) {
    if n == 0 then 0 else 2 * AndBits(n - 1, x / 2, y / 2) + Bit(x % 2 == 1 && y % 2 == 1)
  }

  function OrBits(n: nat, x: nat, y: nat): (w: nat) {
    if n == 0 then 0 else 2 * OrBits(n - 1, x / 2, y / 2) + Bit(x % 2 == 1 || y % 2 == 1)
  }

  function XorBits(n: nat, x: nat, y: nat): (w: nat) {
    if n == 0 then 0 else 2 * XorBits(n - 1, x / 2, y / 2) + Bit(x % 2 != y % 2)
  }

  function NotBits(n: nat, x: nat): (w: nat) {
    if n == 0 then 0 else 2 * NotBits(n - 1, x / 2) + Bit(x % 2 == 0)
  }

  function Pow2(n: nat): (p: nat)
    ensures p > 0
  {
    if n == 0 then 1 else 2 * Pow2(n - 1)
  }

  lemma {:induction false} InBounds(n: nat, x: nat, y: nat)
    ensures AndBits(n, x, y) < Pow2(n) && OrBits(n, x, y) < Pow2(n) && XorBits(n, x, y) < Pow2(n) && NotBits(n, x) < Pow2(n)
  {
    if n > 0 {
      InBounds(n - 1, x / 2, y / 2);
    }
  }

  lemma WordBounds(x: nat, y: nat)
    ensures AndBits(32, x, y) < WORD && OrBits(32, x, y) < WORD && XorBits(32, x, y) < WORD && NotBits(32, x) < WORD
  {
    hide AndBits, OrBits, XorBits, NotBits;
    InBounds(32, x, y);
    assert Pow2(5) == 32 && Pow2(10) == 1024;
    assert Pow2(15) == 0x8000;
    assert Pow2(20) == 0x10_0000;
    assert Pow2(25) == 0x200_0000;
    assert Pow2(30) == 0x4000_0000;
    assert Pow2(32) == WORD;
  }

  function And(x: word, y: word): (w: word) {
    WordBounds(x, y);
    AndBits(32, x, y)
  }

  function Or(x: word, y: word): (w: word) {
    WordBounds(x, y);
    OrBits(32, x, y)
  }

  function Xor(x: word, y: word): (w: word) {
    WordBounds(x, y);
    XorBits(32, x, y)
  }

  function Not(x: word): (w: word) {
    WordBounds(x, x);
    NotBits(32, x)
  }

  function ShiftLeft(w: word, s: nat): (r: word)
    decreases s
  {
    if s == 0 then w else ShiftLeft(2 * w % WORD, s - 1)
  }

  function ShiftRight(w: word, s: nat): (r: word)
    decreases s
  {
    if s == 0 then w else ShiftRight(w / 2, s - 1)
  }

  /** (w << s) | (w >> (32 - s)). */
  function Rotate(w: word, s: nat): (r: word)
    requires s <= 32
  {
    Or(ShiftLeft(w, s), ShiftRight(w, 32 - s))
  }

  /** Choosing between y and z by the bits of x, without and with a complement. */
  lemma {:induction false} SelectBits(n: nat, x: nat, y: nat, z: nat)
    ensures XorBits(n, z, AndBits(n, x, XorBits(n, y, z))) == OrBits(n, AndBits(n, x, y), AndBits(n, NotBits(n, x), z))
  {
    if n > 0 {
      SelectBits(n - 1, x / 2, y / 2, z / 2);
    }
  }

  lemma {:induction false} AndSwaps(n: nat, x: nat, y: nat)
    ensures AndBits(n, x, y) == AndBits(n, y, x)
  {
    if n > 0 {
      AndSwaps(n - 1, x / 2, y / 2);
    }
  }
}
