/** The C type `long` on the machines the program is for: 64 bits, written as the number its bits spell
    without a sign. Addition wraps around; XOR works bit by bit. */
module Words {

  const LIMIT: nat := 0x1_0000_0000_0000_0000

  type Word = w: nat | w < LIMIT

  function Add(x: Word, y: Word): Word
  {
    if x + y < LIMIT then x + y else x + y - LIMIT
  }

  lemma AddIsModulo(x: Word, y: Word)
    ensures Add(x, y) == (x + y) % LIMIT
  {
  }

  function Power2(k: nat): nat
  {
    if k == 0 then 1 else 2 * Power2(k - 1)
  }

  lemma {:induction false} Power2Adds(j: nat, k: nat)
    ensures Power2(j + k) == Power2(j) * Power2(k)
    decreases k
  {
    if k > 0 {
      Power2Adds(j, k - 1);
    }
  }

  lemma SixtyFourBits()
    ensures Power2(64) == LIMIT
  {
    assert Power2(4) == 16;
    Power2Adds(4, 4);
    Power2Adds(8, 8);
    Power2Adds(16, 16);
    Power2Adds(32, 32);
  }

  // XOR of two bits.
  function Flip(a: nat, b: nat): nat
  {
    if a == b then 0 else 1
  }

  // XOR of the low `k` bits.
  function XorBits(x: nat, y: nat, k: nat): nat
  {
    if k == 0 then 0 else 2 * XorBits(x / 2, y / 2, k - 1) + Flip(x % 2, y % 2)
  }

  lemma {:induction false} XorBitsFit(x: nat, y: nat, k: nat)
    ensures XorBits(x, y, k) < Power2(k)
  {
    if k > 0 {
      XorBitsFit(x / 2, y / 2, k - 1);
    }
  }

  function Xor(x: Word, y: Word): Word
  {
    XorBitsFit(x, y, 64);
    SixtyFourBits();
    XorBits(x, y, 64)
  }

  // The lowest bit and the rest.
  lemma XorBitsStep(x: nat, y: nat, k: nat)
    requires k > 0
    ensures XorBits(x, y, k) / 2 == XorBits(x / 2, y / 2, k - 1)
    ensures XorBits(x, y, k) % 2 == Flip(x % 2, y % 2)
  {
  }

  lemma {:induction false} XorBitsRegroups(x: nat, y: nat, u: nat, v: nat, k: nat)
    ensures XorBits(XorBits(x, u, k), XorBits(y, v, k), k) == XorBits(XorBits(x, y, k), XorBits(u, v, k), k)
  {
    if k > 0 {
      var xu, yv, xy, uv := XorBits(x, u, k), XorBits(y, v, k), XorBits(x, y, k), XorBits(u, v, k);
      XorBitsStep(x, u, k);
      XorBitsStep(y, v, k);
      XorBitsStep(x, y, k);
      XorBitsStep(u, v, k);
      XorBitsRegroups(x / 2, y / 2, u / 2, v / 2, k - 1);
      assert Flip(xu % 2, yv % 2) == Flip(xy % 2, uv % 2);
      assert XorBits(xu / 2, yv / 2, k - 1) == XorBits(xy / 2, uv / 2, k - 1);
    }
  }

  lemma {:induction false} XorBitsCancels(x: nat, y: nat, k: nat)
    requires x < Power2(k) && y < Power2(k)
    ensures XorBits(x, y, k) == 0 <==> x == y
    ensures XorBits(x, 0, k) == x && XorBits(0, x, k) == x
  {
    if k > 0 {
      XorBitsCancels(x / 2, y / 2, k - 1);
    }
  }

  lemma AddAssociates(x: Word, y: Word, z: Word)
    ensures Add(Add(x, y), z) == Add(x, Add(y, z)) && Add(x, 0) == x
  {
  }

  lemma XorRegroups(x: Word, y: Word, u: Word, v: Word)
    ensures Xor(Xor(x, u), Xor(y, v)) == Xor(Xor(x, y), Xor(u, v))
  {
    XorBitsRegroups(x, y, u, v, 64);
  }

  lemma XorCancels(x: Word, y: Word)
    ensures (Xor(x, y) == 0 <==> x == y) && Xor(x, 0) == x && Xor(0, x) == x
  {
    SixtyFourBits();
    XorBitsCancels(x, y, 64);
  }

  // Bit b of x.
  function Bit(x: nat, b: nat): nat
  {
    if b == 0 then x % 2 else Bit(x / 2, b - 1)
  }

  lemma {:induction false} XorBitsBitwise(x: nat, y: nat, k: nat, b: nat)
    requires b < k
    ensures Bit(XorBits(x, y, k), b) == if Bit(x, b) == Bit(y, b) then 0 else 1
    decreases b
  {
    XorBitsStep(x, y, k);
    if b > 0 {
      XorBitsBitwise(x / 2, y / 2, k - 1, b - 1);
    }
  }

  /** XOR works bit by bit: a bit of the result is set exactly where the operands differ. */
  lemma XorIsBitwise(x: Word, y: Word, b: nat)
    requires b < 64
    ensures Bit(Xor(x, y), b) == if Bit(x, b) == Bit(y, b) then 0 else 1
  {
    XorBitsBitwise(x, y, 64, b);
  }
}
