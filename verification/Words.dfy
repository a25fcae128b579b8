/** Shared value types, and the 64-bit machine word that holds a small natural number. */
module Words {

  datatype Option<+T> = None | Some(value: T)

  function Max(a: nat, b: nat): nat { if a >= b then a else b }

  /** The `addr_t` word that holds `n`: C's conversion of an int, one binary digit at a time. */
  function Word(n: nat): bv64 {
    if n == 0 then 0 else (Word(n / 2) << 1) | (if n % 2 == 1 then 1 else 0)
  }

  // `pgn++` and `iter + 1` on words agree with + 1 on numbers.
  lemma {:induction false} WordSucc(n: nat)
    ensures Word(n + 1) == Word(n) + 1
  {
    if n == 0 {
      assert Word(1) == (Word(0) << 1) | 1;
    } else if n % 2 == 0 {
      assert (n + 1) / 2 == n / 2;
      SuccOfEven(Word(n / 2));
    } else {
      WordSucc(n / 2);
      assert (n + 1) / 2 == n / 2 + 1;
      SuccOfOdd(Word(n / 2));
    }
  }

  lemma SuccOfEven(x: bv64)
    ensures ((x << 1) | 1) == ((x << 1) | 0) + 1
  {}

  lemma SuccOfOdd(x: bv64)
    ensures (((x + 1) << 1) | 0) == ((x << 1) | 1) + 1
  {}

  function Pow2(k: nat): nat {
    if k == 0 then 1 else 2 * Pow2(k - 1)
  }

  /** All bits from position k upwards. */
  function HighBits(k: nat): bv64 {
    if k == 0 then 0xffff_ffff_ffff_ffff else HighBits(k - 1) << 1
  }

  lemma {:induction false} WordHighBits(n: nat, k: nat)
    requires n < Pow2(k)
    ensures Word(n) & HighBits(k) == 0
  {
    if n == 0 {
      assert 0 & HighBits(k) == 0;
    } else {
      WordHighBits(n / 2, k - 1);
      HighBitsShift(Word(n / 2), HighBits(k - 1), if n % 2 == 1 then 1 else 0);
    }
  }

  lemma HighBitsShift(x: bv64, h: bv64, b: bv64)
    requires x & h == 0 && b <= 1
    ensures ((x << 1) | b) & (h << 1) == 0
  {}

  // Numbers below 8192 fit the thirteen bits of a frame-number field.
  lemma WordBelow8192(n: nat)
    requires n < 8192
    ensures Word(n) < 8192
  {
    WordHighBits(n, 13);
    assert HighBits(13) == 0xffff_ffff_ffff_e000;
  }

  lemma {:induction false} WordInjective(a: nat, b: nat)
    requires a < 8192 && b < 8192 && Word(a) == Word(b)
    ensures a == b
  {
    if a == 0 || b == 0 {
      WordZero(a);
      WordZero(b);
    } else {
      WordBelow8192(a / 2);
      WordBelow8192(b / 2);
      LastBit(Word(a / 2), Word(b / 2), if a % 2 == 1 then 1 else 0, if b % 2 == 1 then 1 else 0);
      WordInjective(a / 2, b / 2);
    }
  }

  lemma {:induction false} WordZero(n: nat)
    requires n < 8192
    ensures Word(n) == 0 <==> n == 0
  {
    if n != 0 {
      WordBelow8192(n / 2);
      LastBit(Word(n / 2), 0, if n % 2 == 1 then 1 else 0, 0);
      WordZero(n / 2);
    }
  }

  lemma LastBit(x: bv64, y: bv64, b: bv64, c: bv64)
    requires x < 8192 && y < 8192 && b <= 1 && c <= 1
    ensures (x << 1) | b == (y << 1) | c <==> x == y && b == c
  {}
}
