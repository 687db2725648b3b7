/** Java's 32-bit int: the range, and the wrap-around of int arithmetic. */
module JavaInt {
  const TWO_32: int := 0x1_0000_0000
  const INT_MIN: int := -0x8000_0000
  const INT_MAX: int := 0x7fff_ffff

  newtype int32 = x: int | -0x8000_0000 <= x <= 0x7fff_ffff

  /** The int an int-typed Java expression with mathematical value x evaluates to:
      x reduced modulo 2^32 into [INT_MIN, INT_MAX]. */
  function Wrap32(x: int): (r: int32)
    ensures (x - r as int) % TWO_32 == 0
    ensures INT_MIN <= x <= INT_MAX ==> r as int == x
  {
    var k := (x - INT_MIN) % TWO_32;
    assert x - (k + INT_MIN) == TWO_32 * ((x - INT_MIN) / TWO_32);
    (k + INT_MIN) as int32
  }

  /** Adding 2^32 does not change the Java value. */
  lemma Wrap32Periodic(x: int)
    ensures Wrap32(x + TWO_32) == Wrap32(x)
  {
    var k := (x - INT_MIN) / TWO_32;
    assert x + TWO_32 - INT_MIN == TWO_32 * (k + 1) + (x - INT_MIN) % TWO_32;
  }

  /** Incrementing the Java value of x gives the Java value of x + 1 (the ++ operator). */
  lemma Wrap32Succ(x: int)
    ensures Wrap32(Wrap32(x) as int + 1) == Wrap32(x + 1)
  {
    var k := (x - INT_MIN) / TWO_32;
    var r := Wrap32(x) as int;
    assert x - INT_MIN == TWO_32 * k + (r - INT_MIN);
    if r < INT_MAX {
      assert x + 1 - INT_MIN == TWO_32 * k + (r + 1 - INT_MIN);
    } else {
      assert x + 1 - INT_MIN == TWO_32 * (k + 1);
    }
  }

  /** The first 2^32 positive values all have different Java values: 1 .. INT_MAX keep their value,
      INT_MAX + 1 .. 2^32 become INT_MIN .. 0. */
  lemma {:induction false} Wrap32Distinct(n: int, m: int)
    requires 1 <= n < m <= TWO_32
    ensures Wrap32(n) != Wrap32(m)
  {
    Wrap32Positive(n);
    Wrap32Positive(m);
  }

  lemma Wrap32Positive(n: int)
    requires 0 <= n <= TWO_32
    ensures Wrap32(n) as int == if n <= INT_MAX then n else n - TWO_32
  {
    if n > INT_MAX {
      assert n - INT_MIN == TWO_32 + (n - TWO_32 - INT_MIN);
    }
  }
}
