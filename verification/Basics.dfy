/** What several components share. */
module Basics {
  datatype Option<+T> = None | Some(value: T)

  newtype Byte = x: int | 0 <= x < 256

  const TWO32 := 0x1_0000_0000

  /** A wider integer converted to a 32-bit int: the only one that differs from it by a multiple of 2^32. */
  function ToInt(x: int): (r: int)
    ensures -0x8000_0000 <= r < 0x8000_0000 && (x - r) % 0x1_0000_0000 == 0
  {
    if x % TWO32 < 0x8000_0000 then x % TWO32 else x % TWO32 - TWO32
  }

  lemma NoMultipleBetween(d: int, n: nat)
    requires n > 0
    ensures !(0 < d * n < n)
  {
    if d >= 1 { assert (d - 1) * n >= 0; } else { assert (-d) * n >= 0; }
  }

  lemma ModDiffers(n: nat, x: nat, y: nat)
    requires x < y < x + n
    ensures x % n != y % n
  {
    assert x == x / n * n + x % n && y == y / n * n + y % n;
    if x % n == y % n {
      var d := y / n - x / n;
      assert d * n == y - x;
      NoMultipleBetween(d, n);
    }
  }
}
