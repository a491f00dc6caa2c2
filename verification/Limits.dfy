/** The sizes the upload service prescribes (common.h), and arithmetic on block numbers. */
module Limits {
  const MIN_MULTIPART_SIZE: int := 5 * 1024 * 1024
  const MAX_MULTIPART_CNT: int := 10000
  const FIVE_GB: int := 5 * 1024 * 1024 * 1024

  newtype byte = x: int | 0 <= x < 256

  /** The number of blocks of m bytes needed for x bytes. */
  ghost function Ceil(x: int, m: int): int
    requires 0 <= x && 0 < m
  {
    x / m + if 0 < x % m then 1 else 0
  }

  lemma MulUp(d: int, m: int)
    requires 0 < m && 0 < d
    ensures 0 < d * m
  {
  }

  lemma MulLe(x: int, y: int, m: int)
    requires 0 < m
    ensures x <= y <==> x * m <= y * m
    ensures x < y <==> x * m < y * m
    ensures (x + 1) * m == x * m + m
  {
    if x < y { MulUp(y - x, m); assert y * m == (y - x) * m + x * m; }
    if y < x { MulUp(x - y, m); assert x * m == (x - y) * m + y * m; }
  }

  lemma MulDiv(k: int, m: int)
    requires 0 < m && 0 <= k
    ensures 0 <= k * m && k * m / m == k && k * m % m == 0
  {
    MulLe(0, k, m);
    DivUnique(k * m, k, 0, m);
  }

  lemma DivUnique(x: int, q: int, r: int, m: int)
    requires 0 < m && x == q * m + r && 0 <= r < m
    ensures x / m == q && x % m == r
  {
    MulLe(x / m, q, m);
    MulLe(q, x / m, m);
    MulLe(x / m + 1, q, m);
    MulLe(q + 1, x / m, m);
  }

  lemma DivLess(x: int, k: int, m: int)
    requires 0 < m && x < k * m
    ensures x / m < k
  {
    MulLe(k, x / m, m);
  }

  lemma CeilLe(x: int, k: int, m: int)
    requires 0 <= x && 0 < m
    ensures x <= k * m <==> Ceil(x, m) <= k
  {
    MulLe(x / m, k, m);
    MulLe(x / m + 1, k, m);
    MulLe(x / m, x / m + 1, m);
  }
}
