/** Small shared vocabulary: an optional value and the C integer widths the hub uses. */
module Base {

  /** A value that may be absent (a failed read, an unknown reading). */
  datatype Option<+T> = None | Some(value: T)

  /** The range of a C `uint8_t`. */
  type uint8 = x: int | 0 <= x < 0x100

  /** The range of a C `uint32_t` (the millisecond clock). */
  type uint32 = x: int | 0 <= x < 0x1_0000_0000

  function Min(a: int, b: int): int { if a <= b then a else b }

  lemma {:induction false} MulAtLeast(d: int, n: int)
    requires d >= 1 && n > 0
    ensures d * n >= n
    decreases d
  {
    if d > 1 {
      MulAtLeast(d - 1, n);
      assert d * n == (d - 1) * n + n;
    }
  }

  /** The remainder is determined by any quotient-remainder split. */
  lemma ModUnique(a: int, n: int, q: int, r: int)
    requires n > 0 && 0 <= r < n && a == q * n + r
    ensures a % n == r
  {
    var q' := a / n;
    var r' := a % n;
    assert (q - q') * n == r' - r;
    if q > q' {
      MulAtLeast(q - q', n);
    } else if q < q' {
      assert (q' - q) * n == r - r';
      MulAtLeast(q' - q, n);
    }
  }

  /** Stepping a cursor that wraps at n is taking the next position modulo n. */
  lemma ModSucc(a: int, n: int)
    requires a >= 0 && n > 0
    ensures (a % n + 1) % n == (a + 1) % n
  {
    var q := a / n;
    var x := a % n;
    if x + 1 < n {
      ModUnique(a + 1, n, q, x + 1);
      ModUnique(x + 1, n, 0, x + 1);
    } else {
      assert a + 1 == (q + 1) * n + 0;
      ModUnique(a + 1, n, q + 1, 0);
      ModUnique(x + 1, n, 1, 0);
    }
  }
}
