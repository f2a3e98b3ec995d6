/** Arithmetic modulo n, powers of two and the logarithms of
    utils/include/barrier.h. */
module Cyclic {
  function Pow2(k: nat): (p: nat)
    ensures p > 0
  {
    if k == 0 then 1 else 2 * Pow2(k - 1)
  }

  /** __log2_floor. */
  function Log2Floor(count: int): nat {
    if count <= 1 then 0 else 1 + Log2Floor(count / 2)
  }

  /** __log2_ceil. */
  function Log2Ceil(count: int): nat {
    var t := Log2Floor(count);
    if count == Pow2(t) then t else t + 1
  }

  lemma {:induction false} FloorIsFloor(count: int)
    requires count >= 1
    ensures Pow2(Log2Floor(count)) <= count < Pow2(Log2Floor(count) + 1)
  {
    if count > 1 {
      FloorIsFloor(count / 2);
    }
  }

  lemma {:induction false} PowMonotone(a: nat, b: nat)
    requires a <= b
    ensures Pow2(a) <= Pow2(b)
    decreases b
  {
    if a < b {
      PowMonotone(a, b - 1);
    }
  }

  /** __log2_ceil is the least number of doublings that reach count. */
  lemma CeilIsLeast(count: int, k: nat)
    requires count >= 1
    ensures Pow2(k) >= count <==> k >= Log2Ceil(count)
  {
    var t := Log2Floor(count);
    FloorIsFloor(count);
    if k <= t {
      PowMonotone(k, t);
      if k < t {
        PowMonotone(k + 1, t);
      }
    } else {
      PowMonotone(t + 1, k);
    }
  }

  lemma Distribute(n: int, a: int, b: int)
    ensures n * (a - b) == n * a - n * b
  {
  }

  lemma AtLeastOnce(n: int, d: int)
    requires n > 0 && d >= 1
    ensures n * d >= n
  {
  }

  lemma ModUnique(x: int, n: int, q: int, r: int)
    requires n > 0 && 0 <= r < n && x == n * q + r
    ensures x % n == r
  {
    var q2 := x / n;
    Distribute(n, q2, q);
    Distribute(n, q, q2);
    if q2 > q {
      AtLeastOnce(n, q2 - q);
    } else if q2 < q {
      AtLeastOnce(n, q - q2);
    }
  }

  lemma ModAdd(a: int, b: int, n: int)
    requires n > 0
    ensures (a % n + b) % n == (a + b) % n
  {
    var q := a / n;
    assert a == n * q + a % n;
    var c := a % n + b;
    assert c == n * (c / n) + c % n;
    assert a + b == n * (q + c / n) + c % n;
    ModUnique(a + b, n, q + c / n, c % n);
  }

  lemma ModSmall(a: int, n: int)
    requires 0 <= a < n
    ensures a % n == a
  {
    ModUnique(a, n, 0, a);
  }

  lemma ModSub(a: int, b: int, n: int)
    requires n > 0
    ensures (a % n - b) % n == (a - b) % n
  {
    ModAdd(a, -b, n);
    SameMod(a % n - b, a % n + -b, n);
    SameMod(a - b, a + -b, n);
  }

  lemma SameMod(x: int, y: int, n: int)
    requires n > 0 && x == y
    ensures x % n == y % n
  {
  }
}
