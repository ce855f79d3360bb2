/** Arithmetic shared by the window, chunk and page computations. */
module Arithmetic {

  const INT64_LIMIT: int := 0x8000_0000_0000_0000

  predicate IsInt64(n: int) {
    -INT64_LIMIT <= n < INT64_LIMIT
  }

  // What a sum or product comes to in 64 bits.
  function Wrap64(n: int): (r: int)
    ensures IsInt64(r) && (IsInt64(n) ==> r == n)
  {
    (n + INT64_LIMIT) % (2 * INT64_LIMIT) - INT64_LIMIT
  }

  function Least(a: int, b: int): int {
    if a < b then a else b
  }

  lemma MulMonotone(c: nat, a: int, b: int)
    requires a <= b
    ensures c * a <= c * b
  {
  }

  lemma DivIsNat(x: nat, w: nat)
    requires w > 0
    ensures x / w >= 0
  {
  }

  lemma DivIsUnique(x: int, w: int, q: int, r: int)
    requires w > 0 && 0 <= r < w && x == q * w + r
    ensures x / w == q && x % w == r
  {
    var p, s := x / w, x % w;
    assert x == p * w + s;
    if p < q {
      MulMonotone(w, p + 1, q);
    } else if q < p {
      MulMonotone(w, q + 1, p);
    }
  }

  lemma DivPlusMultiple(x: int, k: int, w: int)
    requires w > 0
    ensures (x + k * w) / w == x / w + k && (x + k * w) % w == x % w
  {
    var q, r := x / w, x % w;
    assert x + k * w == (q + k) * w + r;
    DivIsUnique(x + k * w, w, q + k, r);
  }

  lemma DivMonotone(a: int, b: int, w: int)
    requires w > 0 && a <= b
    ensures a / w <= b / w
  {
    var p, q := a / w, b / w;
    if q < p {
      MulMonotone(w, q + 1, p);
    }
  }
}
